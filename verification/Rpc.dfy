/** Calls by name: the request a client sends, the dispatch on the server, and the reply the client
    reads. Every serializer involved is little-endian, the default. */
module Rpc {
  import opened Codec
  import opened Serializers

  const SUCCESS := 0
  const NOT_BOUND := 1
  const RECV_TIMEOUT := 2
  const CODE_WIDTH := 2

  /** "function not bind: " */
  const NOT_BOUND_TEXT: Bytes := [102, 117, 110, 99, 116, 105, 111, 110, 32, 110, 111, 116, 32, 98, 105, 110, 100, 58, 32]

  /** "recv timeout" */
  const TIMEOUT_TEXT: Bytes := [114, 101, 99, 118, 32, 116, 105, 109, 101, 111, 117, 116]

  /** A bound function: fresh arguments of its parameter types, and what it does to the server's state. */
  datatype Handler<!S> = Handler(args: seq<Value>, run: (S, seq<Value>) -> (S, Value))

  /** What a call returns. */
  datatype Outcome = Outcome(code: nat, msg: Bytes, val: Value)

  // ---- the messages on values ----

  /** The name, the arguments, and the extra byte that the message buffer has at its end. */
  function Request(name: Bytes, args: seq<Value>, junk: byte, out: Beyond): Bytes
  {
    EncodeAll(LittleEndian, [Str(name)] + args, out) + [junk]
  }

  /** The bytes handed to the dispatch: from the cursor behind the name, as many as the message without
      the characters of the name, which is two too many. */
  function Tail(request: Bytes, name: Bytes, cursor: nat, beyond: Beyond): Bytes
  {
    Peek(request, beyond, cursor, if |name| <= |request| then |request| - |name| else 0)
  }

  /** `call_` */
  function Dispatch<S>(handlers: map<Bytes, Handler<S>>, state: S, name: Bytes, data: Bytes, beyond: Beyond, out: Beyond): (Bytes, S)
  {
    if name !in handlers then
      (EncodeAll(LittleEndian, [Num(CODE_WIDTH, NOT_BOUND), Str(NOT_BOUND_TEXT + name)], out), state)
    else
      var h := handlers[name];
      var args := DecodeAllInto(LittleEndian, h.args, data, beyond, 0).0;
      var (state', val) := h.run(state, args);
      (EncodeAll(LittleEndian, [Num(CODE_WIDTH, SUCCESS), Str([]), val], out), state')
  }

  function Served<S>(handlers: map<Bytes, Handler<S>>, state: S, request: Bytes, beyond: Beyond, out: Beyond): (Bytes, S)
  {
    var (name, cursor) := DecodeInto(LittleEndian, Str([]), request, beyond, 0);
    Dispatch(handlers, state, name.s, Tail(request, name.s, cursor, beyond), beyond, out)
  }

  /** The value is read only when the code is 0. */
  function ReadReply(target: Value, reply: Bytes, beyond: Beyond): Outcome
  {
    var (code, next) := DecodeInto(LittleEndian, Num(CODE_WIDTH, 0), reply, beyond, 0);
    var (msg, last) := DecodeInto(LittleEndian, Str([]), reply, beyond, next);
    Outcome(code.n, msg.s, if code.n == SUCCESS then DecodeInto(LittleEndian, target, reply, beyond, last).0 else target)
  }

  function Clip(s: Bytes): Bytes
  {
    s[..StringLength(s)]
  }

  lemma EncodeCons(v: Value, rest: seq<Value>, out: Beyond)
    ensures EncodeAll(LittleEndian, [v] + rest, out) == Encode(LittleEndian, v, out) + EncodeAll(LittleEndian, rest, out)
  {
    assert ([v] + rest)[1..] == rest;
  }

  lemma EncodeReply(code: nat, msg: Bytes, rest: seq<Value>, out: Beyond)
    ensures EncodeAll(LittleEndian, [Num(CODE_WIDTH, code), Str(msg)] + rest, out)
         == LeBytes(code, CODE_WIDTH) + EncodeString(LittleEndian, msg, out) + EncodeAll(LittleEndian, rest, out)
  {
    EncodeCons(Str(msg), rest, out);
    EncodeCons(Num(CODE_WIDTH, code), [Str(msg)] + rest, out);
    assert [Num(CODE_WIDTH, code)] + ([Str(msg)] + rest) == [Num(CODE_WIDTH, code), Str(msg)] + rest;
  }

  /** A request is the length of the name, the name, the arguments and one byte. */
  lemma RequestLayout(name: Bytes, args: seq<Value>, junk: byte, out: Beyond)
    ensures var len := |name| % 0x1_0000;
      Request(name, args, junk, out) == [(len % 256) as byte, (len / 256) as byte] + name[..len] + Encode(LittleEndian, Rec(args), out) + [junk]
  {
    EncodeCons(Str(name), args, out);
    StringLayout(name, out);
  }

  lemma CodeLayout(code: byte)
    ensures LeBytes(code as nat, CODE_WIDTH) == [code, 0]
  {
    assert LeBytes(code as nat, 2) == [code] + LeBytes(0, 1);
    assert LeBytes(0, 1) == [0] + LeBytes(0, 0);
  }

  /** The reply to a bound name is the code 0, an empty message and the value of the handler on the arguments; to
      an unbound one, the code 1 and a text with the name. */
  lemma ReplyLayout<S>(handlers: map<Bytes, Handler<S>>, state: S, name: Bytes, data: Bytes, beyond: Beyond, out: Beyond)
    ensures var (reply, state') := Dispatch(handlers, state, name, data, beyond, out);
      if name in handlers then
        var h := handlers[name];
        var (after, val) := h.run(state, DecodeAllInto(LittleEndian, h.args, data, beyond, 0).0);
        reply == [0, 0, 0, 0] + Encode(LittleEndian, val, out) && state' == after
      else
        var text := NOT_BOUND_TEXT + name;
        var len := |text| % 0x1_0000;
        reply == [1, 0, (len % 256) as byte, (len / 256) as byte] + text[..len] && state' == state
  {
    if name in handlers {
      var h := handlers[name];
      var val := h.run(state, DecodeAllInto(LittleEndian, h.args, data, beyond, 0).0).1;
      EncodeReply(SUCCESS, [], [val], out);
      RecordLayout(LittleEndian, [], [], val, out);
      StringLayout([], out);
      CodeLayout(0);
      assert [Num(CODE_WIDTH, SUCCESS), Str([])] + [val] == [Num(CODE_WIDTH, SUCCESS), Str([]), val];
    } else {
      var text := NOT_BOUND_TEXT + name;
      EncodeReply(NOT_BOUND, text, [], out);
      StringLayout(text, out);
      CodeLayout(1);
      assert [Num(CODE_WIDTH, NOT_BOUND), Str(text)] + [] == [Num(CODE_WIDTH, NOT_BOUND), Str(text)];
    }
  }

  /** Whatever request arrives, malformed ones included, the server's reply is not empty. */
  lemma ReplyNonEmpty<S>(handlers: map<Bytes, Handler<S>>, state: S, request: Bytes, beyond: Beyond, out: Beyond)
    ensures Served(handlers, state, request, beyond, out).0 != []
  {
    var (name, cursor) := DecodeInto(LittleEndian, Str([]), request, beyond, 0);
    var data := Tail(request, name.s, cursor, beyond);
    if name.s !in handlers {
      var msg := NOT_BOUND_TEXT + name.s;
      EncodeReply(NOT_BOUND, msg, [], out);
      assert [Num(CODE_WIDTH, NOT_BOUND), Str(msg)] + [] == [Num(CODE_WIDTH, NOT_BOUND), Str(msg)];
    } else {
      var h := handlers[name.s];
      var val := h.run(state, DecodeAllInto(LittleEndian, h.args, data, beyond, 0).0).1;
      EncodeReply(SUCCESS, [], [val], out);
      assert [Num(CODE_WIDTH, SUCCESS), Str([])] + [val] == [Num(CODE_WIDTH, SUCCESS), Str([]), val];
    }
  }

  lemma {:induction false} LittleEndianPortable(v: Value)
    ensures Portable(LittleEndian, v)
    decreases v
  {
    match v
    case Num(_, _) =>
    case Str(_) =>
    case Rec(fields) => LittleEndianPortableAll(fields);
  }

  lemma {:induction false} LittleEndianPortableAll(vs: seq<Value>)
    ensures PortableAll(LittleEndian, vs)
    decreases vs
  {
    if vs != [] {
      LittleEndianPortable(vs[0]);
      LittleEndianPortableAll(vs[1..]);
    }
  }

  /** The server finds the name the client sent, up to its length modulo 65536, and arguments that read
      as if nothing surrounded them. */
  lemma ServedDispatches<S>(handlers: map<Bytes, Handler<S>>, state: S, name: Bytes, args: seq<Value>, junk: byte, beyond: Beyond, out: Beyond)
    returns (data: Bytes)
    ensures EncodeAll(LittleEndian, args, out) <= data
    ensures Served(handlers, state, Request(name, args, junk, out), beyond, out) == Dispatch(handlers, state, Clip(name), data, beyond, out)
  {
    var request := Request(name, args, junk, out);
    var head, body := EncodeString(LittleEndian, name, out), EncodeAll(LittleEndian, args, out);
    EncodeCons(Str(name), args, out);
    assert request == [] + head + (body + [junk]);
    CopyLengths(name);
    StringReadsBack(LittleEndian, [], name, [], body + [junk], out, beyond);
    assert Clip(name) + [] == Clip(name);
    data := Tail(request, Clip(name), |head|, beyond);
    hide EncodeAll, EncodeString, Dispatch;
    assert |data| == |body| + 3;
    assert body == data[..|body|];
  }

  lemma ArgumentsReadBack(targets: seq<Value>, args: seq<Value>, data: Bytes, beyond: Beyond, out: Beyond)
    requires AcceptsAll(targets, args) && EncodeAll(LittleEndian, args, out) <= data
    ensures DecodeAllInto(LittleEndian, targets, data, beyond, 0).0 == ReceivedAll(targets, args)
  {
    hide EncodeAll, DecodeAllInto, ReceivedAll, AcceptsAll;
    var code := EncodeAll(LittleEndian, args, out);
    LittleEndianPortableAll(args);
    ReadsAllBack(LittleEndian, targets, args, [], data[|code|..], out, beyond);
    assert [] + code + data[|code|..] == data;
  }

  lemma ReplyReadsBack(target: Value, code: nat, msg: Bytes, val: Value, beyond: Beyond, out: Beyond)
    requires code < Pow256(CODE_WIDTH) && Accepts(target, val)
    ensures ReadReply(target, EncodeAll(LittleEndian, [Num(CODE_WIDTH, code), Str(msg), val], out), beyond)
         == Outcome(code, Clip(msg), if code == SUCCESS then Received(target, val) else target)
  {
    var reply := EncodeAll(LittleEndian, [Num(CODE_WIDTH, code), Str(msg), val], out);
    var a, b, c := LeBytes(code, CODE_WIDTH), EncodeString(LittleEndian, msg, out), Encode(LittleEndian, val, out);
    EncodeReply(code, msg, [val], out);
    assert [Num(CODE_WIDTH, code), Str(msg)] + [val] == [Num(CODE_WIDTH, code), Str(msg), val];
    EncodeCons(val, [], out);
    assert [val] + [] == [val] && reply == a + b + c;
    ReplyHeadReadsBack(target, code, msg, c, beyond, out);
    LittleEndianPortable(val);
    ReadsBack(LittleEndian, target, val, a + b, [], out, beyond);
    assert a + b + c + [] == reply;
  }

  lemma ReplyHeadReadsBack(target: Value, code: nat, msg: Bytes, rest: Bytes, beyond: Beyond, out: Beyond)
    requires code < Pow256(CODE_WIDTH)
    ensures var a, b := LeBytes(code, CODE_WIDTH), EncodeString(LittleEndian, msg, out);
      ReadReply(target, a + b + rest, beyond)
      == Outcome(code, Clip(msg), if code == SUCCESS then DecodeInto(LittleEndian, target, a + b + rest, beyond, |a + b|).0 else target)
  {
    var a, b := LeBytes(code, CODE_WIDTH), EncodeString(LittleEndian, msg, out);
    assert Pow256(2) == 256 * Pow256(1);
    ReadsBack(LittleEndian, Num(CODE_WIDTH, 0), Num(CODE_WIDTH, code), [], b + rest, out, beyond);
    assert [] + a + (b + rest) == a + b + rest;
    StringReadsBack(LittleEndian, [], msg, a, rest, out, beyond);
    assert Clip(msg) + [] == Clip(msg);
  }

  /** A call of a bound name runs its handler on exactly the arguments of the caller and hands back
      exactly its result, whatever bytes follow the arguments. */
  lemma EndToEnd<S>(handlers: map<Bytes, Handler<S>>, state: S, name: Bytes, args: seq<Value>, target: Value,
                    junk: byte, beyond: Beyond, inn: Beyond, out: Beyond)
    requires name in handlers && |name| < STRING_LIMIT
    requires AcceptsAll(handlers[name].args, args) && FreshAll(handlers[name].args) && WholeAll(args)
    requires var val := handlers[name].run(state, args).1; Accepts(target, val) && Fresh(target) && Whole(val)
    ensures var (state', val) := handlers[name].run(state, args);
            var (reply, after) := Served(handlers, state, Request(name, args, junk, out), beyond, out);
            && after == state' && reply != []
            && ReadReply(target, reply, inn) == Outcome(SUCCESS, [], val)
  {
    var h := handlers[name];
    var (state', val) := h.run(state, args);
    hide EncodeAll, DecodeAllInto, ReadReply, Request, Served, ReceivedAll, Received;
    var data := ServedDispatches(handlers, state, name, args, junk, beyond, out);
    assert Clip(name) == name;
    ArgumentsReadBack(h.args, args, data, beyond, out);
    ReceivedAllWhole(h.args, args);
    ReplyReadsBack(target, SUCCESS, [], val, inn, out);
    ReceivedWhole(target, val);
    ReplyNonEmpty(handlers, state, Request(name, args, junk, out), beyond, out);
  }

  /** A call of an unbound name leaves the server alone and reports it with code 1 and a message. */
  lemma EndToEndUnbound<S>(handlers: map<Bytes, Handler<S>>, state: S, name: Bytes, args: seq<Value>, target: Value,
                           junk: byte, beyond: Beyond, inn: Beyond, out: Beyond)
    requires Clip(name) !in handlers
    ensures var (reply, after) := Served(handlers, state, Request(name, args, junk, out), beyond, out);
            && after == state && reply != []
            && ReadReply(target, reply, inn) == Outcome(NOT_BOUND, Clip(NOT_BOUND_TEXT + Clip(name)), target)
  {
    var _ := ServedDispatches(handlers, state, name, args, junk, beyond, out);
    var msg := NOT_BOUND_TEXT + Clip(name);
    var a, b := LeBytes(NOT_BOUND, CODE_WIDTH), EncodeString(LittleEndian, msg, out);
    var reply := EncodeAll(LittleEndian, [Num(CODE_WIDTH, NOT_BOUND), Str(msg)], out);
    EncodeReply(NOT_BOUND, msg, [], out);
    assert [Num(CODE_WIDTH, NOT_BOUND), Str(msg)] + [] == [Num(CODE_WIDTH, NOT_BOUND), Str(msg)];
    assert reply == a + b + [];
    ReplyHeadReadsBack(target, NOT_BOUND, msg, [], inn, out);
  }
}
