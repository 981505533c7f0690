/** The two ends of a connection: a server that answers requests by name, and a client on a REQ socket
    that remembers whether its last receive timed out. */
module RpcEndpoints {
  import opened Codec
  import opened Serializers
  import opened Rpc

  class RpcServer<S(0)> {
    var state: S
    var handlers: map<Bytes, Handler<S>>

    constructor (state: S)
      ensures this.state == state && handlers == map[]
    {
      this.state, handlers := state, map[];
    }

    method Bind(name: Bytes, h: Handler<S>)
      modifies `handlers
      ensures handlers == old(handlers)[name := h]
    {
      handlers := handlers[name := h];
    }

    /** `callproxy_` behind the look-up of the name. */
    method CallByName(name: Bytes, data: Bytes, beyond: Beyond, out: Beyond) returns (reply: Bytes)
      modifies `state
      ensures (reply, state) == Dispatch(handlers, old(state), name, data, beyond, out)
    {
      var ds := new Serializer();
      if name !in handlers {
        ds.WriteAll([Num(CODE_WIDTH, NOT_BOUND), Str(NOT_BOUND_TEXT + name)], out);
        assert ds.buffer == EncodeAll(LittleEndian, [Num(CODE_WIDTH, NOT_BOUND), Str(NOT_BOUND_TEXT + name)], out);
        return ds.buffer;
      }
      var h := handlers[name];
      var params := new Serializer.FromBytes(data);
      var args := params.ReadAll(h.args, beyond);
      var (after, val) := h.run(state, args);
      state := after;
      ds.WriteAll([Num(CODE_WIDTH, SUCCESS), Str([]), val], out);
      assert ds.buffer == EncodeAll(LittleEndian, [Num(CODE_WIDTH, SUCCESS), Str([]), val], out);
      return ds.buffer;
    }

    /** One turn of the server's loop. */
    method Serve(request: Bytes, beyond: Beyond, out: Beyond) returns (reply: Bytes)
      modifies `state
      ensures (reply, state) == Served(handlers, old(state), request, beyond, out)
    {
      var ds := new Serializer.FromBytes(request);
      var name := ds.ReadString([], beyond);
      var len := if |name| <= |request| then |request| - |name| else 0;
      var data := ds.Copy(len, beyond);
      reply := CallByName(name, data[..], beyond, out);
    }
  }

  /** What happens on a socket. */
  datatype Wire = Sent(request: Bytes) | Got(reply: Bytes) | TimedOut

  ghost function Sends(trace: seq<Wire>): seq<Bytes>
  {
    if trace == [] then []
    else
      var front, last := trace[..|trace| - 1], trace[|trace| - 1];
      Sends(front) + (if last.Sent? then [last.request] else [])
  }

  ghost function Gots(trace: seq<Wire>): seq<Bytes>
  {
    if trace == [] then []
    else
      var front, last := trace[..|trace| - 1], trace[|trace| - 1];
      Gots(front) + (if last.Got? then [last.reply] else [])
  }

  ghost function Outstanding(trace: seq<Wire>): int
  {
    |Sends(trace)| - |Gots(trace)|
  }

  /** A request goes out only when no reply is outstanding, and a reply comes in only when one is. */
  ghost predicate Orderly(trace: seq<Wire>)
  {
    && (forall i :: 0 <= i < |trace| && trace[i].Sent? ==> Outstanding(trace[..i]) == 0)
    && (forall i :: 0 <= i < |trace| && trace[i].Got? ==> Outstanding(trace[..i]) == 1)
  }

  lemma TraceStep(trace: seq<Wire>, w: Wire)
    ensures Sends(trace + [w]) == Sends(trace) + if w.Sent? then [w.request] else []
    ensures Gots(trace + [w]) == Gots(trace) + if w.Got? then [w.reply] else []
    ensures Orderly(trace) && (w.Sent? ==> Outstanding(trace) == 0) && (w.Got? ==> Outstanding(trace) == 1) ==> Orderly(trace + [w])
  {
    var next := trace + [w];
    assert next[..|trace|] == trace;
    forall i | 0 <= i < |trace| ensures next[i] == trace[i] && next[..i] == trace[..i] {
    }
  }

  /** What one call does on the socket: it sends unless the call before it timed out. */
  function CallTrace(timedOut: bool, request: Bytes, reply: Bytes): seq<Wire>
  {
    (if timedOut then [] else [Sent(request)]) + [if reply == [] then TimedOut else Got(reply)]
  }

  lemma CallTraceIs(trace: seq<Wire>, timedOut: bool, request: Bytes, reply: Bytes)
    ensures (if timedOut then trace else trace + [Sent(request)]) + [if reply == [] then TimedOut else Got(reply)]
         == trace + CallTrace(timedOut, request, reply)
  {
  }

  lemma CallSteps(trace: seq<Wire>, timedOut: bool, request: Bytes, reply: Bytes)
    ensures var after := trace + CallTrace(timedOut, request, reply);
      && Sends(after) == Sends(trace) + (if timedOut then [] else [request])
      && Gots(after) == Gots(trace) + (if reply == [] then [] else [reply])
      && (Orderly(trace) && Outstanding(trace) == (if timedOut then 1 else 0) ==>
            Orderly(after) && Outstanding(after) == if reply == [] then 1 else 0)
  {
    hide Orderly, Sends, Gots;
    var w := if reply == [] then TimedOut else Got(reply);
    if timedOut {
      assert trace + CallTrace(timedOut, request, reply) == trace + [w];
      TraceStep(trace, w);
    } else {
      TraceStep(trace, Sent(request));
      TraceStep(trace + [Sent(request)], w);
      assert trace + CallTrace(timedOut, request, reply) == trace + [Sent(request)] + [w];
    }
  }

  class RpcClient {
    var errorCode: nat
    var trace: seq<Wire>       // what has happened on the current socket

    constructor ()
      ensures errorCode == SUCCESS && trace == []
    {
      errorCode, trace := SUCCESS, [];
    }

    /** REQ alternation: a reply is outstanding exactly while the client is in the time-out state. */
    ghost predicate Alternates()
      reads this
    {
      Orderly(trace) && Outstanding(trace) == if errorCode == RECV_TIMEOUT then 1 else 0
    }

    /** A new socket. The error code of the old one stays, so that afterwards the client alternates
        exactly when it had not timed out. */
    method AsClient()
      modifies this
      ensures errorCode == old(errorCode) && trace == []
      ensures Alternates() <==> old(errorCode) != RECV_TIMEOUT
    {
      trace := [];
    }

    method MakeRequest(name: Bytes, args: seq<Value>, junk: byte, out: Beyond) returns (request: Bytes)
      ensures request == Request(name, args, junk, out)
    {
      var ds := new Serializer();
      ds.WriteAll([Str(name)] + args, out);
      request := ds.buffer + [junk];
    }

    /** Sends unless a reply is still outstanding, then receives; no reply is the empty reply. */
    method NetCall(request: Bytes, reply: Bytes, target: Value, beyond: Beyond) returns (o: Outcome)
      modifies this
      ensures trace == old(trace) + CallTrace(old(errorCode) == RECV_TIMEOUT, request, reply)
      ensures errorCode == if reply == [] then RECV_TIMEOUT else SUCCESS
      ensures o == if reply == [] then Outcome(RECV_TIMEOUT, TIMEOUT_TEXT, target) else ReadReply(target, reply, beyond)
      ensures old(Alternates()) ==> Alternates()
    {
      CallSteps(trace, errorCode == RECV_TIMEOUT, request, reply);
      CallTraceIs(trace, errorCode == RECV_TIMEOUT, request, reply);
      hide Orderly, Outstanding, Sends, Gots, CallTrace;
      if errorCode != RECV_TIMEOUT {
        trace := trace + [Sent(request)];
      }
      if |reply| == 0 {
        errorCode := RECV_TIMEOUT;
        trace := trace + [TimedOut];
        return Outcome(RECV_TIMEOUT, TIMEOUT_TEXT, target);
      }
      errorCode := SUCCESS;
      trace := trace + [Got(reply)];
      var ds := new Serializer.FromBytes(reply);
      var code := ds.ReadNum(0, CODE_WIDTH, beyond);
      var msg := ds.ReadString([], beyond);
      var val := target;
      if code == SUCCESS {
        val := ds.Read(target, beyond);
      }
      o := Outcome(code, msg, val);
    }
  }

  /** A call that is delivered and answered in time. */
  method Invoke<S(0)>(client: RpcClient, server: RpcServer<S>, name: Bytes, args: seq<Value>, target: Value,
                      junk: byte, beyond: Beyond, inn: Beyond, out: Beyond) returns (o: Outcome)
    requires client.errorCode != RECV_TIMEOUT && |name| < STRING_LIMIT
    requires name in server.handlers ==>
      var h := server.handlers[name];
      && AcceptsAll(h.args, args) && FreshAll(h.args) && WholeAll(args)
      && var val := h.run(server.state, args).1; Accepts(target, val) && Fresh(target) && Whole(val)
    modifies client, server`state
    ensures client.errorCode == SUCCESS && (old(client.Alternates()) ==> client.Alternates())
    ensures if name in server.handlers then (server.state, o) == (var (s, v) := server.handlers[name].run(old(server.state), args); (s, Outcome(SUCCESS, [], v)))
            else server.state == old(server.state) && o == Outcome(NOT_BOUND, Clip(NOT_BOUND_TEXT + name), target)
  {
    hide ReadReply, Served, Request;
    assert Clip(name) == name;
    var request := client.MakeRequest(name, args, junk, out);
    if name in server.handlers {
      EndToEnd(server.handlers, server.state, name, args, target, junk, beyond, inn, out);
    } else {
      EndToEndUnbound(server.handlers, server.state, name, args, target, junk, beyond, inn, out);
    }
    var reply := server.Serve(request, beyond, out);
    o := client.NetCall(request, reply, target, inn);
  }

  // ---- whose reply a call returns ----

  /** The first `n` calls of a fresh client on one socket. */
  ghost function RunTrace(requests: seq<Bytes>, replies: seq<Bytes>, n: nat): seq<Wire>
    requires n <= |requests| == |replies|
  {
    if n == 0 then []
    else RunTrace(requests, replies, n - 1) + CallTrace(Unanswered(replies, n - 1), requests[n - 1], replies[n - 1])
  }

  /** The call before call `i` got no reply. */
  predicate Unanswered(replies: seq<Bytes>, i: nat)
    requires i <= |replies|
  {
    i > 0 && replies[i - 1] == []
  }

  /** The call whose request was the last one sent when call `i` receives. */
  function Owner(replies: seq<Bytes>, i: nat): (j: nat)
    requires i <= |replies|
    ensures j <= i
  {
    if Unanswered(replies, i) then Owner(replies, i - 1) else i
  }

  /** The requests that went out: those of the calls that follow no time-out. */
  function SentRequests(requests: seq<Bytes>, replies: seq<Bytes>, n: nat): seq<Bytes>
    requires n <= |requests| == |replies|
  {
    if n == 0 then []
    else SentRequests(requests, replies, n - 1) + if Unanswered(replies, n - 1) then [] else [requests[n - 1]]
  }

  function NonEmpty(replies: seq<Bytes>): seq<Bytes>
  {
    if replies == [] then []
    else NonEmpty(replies[..|replies| - 1]) + if replies[|replies| - 1] == [] then [] else [replies[|replies| - 1]]
  }

  /** The history of any sequence of calls and time-outs: which requests went out, which replies came in,
      and that they alternate, with one reply outstanding exactly after a time-out. */
  lemma {:induction false} History(requests: seq<Bytes>, replies: seq<Bytes>, n: nat)
    requires n <= |requests| == |replies|
    ensures var trace := RunTrace(requests, replies, n);
      && Sends(trace) == SentRequests(requests, replies, n)
      && Gots(trace) == NonEmpty(replies[..n])
      && Orderly(trace)
      && Outstanding(trace) == if Unanswered(replies, n) then 1 else 0
  {
    hide Orderly, Sends, Gots;
    if n == 0 {
      EmptyTrace();
    } else {
      History(requests, replies, n - 1);
      assert replies[..n][..n - 1] == replies[..n - 1];
      CallSteps(RunTrace(requests, replies, n - 1), Unanswered(replies, n - 1), requests[n - 1], replies[n - 1]);
    }
  }

  /** The trace after the first calls is the beginning of the trace after more of them. */
  lemma {:induction false} TraceGrows(requests: seq<Bytes>, replies: seq<Bytes>, i: nat, n: nat)
    requires i <= n <= |requests| == |replies|
    ensures RunTrace(requests, replies, i) <= RunTrace(requests, replies, n)
    decreases n
  {
    if i < n {
      TraceGrows(requests, replies, i, n - 1);
    }
  }

  lemma EmptyTrace()
    ensures Orderly([]) && Sends([]) == [] && Gots([]) == []
  {
  }

  lemma {:induction false} LastSent(requests: seq<Bytes>, replies: seq<Bytes>, i: nat)
    requires i < |requests| == |replies|
    ensures var sent, before := SentRequests(requests, replies, i + 1), SentRequests(requests, replies, i);
      && sent != [] && sent[|sent| - 1] == requests[Owner(replies, i)]
      && (Owner(replies, i) == i <==> !Unanswered(replies, i))
      && (Owner(replies, i) == i <==> |sent| > |before|)
    ensures forall j :: Owner(replies, i) <= j < i ==> replies[j] == []
    ensures !Unanswered(replies, Owner(replies, i))
  {
    if Unanswered(replies, i) {
      LastSent(requests, replies, i - 1);
    }
  }

  /** When call `i` receives, the last request that went out is that of call `Owner`; so a call is
      answered for itself exactly when the call before it did not time out, which is when it sends, and
      otherwise for the call whose request the time-outs since have left unanswered. */
  lemma OwnReply(requests: seq<Bytes>, replies: seq<Bytes>, i: nat)
    requires i < |requests| == |replies|
    ensures var sent, before := Sends(RunTrace(requests, replies, i + 1)), Sends(RunTrace(requests, replies, i));
      && sent != [] && sent[|sent| - 1] == requests[Owner(replies, i)]
      && (Owner(replies, i) == i <==> !Unanswered(replies, i))
      && (Owner(replies, i) == i <==> |sent| > |before|)
    ensures forall j :: Owner(replies, i) <= j < i ==> replies[j] == []
    ensures !Unanswered(replies, Owner(replies, i))
  {
    hide *;
    History(requests, replies, i + 1);
    History(requests, replies, i);
    LastSent(requests, replies, i);
  }

  /** A run of calls on one socket from a fresh client. */
  method CallAll(requests: seq<Bytes>, replies: seq<Bytes>, target: Value, beyond: Beyond)
    returns (outcomes: seq<Outcome>, client: RpcClient)
    requires |requests| == |replies|
    ensures fresh(client) && client.trace == RunTrace(requests, replies, |requests|)
    ensures client.Alternates() && Orderly(client.trace)
    ensures Sends(client.trace) == SentRequests(requests, replies, |requests|) && Gots(client.trace) == NonEmpty(replies)
    ensures forall i :: 0 <= i <= |requests| ==> RunTrace(requests, replies, i) <= client.trace
    ensures |outcomes| == |requests|
    ensures forall i :: 0 <= i < |requests| ==>
      outcomes[i] == if replies[i] == [] then Outcome(RECV_TIMEOUT, TIMEOUT_TEXT, target) else ReadReply(target, replies[i], beyond)
  {
    hide ReadReply, CallTrace, Orderly, Outstanding, Sends, Gots;
    client := new RpcClient();
    EmptyTrace();
    assert client.Alternates() by { History(requests, replies, 0); }
    outcomes := [];
    for i := 0 to |requests|
      invariant |outcomes| == i && fresh(client) && client.Alternates()
      invariant client.trace == RunTrace(requests, replies, i)
      invariant client.errorCode == RECV_TIMEOUT <==> Unanswered(replies, i)
      invariant forall k :: 0 <= k < i ==>
        outcomes[k] == if replies[k] == [] then Outcome(RECV_TIMEOUT, TIMEOUT_TEXT, target) else ReadReply(target, replies[k], beyond)
    {
      var o := client.NetCall(requests[i], replies[i], target, beyond);
      outcomes := outcomes + [o];
    }
    History(requests, replies, |requests|);
    assert replies[..|requests|] == replies;
    forall i | 0 <= i <= |requests| ensures RunTrace(requests, replies, i) <= client.trace {
      TraceGrows(requests, replies, i, |requests|);
    }
  }
}
