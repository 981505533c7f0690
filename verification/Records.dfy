/** The structures that cross the wire, field by field in the order of their codecs, and calls that pass them. */
module Records {
  import opened Codec
  import opened Types
  import opened Rpc
  import P = Protocol

  const INT_WIDTH := 4
  const BOOL_WIDTH := 1
  const WORD := 0x1_0000_0000
  const HALF := 0x8000_0000

  predicate Int32(n: int)
  {
    -HALF <= n < HALF
  }

  /** Two's complement. */
  function Packed(n: int): (v: Value)
    ensures v.Num? && v.width == INT_WIDTH && v.n < WORD
  {
    Num(INT_WIDTH, n % WORD)
  }

  function Number(v: Value): int
  {
    if !v.Num? then 0 else if v.n < HALF then v.n else v.n - WORD
  }

  function Chars(v: Value): Text
  {
    if v.Str? then v.s else []
  }

  function NodeRoleNumber(r: NodeRole): int
  {
    match r
    case NodeNone => 0
    case NodePrimary => 1
    case NodeSecondary => 2
    case NodeError => 3
  }

  function NodeRoleOf(n: int): NodeRole
  {
    if n == 1 then NodePrimary else if n == 2 then NodeSecondary else if n == 3 then NodeError else NodeNone
  }

  function StateNumber(s: DomainState): int
  {
    match s
    case ShutOff => 0
    case Starting => 1
    case Running => 2
    case ColoEnabled => 3
    case Failed => 4
  }

  function StateOf(n: int): DomainState
  {
    if n == 1 then Starting else if n == 2 then Running else if n == 3 then ColoEnabled else if n == 4 then Failed else ShutOff
  }

  function RoleNumber(r: ColoRole): int
  {
    match r
    case RoleNone => 0
    case RolePrimary => 1
    case RoleSecondary => 2
    case RoleFailover => 3
    case RoleDegrade => 4
    case RoleDead => 5
  }

  function RoleOf(n: int): ColoRole
  {
    if n == 1 then RolePrimary else if n == 2 then RoleSecondary else if n == 3 then RoleFailover
    else if n == 4 then RoleDegrade else if n == 5 then RoleDead else RoleNone
  }

  lemma NumbersReadBack(n: int, a: NodeRole, b: DomainState, c: ColoRole)
    requires Int32(n)
    ensures Number(Packed(n)) == n
    ensures NodeRoleOf(Number(Packed(NodeRoleNumber(a)))) == a
    ensures StateOf(Number(Packed(StateNumber(b)))) == b
    ensures RoleOf(Number(Packed(RoleNumber(c)))) == c
  {
  }

  // ---- the codecs ----

  function PackStatus(cs: ColoStatus): Value
  {
    Rec([Packed(NodeRoleNumber(cs.localStatus)), Packed(cs.colodPort), Str(cs.hostIp), Str(cs.hostUser), Str(cs.hostFilePath),
         Str(cs.peerIp), Str(cs.peerUser), Str(cs.peerFilePath)])
  }

  function UnpackStatus(v: Value): Option<ColoStatus>
  {
    if v.Rec? && |v.fields| == 8 then
      Some(ColoStatus(NodeRoleOf(Number(v.fields[0])), Number(v.fields[1]), Chars(v.fields[2]), Chars(v.fields[3]), Chars(v.fields[4]),
                      Chars(v.fields[5]), Chars(v.fields[6]), Chars(v.fields[7])))
    else None
  }

  function PackDomain(ds: DomainStatus): Value
  {
    Rec([Packed(ds.pid), Str(ds.name), Packed(StateNumber(ds.status)), Num(BOOL_WIDTH, if ds.coloEnable then 1 else 0),
         Packed(RoleNumber(ds.coloStatus)), Str(ds.path)])
  }

  function UnpackDomain(v: Value): Option<DomainStatus>
  {
    if v.Rec? && |v.fields| == 6 then
      Some(DomainStatus(Number(v.fields[0]), Chars(v.fields[1]), StateOf(Number(v.fields[2])), Number(v.fields[3]) != 0,
                        RoleOf(Number(v.fields[4])), Chars(v.fields[5])))
    else None
  }

  function PackRet(r: RetVal): Value
  {
    Rec([Packed(r.code), Str(r.msg)])
  }

  function UnpackRet(v: Value): Option<RetVal>
  {
    if v.Rec? && |v.fields| == 2 then Some(RetVal(Number(v.fields[0]), Chars(v.fields[1]))) else None
  }

  // ---- records with short strings are received unchanged ----

  /** A flat record: numbers in range, and strings. */
  predicate Flat(vs: seq<Value>)
  {
    forall i | 0 <= i < |vs| :: vs[i].Str? || (vs[i].Num? && 0 < vs[i].width && vs[i].n < Pow256(vs[i].width))
  }

  /** Targets just declared: any numbers, and empty strings. */
  predicate Blank(targets: seq<Value>, vs: seq<Value>)
  {
    && |targets| == |vs|
    && forall i | 0 <= i < |vs| ::
        if vs[i].Str? then targets[i] == Str([]) else vs[i].Num? && targets[i].Num? && targets[i].width == vs[i].width
  }

  /** What arrives of a field. */
  function Cut(v: Value): Value
  {
    if v.Str? then Str(Clip(v.s)) else v
  }

  lemma {:induction false} FlatReceived(targets: seq<Value>, vs: seq<Value>)
    requires Flat(vs) && Blank(targets, vs)
    ensures AcceptsAll(targets, vs)
    ensures |ReceivedAll(targets, vs)| == |vs| && forall i | 0 <= i < |vs| :: ReceivedAll(targets, vs)[i] == Cut(vs[i])
    decreases |vs|
  {
    if vs != [] {
      FlatReceived(targets[1..], vs[1..]);
      assert Accepts(targets[0], vs[0]);
      assert vs[0].Str? ==> Clip(vs[0].s) + [] == Clip(vs[0].s);
      var rest := ReceivedAll(targets[1..], vs[1..]);
      forall i | 0 <= i < |vs| ensures ReceivedAll(targets, vs)[i] == Cut(vs[i]) {
        if i > 0 {
          assert rest[i - 1] == Cut(vs[1..][i - 1]);
        }
      }
    }
  }

  lemma Pow256Of4()
    ensures Pow256(INT_WIDTH) == WORD && Pow256(BOOL_WIDTH) == 256
  {
    assert Pow256(1) == 256 && Pow256(2) == 0x1_0000 && Pow256(3) == 0x100_0000;
  }

  lemma ClipIsExact(s: Text)
    ensures Clip(s) == s <==> |s| < STRING_LIMIT
  {
  }

  function CutDomain(ds: DomainStatus): DomainStatus
  {
    ds.(name := Clip(ds.name), path := Clip(ds.path))
  }

  function CutStatus(cs: ColoStatus): ColoStatus
  {
    ColoStatus(cs.localStatus, cs.colodPort, Clip(cs.hostIp), Clip(cs.hostUser), Clip(cs.hostFilePath),
               Clip(cs.peerIp), Clip(cs.peerUser), Clip(cs.peerFilePath))
  }

  lemma DomainReceived(ds: DomainStatus, held: Value)
    requires Int32(ds.pid) && held.Rec? && Blank(held.fields, PackDomain(ds).fields)
    ensures Accepts(held, PackDomain(ds))
    ensures UnpackDomain(Received(held, PackDomain(ds))) == Some(CutDomain(ds))
  {
    Pow256Of4();
    FlatReceived(held.fields, PackDomain(ds).fields);
    NumbersReadBack(ds.pid, NodeNone, ds.status, ds.coloStatus);
  }

  /** A domain record read into a fresh one is the record sent, its strings cut to their length mod 65536. */
  lemma DomainTravels(ds: DomainStatus, held: Value, order: ByteOrder, prefix: Bytes, suffix: Bytes, out: Beyond, inn: Beyond)
    requires Int32(ds.pid)
    requires held.Rec? && Blank(held.fields, PackDomain(ds).fields)
    requires Portable(order, PackDomain(ds))
    ensures var code := Encode(order, PackDomain(ds), out);
      var (got, at) := DecodeInto(order, held, prefix + code + suffix, inn, |prefix|);
      UnpackDomain(got) == Some(CutDomain(ds)) && at == |prefix| + |code|
  {
    DomainReceived(ds, held);
    hide Encode, DecodeInto, Portable, Accepts, Received, UnpackDomain, PackDomain;
    ReadsBack(order, held, PackDomain(ds), prefix, suffix, out, inn);
  }

  lemma StatusTravels(cs: ColoStatus, held: Value, order: ByteOrder, prefix: Bytes, suffix: Bytes, out: Beyond, inn: Beyond)
    requires Int32(cs.colodPort)
    requires held.Rec? && Blank(held.fields, PackStatus(cs).fields)
    requires Portable(order, PackStatus(cs))
    ensures var code := Encode(order, PackStatus(cs), out);
      var (got, at) := DecodeInto(order, held, prefix + code + suffix, inn, |prefix|);
      UnpackStatus(got) == Some(CutStatus(cs)) && at == |prefix| + |code|
  {
    Pow256Of4();
    FlatReceived(held.fields, PackStatus(cs).fields);
    NumbersReadBack(cs.colodPort, cs.localStatus, ShutOff, RoleNone);
    hide Encode, DecodeInto, Portable;
    ReadsBack(order, held, PackStatus(cs), prefix, suffix, out, inn);
  }

  lemma RetReceived(r: RetVal, held: Value)
    requires Int32(r.code) && held.Rec? && Blank(held.fields, PackRet(r).fields)
    ensures Accepts(held, PackRet(r))
    ensures UnpackRet(Received(held, PackRet(r))) == Some(r.(msg := Clip(r.msg)))
  {
    Pow256Of4();
    FlatReceived(held.fields, PackRet(r).fields);
    NumbersReadBack(r.code, NodeNone, ShutOff, RoleNone);
  }

  // ---- a call that passes a domain record ----

  const BLANK_DOMAIN := Rec([Num(INT_WIDTH, 0), Str([]), Num(INT_WIDTH, 0), Num(BOOL_WIDTH, 0), Num(INT_WIDTH, 0), Str([])])

  /** A bound function that takes one domain record. */
  function DomainHandler<S>(h: (S, DomainStatus) -> (S, RetVal)): Handler<S>
  {
    Handler([BLANK_DOMAIN], (s, vs) =>
      if |vs| == 1 && UnpackDomain(vs[0]).Some? then
        var (s', r) := h(s, UnpackDomain(vs[0]).value);
        (s', PackRet(r))
      else (s, PackRet(RetVal(P.FAIL, []))))
  }

  /** Calling it remotely is calling it locally, with strings cut to their length mod 65536. */
  lemma DomainCall<S>(handlers: map<Bytes, Handler<S>>, state: S, name: Bytes, h: (S, DomainStatus) -> (S, RetVal), ds: DomainStatus,
                      held: Value, junk: byte, beyond: Beyond, inn: Beyond, out: Beyond)
    requires name in handlers && |name| < STRING_LIMIT && handlers[name] == DomainHandler(h)
    requires Int32(ds.pid)
    requires var r := h(state, CutDomain(ds)).1; Int32(r.code) && held.Rec? && Blank(held.fields, PackRet(r).fields)
    ensures var (after, r) := h(state, CutDomain(ds));
      var (reply, got) := Served(handlers, state, Request(name, [PackDomain(ds)], junk, out), beyond, out);
      && got == after
      && ReadReply(held, reply, inn).code == SUCCESS
      && UnpackRet(ReadReply(held, reply, inn).val) == Some(r.(msg := Clip(r.msg)))
  {
    var (after, r) := h(state, CutDomain(ds));
    DomainReceived(ds, BLANK_DOMAIN);
    RetReceived(r, held);
    var data := ServedDispatches(handlers, state, name, [PackDomain(ds)], junk, beyond, out);
    assert Clip(name) == name;
    ArgumentsReadBack([BLANK_DOMAIN], [PackDomain(ds)], data, beyond, out);
    ReplyReadsBack(held, SUCCESS, [], PackRet(r), inn, out);
  }

  /** So the peer that is sent a domain record stores what `PeerSaveDomain` says, and its code comes back. */
  lemma SaveDomainCall(handlers: map<Bytes, Handler<P.Node>>, peer: P.Node, name: Bytes, msg: Text, ds: DomainStatus,
                       held: Value, junk: byte, beyond: Beyond, inn: Beyond, out: Beyond)
    requires name in handlers && |name| < STRING_LIMIT
    requires handlers[name] == DomainHandler((n: P.Node, d: DomainStatus) => (P.PeerSaveDomain(n, d).0, RetVal(P.PeerSaveDomain(n, d).1, msg)))
    requires Int32(ds.pid) && |ds.name| < STRING_LIMIT && |ds.path| < STRING_LIMIT
    requires held.Rec? && Blank(held.fields, PackRet(RetVal(0, msg)).fields)
    ensures var (after, code) := P.PeerSaveDomain(peer, ds);
      var (reply, got) := Served(handlers, peer, Request(name, [PackDomain(ds)], junk, out), beyond, out);
      && got == after
      && UnpackRet(ReadReply(held, reply, inn).val) == Some(RetVal(code, Clip(msg)))
  {
    var h := (n: P.Node, d: DomainStatus) => (P.PeerSaveDomain(n, d).0, RetVal(P.PeerSaveDomain(n, d).1, msg));
    ClipIsExact(ds.name);
    ClipIsExact(ds.path);
    assert CutDomain(ds) == ds;
    DomainCall(handlers, peer, name, h, ds, held, junk, beyond, inn, out);
  }
}
