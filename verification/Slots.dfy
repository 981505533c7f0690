/** One domain on one daemon: what the helpers of the protocol do to it, and that they leave every other
    domain alone. */
module Slots {
  import opened Types
  import opened Protocol

  /** The entry in memory, whether there is one, and the record of the save file. */
  datatype Slot = Slot(dom: DomainStatus, known: bool, rec: Option<Record>)

  function SlotOf(me: Node, k: Text): Slot
  {
    Slot(Domain(me, k), k in me.domains, if k in me.saved then Some(me.saved[k]) else None)
  }

  function Unpidded(rec: Option<Record>): Option<Record>
  {
    if rec.Some? then Some(rec.value.(pid := NO_PID, running := false)) else None
  }

  function Pidded(rec: Option<Record>, pid: int): Option<Record>
  {
    if rec.Some? && pid > 0 then Some(rec.value.(pid := pid, running := true)) else rec
  }

  /** `after` has slot `s` for `name` and otherwise the domains and records of `me`. */
  ghost predicate Changed(me: Node, after: Node, name: Text, s: Slot)
  {
    SlotOf(after, name) == s && forall k: Text :: k != name ==> SlotOf(after, k) == SlotOf(me, k)
  }

  ghost predicate SameSlots(me: Node, after: Node)
  {
    forall k: Text :: SlotOf(after, k) == SlotOf(me, k)
  }

  lemma TestSlot(me: Node, name: Text)
    ensures var s := SlotOf(me, name).(known := true);
      var (me', status) := Test(me, name);
      && me'.cs == me.cs && me'.live == me.live && me'.pending == me.pending && me'.clientInit == me.clientInit
      && (if s.dom.pid == NO_PID then status == ShutOff && Changed(me, me', name, s)
          else if Alive(me, s.dom.pid) then status == s.dom.status && Changed(me, me', name, s)
          else status == ShutOff && Changed(me, me', name, Slot(s.dom.(status := ShutOff), true, Unpidded(s.rec))))
  {
  }

  lemma TouchSlot(me: Node, name: Text)
    ensures Changed(me, Touch(me, name), name, SlotOf(me, name).(known := true))
  {
  }

  lemma LaunchedSlot(me: Node, name: Text, pid: int, status: DomainState)
    ensures var s, me' := SlotOf(me, name), Launched(me, name, pid, status);
      && me'.cs == me.cs && me'.pending == me.pending && me'.clientInit == me.clientInit
      && me'.live == (if pid > 0 then me.live + {pid} else me.live)
      && Changed(me, me', name, Slot(s.dom.(pid := pid, status := status), true, Pidded(s.rec, pid)))
  {
  }

  lemma DestroyVmSlot(me: Node, name: Text)
    ensures var s := SlotOf(me, name);
      var (me', code) := DestroyVm(me, name);
      if s.rec.None? || s.rec.value.pid == NO_PID then me' == me && code == FAIL
      else
        && Changed(me, me', name, s.(rec := Unpidded(s.rec)))
        && me'.cs == me.cs && me'.pending == me.pending && me'.clientInit == me.clientInit
        && code == (if Alive(me, s.rec.value.pid) then OK else FAIL)
        && me'.live == if code == OK then me.live - {s.rec.value.pid} else me.live
  {
  }

  lemma StoppedSlot(me: Node, name: Text)
    ensures var s := SlotOf(me, name);
      Changed(me, Stopped(me, name), name, s.(dom := s.dom.(pid := NO_PID, status := ShutOff), known := true))
  {
  }

  lemma PeerSaveDomainSlot(peer: Node, ds: DomainStatus)
    ensures var nds := if ds.coloEnable then ds.(coloStatus := OppositeRole(ds.coloStatus)) else ds;
      var (peer', code) := PeerSaveDomain(peer, ds);
      code == OK && Changed(peer, peer', ds.name, Slot(nds, true, Some(Record(ds.path, NO_PID, false, true, nds.coloStatus))))
  {
  }

  // ---- what every command keeps ----

  /** Memory and save file agree on a domain: a record belongs to a known domain, it says "running" when
      it has a process, and then memory has the same process and says so too. */
  predicate Agreement(s: Slot)
  {
    s.rec.Some? ==>
      && s.known
      && (s.rec.value.running <==> s.rec.value.pid != NO_PID)
      && (s.rec.value.pid != NO_PID ==> s.rec.value.pid > 0 && s.rec.value.pid == s.dom.pid && s.dom.status in {Running, ColoEnabled})
  }

  /** The domain has not become enabled and has not taken one of the two roles. */
  predicate Tamer(before: DomainStatus, after: DomainStatus)
  {
    && (after.coloEnable ==> before.coloEnable)
    && (after.coloStatus == before.coloStatus || after.coloStatus !in {RolePrimary, RoleSecondary})
  }

  predicate QuietMove(s: Slot, t: Slot)
  {
    Tamer(s.dom, t.dom) && (Agreement(s) ==> Agreement(t))
  }

  /** A change that takes no role and keeps memory and save file in agreement. */
  ghost predicate Quiet(me: Node, after: Node)
  {
    forall k: Text :: QuietMove(SlotOf(me, k), SlotOf(after, k))
  }

  lemma QuietChange(me: Node, after: Node, name: Text, s: Slot)
    requires Changed(me, after, name, s) && QuietMove(SlotOf(me, name), s)
    ensures Quiet(me, after)
  {
    forall k: Text
      ensures QuietMove(SlotOf(me, k), SlotOf(after, k))
    {
      if k != name { assert SlotOf(after, k) == SlotOf(me, k); }
    }
  }

  lemma QuietSame(me: Node, after: Node)
    requires SameSlots(me, after)
    ensures Quiet(me, after)
  {
    forall k: Text
      ensures QuietMove(SlotOf(me, k), SlotOf(after, k))
    {
      assert SlotOf(after, k) == SlotOf(me, k);
    }
  }

  lemma QuietThen(me: Node, middle: Node, after: Node)
    requires Quiet(me, middle) && Quiet(middle, after)
    ensures Quiet(me, after)
  {
    forall k: Text
      ensures QuietMove(SlotOf(me, k), SlotOf(after, k))
    {
      assert QuietMove(SlotOf(me, k), SlotOf(middle, k)) && QuietMove(SlotOf(middle, k), SlotOf(after, k));
    }
  }

  lemma TestIsQuiet(me: Node, name: Text)
    ensures Quiet(me, Test(me, name).0)
  {
    TestSlot(me, name);
    hide Test, Changed, Quiet, SlotOf;
    var (me', _) := Test(me, name);
    var s := SlotOf(me, name).(known := true);
    if s.dom.pid == NO_PID || Alive(me, s.dom.pid) {
      QuietChange(me, me', name, s);
    } else {
      QuietChange(me, me', name, Slot(s.dom.(status := ShutOff), true, Unpidded(s.rec)));
    }
  }

  lemma LaunchedIsQuiet(me: Node, name: Text, pid: Pid, status: DomainState)
    requires status in {Running, ColoEnabled}
    ensures Quiet(me, Launched(me, name, pid, status))
  {
    LaunchedSlot(me, name, pid, status);
    hide Launched, Changed, Quiet, SlotOf;
    var s := SlotOf(me, name);
    QuietChange(me, Launched(me, name, pid, status), name, Slot(s.dom.(pid := pid, status := status), true, Pidded(s.rec, pid)));
  }

  lemma TouchIsQuiet(me: Node, name: Text)
    ensures Quiet(me, Touch(me, name))
  {
    TouchSlot(me, name);
    hide Touch, Changed, Quiet, SlotOf;
    QuietChange(me, Touch(me, name), name, SlotOf(me, name).(known := true));
  }

  /** Destroying removes the process from the save file first, and from memory once it is killed. */
  lemma DestroyVmIsQuiet(me: Node, name: Text)
    ensures var (me', code) := DestroyVm(me, name);
      Quiet(me, me') && (code == OK ==> Quiet(me, Stopped(me', name)))
  {
    DestroyVmSlot(me, name);
    var (me', code) := DestroyVm(me, name);
    StoppedSlot(me', name);
    var s := SlotOf(me, name);
    hide DestroyVm, Stopped, Quiet, SlotOf;
    if me' == me {
      QuietSame(me, me);
    } else {
      QuietChange(me, me', name, s.(rec := Unpidded(s.rec)));
      QuietChange(me, Stopped(me', name), name, Slot(s.dom.(pid := NO_PID, status := ShutOff), true, Unpidded(s.rec)));
    }
  }

  lemma CallIsQuiet(me: Node, net: Net, reply: int, peerInit: bool)
    ensures Quiet(me, AfterCall(me, net, reply)) && Quiet(me, AfterCall(me, net, reply).(peerInit := peerInit))
  {
    QuietSame(me, AfterCall(me, net, reply));
    QuietSame(me, AfterCall(me, net, reply).(peerInit := peerInit));
  }

  lemma PeerDestroyIsQuiet(peer: Node, name: Text)
    ensures Quiet(peer, PeerDestroy(peer, name).0)
  {
    hide Touch, Test, DestroyVm, Stopped, Quiet;
    TouchIsQuiet(peer, name);
    TestIsQuiet(peer, name);
    var peer1 := Test(peer, name).0;
    DestroyVmIsQuiet(peer1, name);
    var peer2 := DestroyVm(peer1, name).0;
    QuietThen(peer, peer1, peer2);
    if DestroyVm(peer1, name).1 == OK {
      QuietThen(peer, peer1, Stopped(peer2, name));
    }
    DestroyVmCodes(peer1, name);
  }

  lemma DestroyVmCodes(me: Node, name: Text)
    ensures DestroyVm(me, name).1 in {OK, FAIL}
  {
  }

  lemma DestroyIsQuiet(me: Node, peer: Node, name: Text, net: Net)
    ensures var (me', peer', _) := Destroy(me, peer, name, net); Quiet(me, me') && Quiet(peer, peer')
  {
    hide Test, PeerDestroy, DestroyVm, Stopped, Quiet, AfterCall, Answer, Reaches;
    var me1 := Test(me, name).0;
    TestIsQuiet(me, name);
    PeerDestroyIsQuiet(peer, name);
    QuietSame(peer, peer);
    var reply := PeerDestroy(peer, name).1;
    var me2 := AfterCall(me1, net, reply);
    CallIsQuiet(me1, net, reply, false);
    QuietThen(me, me1, me2);
    QuietThen(me, me1, me2.(peerInit := false));
    KillIsQuiet(me, me1, name);
    KillIsQuiet(me, me2, name);
  }

  lemma KillIsQuiet(me: Node, me1: Node, name: Text)
    requires Quiet(me, me1)
    ensures var (me2, code) := DestroyVm(me1, name);
      code in {OK, FAIL} && Quiet(me, me2) && (code == OK ==> Quiet(me, Stopped(me2, name)))
  {
    DestroyVmIsQuiet(me1, name);
    DestroyVmCodes(me1, name);
    hide DestroyVm, Stopped, Quiet;
    var (me2, code) := DestroyVm(me1, name);
    QuietThen(me, me1, me2);
    if code == OK { QuietThen(me, me1, Stopped(me2, name)); }
  }

  lemma PeerStartIsQuiet(peer: Node, name: Text, colo: bool, m: Machine)
    ensures Quiet(peer, PeerStart(peer, name, colo, m).0)
  {
    var peer1 := Touch(peer, name);
    TouchIsQuiet(peer, name);
    if m.fork.Some? {
      LaunchedIsQuiet(peer1, name, m.fork.value, ColoEnabled);
      QuietThen(peer, peer1, Launched(peer1, name, m.fork.value, ColoEnabled));
    }
    hide Touch, Launched, Quiet;
  }

  lemma PeerSendQmpIsTest(peer: Node, name: Text, role: ColoRole, m: Machine)
    ensures PeerSendQmp(peer, name, role, m).0 == Test(peer, name).0
  {
    hide Test;
  }

  lemma EngageIsQuiet(me: Node, peer: Node, name: Text, role: ColoRole, net: Net, mine: Machine, other: Machine)
    requires mine.conf.Some?
    ensures var (me', peer', _, _) := Engage(me, peer, name, role, net, mine, other); Quiet(me, me') && Quiet(peer, peer')
  {
    hide PeerSendQmp, AfterCall, Answer, Reaches, Quiet, Test, PvmCmds, SvmCmds, Sent, Events;
    var reply := PeerSendQmp(peer, name, OppositeRole(role), other).1;
    PeerSendQmpIsTest(peer, name, OppositeRole(role), other);
    TestIsQuiet(peer, name);
    CallIsQuiet(me, net, reply, false);
    QuietSame(me, me);
    QuietSame(peer, peer);
  }

  /** A start without colo mode records whatever the fork returned, after the domain was found shut off. */
  lemma PlainStartIsQuiet(me: Node, name: Text, m: Machine)
    requires Test(me, name).1 == ShutOff
    ensures Quiet(me, Launched(Test(me, name).0, name, Forked(m), Running))
  {
    TestSlot(me, name);
    var me1 := Test(me, name).0;
    LaunchedSlot(me1, name, Forked(m), Running);
    hide Test, Launched, Quiet, SlotOf;
    var s, t := SlotOf(me, name), SlotOf(me1, name);
    QuietChange(me, Launched(me1, name, Forked(m), Running), name, Slot(t.dom.(pid := Forked(m), status := Running), true, Pidded(t.rec, Forked(m))));
  }

  lemma StartIsQuiet(me: Node, peer: Node, name: Text, colo: bool, net1: Net, net2: Net, mine: Machine, other: Machine)
    ensures var (me', peer', _, _) := Start(me, peer, name, colo, net1, net2, mine, other); Quiet(me, me') && Quiet(peer, peer')
  {
    hide Test, PeerStart, Launched, Engage, AfterCall, Answer, Reaches, Quiet;
    var role, me1 := Domain(me, name).coloStatus, Test(me, name).0;
    TestIsQuiet(me, name);
    QuietSame(peer, peer);
    if Test(me, name).1 == ShutOff { PlainStartIsQuiet(me, name, mine); }
    var (peer1, reply) := PeerStart(peer, name, colo, other);
    PeerStartIsQuiet(peer, name, colo, other);
    var peer' := if Reaches(me1, net1) then peer1 else peer;
    var me2 := AfterCall(me1, net1, reply);
    CallIsQuiet(me1, net1, reply, false);
    QuietThen(me, me1, me2);
    QuietThen(me, me1, me2.(peerInit := false));
    if mine.conf.Some? && mine.fork.Some? {
      var me3 := Launched(me2, name, mine.fork.value, ColoEnabled);
      LaunchedIsQuiet(me2, name, mine.fork.value, ColoEnabled);
      QuietThen(me, me2, me3);
      var (me4, peer4, _, _) := Engage(me3, peer', name, role, net2, mine, other);
      EngageIsQuiet(me3, peer', name, role, net2, mine, other);
      QuietThen(me, me3, me4);
      QuietThen(peer, peer', peer4);
    }
  }

  lemma DefineIsQuiet(me: Node, name: Option<Text>)
    ensures Quiet(me, Define(me, name).0)
  {
    match name
    case None => QuietSame(me, me);
    case Some(n) =>
      var path := me.cs.hostFilePath + n + SUFFIX;
      var ds := DomainStatus(NO_PID, n, ShutOff, false, RoleNone, path);
      QuietChange(me, Define(me, name).0, n, Slot(ds, true, Some(Record(path, NO_PID, false, false, RoleNone))));
  }

  lemma UndefineIsQuiet(me: Node, name: Text)
    ensures Quiet(me, Undefine(me, name).0)
  {
    hide Test;
    TestIsQuiet(me, name);
    var me1 := Test(me, name).0;
    var gone := me1.(saved := me1.saved - {name}, domains := me1.domains - {name});
    QuietChange(me1, gone, name, Slot(DEFAULT_DOMAIN, false, None));
    QuietThen(me, me1, gone);
  }

  lemma DisableIsQuiet(me: Node, name: Text)
    ensures Quiet(me, ColoDisable(me, name).0)
  {
    var s := SlotOf(me, name);
    var rec := if s.rec.Some? then Some(s.rec.value.(coloEnable := false)) else None;
    var (me', code) := ColoDisable(me, name);
    if code == OK {
      QuietChange(me, me', name, Slot(s.dom.(coloEnable := false), true, rec));
    } else {
      QuietSame(me, me);
    }
  }

  lemma FailoverIsQuiet(me: Node, name: Text, qmp: bool)
    ensures Quiet(me, Failover(me, name, qmp).0)
  {
    var s, me' := SlotOf(me, name), Failover(me, name, qmp).0;
    QuietChange(me, me', name, SlotOf(me', name));
  }

  lemma ConnectIsQuiet(me: Node, peer: Node, file: ConfigFile, net: Net)
    ensures var (me', peer', _) := ConnectPeer(me, peer, file, net); Quiet(me, me') && Quiet(peer, peer')
  {
    var (me', peer', _) := ConnectPeer(me, peer, file, net);
    QuietSame(me, me');
    QuietSame(peer, peer');
  }

  lemma AskIsQuiet(me: Node, net: Net)
    ensures Quiet(me, AskReply(me, net).0) && Quiet(me, me)
  {
    CallIsQuiet(me, net, OK, false);
    QuietSame(me, me);
    hide Quiet;
  }

  /** Every command other than enabling is quiet on both daemons. */
  lemma StepIsQuiet(me: Node, peer: Node, cmd: Command)
    requires !cmd.EnableColo?
    ensures var (me', peer', _) := Execute(me, peer, cmd); Quiet(me, me') && Quiet(peer, peer')
  {
    hide ConnectPeer, Define, Undefine, Start, Destroy, ColoDisable, Failover, Test, Quiet;
    QuietSame(peer, peer);
    match cmd
    case Connect(file, net) => ConnectIsQuiet(me, peer, file, net);
    case ShowStatus(net) => AskIsQuiet(me, net);
    case TestConnection(net) => AskIsQuiet(me, net);
    case DefineDomain(definition) => DefineIsQuiet(me, definition);
    case UndefineDomain(name) => UndefineIsQuiet(me, name);
    case StartDomain(name, colo, net1, net2, mine, other) => StartIsQuiet(me, peer, name, colo, net1, net2, mine, other);
    case DestroyDomain(name, net) => DestroyIsQuiet(me, peer, name, net);
    case EnableColo(_, _) =>
    case DisableColo(name) => DisableIsQuiet(me, name);
    case DoFailover(name, qmp) => FailoverIsQuiet(me, name, qmp);
    case TestDomain(name) => TestIsQuiet(me, name);
    case Die(pid) => QuietSame(me, me.(live := me.live - {pid}));
  }

  // ---- enabling ----

  predicate RunsSaved(me: Node, name: Text)
  {
    name in me.saved && me.saved[name].running
  }

  /** The daemon as it makes the call of `ColoEnable`. */
  function Caller(me: Node): Node
  {
    if me.clientInit then me else SetRemoteClient(me)
  }

  /** Whether the call is taken for a success and the save file agrees. */
  predicate Enabled(me: Node, name: Text, net: Net)
  {
    var answer := Answer(Caller(me), net, OK);
    answer.Some? && answer.value >= 0 && !RunsSaved(me, name)
  }

  /** The entry the daemon sends to its peer. */
  function Offer(me: Node, name: Text): DomainStatus
  {
    Domain(me, name).(coloEnable := true, coloStatus := NodeColoRole(me.cs.localStatus))
  }

  /** The domain on the enabling daemon afterwards. */
  function EnabledSlot(me: Node, name: Text, net: Net): Slot
  {
    var s, ds, on := SlotOf(me, name), Offer(me, name), Enabled(me, name, net);
    Slot(ds.(coloEnable := on), true,
         if on && s.rec.Some? then Some(s.rec.value.(coloEnable := true, coloStatus := ds.coloStatus)) else s.rec)
  }

  /** The domain on a peer that got the offer: whatever it was before, it is shut off and enabled now. */
  function TakenSlot(me: Node, name: Text): Slot
  {
    var ds := Offer(me, name);
    var role := OppositeRole(ds.coloStatus);
    Slot(ds.(coloStatus := role), true, Some(Record(ds.path, NO_PID, false, true, role)))
  }

  /** What concluding does, given the entry that was offered. */
  lemma ConcludedIs(me: Node, name: Text, answer: Option<int>)
    requires name in me.domains && me.domains[name].coloEnable
    ensures var (me', code) := ConcludeEnable(me, name, answer);
      var on := answer.Some? && answer.value >= 0 && !RunsSaved(me, name);
      var ds := me.domains[name];
      && code == (if on then OK else FAIL)
      && me'.domains == me.domains[name := ds.(coloEnable := on)]
      && me'.saved == if on && name in me.saved then me.saved[name := me.saved[name].(coloEnable := true, coloStatus := ds.coloStatus)] else me.saved
  {
    assert me.domains[name := me.domains[name]] == me.domains;
  }

  /** The daemon with the offer made and the call done. */
  lemma OfferIsMade(me: Node, name: Text, net: Net)
    ensures var ds := Offer(me, name);
      var me1 := Put(me, name, ds);
      var me2 := if me.clientInit then me1 else SetRemoteClient(me1);
      var me3 := AfterCall(me2, net, OK);
      && me3.domains == me.domains[name := ds] && me3.saved == me.saved
      && Answer(me2, net, OK) == Answer(Caller(me), net, OK) && Reaches(me2, net) == Reaches(Caller(me), net)
  {
  }

  /** What enabling does to the two daemons apart from their domains. */
  lemma EnableCalls(me: Node, peer: Node, name: Text, net: Net)
    requires me.cs.localStatus !in {NodeNone, NodeError}
    ensures var (me', peer', _) := ColoEnable(me, peer, name, net);
      && me'.cs == me.cs && me'.clientInit == me.clientInit && me'.live == me.live
      && me'.pending == AfterCall(Caller(me), net, OK).pending
      && peer'.cs == peer.cs && peer'.clientInit == peer.clientInit && peer'.live == peer.live && peer'.pending == peer.pending
  {
    PeerSaveDomainSlot(peer, Offer(me, name));
    hide Changed;
  }

  lemma EnableUnfolds(me: Node, peer: Node, name: Text, net: Net) returns (offered: Node)
    requires me.cs.localStatus !in {NodeNone, NodeError}
    ensures var ds := Offer(me, name);
      && offered.domains == me.domains[name := ds] && offered.saved == me.saved
      && var (me', code) := ConcludeEnable(offered, name, Answer(Caller(me), net, OK));
         ColoEnable(me, peer, name, net) == (me', if Reaches(Caller(me), net) then PeerSaveDomain(peer, ds).0 else peer, code)
  {
    var ds := Offer(me, name);
    PeerSaveDomainSlot(peer, ds);
    OfferIsMade(me, name, net);
    hide PeerSaveDomain, ConcludeEnable, AfterCall, Answer, Reaches, Changed;
    var me1 := Put(me, name, ds);
    offered := AfterCall(if me.clientInit then me1 else SetRemoteClient(me1), net, OK);
  }

  /** What enabling does to the two daemons. */
  lemma EnableSlots(me: Node, peer: Node, name: Text, net: Net)
    requires me.cs.localStatus !in {NodeNone, NodeError}
    ensures var (me', peer', code) := ColoEnable(me, peer, name, net);
      && code == (if Enabled(me, name, net) then OK else FAIL)
      && Changed(me, me', name, EnabledSlot(me, name, net))
      && if Reaches(Caller(me), net) then Changed(peer, peer', Offer(me, name).name, TakenSlot(me, name)) else peer' == peer
  {
    hide PeerSaveDomain, ColoEnable, Changed, ConcludeEnable, Answer, Reaches, Caller;
    var offered := EnableUnfolds(me, peer, name, net);
    PeerSaveDomainSlot(peer, Offer(me, name));
    ConcludedIs(offered, name, Answer(Caller(me), net, OK));
    IsChanged(me, ConcludeEnable(offered, name, Answer(Caller(me), net, OK)).0, name, EnabledSlot(me, name, net));
  }

  lemma IsChanged(me: Node, after: Node, name: Text, s: Slot)
    requires after.domains == me.domains[name := s.dom] && s.known
    requires after.saved == if s.rec.Some? then me.saved[name := s.rec.value] else me.saved
    requires s.rec.None? ==> name !in me.saved
    ensures Changed(me, after, name, s)
  {
  }
}
