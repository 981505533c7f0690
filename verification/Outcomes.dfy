/** What each command achieves: exactly when it returns 0, and what it then leaves behind on the two daemons. */
module Outcomes {
  import opened Types
  import opened Protocol
  import opened Slots
  import R = RoleSafety
  import S = Starts
  import W = Wiring

  /** What the daemon finds out about a domain by looking for its process. */
  function Status(me: Node, name: Text): DomainState
  {
    var ds := Domain(me, name);
    if ds.pid == NO_PID || !Alive(me, ds.pid) then ShutOff else ds.status
  }

  lemma TestFinds(me: Node, name: Text)
    ensures var (me', status) := Test(me, name);
      && status == Status(me, name) && me' == me.(domains := me'.domains, saved := me'.saved)
      && (forall k: Text :: k != name ==> SlotOf(me', k) == SlotOf(me, k))
      && (status != ShutOff ==> SlotOf(me', name) == SlotOf(me, name).(known := true))
      && (name in me'.saved <==> name in me.saved)
      && Domain(me', name).coloEnable == Domain(me, name).coloEnable && Domain(me', name).coloStatus == Domain(me, name).coloStatus
  {
  }

  // ---- failover ----

  predicate CanFailOver(ds: DomainStatus)
  {
    ds.status != ShutOff && ds.coloEnable && ds.coloStatus in {RolePrimary, RoleSecondary}
  }

  /** A failover succeeds exactly on a domain that is up and enabled in one of the roles, when the monitor
      takes the commands; it then runs plainly and is degraded. A secondary whose monitor refuses is left
      marked, and nothing else changes. */
  lemma FailoverIs(me: Node, name: Text, qmp: bool)
    ensures var s, (me', code) := SlotOf(me, name), Failover(me, name, qmp);
      && code in {OK, FAIL} && (code == OK <==> CanFailOver(s.dom) && qmp)
      && me' == me.(domains := me'.domains)
      && Changed(me, me', name, Slot(
           if code == OK then s.dom.(status := Running, coloStatus := RoleDegrade)
           else if CanFailOver(s.dom) && s.dom.coloStatus == RoleSecondary then s.dom.(coloStatus := RoleFailover)
           else s.dom, true, s.rec))
  {
  }

  // ---- destroying ----

  /** The save file has a process for the domain, and it is alive. */
  predicate Killable(me: Node, name: Text)
  {
    name in me.saved && me.saved[name].pid != NO_PID && Alive(me, me.saved[name].pid)
  }

  predicate PeerDestroys(peer: Node, name: Text)
  {
    Domain(peer, name).coloEnable && Status(peer, name) != ShutOff && Killable(peer, name)
  }

  /** What is left of a domain that has been destroyed. */
  function Gone(s: Slot): Slot
  {
    Slot(s.dom.(pid := NO_PID, status := ShutOff), true, Unpidded(s.rec))
  }

  /** The peer has agreed, or a late success is taken for its agreement. */
  predicate PeerAgrees(me: Node, peer: Node, name: Text, net: Net)
  {
    net == Arrives && if Sends(me) then PeerDestroys(peer, name) else me.pending.reply.Some? && me.pending.reply.value >= 0
  }

  lemma DestroyVmIs(me: Node, name: Text)
    ensures var (me', code) := DestroyVm(me, name);
      && code in {OK, FAIL} && (code == OK <==> Killable(me, name))
      && me' == me.(saved := me'.saved, live := me'.live)
      && (forall k: Text :: k != name ==> SlotOf(me', k) == SlotOf(me, k))
      && Domain(me', name) == Domain(me, name)
      && (code == OK ==>
            && Changed(me, Stopped(me', name), name, Gone(SlotOf(me, name)))
            && Stopped(me', name) == me'.(domains := Stopped(me', name).domains)
            && me'.live == me.live - {me.saved[name].pid})
  {
  }

  lemma PeerDestroyIs(peer: Node, name: Text)
    ensures var (peer', code) := PeerDestroy(peer, name);
      && code in {OK, FAIL} && (code == OK <==> PeerDestroys(peer, name))
      && (forall k: Text :: k != name ==> SlotOf(peer', k) == SlotOf(peer, k))
      && (code == OK ==> Changed(peer, peer', name, Gone(SlotOf(peer, name))) && peer'.live == peer.live - {peer.saved[name].pid})
  {
    TestFinds(peer, name);
    var peer1 := Test(peer, name).0;
    DestroyVmIs(peer1, name);
    hide Test, DestroyVm, Stopped;
  }

  lemma CallKeeps(me: Node, net: Net, reply: int)
    ensures var me' := AfterCall(me, net, reply);
      me' == me.(pending := me'.pending) && me'.(peerInit := false) == me.(pending := me'.pending, peerInit := false)
  {
  }

  /** A destroy succeeds exactly on a domain whose recorded process is alive, if it runs plainly, or runs in
      colo mode and the peer agrees. */
  lemma DestroySucceeds(me: Node, peer: Node, name: Text, net: Net)
    ensures Destroy(me, peer, name, net).2 == OK <==>
      Killable(me, name) && (Status(me, name) == Running || (Status(me, name) == ColoEnabled && PeerAgrees(me, peer, name, net)))
  {
    TestFinds(me, name);
    PeerDestroyIs(peer, name);
    var me1, reply := Test(me, name).0, PeerDestroy(peer, name).1;
    CallKeeps(me1, net, reply);
    DestroyVmIs(me1, name);
    DestroyVmIs(AfterCall(me1, net, reply), name);
    hide Test, PeerDestroy, DestroyVm, Stopped, Changed;
  }

  /** A destroy that returns 0 has ended the recorded process and cleared it in memory and file; in colo mode
      the peer has done so too, if the request went out. No other domain changes on either machine. */
  lemma DestroyedIsGone(me: Node, peer: Node, name: Text, net: Net)
    ensures var (me', peer', code) := Destroy(me, peer, name, net);
      && (forall k: Text :: k != name ==> SlotOf(me', k) == SlotOf(me, k) && SlotOf(peer', k) == SlotOf(peer, k))
      && (code == OK ==>
            && Changed(me, me', name, Gone(SlotOf(me, name))) && me'.live == me.live - {me.saved[name].pid}
            && if Status(me, name) == ColoEnabled && Sends(me) then
                 Changed(peer, peer', name, Gone(SlotOf(peer, name))) && peer'.live == peer.live - {peer.saved[name].pid}
               else peer' == peer)
  {
    DestroySucceeds(me, peer, name, net);
    TestFinds(me, name);
    PeerDestroyIs(peer, name);
    var me1, reply := Test(me, name).0, PeerDestroy(peer, name).1;
    CallKeeps(me1, net, reply);
    DestroyVmIs(me1, name);
    DestroyVmIs(AfterCall(me1, net, reply), name);
    hide Test, PeerDestroy, DestroyVm, Stopped;
  }

  // ---- connecting ----

  /** A connect succeeds exactly with a complete config, on a socket with no reply outstanding, when request
      and reply arrive. */
  lemma ConnectIs(me: Node, peer: Node, file: ConfigFile, net: Net)
    ensures var (me', peer', code) := ConnectPeer(me, peer, file, net);
      && code in {OK, FAIL} && (code == OK <==> W.Complete(file) && Sends(me) && net == Arrives)
      && me'.peerInit == (me.peerInit || code == OK) && me'.clientInit == (me.clientInit || W.Complete(file))
      && me'.pending == (if !W.Complete(file) then me.pending
                         else if !Sends(me) then Awaiting(None)
                         else match net
                           case Arrives => NothingPending
                           case RequestLost => Awaiting(None)
                           case ReplyLost => Awaiting(Some(OK)))
      && me'.domains == me.domains && me'.saved == me.saved && me'.live == me.live
      && (peer' == if W.Complete(file) && Sends(me) && net != RequestLost
            then peer.(cs := peer'.cs, peerInit := true, pending := if peer.clientInit || Sends(peer) then peer.pending else Awaiting(None))
            else peer)
  {
    W.ConfigIsRead(me.cs, file);
    hide ReadConfig;
  }

  // ---- the remote call ----

  /** The caller hears something: the reply to its request, or one that is outstanding and exists. */
  predicate Hears(me: Node, net: Net)
  {
    net == Arrives && (Sends(me) || me.pending.reply.Some?)
  }

  /** What is left on the socket after a call. */
  function Left(me: Node, net: Net, reply: int): Pending
  {
    if Hears(me, net) then NothingPending
    else if !Sends(me) then me.pending
    else if net == ReplyLost then Awaiting(Some(reply)) else Awaiting(None)
  }

  /** A connection test fails exactly when a connected daemon hears nothing, which ends the connection; showing
      the status has the same effect and succeeds whatever it hears. */
  lemma ConnectTestIs(me: Node, net: Net)
    ensures var (me', code) := ConnectTest(me, net);
      && code in {OK, FAIL} && (code == OK <==> me.peerInit ==> Hears(me, net))
      && me' == me.(peerInit := me'.peerInit, pending := me'.pending)
      && (me'.peerInit <==> me.peerInit && Hears(me, net))
      && (me'.pending == if !me.peerInit || (!Sends(me) && !Hears(me, net)) then me.pending
                         else if Hears(me, net) then NothingPending
                         else if net == ReplyLost then Awaiting(Some(OK)) else Awaiting(None))
      && ConnectStatus(me, net) == (me', if me.peerInit then OK else FAIL)
  {
  }

  /** The socket is renewed before the first call of a client that has none. */
  predicate HearsYes(me: Node, net: Net)
  {
    net == Arrives && (Sends(me) || (me.clientInit && me.pending.reply.Some? && me.pending.reply.value >= 0))
  }

  /** Enabling succeeds exactly on a connected daemon that hears a success and has the domain shut off in its
      file. The domain then has the role of the daemon in memory and file; otherwise it is not enabled and the
      file is as it was. The peer, if the request gets there, has it in the other role, recorded anew. */
  lemma EnableIs(me: Node, peer: Node, name: Text, net: Net)
    ensures var (me', peer', code) := ColoEnable(me, peer, name, net);
      var s, linked := SlotOf(me, name), me.cs.localStatus in {NodePrimary, NodeSecondary};
      var (mine, other) := if me.cs.localStatus == NodePrimary then (RolePrimary, RoleSecondary) else (RoleSecondary, RolePrimary);
      && code in {OK, FAIL} && (code == OK <==> linked && HearsYes(me, net) && (s.rec.Some? ==> !s.rec.value.running))
      && (linked ==> Changed(me, me', name, Slot(
           s.dom.(coloEnable := code == OK, coloStatus := mine), true,
           if code == OK && s.rec.Some? then Some(s.rec.value.(coloEnable := true, coloStatus := mine)) else s.rec)))
      && (!linked ==> me' == me)
      && me' == me.(domains := me'.domains, saved := me'.saved, peerInit := me'.peerInit, pending := me'.pending)
      && (linked ==> (me'.peerInit <==> me.peerInit && Hears(me, net) && (Sends(me) || me.clientInit)))
      && (linked ==> me'.pending == if !Sends(me) && !me.clientInit then Awaiting(None) else Left(me, net, OK))
      && peer' == peer.(domains := peer'.domains, saved := peer'.saved)
      && if linked && Sends(me) && net != RequestLost then
           Changed(peer, peer', s.dom.name, Slot(
             s.dom.(coloEnable := true, coloStatus := other), true, Some(Record(s.dom.path, NO_PID, false, true, other))))
         else peer' == peer
  {
    EnableSpares(me, peer, name, net);
    if me.cs.localStatus in {NodePrimary, NodeSecondary} {
      EnableSlots(me, peer, name, net);
      EnableParts(me, name, net);
      hide ColoEnable, Enabled, EnabledSlot, TakenSlot, Offer, Caller, Reaches, Changed;
    } else {
      assert ColoEnable(me, peer, name, net) == (me, peer, FAIL);
      hide ColoEnable, Changed;
    }
  }

  lemma EnableSpares(me: Node, peer: Node, name: Text, net: Net)
    ensures var (me', peer', _) := ColoEnable(me, peer, name, net);
      var linked := me.cs.localStatus in {NodePrimary, NodeSecondary};
      && me' == me.(domains := me'.domains, saved := me'.saved, peerInit := me'.peerInit, pending := me'.pending)
      && (linked ==> (me'.peerInit <==> me.peerInit && Hears(me, net) && (Sends(me) || me.clientInit)))
      && (linked ==> me'.pending == if !Sends(me) && !me.clientInit then Awaiting(None) else Left(me, net, OK))
      && peer' == peer.(domains := peer'.domains, saved := peer'.saved)
  {
    if me.cs.localStatus in {NodePrimary, NodeSecondary} {
      hide *;
      var ds := Offer(me, name);
      EnableSteps(me, peer, name, net);
      PeerSaveDomainSpares(peer, ds);
      OfferSpares(me, name, ds, net);
      ConcludeSpares(AfterCall(Caller(Put(me, name, ds)), net, OK), name, Answer(Caller(Put(me, name, ds)), net, OK));
    } else {
      assert ColoEnable(me, peer, name, net) == (me, peer, FAIL);
      hide ColoEnable;
    }
  }

  lemma EnableSteps(me: Node, peer: Node, name: Text, net: Net)
    requires me.cs.localStatus in {NodePrimary, NodeSecondary}
    ensures var ds := Offer(me, name);
      var called := Caller(Put(me, name, ds));
      var (me', peer', _) := ColoEnable(me, peer, name, net);
      && me' == ConcludeEnable(AfterCall(called, net, OK), name, Answer(called, net, OK)).0
      && peer' == if Reaches(called, net) then PeerSaveDomain(peer, ds).0 else peer
  {
    PeerSaveDomainSlot(peer, Offer(me, name));
    hide PeerSaveDomain, ConcludeEnable, AfterCall, Answer, Reaches, Changed, SetRemoteClient;
  }

  lemma OfferSpares(me: Node, name: Text, ds: DomainStatus, net: Net)
    ensures var called := Caller(Put(me, name, ds));
      var after := AfterCall(called, net, OK);
      && after == me.(domains := after.domains, pending := after.pending)
      && after.pending == (if !Sends(me) && !me.clientInit then Awaiting(None) else Left(me, net, OK))
      && (Answer(called, net, OK).Some? <==> Hears(me, net) && (Sends(me) || me.clientInit))
  {
  }

  lemma PeerSaveDomainSpares(peer: Node, ds: DomainStatus)
    ensures var peer' := PeerSaveDomain(peer, ds).0; peer' == peer.(domains := peer'.domains, saved := peer'.saved)
  {
  }

  lemma ConcludeSpares(me: Node, name: Text, answer: Option<int>)
    ensures var me' := ConcludeEnable(me, name, answer).0;
      && me' == me.(domains := me'.domains, saved := me'.saved, peerInit := me'.peerInit)
      && (me'.peerInit <==> me.peerInit && answer.Some?)
  {
  }

  lemma TestSpares(me: Node, name: Text)
    ensures var (me', status) := Test(me, name);
      && status == Status(me, name) && me' == me.(domains := me'.domains, saved := me'.saved) && (name in me'.saved <==> name in me.saved)
      && Domain(me', name).coloEnable == Domain(me, name).coloEnable && Domain(me', name).coloStatus == Domain(me, name).coloStatus
  {
  }

  lemma DestroyVmSpares(me: Node, name: Text)
    ensures var me' := DestroyVm(me, name).0; me' == me.(saved := me'.saved, live := me'.live)
  {
  }

  /** A destroy calls the peer exactly for a domain in colo mode; when it hears nothing the connection is over. */
  lemma DestroyNotices(me: Node, peer: Node, name: Text, net: Net)
    ensures var (me', peer', _) := Destroy(me, peer, name, net);
      var asked := Status(me, name) == ColoEnabled;
      && me' == me.(domains := me'.domains, saved := me'.saved, live := me'.live, peerInit := me'.peerInit, pending := me'.pending)
      && (me'.peerInit <==> me.peerInit && (asked ==> Hears(me, net)))
      && me'.pending == (if asked then Left(me, net, if PeerDestroys(peer, name) then OK else FAIL) else me.pending)
      && peer' == peer.(domains := peer'.domains, saved := peer'.saved, live := peer'.live)
  {
    TestSpares(me, name);
    PeerDestroyCode(peer, name);
    PeerDestroySpares(peer, name);
    var me1, reply := Test(me, name).0, PeerDestroy(peer, name).1;
    DestroyVmSpares(me1, name);
    DestroyVmSpares(AfterCall(me1, net, reply), name);
    hide Test, PeerDestroy, DestroyVm, PeerDestroys, Status;
  }

  lemma PeerDestroySpares(peer: Node, name: Text)
    ensures var peer' := PeerDestroy(peer, name).0; peer' == peer.(domains := peer'.domains, saved := peer'.saved, live := peer'.live)
  {
    TestSpares(peer, name);
    DestroyVmSpares(Test(peer, name).0, name);
    hide Test, DestroyVm, Status;
  }

  lemma PeerDestroyCode(peer: Node, name: Text)
    ensures PeerDestroy(peer, name).1 == if PeerDestroys(peer, name) then OK else FAIL
  {
    PeerDestroyIs(peer, name);
    hide PeerDestroy, PeerDestroys, Changed, SlotOf;
  }

  lemma EnableParts(me: Node, name: Text, net: Net)
    requires me.cs.localStatus in {NodePrimary, NodeSecondary}
    ensures var s := SlotOf(me, name);
      var (mine, other) := if me.cs.localStatus == NodePrimary then (RolePrimary, RoleSecondary) else (RoleSecondary, RolePrimary);
      var on := HearsYes(me, net) && (s.rec.Some? ==> !s.rec.value.running);
      && Enabled(me, name, net) == on && Offer(me, name).name == s.dom.name
      && EnabledSlot(me, name, net) == Slot(s.dom.(coloEnable := on, coloStatus := mine), true,
           if on && s.rec.Some? then Some(s.rec.value.(coloEnable := true, coloStatus := mine)) else s.rec)
      && TakenSlot(me, name) == Slot(s.dom.(coloEnable := true, coloStatus := other), true, Some(Record(s.dom.path, NO_PID, false, true, other)))
      && (Reaches(Caller(me), net) <==> Sends(me) && net != RequestLost)
  {
  }

  // ---- defining, undefining, disabling ----

  /** A readable definition gives a shut-off domain without a role, in memory and file, with the path of its
      copy; whatever had the name before is overwritten. */
  lemma DefineIs(me: Node, name: Option<Text>)
    ensures var (me', code) := Define(me, name);
      && code in {OK, FAIL} && (code == OK <==> name.Some?)
      && me' == me.(domains := me'.domains, saved := me'.saved)
      && match name
         case None => me' == me
         case Some(n) =>
           var path := me.cs.hostFilePath + n + [46, 121, 97, 109, 108];
           Changed(me, me', n, Slot(DomainStatus(NO_PID, n, ShutOff, false, RoleNone, path), true,
             Some(Record(path, NO_PID, false, false, RoleNone))))
  {
  }

  /** Undefining succeeds exactly on a domain that is not up, and forgets it in memory and file. */
  lemma UndefineIs(me: Node, name: Text)
    ensures var (me', code) := Undefine(me, name);
      && code in {OK, FAIL} && (code == OK <==> Status(me, name) == ShutOff)
      && me' == me.(domains := me'.domains, saved := me'.saved)
      && Changed(me, me', name, if code == OK then Slot(DEFAULT_DOMAIN, false, None) else SlotOf(me, name).(known := true))
  {
    TestFinds(me, name);
    hide Test;
  }

  /** Undefining what was just defined under an unknown name leaves every domain as it was. */
  lemma DefineThenUndefine(me: Node, name: Text)
    requires name !in me.domains && name !in me.saved
    ensures var (me1, code1) := Define(me, Some(name));
      var (me2, code2) := Undefine(me1, name);
      code1 == OK && code2 == OK && SameSlots(me, me2)
  {
    DefineIs(me, Some(name));
    var me1 := Define(me, Some(name)).0;
    UndefineIs(me1, name);
    R.SlotDomain(me1, name);
    hide Define, Undefine;
  }

  /** Disabling succeeds exactly when the file does not say that the domain runs, and clears the enabling in
      memory and file; the role stays. */
  lemma DisableIs(me: Node, name: Text)
    ensures var s, (me', code) := SlotOf(me, name), ColoDisable(me, name);
      && code in {OK, FAIL} && (code == OK <==> !RunsSaved(me, name))
      && me' == me.(domains := me'.domains, saved := me'.saved)
      && if code == FAIL then me' == me
         else Changed(me, me', name, Slot(s.dom.(coloEnable := false), true,
           if s.rec.Some? then Some(s.rec.value.(coloEnable := false)) else None))
  {
  }

  // ---- starting ----

  /** A plain start succeeds exactly on a saved domain that is not up and whose definition can be read; the
      process is entered in memory, and in the file if there is one. */
  lemma PlainStartIs(me: Node, peer: Node, name: Text, net1: Net, net2: Net, mine: Machine, other: Machine)
    ensures var (me', peer', code, log) := Start(me, peer, name, false, net1, net2, mine, other);
      && log == [] && peer' == peer
      && (code == OK <==> Status(me, name) == ShutOff && name in me.saved && mine.conf.Some?)
      && (code == OK ==>
            var pid := if mine.fork.Some? then mine.fork.value else NO_PID;
            && Domain(me', name).pid == pid && Domain(me', name).status == Running
            && name in me'.saved && (pid > 0 ==> me'.saved[name].pid == pid && me'.saved[name].running && pid in me'.live))
  {
    TestFinds(me, name);
    LaunchedSlot(Test(me, name).0, name, Forked(mine), Running);
    hide Test, Launched;
  }

  predicate PeerStarts(peer: Node, name: Text, m: Machine)
  {
    Domain(peer, name).coloEnable && name in peer.saved && m.conf.Some? && m.fork.Some?
  }

  lemma PeerStartIs(peer: Node, name: Text, m: Machine)
    ensures var (peer', code) := PeerStart(peer, name, true, m);
      && code in {OK, FAIL} && (code == OK <==> PeerStarts(peer, name, m))
      && (code == OK ==> Status(peer', name) == ColoEnabled && name in peer'.saved && Domain(peer', name).coloEnable)
  {
    if m.fork.Some? {
      LaunchedSlot(Touch(peer, name), name, m.fork.value, ColoEnabled);
      R.SlotDomain(PeerStart(peer, name, true, m).0, name);
    }
    hide Launched;
  }

  lemma PeerSendIs(peer: Node, name: Text, role: ColoRole, m: Machine)
    requires Status(peer, name) != ShutOff && name in peer.saved && m.conf.Some?
    ensures PeerSendQmp(peer, name, role, m).1 == if role == RolePrimary || (role == RoleSecondary && m.qmp.ok) then OK else FAIL
  {
    TestFinds(peer, name);
    hide Test, SvmCmds, Sent;
  }

  /** The second half of a start with nothing outstanding, when the peer has its process. */
  lemma EngageIs(me: Node, peer: Node, name: Text, role: ColoRole, net: Net, mine: Machine, other: Machine)
    requires mine.conf.Some? && other.conf.Some? && Sends(me) && role in {RolePrimary, RoleSecondary}
    requires Status(peer, name) != ShutOff && name in peer.saved
    ensures Engage(me, peer, name, role, net, mine, other).2 == OK <==>
      net == Arrives && mine.qmp.ok && (role == RolePrimary ==> other.qmp.ok)
  {
    PeerSendIs(peer, name, OppositeRole(role), other);
    hide PeerSendQmp, PvmCmds, SvmCmds, Sent, Events;
  }

  /** A colo start of a domain enabled in a role, with nothing outstanding, succeeds exactly when the domain
      is not up here, both machines can launch it, the peer has it enabled, the two calls come through, and
      the monitors that are sent commands take them. */
  lemma ColoStartSucceeds(me: Node, peer: Node, name: Text, net1: Net, net2: Net, mine: Machine, other: Machine)
    requires Sends(me) && Domain(me, name).coloEnable && Domain(me, name).coloStatus in {RolePrimary, RoleSecondary}
    ensures Start(me, peer, name, true, net1, net2, mine, other).2 == OK <==>
      && Status(me, name) == ShutOff && name in me.saved && mine.conf.Some? && mine.fork.Some? && mine.qmp.ok
      && PeerStarts(peer, name, other) && (Domain(me, name).coloStatus == RolePrimary ==> other.qmp.ok)
      && net1 == Arrives && net2 == Arrives
  {
    TestFinds(me, name);
    var role, me1 := Domain(me, name).coloStatus, Test(me, name).0;
    var (peer1, reply) := PeerStart(peer, name, true, other);
    PeerStartIs(peer, name, other);
    CallKeeps(me1, net1, reply);
    var me2 := AfterCall(me1, net1, reply);
    hide Test, PeerStart, Launched, Engage;
    if mine.conf.Some? && mine.fork.Some? && reply == OK && net1 == Arrives {
      LaunchedSlot(me2, name, mine.fork.value, ColoEnabled);
      EngageIs(Launched(me2, name, mine.fork.value, ColoEnabled), peer1, name, role, net2, mine, other);
    }
  }

  /** The second call of a start is made. */
  predicate AsksAgain(me: Node, peer: Node, name: Text, net1: Net, mine: Machine, other: Machine)
  {
    && (if Sends(me) then PeerStarts(peer, name, other) else me.pending.reply.Some? && me.pending.reply.value >= 0)
    && net1 == Arrives && mine.fork.Some?
    && (Domain(me, name).coloStatus == RolePrimary || (Domain(me, name).coloStatus == RoleSecondary && mine.qmp.ok))
  }

  /** A colo start that hears nothing from either call takes the connection for over. */
  lemma StartNotices(me: Node, peer: Node, name: Text, net1: Net, net2: Net, mine: Machine, other: Machine)
    ensures var (me', _, _, _) := Start(me, peer, name, true, net1, net2, mine, other);
      var asked := Status(me, name) == ShutOff && name in me.saved && mine.conf.Some? && Domain(me, name).coloEnable;
      && me'.cs == me.cs && me'.clientInit == me.clientInit
      && (me'.peerInit <==>
            && me.peerInit && (asked ==> Hears(me, net1))
            && (asked && AsksAgain(me, peer, name, net1, mine, other) ==> net2 == Arrives))
  {
    hide *;
    var (me1, status) := Test(me, name);
    var (started, reply) := PeerStart(peer, name, true, other);
    var me2 := AfterCall(me1, net1, reply);
    TestSpares(me, name);
    StartSteps(me, peer, name, net1, net2, mine, other);
    PeerStartCode(peer, name, other);
    CallHears(me1, net1, reply);
    HearsSame(me, me1, net1);
    AsksIs(me, peer, name, net1, mine, other);
    if mine.conf.Some? && mine.fork.Some? {
      var me3 := Launched(me2, name, mine.fork.value, ColoEnabled);
      LaunchedSpares(me2, name, mine.fork.value);
      EngageNotices(me3, if Reaches(me1, net1) then started else peer, name, Domain(me, name).coloStatus, net2, mine, other);
      HearsFree(me3, net2);
    }
  }

  lemma StartSteps(me: Node, peer: Node, name: Text, net1: Net, net2: Net, mine: Machine, other: Machine)
    ensures var (me1, status) := Test(me, name);
      var (started, reply) := PeerStart(peer, name, true, other);
      var me2, answer := AfterCall(me1, net1, reply), Answer(me1, net1, reply);
      Start(me, peer, name, true, net1, net2, mine, other).0 ==
        if status != ShutOff || name !in me1.saved || mine.conf.None? || !Domain(me1, name).coloEnable then me1
        else if answer.None? then me2.(peerInit := false)
        else if answer.value < 0 || mine.fork.None? then me2
        else Engage(Launched(me2, name, mine.fork.value, ColoEnabled), if Reaches(me1, net1) then started else peer, name,
                    Domain(me, name).coloStatus, net2, mine, other).0
  {
    hide Test, PeerStart, AfterCall, Answer, Reaches, Engage, Launched, Domain;
  }

  lemma CallHears(me: Node, net: Net, reply: int)
    ensures var me', answer := AfterCall(me, net, reply), Answer(me, net, reply);
      && me' == me.(pending := Left(me, net, reply)) && (answer.Some? <==> Hears(me, net))
      && (answer.Some? ==> me'.pending == NothingPending && answer.value == if Sends(me) then reply else me.pending.reply.value)
  {
  }

  lemma HearsSame(me: Node, me': Node, net: Net)
    requires me'.pending == me.pending
    ensures (Hears(me', net) <==> Hears(me, net)) && (Sends(me') <==> Sends(me))
  {
  }

  lemma HearsFree(me: Node, net: Net)
    ensures me.pending == NothingPending ==> (Hears(me, net) <==> net == Arrives)
  {
  }

  lemma AsksIs(me: Node, peer: Node, name: Text, net1: Net, mine: Machine, other: Machine)
    ensures AsksAgain(me, peer, name, net1, mine, other) <==>
      && Hears(me, net1) && (if Sends(me) then PeerStarts(peer, name, other) else me.pending.reply.value >= 0) && mine.fork.Some?
      && (Domain(me, name).coloStatus == RolePrimary || (Domain(me, name).coloStatus == RoleSecondary && mine.qmp.ok))
  {
    hide PeerStarts, Domain;
  }

  lemma PeerStartCode(peer: Node, name: Text, m: Machine)
    ensures PeerStart(peer, name, true, m).1 >= 0 <==> PeerStarts(peer, name, m)
  {
    PeerStartIs(peer, name, m);
    hide PeerStart, PeerStarts;
  }

  lemma LaunchedSpares(me: Node, name: Text, pid: int)
    ensures var me' := Launched(me, name, pid, ColoEnabled); me' == me.(domains := me'.domains, saved := me'.saved, live := me'.live)
  {
  }

  lemma EngageNotices(me: Node, peer: Node, name: Text, role: ColoRole, net: Net, mine: Machine, other: Machine)
    requires mine.conf.Some?
    ensures var me' := Engage(me, peer, name, role, net, mine, other).0;
      && me'.cs == me.cs && me'.clientInit == me.clientInit
      && (me'.peerInit <==> me.peerInit && (role == RolePrimary || (role == RoleSecondary && mine.qmp.ok) ==> Hears(me, net)))
  {
    hide PeerSendQmp, PvmCmds, SvmCmds;
  }

  // ---- a whole life ----

  predicate SameRole(was: DomainStatus, now: DomainStatus)
  {
    now.coloEnable == was.coloEnable && now.coloStatus == was.coloStatus && now.name == was.name
  }

  lemma TestKeepsRole(me: Node, name: Text)
    ensures SameRole(Domain(me, name), Domain(Test(me, name).0, name))
  {
  }

  lemma LaunchedKeepsRole(me: Node, name: Text, pid: int, status: DomainState)
    ensures SameRole(Domain(me, name), Domain(Launched(me, name, pid, status), name))
  {
  }

  lemma PeerStartKeepsRole(peer: Node, name: Text, colo: bool, m: Machine)
    ensures SameRole(Domain(peer, name), Domain(PeerStart(peer, name, colo, m).0, name))
  {
    if m.fork.Some? { LaunchedKeepsRole(Touch(peer, name), name, m.fork.value, ColoEnabled); }
    hide Launched;
  }

  lemma EngageKeepsRole(me: Node, peer: Node, name: Text, role: ColoRole, net: Net, mine: Machine, other: Machine)
    requires mine.conf.Some?
    ensures var (me', peer', _, _) := Engage(me, peer, name, role, net, mine, other);
      SameRole(Domain(me, name), Domain(me', name)) && SameRole(Domain(peer, name), Domain(peer', name))
  {
    PeerSendQmpIsTest(peer, name, OppositeRole(role), other);
    TestKeepsRole(peer, name);
    hide Test, PeerSendQmp, PvmCmds, SvmCmds, Sent, Events;
  }

  /** No start changes a role. */
  lemma StartKeepsRole(me: Node, peer: Node, name: Text, colo: bool, net1: Net, net2: Net, mine: Machine, other: Machine)
    ensures var (me', peer', _, _) := Start(me, peer, name, colo, net1, net2, mine, other);
      SameRole(Domain(me, name), Domain(me', name)) && SameRole(Domain(peer, name), Domain(peer', name))
  {
    var me1 := Test(me, name).0;
    TestKeepsRole(me, name);
    LaunchedKeepsRole(me1, name, Forked(mine), Running);
    PeerStartKeepsRole(peer, name, colo, other);
    var (started, reply) := PeerStart(peer, name, colo, other);
    var me2 := AfterCall(me1, net1, reply);
    if mine.fork.Some? && mine.conf.Some? {
      LaunchedKeepsRole(me2, name, mine.fork.value, ColoEnabled);
      EngageKeepsRole(Launched(me2, name, mine.fork.value, ColoEnabled), if Reaches(me1, net1) then started else peer,
        name, Domain(me, name).coloStatus, net2, mine, other);
    }
    hide Test, PeerStart, Launched, Engage;
  }

  /** Both machines run the domain in colo mode, `a` as the primary. */
  predicate Paired(a: Node, b: Node, name: Text)
  {
    && S.Engaged(a, name) && R.Plays(a, name, RolePrimary) && S.Engaged(b, name) && R.Plays(b, name, RoleSecondary)
    && Sends(a) && Sends(b)
  }

  /** A defined name enabled between two connected daemons. */
  lemma EnabledPair(me: Node, peer: Node, name: Text)
    requires me.cs.localStatus == NodePrimary && me.clientInit && Sends(me) && Sends(peer)
    requires Domain(me, name).name == name && Domain(me, name).pid == NO_PID && name in me.saved && !me.saved[name].running
    ensures var (me', peer', code) := ColoEnable(me, peer, name, Arrives);
      && code == OK && Sends(me') && Sends(peer')
      && R.Plays(me', name, RolePrimary) && Domain(me', name).pid == NO_PID && name in me'.saved
      && R.Plays(peer', name, RoleSecondary) && Domain(peer', name).pid == NO_PID && name in peer'.saved
  {
    EnableSlots(me, peer, name, Arrives);
    EnableCalls(me, peer, name, Arrives);
    var (me', peer', code) := ColoEnable(me, peer, name, Arrives);
    hide ColoEnable;
    R.SlotDomain(me', name);
    R.SlotDomain(peer', name);
  }

  lemma EngagedIsKillable(me: Node, name: Text)
    requires S.Engaged(me, name)
    ensures Killable(me, name) && Status(me, name) == ColoEnabled
  {
  }

  /** Once enabled, a start without losses pairs the machines. */
  lemma StartPairs(me: Node, peer: Node, name: Text)
    requires Sends(me) && Sends(peer) && name in me.saved && name in peer.saved && Domain(me, name).pid == NO_PID
    requires R.Plays(me, name, RolePrimary) && R.Plays(peer, name, RoleSecondary)
    ensures var (me', peer', code, _) := Start(me, peer, name, true, Arrives, Arrives, S.WORKING, S.WORKING);
      code == OK && Paired(me', peer', name)
  {
    ColoStartSucceeds(me, peer, name, Arrives, Arrives, S.WORKING, S.WORKING);
    S.FreeGuard(me, name);
    S.GuardedStart(me, peer, name, Arrives, Arrives, S.WORKING, S.WORKING);
    StartKeepsRole(me, peer, name, true, Arrives, Arrives, S.WORKING, S.WORKING);
    S.StartStaysFree(me, peer, name, true, S.WORKING, S.WORKING);
    hide Start, S.Engaged, S.StartGuard;
  }

  /** A pair that is destroyed from one side is gone on both. */
  lemma PairIsDestroyed(me: Node, peer: Node, name: Text)
    requires S.Engaged(me, name) && S.Engaged(peer, name) && Sends(me) && Domain(peer, name).coloEnable
    ensures var (me', peer', code) := Destroy(me, peer, name, Arrives);
      && code == OK && Status(me', name) == ShutOff && Status(peer', name) == ShutOff
      && Domain(me, name).pid !in me'.live && Domain(peer, name).pid !in peer'.live
      && !RunsSaved(me', name) && !RunsSaved(peer', name)
  {
    EngagedIsKillable(me, name);
    EngagedIsKillable(peer, name);
    DestroySucceeds(me, peer, name, Arrives);
    DestroyedIsGone(me, peer, name, Arrives);
    var (me', peer', _) := Destroy(me, peer, name, Arrives);
    R.SlotDomain(me', name);
    R.SlotDomain(peer', name);
    hide Destroy;
  }

  /** Either half of a pair can fail over, and then runs on its own. */
  lemma HalfFailsOver(me: Node, name: Text)
    requires S.Engaged(me, name) && Domain(me, name).coloEnable && Domain(me, name).coloStatus in {RolePrimary, RoleSecondary}
    ensures var (me', code) := Failover(me, name, true);
      code == OK && Status(me', name) == Running && Domain(me', name).coloStatus == RoleDegrade && Killable(me', name)
  {
    FailoverIs(me, name, true);
    R.SlotDomain(Failover(me, name, true).0, name);
    hide Failover;
  }

  /** From two fresh daemons four commands pair the machines; then the pair can be destroyed, or fail over on
      one side and on the other. */
  lemma LifeRun(w: World, name: Text)
    requires Initial(w)
    ensures var program: Program :=
        [(A, DefineDomain(Some(name))), (A, Connect(R.PRIMARY, Arrives)), (A, EnableColo(name, Arrives)),
         (A, StartDomain(name, true, Arrives, Arrives, S.WORKING, S.WORKING))];
      var pair := After(w, program, 4);
      && Paired(pair.a, pair.b, name)
      && Code(pair, A, DestroyDomain(name, Arrives)) == OK
      && Code(pair, B, DoFailover(name, true)) == OK && Code(Step(pair, B, DoFailover(name, true)), A, DoFailover(name, true)) == OK
  {
    var program: Program :=
      [(A, DefineDomain(Some(name))), (A, Connect(R.PRIMARY, Arrives)), (A, EnableColo(name, Arrives)),
       (A, StartDomain(name, true, Arrives, Arrives, S.WORKING, S.WORKING))];
    hide ConnectPeer, ColoEnable, Start, Destroy, Failover, S.Engaged;
    assert After(w, program, 0) == w;
    AfterStep(w, program, 0);
    AfterStep(w, program, 1);
    AfterStep(w, program, 2);
    AfterStep(w, program, 3);
    var w1, w2, w3, w4 := After(w, program, 1), After(w, program, 2), After(w, program, 3), After(w, program, 4);
    hide After;
    R.ConnectAsPrimary(w1.a, w1.b);
    EnabledPair(w2.a, w2.b, name);
    StartPairs(w3.a, w3.b, name);
    PairIsDestroyed(w4.a, w4.b, name);
    HalfFailsOver(w4.b, name);
    HalfFailsOver(w4.a, name);
  }
}
