/** What a start in colo mode achieves: the order of the monitor commands, when success means that both
    machines are engaged, and the addresses they use. */
module Starts {
  import opened Types
  import opened Protocol
  import opened Slots
  import R = RoleSafety
  import W = Wiring

  /** The domain runs in colo mode: its process is alive, and memory and file know it. */
  predicate Engaged(me: Node, name: Text)
  {
    var s := SlotOf(me, name);
    && s.dom.status == ColoEnabled && s.dom.pid > 0 && s.dom.pid in me.live
    && s.rec.Some? && s.rec.value.pid == s.dom.pid && s.rec.value.running
  }

  lemma LaunchedEngages(me: Node, name: Text, pid: Pid)
    requires name in me.saved
    ensures Engaged(Launched(me, name, pid, ColoEnabled), name)
  {
    LaunchedSlot(me, name, pid, ColoEnabled);
  }

  predicate Migrates(log: seq<Event>)
  {
    exists i :: 0 <= i < |log| && log[i].cmd.Migrate?
  }

  /** Where the secondary of a domain is, as a daemon sees it that has the domain in `role`. */
  function SecondaryAt(cs: ColoStatus, role: ColoRole): Text
  {
    if role == RolePrimary then cs.peerIp else cs.hostIp
  }

  /** All that gets a secondary ready to serve its disk, in order. */
  function ServeDisk(host: Text, port: nat): seq<Cmd>
  {
    [Capabilities, NbdServerStart(host, port), NbdServerAdd, SetBandwidth]
  }

  /** All that attaches the disk of the secondary to a primary and starts the migration, in order. */
  function AttachAndMigrate(host: Text, disk: nat, migration: nat): seq<Cmd>
  {
    [Capabilities, DriveAdd(host, disk), BlockdevChange, SetColoCapability, SetBandwidth, Migrate(host, migration)]
  }

  /** The peer's whole set-up for serving its disk. */
  function Setup(peer: Node, name: Text, other: Machine): seq<Event>
    requires other.conf.Some?
  {
    Events(true, ServeDisk(SecondaryAt(peer.cs, Domain(peer, name).coloStatus), other.conf.value.nbd))
  }

  /** Before the migration starts the peer has taken every command of its set-up in this same start. */
  predicate SetupFirst(log: seq<Event>, peer: Node, name: Text, other: Machine)
  {
    forall i :: 0 <= i < |log| && log[i].cmd.Migrate? ==>
      !log[i].onPeer && other.conf.Some? && Setup(peer, name, other) <= log[..i]
  }

  /** What goes out to a monitor: as many commands as it takes. */
  lemma SentIs(cmds: seq<Cmd>, run: QmpRun)
    ensures Sent(cmds, run) <= cmds
    ensures |Sent(cmds, run)| == if run.ok || run.sent > |cmds| then |cmds| else run.sent
  {
  }

  lemma SecondarySends(conf: Config, cs: ColoStatus, role: ColoRole, run: QmpRun)
    ensures var all, cmds := ServeDisk(SecondaryAt(cs, role), conf.nbd), Sent(SvmCmds(conf, cs, role), run);
      cmds <= all && (run.ok ==> cmds == all)
  {
  }

  lemma PrimarySends(conf: Config, cs: ColoStatus, role: ColoRole, run: QmpRun)
    ensures var all, cmds := AttachAndMigrate(SecondaryAt(cs, role), conf.nbd, conf.migrate), Sent(PvmCmds(conf, cs, role), run);
      cmds <= all && (run.ok ==> cmds == all)
  {
  }

  /** What the peer sends and answers when it is asked for its commands: a prefix of its set-up, and the whole
      of it if it answers without error. */
  lemma PeerSends(peer: Node, name: Text, m: Machine)
    ensures var (peer', reply, cmds) := PeerSendQmp(peer, name, RoleSecondary, m);
      && (cmds != [] || reply >= 0 ==> m.conf.Some?)
      && (m.conf.Some? ==>
            var all := ServeDisk(SecondaryAt(peer.cs, Domain(peer, name).coloStatus), m.conf.value.nbd);
            cmds <= all && (reply >= 0 ==> cmds == all))
  {
    TestSlot(peer, name);
    if m.conf.Some? { SecondarySends(m.conf.value, peer.cs, Domain(peer, name).coloStatus, m.qmp); }
    hide Test, SvmCmds, Sent;
  }

  /** All that a start by the primary sends. */
  function Whole(me: Node, peer: Node, name: Text, mine: Machine, other: Machine): seq<Event>
    requires mine.conf.Some? && other.conf.Some?
  {
    var conf := mine.conf.value;
    Setup(peer, name, other)
    + Events(false, AttachAndMigrate(SecondaryAt(me.cs, Domain(me, name).coloStatus), conf.nbd, conf.migrate))
  }

  /** The second half of a start, on a socket with no reply outstanding. */
  lemma EngageOrder(me: Node, peer: Node, name: Text, role: ColoRole, net: Net, mine: Machine, other: Machine)
    requires mine.conf.Some? && Sends(me)
    ensures var (me', peer', code, log) := Engage(me, peer, name, role, net, mine, other);
      && SetupFirst(log, peer, name, other)
      && (code == OK ==> (Migrates(log) <==> role == RolePrimary))
      && (code == OK && role == RolePrimary ==> other.conf.Some? && log == Whole(me, peer, name, mine, other))
      && (code == OK && role in {RolePrimary, RoleSecondary} ==>
            Reaches(me, net) && PeerSendQmp(peer, name, OppositeRole(role), other).1 >= 0)
  {
    var (me', peer', code, log) := Engage(me, peer, name, role, net, mine, other);
    if role == RolePrimary {
      PeerSends(peer, name, other);
      PrimarySends(mine.conf.value, me.cs, Domain(me, name).coloStatus, mine.qmp);
      hide PeerSendQmp, PvmCmds, Sent;
      if code == OK {
        assert log[|log| - 1].cmd.Migrate?;
      }
    } else if role == RoleSecondary {
      SecondarySends(mine.conf.value, me.cs, Domain(me, name).coloStatus, mine.qmp);
      PrimaryKeepsQuiet(peer, name, other);
      hide PeerSendQmp, SvmCmds, Sent;
    }
  }

  /** A peer that is the primary sends nothing. */
  lemma PrimaryKeepsQuiet(peer: Node, name: Text, m: Machine)
    ensures PeerSendQmp(peer, name, RolePrimary, m).2 == []
  {
    hide Test;
  }

  lemma EngageSucceeds(me: Node, peer: Node, name: Text, role: ColoRole, net: Net, mine: Machine, other: Machine)
    requires mine.conf.Some? && Sends(me)
    requires Engaged(me, name) && Engaged(peer, name)
    ensures var (me', peer', code, log) := Engage(me, peer, name, role, net, mine, other);
      code == OK ==> Engaged(me', name) && Engaged(peer', name)
  {
    EngageOrder(me, peer, name, role, net, mine, other);
    PeerSendQmpIsTest(peer, name, OppositeRole(role), other);
    TestSlot(peer, name);
    hide Test, PvmCmds, SvmCmds, Sent, Events;
  }

  lemma PeerStartEngages(peer: Node, name: Text, colo: bool, m: Machine)
    ensures var (peer', reply) := PeerStart(peer, name, colo, m);
      && peer'.cs == peer.cs && Domain(peer', name).coloStatus == Domain(peer, name).coloStatus
      && (reply >= 0 ==> Domain(peer, name).coloEnable && Engaged(peer', name))
  {
    if m.fork.Some? {
      LaunchedSlot(Touch(peer, name), name, m.fork.value, ColoEnabled);
    }
    hide Launched;
  }

  lemma SetupSame(peer: Node, peer1: Node, name: Text, other: Machine, log: seq<Event>)
    requires peer1.cs == peer.cs && Domain(peer1, name).coloStatus == Domain(peer, name).coloStatus
    ensures SetupFirst(log, peer, name, other) <==> SetupFirst(log, peer1, name, other)
    ensures other.conf.Some? ==> Setup(peer, name, other) == Setup(peer1, name, other)
  {
  }

  lemma AnsweredSends(me: Node, net: Net, reply: int)
    ensures Answer(me, net, reply).Some? ==> Sends(AfterCall(me, net, reply))
    ensures var me' := AfterCall(me, net, reply); me'.domains == me.domains && me'.saved == me.saved && me'.cs == me.cs
  {
  }

  lemma TestKeeps(me: Node, name: Text)
    ensures var me' := Test(me, name).0;
      && me'.cs == me.cs && me'.pending == me.pending && (name in me'.saved <==> name in me.saved)
      && Domain(me', name).coloEnable == Domain(me, name).coloEnable && Domain(me', name).coloStatus == Domain(me, name).coloStatus
  {
  }

  lemma LaunchedKeeps(me: Node, name: Text, pid: Pid)
    ensures var me' := Launched(me, name, pid, ColoEnabled);
      me'.cs == me.cs && me'.pending == me.pending && Domain(me', name).coloStatus == Domain(me, name).coloStatus
  {
  }

  /** A colo start either ends before its second half, without a command, or is its second half on a socket
      with no reply outstanding. */
  lemma StartSplits(me: Node, peer: Node, name: Text, net1: Net, net2: Net, mine: Machine, other: Machine)
    returns (me3: Node, peer1: Node, engages: bool)
    ensures peer1.cs == peer.cs && Domain(peer1, name).coloStatus == Domain(peer, name).coloStatus
    ensures engages ==>
      && mine.conf.Some? && mine.fork.Some? && Sends(me3) && me3.cs == me.cs && name in me.saved && Test(me, name).1 == ShutOff
      && Domain(me3, name).coloStatus == Domain(me, name).coloStatus && Domain(me, name).coloEnable
      && Engaged(me3, name)
      && (Sends(me) ==> Domain(peer, name).coloEnable && Engaged(peer1, name))
      && Start(me, peer, name, true, net1, net2, mine, other) == Engage(me3, peer1, name, Domain(me, name).coloStatus, net2, mine, other)
    ensures !engages ==>
      var (me', peer', code, log) := Start(me, peer, name, true, net1, net2, mine, other);
      && log == []
      && (code == OK ==> !Domain(me, name).coloEnable && Test(me, name).1 == ShutOff && name in me.saved && me' == Test(me, name).0)
  {
    hide Test, PeerStart, Launched, Engage, Engaged, Answer, AfterCall, SlotOf;
    TestKeeps(me, name);
    PeerStartEngages(peer, name, true, other);
    var me1, status := Test(me, name).0, Test(me, name).1;
    var (started, reply) := PeerStart(peer, name, true, other);
    peer1 := if Reaches(me1, net1) then started else peer;
    var answer := Answer(me1, net1, reply);
    var me2 := AfterCall(me1, net1, reply);
    AnsweredSends(me1, net1, reply);
    engages := status == ShutOff && name in me1.saved && mine.conf.Some? && Domain(me1, name).coloEnable
      && answer.Some? && answer.value >= 0 && mine.fork.Some?;
    me3 := me2;
    if engages {
      me3 := Launched(me2, name, mine.fork.value, ColoEnabled);
      LaunchedKeeps(me2, name, mine.fork.value);
      LaunchedEngages(me2, name, mine.fork.value);
      AnswerIs(me1, net1, reply);
    }
  }

  lemma AnswerIs(me: Node, net: Net, reply: int)
    ensures Sends(me) && Answer(me, net, reply).Some? ==> Reaches(me, net) && Answer(me, net, reply) == Some(reply)
  {
  }

  /** Whatever is outstanding, lost or refused: in no start does the migration go out before every command
      of the secondary's set-up. */
  lemma SetupBeforeMigration(me: Node, peer: Node, name: Text, colo: bool, net1: Net, net2: Net, mine: Machine, other: Machine)
    ensures SetupFirst(Start(me, peer, name, colo, net1, net2, mine, other).3, peer, name, other)
  {
    hide Test, PeerStart, Launched, Engage, Setup;
    if colo {
      var me3, peer1, engages := StartSplits(me, peer, name, net1, net2, mine, other);
      if engages {
        EngageOrder(me3, peer1, name, Domain(me, name).coloStatus, net2, mine, other);
        SetupSame(peer, peer1, name, other, Start(me, peer, name, true, net1, net2, mine, other).3);
      }
    }
  }

  // ---- the commands, one by one ----

  /** What goes out, in order: on the primary the ten commands of both machines, on the secondary its own four. */
  lemma EngageLog(me: Node, peer: Node, name: Text, role: ColoRole, net: Net, mine: Machine, other: Machine)
    requires mine.conf.Some? && Sends(me) && Domain(me, name).coloStatus == role
    ensures var (me', peer', code, log) := Engage(me, peer, name, role, net, mine, other);
      match role
      case RolePrimary =>
        && (log != [] ==> other.conf.Some?)
        && (other.conf.Some? ==> log <= Whole(me, peer, name, mine, other) && (code == OK ==> log == Whole(me, peer, name, mine, other)))
      case RoleSecondary =>
        var own := Events(false, ServeDisk(me.cs.hostIp, mine.conf.value.nbd));
        log <= own && (code == OK ==> log == own)
      case _ => log == []
  {
    var (me', peer', code, log) := Engage(me, peer, name, role, net, mine, other);
    if role == RolePrimary {
      PeerSends(peer, name, other);
      PrimarySends(mine.conf.value, me.cs, role, mine.qmp);
      hide PeerSendQmp, PvmCmds, Sent;
    } else if role == RoleSecondary {
      SecondarySends(mine.conf.value, me.cs, role, mine.qmp);
      PrimaryKeepsQuiet(peer, name, other);
      hide PeerSendQmp, SvmCmds, Sent;
    }
  }

  lemma SameWhole(me: Node, peer: Node, me1: Node, peer1: Node, name: Text, mine: Machine, other: Machine)
    requires mine.conf.Some? && other.conf.Some?
    requires me1.cs == me.cs && peer1.cs == peer.cs
    requires Domain(me1, name).coloStatus == Domain(me, name).coloStatus && Domain(peer1, name).coloStatus == Domain(peer, name).coloStatus
    ensures Whole(me1, peer1, name, mine, other) == Whole(me, peer, name, mine, other)
  {
  }

  /** In every start, whatever is outstanding, lost or refused, what goes out is the beginning of the one
      sequence for the role of the domain, and all of it if a start of an enabled domain returns 0. */
  lemma StartLog(me: Node, peer: Node, name: Text, net1: Net, net2: Net, mine: Machine, other: Machine)
    ensures var (_, _, code, log) := Start(me, peer, name, true, net1, net2, mine, other);
      var done := code == OK && Domain(me, name).coloEnable;
      match Domain(me, name).coloStatus
      case RolePrimary =>
        && (log != [] || done ==> mine.conf.Some? && other.conf.Some?)
        && (mine.conf.Some? && other.conf.Some? ==>
              log <= Whole(me, peer, name, mine, other) && (done ==> log == Whole(me, peer, name, mine, other)))
      case RoleSecondary =>
        && (log != [] || done ==> mine.conf.Some?)
        && (mine.conf.Some? ==>
              var own := Events(false, ServeDisk(me.cs.hostIp, mine.conf.value.nbd));
              log <= own && (done ==> log == own))
      case _ => log == []
  {
    var role := Domain(me, name).coloStatus;
    var me3, peer1, engages := StartSplits(me, peer, name, net1, net2, mine, other);
    if engages {
      EngageLog(me3, peer1, name, role, net2, mine, other);
      EngageOrder(me3, peer1, name, role, net2, mine, other);
      if other.conf.Some? { SameWhole(me, peer, me3, peer1, name, mine, other); }
      hide Start, Engage, SetupFirst, Engaged, Whole, ServeDisk, Events;
    }
  }

  lemma WholeIs(me: Node, peer: Node, name: Text, mine: Machine, other: Machine)
    requires mine.conf.Some? && other.conf.Some?
    ensures var here, there := SecondaryAt(me.cs, Domain(me, name).coloStatus), SecondaryAt(peer.cs, Domain(peer, name).coloStatus);
      var conf, conf' := mine.conf.value, other.conf.value;
      Whole(me, peer, name, mine, other) ==
        [Event(true, Capabilities), Event(true, NbdServerStart(there, conf'.nbd)), Event(true, NbdServerAdd), Event(true, SetBandwidth),
         Event(false, Capabilities), Event(false, DriveAdd(here, conf.nbd)), Event(false, BlockdevChange),
         Event(false, SetColoCapability), Event(false, SetBandwidth), Event(false, Migrate(here, conf.migrate))]
  {
  }

  lemma ServeIs(host: Text, port: nat)
    ensures Events(false, ServeDisk(host, port)) ==
      [Event(false, Capabilities), Event(false, NbdServerStart(host, port)), Event(false, NbdServerAdd), Event(false, SetBandwidth)]
  {
  }

  /** In no start does the migration go out before the peer has shown its capabilities, started its disk server
      and exported its disk, and before the capabilities are shown here, the remote disk is there and attached,
      and the colo capability is set; in this order. */
  lemma MigrationComesLast(me: Node, peer: Node, name: Text, net1: Net, net2: Net, mine: Machine, other: Machine, k: nat)
    requires var log := Start(me, peer, name, true, net1, net2, mine, other).3; k < |log| && log[k].cmd.Migrate?
    ensures var log := Start(me, peer, name, true, net1, net2, mine, other).3;
      && mine.conf.Some? && other.conf.Some? && k == 9 && |log| == 10
      && log[0] == Event(true, Capabilities)
      && log[1] == Event(true, NbdServerStart(SecondaryAt(peer.cs, Domain(peer, name).coloStatus), other.conf.value.nbd))
      && log[2] == Event(true, NbdServerAdd) && log[3] == Event(true, SetBandwidth)
      && log[4] == Event(false, Capabilities) && log[5] == Event(false, DriveAdd(me.cs.peerIp, mine.conf.value.nbd))
      && log[6] == Event(false, BlockdevChange) && log[7] == Event(false, SetColoCapability)
      && log[8] == Event(false, SetBandwidth) && log[9] == Event(false, Migrate(me.cs.peerIp, mine.conf.value.migrate))
  {
    StartLog(me, peer, name, net1, net2, mine, other);
    hide Start, Whole, ServeDisk, Events;
    if Domain(me, name).coloStatus == RolePrimary {
      WholeIs(me, peer, name, mine, other);
    } else if Domain(me, name).coloStatus == RoleSecondary {
      ServeIs(me.cs.hostIp, mine.conf.value.nbd);
    }
  }

  /** A start by the secondary that returns 0 has got its own disk server ready, in order, and sent nothing else. */
  lemma SecondaryServes(me: Node, peer: Node, name: Text, net1: Net, net2: Net, mine: Machine, other: Machine)
    requires Domain(me, name).coloEnable && Domain(me, name).coloStatus == RoleSecondary
    ensures var (_, _, code, log) := Start(me, peer, name, true, net1, net2, mine, other);
      code == OK ==>
        && mine.conf.Some?
        && log == [Event(false, Capabilities), Event(false, NbdServerStart(me.cs.hostIp, mine.conf.value.nbd)),
             Event(false, NbdServerAdd), Event(false, SetBandwidth)]
  {
    StartLog(me, peer, name, net1, net2, mine, other);
    hide Start, ServeDisk, Events;
    if mine.conf.Some? { ServeIs(me.cs.hostIp, mine.conf.value.nbd); }
  }

  // ---- when success means that both machines are engaged ----

  /** If the start returns 0, both machines run the domain, have it recorded and call it enabled, and the
      migration has started exactly on a start by the primary. */
  ghost predicate Delivers(me: Node, peer: Node, name: Text, net1: Net, net2: Net, mine: Machine, other: Machine)
  {
    var (me', peer', code, log) := Start(me, peer, name, true, net1, net2, mine, other);
    code == OK ==>
      && Engaged(me', name) && Engaged(peer', name)
      && (Migrates(log) <==> Domain(me, name).coloStatus == RolePrimary)
  }

  /** What the daemon can check before a colo start. One that finds the domain running or not saved
      refuses anyway. Otherwise the domain must be enabled, since a start of a disabled one does nothing
      and returns 0, and no reply may be outstanding, since it may be a late success, which is then taken
      for the answer of the peer. */
  predicate StartGuard(me: Node, name: Text)
  {
    || Test(me, name).1 != ShutOff
    || name !in me.saved
    || (Domain(me, name).coloEnable && Sends(me))
  }

  lemma GuardedStart(me: Node, peer: Node, name: Text, net1: Net, net2: Net, mine: Machine, other: Machine)
    requires StartGuard(me, name)
    ensures Delivers(me, peer, name, net1, net2, mine, other)
  {
    var me3, peer1, engages := StartSplits(me, peer, name, net1, net2, mine, other);
    var role := Domain(me, name).coloStatus;
    if engages {
      hide Start, Engage, Test, Migrates, Engaged;
      EngageOrder(me3, peer1, name, role, net2, mine, other);
      EngageSucceeds(me3, peer1, name, role, net2, mine, other);
    }
  }

  const LISTENING := Config(0, 0, 0, 0, 0, 0)

  /** A machine on which everything works. */
  const WORKING := Machine(Some(LISTENING), Some(1), QmpRun(0, true))

  /** The daemon runs the domain, but not in colo mode. */
  predicate RunsPlainly(me: Node, name: Text)
  {
    var ds := Domain(me, name);
    ds.status == Running && ds.pid != NO_PID && Alive(me, ds.pid) && name in me.saved
  }

  lemma PlainRunnerAnswers(peer: Node, name: Text, role: ColoRole)
    requires RunsPlainly(peer, name) && role in {RolePrimary, RoleSecondary}
    ensures var (peer', reply, _) := PeerSendQmp(peer, name, role, WORKING);
      reply == OK && Domain(peer', name).status == Running
  {
  }

  /** A daemon that takes a late success for the answer of the peer starts without the peer. */
  lemma LateStart(me: Node, peer: Node, name: Text)
    requires Test(me, name).1 == ShutOff && name in me.saved && Domain(me, name).coloEnable
    requires !Sends(me) && me.pending.reply.Some? && me.pending.reply.value >= 0
    requires RunsPlainly(peer, name)
    ensures var (me', peer', code, _) := Start(me, peer, name, true, Arrives, Arrives, WORKING, WORKING);
      code == OK && Domain(peer', name).status == Running
  {
    var role, me1 := Domain(me, name).coloStatus, Test(me, name).0;
    PlainRunnerAnswers(peer, name, OppositeRole(role));
    TestSlot(me, name);
    var me2 := AfterCall(me1, Arrives, PeerStart(peer, name, true, WORKING).1);
    LaunchedSlot(me2, name, 1, ColoEnabled);
    assert Domain(peer, name).status == Running;
    hide Test, PeerStart, Launched, PeerSendQmp, PvmCmds, SvmCmds, RunsPlainly, Domain;
    assert Domain(me1, name).coloEnable == Domain(me, name).coloEnable && (name in me1.saved <==> name in me.saved) by { TestKeeps(me, name); }
  }

  /** A peer that runs the domain plainly, and nothing else. */
  function PlainRunner(name: Text): Node
  {
    Node(ColoStatus(NodeNone, 0, [], [], [], [], [], []),
      map[name := DomainStatus(1, name, Running, true, RoleSecondary, [])],
      map[name := Record([], 1, true, true, RoleSecondary)], {1}, false, false, NothingPending)
  }

  /** When the guard fails, some peer makes the start return 0 without both machines being engaged, a late
      success being on its way. */
  lemma UnguardedStart(me: Node, name: Text)
    requires !StartGuard(me, name)
    ensures !Delivers(R.Given(me, Some(OK)), PlainRunner(name), name, Arrives, Arrives, WORKING, WORKING)
  {
    var late := R.Given(me, Some(OK));
    GivenStartGuard(me, name, Some(OK));
    TestSlot(late, name);
    hide Test;
    if Domain(late, name).coloEnable {
      LateStart(late, PlainRunner(name), name);
      hide Start;
    }
  }

  lemma GivenStartGuard(me: Node, name: Text, reply: Option<int>)
    ensures StartGuard(R.Given(me, reply), name) <==> StartGuard(me, name)
  {
  }

  /** The guard is exact: a start that returns 0 has engaged both machines, whatever reply is still on its
      way, whatever the peer is like and whatever is lost, if and only if it holds. */
  lemma StartGuardIsExact(me: Node, name: Text)
    ensures StartGuard(me, name) <==>
      forall reply, peer, net1, net2, mine, other :: Delivers(R.Given(me, reply), peer, name, net1, net2, mine, other)
  {
    hide Delivers, StartGuard, R.Given;
    if StartGuard(me, name) {
      forall reply, peer, net1, net2, mine, other ensures Delivers(R.Given(me, reply), peer, name, net1, net2, mine, other) {
        GivenStartGuard(me, name, reply);
        GuardedStart(R.Given(me, reply), peer, name, net1, net2, mine, other);
      }
    } else {
      UnguardedStart(me, name);
    }
  }

  /** A connection test that gets a reply has used up whatever was outstanding: afterwards a start of an
      enabled domain meets its guard, and so does an enabling of a domain defined under its own name. */
  lemma TestClearsTheWay(me: Node, name: Text, net: Net)
    requires me.peerInit && ConnectTest(me, net).1 == OK
    ensures var me' := ConnectTest(me, net).0;
      && me'.peerInit && Domain(me', name) == Domain(me, name)
      && (Domain(me, name).coloEnable ==> StartGuard(me', name))
      && (Domain(me, name).name == name ==> R.EnableGuard(me', name))
  {
    hide Test;
  }

  // ---- over runs ----

  /** One lost reply, and both daemons are left in that state: A takes the reply to its enabling for the
      answer to its start, and B, which was started plainly, is never asked to start. */
  lemma LateStartRun(w: World, name: Text)
    requires Initial(w)
    ensures var program: Program :=
        [(A, DefineDomain(Some(name))), (A, Connect(R.PRIMARY, Arrives)), (A, EnableColo(name, ReplyLost)), (B, EnableColo(name, Arrives)),
         (B, StartDomain(name, false, Arrives, Arrives, WORKING, WORKING)), (A, StartDomain(name, true, Arrives, Arrives, WORKING, WORKING))];
      && Code(After(w, program, 5), A, program[5].1) == OK
      && Domain(After(w, program, 6).b, name).status == Running
  {
    var program: Program :=
      [(A, DefineDomain(Some(name))), (A, Connect(R.PRIMARY, Arrives)), (A, EnableColo(name, ReplyLost)), (B, EnableColo(name, Arrives)),
       (B, StartDomain(name, false, Arrives, Arrives, WORKING, WORKING)), (A, StartDomain(name, true, Arrives, Arrives, WORKING, WORKING))];
    hide ConnectPeer, ColoEnable, Start, R.Plays;
    assert After(w, program, 0) == w;
    AfterStep(w, program, 0);
    AfterStep(w, program, 1);
    AfterStep(w, program, 2);
    AfterStep(w, program, 3);
    AfterStep(w, program, 4);
    AfterStep(w, program, 5);
    var w1, w2, w3, w4, w5 := After(w, program, 1), After(w, program, 2), After(w, program, 3), After(w, program, 4), After(w, program, 5);
    hide After;
    R.ConnectAsPrimary(w1.a, w1.b);
    FirstEnable(w2.a, w2.b, name);
    SecondEnable(w3.b, w3.a, name);
    PlainStart(w4.b, w4.a, name);
    hide Idle, RunsPlainly, WORKING;
    LateStart(w5.a, w5.b, name) by { IdleTests(w5.a, name); }
  }

  /** The domain is enabled in a role, recorded, and not running. */
  predicate Idle(me: Node, name: Text)
  {
    var s := SlotOf(me, name);
    s.dom.pid == NO_PID && s.dom.coloEnable && s.dom.name == name && s.rec.Some? && !s.rec.value.running
  }

  lemma IdleTests(me: Node, name: Text)
    requires Idle(me, name)
    ensures Test(me, name).1 == ShutOff && name in me.saved && Domain(me, name).coloEnable
  {
  }

  lemma FirstEnable(me: Node, peer: Node, name: Text)
    requires me.cs.localStatus == NodePrimary && me.clientInit && Sends(me)
    requires Domain(me, name).name == name && Domain(me, name).pid == NO_PID
    ensures var (me', peer', _) := ColoEnable(me, peer, name, ReplyLost);
      && me'.pending == Awaiting(Some(OK)) && peer'.pending == peer.pending && peer'.cs == peer.cs && Idle(peer', name)
  {
    EnableSlots(me, peer, name, ReplyLost);
    EnableCalls(me, peer, name, ReplyLost);
    hide ColoEnable;
  }

  lemma SecondEnable(me: Node, peer: Node, name: Text)
    requires me.cs.localStatus == NodeSecondary && Sends(me) && Idle(me, name)
    ensures var (me', peer', _) := ColoEnable(me, peer, name, Arrives);
      Idle(me', name) && Idle(peer', name) && peer'.pending == peer.pending
  {
    EnableSlots(me, peer, name, Arrives);
    EnableCalls(me, peer, name, Arrives);
    hide ColoEnable;
  }

  lemma PlainStart(me: Node, peer: Node, name: Text)
    requires Idle(me, name)
    ensures var (me', peer', code, _) := Start(me, peer, name, false, Arrives, Arrives, WORKING, WORKING);
      peer' == peer && RunsPlainly(me', name)
  {
    TestSlot(me, name);
    LaunchedSlot(Test(me, name).0, name, 1, Running);
    hide Test, Launched;
  }

  /** Nothing is lost. */
  predicate LossFree(cmd: Command)
  {
    match cmd
    case Connect(_, net) => net == Arrives
    case ShowStatus(net) => net == Arrives
    case TestConnection(net) => net == Arrives
    case StartDomain(_, _, net1, net2, _, _) => net1 == Arrives && net2 == Arrives
    case DestroyDomain(_, net) => net == Arrives
    case EnableColo(_, net) => net == Arrives
    case _ => true
  }

  lemma CallAnswered(me: Node, net: Net, reply: int)
    requires Sends(me) && net == Arrives
    ensures Answer(me, net, reply) == Some(reply) && AfterCall(me, net, reply) == me
  {
  }

  lemma DestroyStaysFree(me: Node, peer: Node, name: Text)
    requires Sends(me) && Sends(peer)
    ensures var (me', peer', _) := Destroy(me, peer, name, Arrives); Sends(me') && Sends(peer')
  {
    TestSlot(me, name);
    TestSlot(peer, name);
    DestroyVmSlot(Test(me, name).0, name);
    DestroyVmSlot(Test(peer, name).0, name);
    CallAnswered(Test(me, name).0, Arrives, PeerDestroy(peer, name).1);
    hide Test, DestroyVm, AfterCall, Answer;
  }

  lemma EngageStaysFree(me: Node, peer: Node, name: Text, role: ColoRole, mine: Machine, other: Machine)
    requires Sends(me) && Sends(peer) && mine.conf.Some?
    ensures var (me', peer', _, _) := Engage(me, peer, name, role, Arrives, mine, other); Sends(me') && Sends(peer')
  {
    TestSlot(peer, name);
    PeerSendQmpIsTest(peer, name, OppositeRole(role), other);
    CallAnswered(me, Arrives, PeerSendQmp(peer, name, OppositeRole(role), other).1);
    hide Test, PeerSendQmp, AfterCall, Answer, PvmCmds, SvmCmds, Events, Sent;
  }

  lemma PeerStartCalls(peer: Node, name: Text, colo: bool, m: Machine)
    ensures PeerStart(peer, name, colo, m).0.pending == peer.pending
  {
    if m.fork.Some? {
      LaunchedSlot(Touch(peer, name), name, m.fork.value, ColoEnabled);
    }
    hide Launched;
  }

  lemma StartStaysFree(me: Node, peer: Node, name: Text, colo: bool, mine: Machine, other: Machine)
    requires Sends(me) && Sends(peer)
    ensures var (me', peer', _, _) := Start(me, peer, name, colo, Arrives, Arrives, mine, other); Sends(me') && Sends(peer')
  {
    TestSlot(me, name);
    var me1 := Test(me, name).0;
    var (peer1, reply) := PeerStart(peer, name, colo, other);
    PeerStartCalls(peer, name, colo, other);
    CallAnswered(me1, Arrives, reply);
    LaunchedSlot(me1, name, Forked(mine), Running);
    hide Test, PeerStart, Launched, Engage, AfterCall, Answer;
    if mine.fork.Some? && mine.conf.Some? {
      LaunchedSlot(me1, name, mine.fork.value, ColoEnabled);
      EngageStaysFree(Launched(me1, name, mine.fork.value, ColoEnabled), peer1, name, Domain(me, name).coloStatus, mine, other);
    }
  }

  lemma EnableStaysFree(me: Node, peer: Node, name: Text)
    requires Sends(me) && Sends(peer)
    ensures var (me', peer', _) := ColoEnable(me, peer, name, Arrives); Sends(me') && Sends(peer')
  {
    if me.cs.localStatus !in {NodeNone, NodeError} {
      EnableCalls(me, peer, name, Arrives);
      hide ColoEnable;
    }
  }

  /** Without losses no reply is ever left outstanding. */
  lemma StepStaysFree(me: Node, peer: Node, cmd: Command)
    requires Sends(me) && Sends(peer) && LossFree(cmd)
    ensures var (me', peer', _) := Execute(me, peer, cmd); Sends(me') && Sends(peer')
  {
    hide Start, Destroy, ColoEnable, Test;
    match cmd
    case StartDomain(name, colo, _, _, mine, other) => StartStaysFree(me, peer, name, colo, mine, other);
    case DestroyDomain(name, _) => DestroyStaysFree(me, peer, name);
    case EnableColo(name, _) => EnableStaysFree(me, peer, name);
    case UndefineDomain(name) => TestSlot(me, name);
    case TestDomain(name) => TestSlot(me, name);
    case _ =>
  }

  lemma {:induction false} LossFreeRunsSend(w: World, program: Program, i: nat)
    requires Initial(w) && i <= |program|
    requires forall k :: 0 <= k < i ==> LossFree(program[k].1)
    ensures Sends(After(w, program, i).a) && Sends(After(w, program, i).b)
  {
    if i > 0 {
      LossFreeRunsSend(w, program, i - 1);
      var was := After(w, program, i - 1);
      var (side, cmd) := program[i - 1];
      hide Execute, LossFree;
      StepStaysFree(At(was, side), At(was, Other(side)), cmd);
    }
  }

  /** In every run without losses, a colo start of an enabled domain that returns 0 leaves both daemons
      running it, with its process recorded and the status that says so, and the migration has started
      exactly if the command was given on the primary. */
  lemma LossFreeStart(w: World, program: Program, i: nat)
    requires Initial(w) && i < |program|
    requires forall k :: 0 <= k <= i ==> LossFree(program[k].1)
    requires program[i].1.StartDomain? && program[i].1.colo
    requires Domain(At(After(w, program, i), program[i].0), program[i].1.name).coloEnable
    ensures var (side, StartDomain(name, _, net1, net2, mine, other)) := program[i];
      var was, now := After(w, program, i), After(w, program, i + 1);
      Code(was, side, program[i].1) == OK ==>
        && Engaged(now.a, name) && Engaged(now.b, name)
        && var log := Start(At(was, side), At(was, Other(side)), name, true, net1, net2, mine, other).3;
           Migrates(log) <==> Domain(At(was, side), name).coloStatus == RolePrimary
  {
    LossFreeRunsSend(w, program, i);
    AfterStep(w, program, i);
    var (side, cmd) := program[i];
    var was := After(w, program, i);
    hide After, Start, Engaged, Migrates, Domain, Sends, LossFree, Initial;
    assert StartGuard(At(was, side), cmd.name) by { FreeGuard(At(was, side), cmd.name); }
    hide StartGuard;
    GuardedStart(At(was, side), At(was, Other(side)), cmd.name, cmd.net1, cmd.net2, cmd.mine, cmd.other);
  }

  lemma FreeGuard(me: Node, name: Text)
    requires Sends(me) && Domain(me, name).coloEnable
    ensures StartGuard(me, name)
  {
  }

  // ---- the addresses of a start ----

  /** In every run whose connects arrive and whose enablings are careful, a start on the primary that
      returns 0, given while no reply is outstanding, logs the set-up of the peer and then the commands of
      the primary: disk and migration go to the very host on which the peer serves its disk, which is the
      peer's own, and each port is that of the definition on the machine that uses it. The packet sockets
      of the two command lines meet exactly when the two definitions pair their ports. */
  lemma StartsMeet(w: World, program: Program, i: nat, j: nat)
    requires Initial(w) && R.Careful(w, program)
    requires i < j < |program| && program[i].1.Connect?
    requires forall m :: i <= m < j ==> W.ConnectArrives(At(After(w, program, m), program[m].0), program[m].1)
    requires program[j].1.StartDomain? && program[j].1.colo
    requires var me := At(After(w, program, j), program[j].0); Sends(me) && R.Plays(me, program[j].1.name, RolePrimary)
    ensures var (side, StartDomain(name, _, net1, net2, mine, other)) := program[j];
      var me, peer := At(After(w, program, j), side), At(After(w, program, j), Other(side));
      var log := Start(me, peer, name, true, net1, net2, mine, other).3;
      Code(After(w, program, j), side, program[j].1) == OK ==>
        && |log| == 10 && mine.conf.Some? && other.conf.Some?
        && log[1] == Event(true, NbdServerStart(peer.cs.hostIp, other.conf.value.nbd))
        && log[5] == Event(false, DriveAdd(peer.cs.hostIp, mine.conf.value.nbd))
        && log[9] == Event(false, Migrate(peer.cs.hostIp, mine.conf.value.migrate))
        && (me.cs.localStatus in {NodePrimary, NodeSecondary} ==>
              (W.PvmListens(mine.conf.value, me.cs) == W.SvmConnects(other.conf.value, peer.cs) <==>
                mine.conf.value.mirror == other.conf.value.red0 && mine.conf.value.cmp1 == other.conf.value.red1))
  {
    var (side, cmd) := program[j];
    var was := After(w, program, j);
    var me, peer := At(was, side), At(was, Other(side));
    R.RolesNeverClash(w, program, j);
    R.SafeIsSymmetric(was.a, was.b);
    W.PicturesStayMirrored(w, program, i, j);
    W.MirrorIsSymmetric(was.a.cs, was.b.cs);
    hide After, R.Careful, Initial, W.ConnectArrives;
    StartAddresses(me, peer, cmd.name, cmd.net1, cmd.net2, cmd.mine, cmd.other);
  }

  lemma SocketsMeet(cs: ColoStatus, cs': ColoStatus, mine: Config, other: Config)
    requires W.Mirror(cs, cs')
    ensures cs.localStatus in {NodePrimary, NodeSecondary} ==>
      (W.PvmListens(mine, cs) == W.SvmConnects(other, cs') <==> mine.mirror == other.red0 && mine.cmp1 == other.red1)
  {
  }

  /** With nothing outstanding, a start of an enabled domain in a role succeeds only if the peer has it enabled. */
  lemma AgreedEnabling(me: Node, peer: Node, name: Text, net1: Net, net2: Net, mine: Machine, other: Machine)
    requires Sends(me) && Domain(me, name).coloEnable
    ensures Start(me, peer, name, true, net1, net2, mine, other).2 == OK ==> Domain(peer, name).coloEnable
  {
    var me3, peer1, engages := StartSplits(me, peer, name, net1, net2, mine, other);
    hide Start, Engage, Engaged;
  }

  lemma StartAddresses(me: Node, peer: Node, name: Text, net1: Net, net2: Net, mine: Machine, other: Machine)
    requires R.Safe(me, peer) && W.Mirror(me.cs, peer.cs) && Sends(me) && R.Plays(me, name, RolePrimary)
    ensures var (_, _, code, log) := Start(me, peer, name, true, net1, net2, mine, other);
      code == OK ==>
        && |log| == 10 && mine.conf.Some? && other.conf.Some?
        && log[1] == Event(true, NbdServerStart(peer.cs.hostIp, other.conf.value.nbd))
        && log[5] == Event(false, DriveAdd(peer.cs.hostIp, mine.conf.value.nbd))
        && log[9] == Event(false, Migrate(peer.cs.hostIp, mine.conf.value.migrate))
        && (me.cs.localStatus in {NodePrimary, NodeSecondary} ==>
              (W.PvmListens(mine.conf.value, me.cs) == W.SvmConnects(other.conf.value, peer.cs) <==>
                mine.conf.value.mirror == other.conf.value.red0 && mine.conf.value.cmp1 == other.conf.value.red1))
  {
    StartLog(me, peer, name, net1, net2, mine, other);
    if Start(me, peer, name, true, net1, net2, mine, other).2 == OK {
      WholeIs(me, peer, name, mine, other);
      SocketsMeet(me.cs, peer.cs, mine.conf.value, other.conf.value);
      AgreedEnabling(me, peer, name, net1, net2, mine, other);
      R.SlotDomain(me, name);
      R.SlotDomain(peer, name);
      assert R.Compatible(SlotOf(me, name).dom, SlotOf(peer, name).dom);
      hide Start, Whole, R.Safe, SlotOf, W.PvmListens, W.SvmConnects;
      assert Domain(peer, name).coloStatus != RolePrimary;
    }
  }
}
