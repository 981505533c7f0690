/** The two daemons' pictures of each other, and the addresses they derive from them. */
module Wiring {
  import opened Types
  import opened Protocol
  import opened Slots

  // ---- mirror images ----

  /** Each status is what the other daemon sees from its side; the port is no part of the picture. */
  predicate Mirror(x: ColoStatus, y: ColoStatus)
  {
    && x.localStatus == MirrorRole(y.localStatus) && y.localStatus == MirrorRole(x.localStatus)
    && x.hostIp == y.peerIp && x.hostUser == y.peerUser && x.hostFilePath == y.peerFilePath
    && x.peerIp == y.hostIp && x.peerUser == y.hostUser && x.peerFilePath == y.hostFilePath
  }

  /** Every entry is there. */
  predicate Complete(file: ConfigFile)
  {
    && file.localStatus.Some? && file.hostIp.Some? && file.hostUser.Some? && file.hostFilePath.Some?
    && file.peerIp.Some? && file.peerUser.Some? && file.peerFilePath.Some?
  }

  /** A config file is taken over whole exactly when every entry is there; the port stays as it was. */
  lemma ConfigIsRead(cs: ColoStatus, file: ConfigFile)
    ensures ReadConfig(cs, file).1 <==> Complete(file)
    ensures Complete(file) ==> ReadConfig(cs, file).0 == ColoStatus(
      file.localStatus.value, cs.colodPort, file.hostIp.value, file.hostUser.value, file.hostFilePath.value,
      file.peerIp.value, file.peerUser.value, file.peerFilePath.value)
  {
  }

  /** After a connect with a complete config whose request arrives the two are mirror images exactly when
      the config does not say "error". A connect that does not get through leaves the peer alone. */
  lemma ConnectMirrors(me: Node, peer: Node, file: ConfigFile, net: Net)
    ensures var (me', peer', _) := ConnectPeer(me, peer, file, net);
      && me'.cs == ReadConfig(me.cs, file).0
      && if Complete(file) && Reaches(SetRemoteClient(me), net) then Mirror(me'.cs, peer'.cs) <==> file.localStatus != Some(NodeError)
         else peer'.cs == peer.cs
  {
    ConfigIsRead(me.cs, file);
    hide ReadConfig;
  }

  lemma TestKeepsPicture(me: Node, name: Text)
    ensures Test(me, name).0.cs == me.cs
  {
  }

  lemma LaunchedKeepsPicture(me: Node, name: Text, pid: int, status: DomainState)
    ensures Launched(me, name, pid, status).cs == me.cs
  {
  }

  lemma DestroyKeepsPicture(me: Node, peer: Node, name: Text, net: Net)
    ensures var (me', peer', _) := Destroy(me, peer, name, net); me'.cs == me.cs && peer'.cs == peer.cs
  {
    TestKeepsPicture(me, name);
    TestKeepsPicture(peer, name);
    hide Test;
  }

  lemma EngageKeepsPicture(me: Node, peer: Node, name: Text, role: ColoRole, net: Net, mine: Machine, other: Machine)
    requires mine.conf.Some?
    ensures var (me', peer', _, _) := Engage(me, peer, name, role, net, mine, other); me'.cs == me.cs && peer'.cs == peer.cs
  {
    hide Test, PvmCmds, SvmCmds, Sent, Events, PeerSendQmp;
    PeerSendQmpIsTest(peer, name, OppositeRole(role), other);
    TestKeepsPicture(peer, name);
  }

  lemma StartKeepsPicture(me: Node, peer: Node, name: Text, colo: bool, net1: Net, net2: Net, mine: Machine, other: Machine)
    ensures var (me', peer', _, _) := Start(me, peer, name, colo, net1, net2, mine, other); me'.cs == me.cs && peer'.cs == peer.cs
  {
    hide Test, Launched, Engage;
    TestKeepsPicture(me, name);
    var role, me1 := Domain(me, name).coloStatus, Test(me, name).0;
    LaunchedKeepsPicture(me1, name, Forked(mine), Running);
    LaunchedKeepsPicture(Touch(peer, name), name, Forked(other), ColoEnabled);
    var (peer1, reply) := PeerStart(peer, name, colo, other);
    var peer' := if Reaches(me1, net1) then peer1 else peer;
    var me2 := AfterCall(me1, net1, reply);
    if mine.conf.Some? && mine.fork.Some? {
      LaunchedKeepsPicture(me2, name, mine.fork.value, ColoEnabled);
      EngageKeepsPicture(Launched(me2, name, mine.fork.value, ColoEnabled), peer', name, role, net2, mine, other);
    }
  }

  lemma OnlyConnectMovesPicture(me: Node, peer: Node, cmd: Command)
    requires !cmd.Connect?
    ensures var (me', peer', _) := Execute(me, peer, cmd); me'.cs == me.cs && peer'.cs == peer.cs
  {
    hide Start, Destroy, Test;
    match cmd
    case StartDomain(name, colo, net1, net2, mine, other) => StartKeepsPicture(me, peer, name, colo, net1, net2, mine, other);
    case DestroyDomain(name, net) => DestroyKeepsPicture(me, peer, name, net);
    case UndefineDomain(name) => TestKeepsPicture(me, name);
    case TestDomain(name) => TestKeepsPicture(me, name);
    case _ =>
  }

  /** The connect request gets through, with a complete config that is not the "error" one. */
  predicate ConnectArrives(me: Node, cmd: Command)
  {
    cmd.Connect? ==> Complete(cmd.file) && cmd.file.localStatus != Some(NodeError) && Reaches(SetRemoteClient(me), cmd.net)
  }

  lemma StepMirrors(me: Node, peer: Node, cmd: Command)
    requires ConnectArrives(me, cmd) && (!cmd.Connect? ==> Mirror(me.cs, peer.cs))
    ensures var (me', peer', _) := Execute(me, peer, cmd); Mirror(me'.cs, peer'.cs)
  {
    hide Mirror, ConnectPeer, Start, Destroy, Test;
    if cmd.Connect? {
      ConnectMirrors(me, peer, cmd.file, cmd.net);
    } else {
      OnlyConnectMovesPicture(me, peer, cmd);
    }
  }

  lemma MirrorIsSymmetric(x: ColoStatus, y: ColoStatus)
    ensures Mirror(x, y) <==> Mirror(y, x)
  {
  }

  /** From the first connect on the two pictures are mirror images, in every run whose connect requests
      arrive and whose configs do not say "error". */
  lemma {:induction false} PicturesStayMirrored(w: World, program: Program, i: nat, j: nat)
    requires i < j <= |program| && program[i].1.Connect?
    requires forall m :: i <= m < j ==> ConnectArrives(At(After(w, program, m), program[m].0), program[m].1)
    ensures Mirror(After(w, program, j).a.cs, After(w, program, j).b.cs)
  {
    hide Execute, Mirror, ConnectArrives;
    var was := After(w, program, j - 1);
    var (side, cmd) := program[j - 1];
    if i + 1 < j {
      PicturesStayMirrored(w, program, i, j - 1);
      MirrorIsSymmetric(was.a.cs, was.b.cs);
    }
    StepMirrors(At(was, side), At(was, Other(side)), cmd);
    MirrorIsSymmetric(After(w, program, j).a.cs, After(w, program, j).b.cs);
  }

  // ---- addresses ----

  /** Where the primary machine's process listens for its secondary. */
  function PvmListens(conf: Config, cs: ColoStatus): seq<(Text, nat)>
  {
    [(PrimaryHost(cs), conf.mirror), (PrimaryHost(cs), conf.cmp1)]
  }

  /** Where the secondary machine's process connects. */
  function SvmConnects(conf: Config, cs: ColoStatus): seq<(Text, nat)>
  {
    [(PrimaryHost(cs), conf.red0), (PrimaryHost(cs), conf.red1)]
  }

  /** Mirror images with opposite roles derive the same addresses: the packet sockets meet exactly when
      the definition pairs their ports, and the primary writes its disk and migrates to the machine
      that serves the disk. */
  lemma WiringMeets(conf: Config, x: ColoStatus, y: ColoStatus)
    requires Mirror(x, y) && x.localStatus in {NodePrimary, NodeSecondary}
    ensures PvmListens(conf, x) == SvmConnects(conf, y) <==> conf.mirror == conf.red0 && conf.cmp1 == conf.red1
    ensures var pvm, svm := PvmCmds(conf, x, RolePrimary), SvmCmds(conf, y, RoleSecondary);
      && pvm[1] == DriveAdd(y.hostIp, conf.nbd) && svm[1] == NbdServerStart(y.hostIp, conf.nbd)
      && pvm[5] == Migrate(y.hostIp, conf.migrate)
  {
  }

  /** The command line goes by the role of the node, the monitor commands by the role of the domain. On
      the primary's machine and on the secondary's machine alike, the two sets of addresses point to
      different machines, as they must, exactly when the node has the role of the domain. */
  lemma WiringNeedsMatchingRoles(conf: Config, x: ColoStatus, y: ColoStatus)
    requires Mirror(x, y) && x.localStatus in {NodePrimary, NodeSecondary} && x.hostIp != x.peerIp
    ensures PvmListens(conf, x)[0].0 == x.hostIp <==> x.localStatus == NodePrimary
    ensures PvmListens(conf, x)[0].0 != PvmCmds(conf, x, RolePrimary)[1].host <==> NodeColoRole(x.localStatus) == RolePrimary
    ensures SvmConnects(conf, y)[0].0 == y.peerIp <==> y.localStatus == NodeSecondary
    ensures SvmConnects(conf, y)[0].0 != SvmCmds(conf, y, RoleSecondary)[1].host <==> NodeColoRole(y.localStatus) == RoleSecondary
  {
  }
}
