/** The management protocol on values: what each command does to the daemon that receives it and to its
    peer. The save file is a map from names to records here. */
module Protocol {
  import opened Types

  const NO_PID := -1

  const OK := 0
  const FAIL := -1

  /** A record of the save file. The file says "shutoff" or "running". */
  datatype Record = Record(path: Text, pid: int, running: bool, coloEnable: bool, coloStatus: ColoRole)

  /** The client's socket: whether a reply is outstanding and, if it is, whether that reply exists. */
  datatype Pending = NothingPending | Awaiting(reply: Option<int>)

  datatype Node = Node(
    cs: ColoStatus,
    domains: map<Text, DomainStatus>,
    saved: map<Text, Record>,
    live: set<int>,
    peerInit: bool,
    clientInit: bool,
    pending: Pending)

  /** What happens to a remote call. */
  datatype Net = Arrives | RequestLost | ReplyLost

  // ---- the remote call ----

  /** A call sends its request unless a reply is outstanding. */
  predicate Sends(me: Node)
  {
    me.pending.NothingPending?
  }

  predicate Reaches(me: Node, net: Net)
  {
    Sends(me) && net != RequestLost
  }

  /** The code the caller sees; none is a time-out. An outstanding reply comes back instead of the one
      to this call. */
  function Answer(me: Node, net: Net, reply: int): Option<int>
  {
    if !Sends(me) then (if net == Arrives then me.pending.reply else None)
    else if net == Arrives then Some(reply)
    else None
  }

  function AfterCall(me: Node, net: Net, reply: int): Node
  {
    me.(pending :=
      if Answer(me, net, reply).Some? then NothingPending
      else if !Sends(me) then me.pending
      else Awaiting(if net == ReplyLost then Some(reply) else None))
  }

  /** A new socket forgets the reply but not that it timed out. */
  function SetRemoteClient(me: Node): Node
  {
    me.(pending := if Sends(me) then NothingPending else Awaiting(None))
  }

  // ---- helpers over one daemon ----

  function Domain(me: Node, name: Text): DomainStatus
  {
    if name in me.domains then me.domains[name] else DEFAULT_DOMAIN
  }

  function Put(me: Node, name: Text, ds: DomainStatus): Node
  {
    me.(domains := me.domains[name := ds])
  }

  /** Reading an entry through `operator[]` creates it. */
  function Touch(me: Node, name: Text): Node
  {
    Put(me, name, Domain(me, name))
  }

  predicate Alive(me: Node, pid: int)
  {
    pid == 0 || pid in me.live
  }

  function RemovePid(saved: map<Text, Record>, name: Text): map<Text, Record>
  {
    if name in saved then saved[name := saved[name].(pid := NO_PID, running := false)] else saved
  }

  function SavePid(saved: map<Text, Record>, name: Text, pid: int): map<Text, Record>
  {
    if name in saved then saved[name := saved[name].(pid := pid, running := true)] else saved
  }

  /** `test_domain_status`: a domain whose process is gone is noticed here. */
  function Test(me: Node, name: Text): (Node, DomainState)
  {
    var ds := Domain(me, name);
    if ds.pid == NO_PID then (Touch(me, name), ShutOff)
    else if !Alive(me, ds.pid) then
      (Put(me, name, ds.(status := ShutOff)).(saved := RemovePid(me.saved, name)), ShutOff)
    else (Touch(me, name), ds.status)
  }

  /** `run_new_vm` with the result of the fork. */
  function RunVm(me: Node, name: Text, pid: int): Node
  {
    if pid > 0 then me.(saved := SavePid(me.saved, name, pid), live := me.live + {pid}) else me
  }

  /** `destroy_domain`: the save file changes even when the process turns out to be gone. */
  function DestroyVm(me: Node, name: Text): (Node, int)
  {
    if name !in me.saved || me.saved[name].pid == NO_PID then (me, FAIL)
    else
      var pid := me.saved[name].pid;
      var me1 := me.(saved := RemovePid(me.saved, name));
      if Alive(me, pid) then (me1.(live := me.live - {pid}), OK) else (me1, FAIL)
  }

  /** `set_domain_colo_enable`; none when the domain is not shut off. */
  function EnableSaved(saved: map<Text, Record>, name: Text, role: ColoRole): Option<map<Text, Record>>
  {
    if name !in saved then Some(saved)
    else if saved[name].running then None
    else Some(saved[name := saved[name].(coloEnable := true, coloStatus := role)])
  }

  /** `save_domain_info` */
  function SaveInfo(saved: map<Text, Record>, ds: DomainStatus): map<Text, Record>
  {
    saved[ds.name := Record(ds.path, NO_PID, false, false, RoleNone)]
  }

  // ---- connecting ----

  function MirrorRole(r: NodeRole): NodeRole
  {
    match r
    case NodePrimary => NodeSecondary
    case NodeSecondary => NodePrimary
    case _ => NodeNone
  }

  function Mirrored(cs: ColoStatus): ColoStatus
  {
    ColoStatus(MirrorRole(cs.localStatus), COLOD_PORT, cs.peerIp, cs.peerUser, cs.peerFilePath, cs.hostIp, cs.hostUser, cs.hostFilePath)
  }

  function PeerSaveStatus(peer: Node, cs: ColoStatus): (Node, int)
  {
    var peer1 := peer.(cs := Mirrored(cs));
    var peer2 := if peer.clientInit then peer1 else SetRemoteClient(peer1);
    (peer2.(peerInit := true), OK)
  }

  /** The entries of a config file, any of which may be missing. It does not name the port. */
  datatype ConfigFile = ConfigFile(
    localStatus: Option<NodeRole>, hostIp: Option<Text>, hostUser: Option<Text>, hostFilePath: Option<Text>,
    peerIp: Option<Text>, peerUser: Option<Text>, peerFilePath: Option<Text>)

  /** `parse_config_file`: the entries in front of the first missing one are taken over all the same. */
  function ReadConfig(cs: ColoStatus, file: ConfigFile): (ColoStatus, bool)
  {
    if file.localStatus.None? then (cs, false)
    else
      var cs1 := cs.(localStatus := file.localStatus.value);
      if file.hostIp.None? then (cs1, false)
      else
        var cs2 := cs1.(hostIp := file.hostIp.value);
        if file.hostUser.None? then (cs2, false)
        else
          var cs3 := cs2.(hostUser := file.hostUser.value);
          if file.hostFilePath.None? then (cs3, false)
          else
            var cs4 := cs3.(hostFilePath := file.hostFilePath.value);
            if file.peerIp.None? then (cs4, false)
            else
              var cs5 := cs4.(peerIp := file.peerIp.value);
              if file.peerUser.None? then (cs5, false)
              else
                var cs6 := cs5.(peerUser := file.peerUser.value);
                if file.peerFilePath.None? then (cs6, false)
                else (cs6.(peerFilePath := file.peerFilePath.value), true)
  }

  /** `colod_connect_peer` */
  function ConnectPeer(me: Node, peer: Node, file: ConfigFile, net: Net): (Node, Node, int)
  {
    var (cs, parsed) := ReadConfig(me.cs, file);
    if !parsed then (me.(cs := cs), peer, FAIL)
    else Introduce(me.(cs := cs), peer, net)
  }

  /** The call of `colod_connect_peer`. */
  function Introduce(me: Node, peer: Node, net: Net): (Node, Node, int)
  {
    var me1 := SetRemoteClient(me).(clientInit := true);
    var (peer1, reply) := PeerSaveStatus(peer, me1.cs);
    var peer' := if Reaches(me1, net) then peer1 else peer;
    var answer := Answer(me1, net, reply);
    var me2 := AfterCall(me1, net, reply);
    if answer.None? || answer.value < 0 then (me2, peer', FAIL)
    else (me2.(peerInit := true), peer', OK)
  }

  // ---- connection tests ----

  /** The call of "connect-reply", which the peer answers with success and without a change. */
  function AskReply(me: Node, net: Net): (Node, bool)
  {
    var me1 := AfterCall(me, net, OK);
    if Answer(me, net, OK).None? then (me1.(peerInit := false), false) else (me1, true)
  }

  /** `colod_connect_status`: the text it returns tells whether the peer answered, the code does not. */
  function ConnectStatus(me: Node, net: Net): (Node, int)
  {
    if !me.peerInit then (me, FAIL) else (AskReply(me, net).0, OK)
  }

  /** `peer_colod_connect_test` */
  function ConnectTest(me: Node, net: Net): (Node, int)
  {
    if !me.peerInit then (me, OK)
    else
      var (me1, answered) := AskReply(me, net);
      (me1, if answered then OK else FAIL)
  }

  // ---- defining ----

  /** ".yaml" */
  const SUFFIX: Text := [46, 121, 97, 109, 108]

  /** `colod_define`: `name` is the name in the definition, if that can be read and the name is allowed. */
  function Define(me: Node, name: Option<Text>): (Node, int)
  {
    match name
    case None => (me, FAIL)
    case Some(n) =>
      var ds := DomainStatus(NO_PID, n, ShutOff, false, RoleNone, me.cs.hostFilePath + n + SUFFIX);
      (Put(me.(saved := SaveInfo(me.saved, ds)), n, ds), OK)
  }

  function Undefine(me: Node, name: Text): (Node, int)
  {
    var (me1, status) := Test(me, name);
    if status != ShutOff then (me1, FAIL)
    else (me1.(saved := me1.saved - {name}, domains := me1.domains - {name}), OK)
  }

  // ---- enabling ----

  function OppositeRole(r: ColoRole): ColoRole
  {
    if r == RolePrimary then RoleSecondary else RolePrimary
  }

  function PeerSaveDomain(peer: Node, ds: DomainStatus): (Node, int)
  {
    var nds := if ds.coloEnable then ds.(coloStatus := OppositeRole(ds.coloStatus)) else ds;
    var saved := SaveInfo(peer.saved, nds);
    match EnableSaved(saved, nds.name, nds.coloStatus)
    case None => (peer.(saved := saved), FAIL)
    case Some(saved') => (Put(peer.(saved := saved'), ds.name, nds), OK)
  }

  function NodeColoRole(r: NodeRole): ColoRole
  {
    if r == NodePrimary then RolePrimary else RoleSecondary
  }

  /** `colod_colo_enable` after its call: what is not confirmed is disabled again. */
  function ConcludeEnable(me: Node, name: Text, answer: Option<int>): (Node, int)
  {
    var ds := Domain(me, name);
    var off := Put(me, name, ds.(coloEnable := false));
    if answer.None? then (off.(peerInit := false), FAIL)
    else if answer.value < 0 then (off, FAIL)
    else
      match EnableSaved(me.saved, name, ds.coloStatus)
      case None => (off, FAIL)
      case Some(saved) => (me.(saved := saved), OK)
  }

  /** `colod_colo_enable`: the domain is enabled before the call. */
  function ColoEnable(me: Node, peer: Node, name: Text, net: Net): (Node, Node, int)
  {
    if me.cs.localStatus in {NodeNone, NodeError} then (me, peer, FAIL)
    else
      var ds := Domain(me, name).(coloEnable := true, coloStatus := NodeColoRole(me.cs.localStatus));
      var me1 := Put(me, name, ds);
      var me2 := if me.clientInit then me1 else SetRemoteClient(me1);
      var (peer1, reply) := PeerSaveDomain(peer, ds);
      var peer' := if Reaches(me2, net) then peer1 else peer;
      var (me', code) := ConcludeEnable(AfterCall(me2, net, reply), name, Answer(me2, net, reply));
      (me', peer', code)
  }

  function ColoDisable(me: Node, name: Text): (Node, int)
  {
    if name in me.saved && me.saved[name].running then (me, FAIL)
    else
      var saved := if name in me.saved then me.saved[name := me.saved[name].(coloEnable := false)] else me.saved;
      (Put(me.(saved := saved), name, Domain(me, name).(coloEnable := false)), OK)
  }

  // ---- failover ----

  /** `colod_do_failover`; `qmp` says whether the monitor took the commands. */
  function Failover(me: Node, name: Text, qmp: bool): (Node, int)
  {
    var ds := Domain(me, name);
    if ds.status == ShutOff || !ds.coloEnable || ds.coloStatus !in {RolePrimary, RoleSecondary} then (Touch(me, name), FAIL)
    else if qmp then (Put(me, name, ds.(status := Running, coloStatus := RoleDegrade)), OK)
    else if ds.coloStatus == RoleSecondary then (Put(me, name, ds.(coloStatus := RoleFailover)), FAIL)
    else (Touch(me, name), FAIL)
  }

  // ---- destroying ----

  function Stopped(me: Node, name: Text): Node
  {
    Put(me, name, Domain(me, name).(pid := NO_PID, status := ShutOff))
  }

  function PeerDestroy(peer: Node, name: Text): (Node, int)
  {
    if !Domain(peer, name).coloEnable then (Touch(peer, name), FAIL)
    else
      var (peer1, status) := Test(peer, name);
      if status == ShutOff then (peer1, FAIL)
      else
        var (peer2, code) := DestroyVm(peer1, name);
        if code < 0 then (peer2, FAIL) else (Stopped(peer2, name), OK)
  }

  function Destroy(me: Node, peer: Node, name: Text, net: Net): (Node, Node, int)
  {
    var (me1, status) := Test(me, name);
    if status == ShutOff then (me1, peer, FAIL)
    else if status == Running then
      var (me2, code) := DestroyVm(me1, name);
      if code < 0 then (me2, peer, FAIL) else (Stopped(me2, name), peer, OK)
    else if status == ColoEnabled then
      var (peer1, reply) := PeerDestroy(peer, name);
      var peer' := if Reaches(me1, net) then peer1 else peer;
      var answer := Answer(me1, net, reply);
      var me2 := AfterCall(me1, net, reply);
      if answer.None? then (me2.(peerInit := false), peer', FAIL)
      else if answer.value < 0 then (me2, peer', FAIL)
      else
        var (me3, code) := DestroyVm(me2, name);
        if code < 0 then (me3, peer', FAIL) else (Stopped(me3, name), peer', OK)
    else (me1, peer, FAIL)
  }

  // ---- starting ----

  type Pid = x: int | x > 0 witness 1

  /** The ports of a domain's definition that the two machines have to agree on. */
  datatype Config = Config(mirror: nat, cmp1: nat, red0: nat, red1: nat, nbd: nat, migrate: nat)

  /** Monitor commands, with the addresses they carry. */
  datatype Cmd =
    | Capabilities
    | DriveAdd(host: Text, port: nat)
    | BlockdevChange
    | SetColoCapability
    | SetBandwidth
    | Migrate(host: Text, port: nat)
    | NbdServerStart(host: Text, port: nat)
    | NbdServerAdd

  /** The secondary's address as the commands use it: it goes by the role of the domain. */
  function SecondaryHost(cs: ColoStatus, role: ColoRole): Text
  {
    if role == RolePrimary then cs.peerIp else cs.hostIp
  }

  /** The primary's address as the command line uses it: it goes by the role of the node. */
  function PrimaryHost(cs: ColoStatus): Text
  {
    if cs.localStatus == NodePrimary then cs.hostIp else cs.peerIp
  }

  function PvmCmds(conf: Config, cs: ColoStatus, role: ColoRole): seq<Cmd>
  {
    var host := SecondaryHost(cs, role);
    [Capabilities, DriveAdd(host, conf.nbd), BlockdevChange, SetColoCapability, SetBandwidth, Migrate(host, conf.migrate)]
  }

  function SvmCmds(conf: Config, cs: ColoStatus, role: ColoRole): seq<Cmd>
  {
    [Capabilities, NbdServerStart(SecondaryHost(cs, role), conf.nbd), NbdServerAdd, SetBandwidth]
  }

  /** How far sending a list of commands gets. */
  datatype QmpRun = QmpRun(sent: nat, ok: bool)

  function Sent(cmds: seq<Cmd>, run: QmpRun): seq<Cmd>
  {
    if run.ok || run.sent >= |cmds| then cmds else cmds[..run.sent]
  }

  /** A monitor command that went out during a start, on the starting machine or on its peer. */
  datatype Event = Event(onPeer: bool, cmd: Cmd)

  function Events(onPeer: bool, cmds: seq<Cmd>): (es: seq<Event>)
    ensures |es| == |cmds| && forall i :: 0 <= i < |cmds| ==> es[i] == Event(onPeer, cmds[i])
  {
    seq(|cmds|, i requires 0 <= i < |cmds| => Event(onPeer, cmds[i]))
  }

  /** What one machine finds when it starts a domain: its copy of the definition, if it can be read, the
      process it forks, if it can, and how its monitor takes the commands. */
  datatype Machine = Machine(conf: Option<Config>, fork: Option<Pid>, qmp: QmpRun)

  function Forked(m: Machine): int
  {
    if m.fork.Some? then m.fork.value else NO_PID
  }

  function Launched(me: Node, name: Text, pid: int, status: DomainState): Node
  {
    var me1 := RunVm(me, name, pid);
    Put(me1, name, Domain(me1, name).(pid := pid, status := status))
  }

  function PeerStart(peer: Node, name: Text, colo: bool, m: Machine): (Node, int)
  {
    var peer1 := Touch(peer, name);
    if !colo then (peer, FAIL)
    else if !Domain(peer, name).coloEnable || name !in peer.saved || m.conf.None? || m.fork.None? then (peer1, FAIL)
    else (Launched(peer1, name, m.fork.value, ColoEnabled), OK)
  }

  /** `peer_colod_send_qmpcmds`: the commands of a primary are put together but not sent. */
  function PeerSendQmp(peer: Node, name: Text, role: ColoRole, m: Machine): (Node, int, seq<Cmd>)
  {
    var (peer1, status) := Test(peer, name);
    if status == ShutOff || name !in peer1.saved || m.conf.None? then (peer1, FAIL, [])
    else if role == RolePrimary then (peer1, OK, [])
    else if role == RoleSecondary then
      (peer1, if m.qmp.ok then OK else FAIL, Sent(SvmCmds(m.conf.value, peer1.cs, Domain(peer1, name).coloStatus), m.qmp))
    else (peer1, FAIL, [])
  }

  /** The second half of a start in colo mode, after both machines have launched their process. */
  function Engage(me: Node, peer: Node, name: Text, role: ColoRole, net: Net, mine: Machine, other: Machine): (Node, Node, int, seq<Event>)
    requires mine.conf.Some?
  {
    var (peer1, reply, cmds) := PeerSendQmp(peer, name, OppositeRole(role), other);
    var peer' := if Reaches(me, net) then peer1 else peer;
    var remote := if Reaches(me, net) then Events(true, cmds) else [];
    var answer := Answer(me, net, reply);
    var me1 := AfterCall(me, net, reply);
    var me2 := if answer.None? then me1.(peerInit := false) else me1;
    if role == RolePrimary then
      if answer.None? || answer.value < 0 then (me2, peer', FAIL, remote)
      else
        var mineSent := Sent(PvmCmds(mine.conf.value, me.cs, Domain(me, name).coloStatus), mine.qmp);
        (me2, peer', if mine.qmp.ok then OK else FAIL, remote + Events(false, mineSent))
    else if role == RoleSecondary then
      var mineSent := Events(false, Sent(SvmCmds(mine.conf.value, me.cs, Domain(me, name).coloStatus), mine.qmp));
      if !mine.qmp.ok then (me, peer, FAIL, mineSent)
      else (me2, peer', if answer.None? || answer.value < 0 then FAIL else OK, mineSent + remote)
    else (me, peer, OK, [])
  }

  /** `colod_start` */
  function Start(me: Node, peer: Node, name: Text, colo: bool, net1: Net, net2: Net, mine: Machine, other: Machine): (Node, Node, int, seq<Event>)
  {
    var role := Domain(me, name).coloStatus;
    var (me1, status) := Test(me, name);
    if status != ShutOff || name !in me1.saved || mine.conf.None? then (me1, peer, FAIL, [])
    else if !colo then (Launched(me1, name, Forked(mine), Running), peer, OK, [])
    else if !Domain(me1, name).coloEnable then (me1, peer, OK, [])
    else
      var (peer1, reply) := PeerStart(peer, name, colo, other);
      var peer' := if Reaches(me1, net1) then peer1 else peer;
      var answer := Answer(me1, net1, reply);
      var me2 := AfterCall(me1, net1, reply);
      if answer.None? then (me2.(peerInit := false), peer', FAIL, [])
      else if answer.value < 0 || mine.fork.None? then (me2, peer', FAIL, [])
      else Engage(Launched(me2, name, mine.fork.value, ColoEnabled), peer', name, role, net2, mine, other)
  }

  // ---- runs ----

  datatype World = World(a: Node, b: Node)

  datatype Side = A | B

  datatype Command =
    | Connect(file: ConfigFile, net: Net)
    | ShowStatus(net: Net)
    | TestConnection(net: Net)
    | DefineDomain(definition: Option<Text>)
    | UndefineDomain(name: Text)
    | StartDomain(name: Text, colo: bool, net1: Net, net2: Net, mine: Machine, other: Machine)
    | DestroyDomain(name: Text, net: Net)
    | EnableColo(name: Text, net: Net)
    | DisableColo(name: Text)
    | DoFailover(name: Text, qmp: bool)
    | TestDomain(name: Text)
    | Die(pid: int)

  /** A command at one daemon: the two daemons afterwards and the code it returns. */
  function Execute(me: Node, peer: Node, cmd: Command): (Node, Node, int)
  {
    match cmd
    case Connect(file, net) => ConnectPeer(me, peer, file, net)
    case ShowStatus(net) => var (me', code) := ConnectStatus(me, net); (me', peer, code)
    case TestConnection(net) => var (me', code) := ConnectTest(me, net); (me', peer, code)
    case DefineDomain(definition) => var (me', code) := Define(me, definition); (me', peer, code)
    case UndefineDomain(name) => var (me', code) := Undefine(me, name); (me', peer, code)
    case StartDomain(name, colo, net1, net2, mine, other) =>
      var (me', peer', code, _) := Start(me, peer, name, colo, net1, net2, mine, other); (me', peer', code)
    case DestroyDomain(name, net) => Destroy(me, peer, name, net)
    case EnableColo(name, net) => ColoEnable(me, peer, name, net)
    case DisableColo(name) => var (me', code) := ColoDisable(me, name); (me', peer, code)
    case DoFailover(name, qmp) => var (me', code) := Failover(me, name, qmp); (me', peer, code)
    case TestDomain(name) => (Test(me, name).0, peer, OK)
    case Die(pid) => (me.(live := me.live - {pid}), peer, OK)
  }

  function At(w: World, side: Side): Node
  {
    if side == A then w.a else w.b
  }

  function Other(side: Side): Side
  {
    if side == A then B else A
  }

  function Step(w: World, side: Side, cmd: Command): World
  {
    var (me, peer, _) := Execute(At(w, side), At(w, Other(side)), cmd);
    if side == A then World(me, peer) else World(peer, me)
  }

  function Code(w: World, side: Side, cmd: Command): int
  {
    Execute(At(w, side), At(w, Other(side)), cmd).2
  }

  type Program = seq<(Side, Command)>

  /** The state after the first `i` commands of a program. */
  function After(w: World, program: Program, i: nat): World
    requires i <= |program|
  {
    if i == 0 then w
    else Step(After(w, program, i - 1), program[i - 1].0, program[i - 1].1)
  }

  lemma AfterStep(w: World, program: Program, i: nat)
    requires i < |program|
    ensures After(w, program, i + 1) == Step(After(w, program, i), program[i].0, program[i].1)
  {
  }

  /** Two daemons that have just come up with empty save files. */
  predicate Initial(w: World)
  {
    InitialNode(w.a) && InitialNode(w.b)
  }

  predicate InitialNode(n: Node)
  {
    n.domains == map[] && n.saved == map[] && n.pending == NothingPending && !n.peerInit && !n.clientInit
  }
}
