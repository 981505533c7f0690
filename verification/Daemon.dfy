/** The daemon as the program keeps it: run status in memory, a save file on disk, processes, and a client
    to the peer. Each handler changes these step by step and is proved against the protocol. */
module Daemons {
  import opened Types
  import opened Protocol
  import opened SaveFiles

  lemma Overwrite<K, V>(m: map<K, V>, k: K, u: V, v: V)
    ensures m[k := u][k := v] == m[k := v]
  {
  }

  class Daemon {
    var cs: ColoStatus
    var domains: map<Text, DomainStatus>
    var peerInit: bool
    var clientInit: bool
    var pending: Pending
    var live: set<int>
    const file: SaveFile

    constructor (cs: ColoStatus)
      ensures Valid() && fresh(file) && InitialNode(Abs())
    {
      this.cs, domains, live := cs.(localStatus := NodeNone), map[], {};
      peerInit, clientInit, pending := false, false, NothingPending;
      file := new SaveFile();
    }

    ghost predicate Valid()
      reads this, file
    {
      Unique(file.domains) && file.isList
    }

    ghost function Abs(): Node
      reads this, file
    {
      Node(cs, domains, AsMap(file.domains), live, peerInit, clientInit, pending)
    }

    /** `rs.domains[name]` */
    function Entry(name: Text): DomainStatus
      reads `domains
    {
      if name in domains then domains[name] else DEFAULT_DOMAIN
    }

    method TestDomainStatus(name: Text) returns (status: DomainState)
      requires Valid()
      modifies `domains, file
      ensures Valid() && (Abs(), status) == Test(old(Abs()), name)
    {
      var ds := Entry(name);
      domains := domains[name := ds];
      if ds.pid == NO_PID {
        return ShutOff;
      }
      if ds.pid != 0 && ds.pid !in live {
        Overwrite(old(domains), name, ds, ds.(status := ShutOff));
        domains := domains[name := domains[name].(status := ShutOff)];
        var _ := file.RemoveDomainPid(name);
        return ShutOff;
      }
      return ds.status;
    }

    // ---- the client ----

    method SetClient()
      modifies `pending
      ensures Abs() == SetRemoteClient(old(Abs()))
    {
      if pending.Awaiting? {
        pending := Awaiting(None);
      }
    }

    /** The part of a call after its request went out, or did not: what the socket gives. */
    method Receive(net: Net, reply: int) returns (answer: Option<int>)
      modifies `pending
      ensures Abs() == AfterCall(old(Abs()), net, reply) && answer == Answer(old(Abs()), net, reply)
    {
      if pending.Awaiting? {
        answer := if net == Arrives then pending.reply else None;
        if answer.Some? {
          pending := NothingPending;
        }
      } else if net == Arrives {
        answer := Some(reply);
      } else {
        answer := None;
        pending := Awaiting(if net == ReplyLost then Some(reply) else None);
      }
    }

    // ---- connecting ----

    /** Each entry is stored as soon as it is found. */
    method ParseConfigFile(f: ConfigFile) returns (ok: bool)
      modifies `cs
      ensures (cs, ok) == ReadConfig(old(cs), f)
    {
      if f.localStatus.None? { return false; }
      cs := cs.(localStatus := f.localStatus.value);
      if f.hostIp.None? { return false; }
      cs := cs.(hostIp := f.hostIp.value);
      if f.hostUser.None? { return false; }
      cs := cs.(hostUser := f.hostUser.value);
      if f.hostFilePath.None? { return false; }
      cs := cs.(hostFilePath := f.hostFilePath.value);
      if f.peerIp.None? { return false; }
      cs := cs.(peerIp := f.peerIp.value);
      if f.peerUser.None? { return false; }
      cs := cs.(peerUser := f.peerUser.value);
      if f.peerFilePath.None? { return false; }
      cs := cs.(peerFilePath := f.peerFilePath.value);
      return true;
    }

    method ConnectPeer(peer: Daemon, f: ConfigFile, net: Net) returns (code: int)
      requires peer != this && peer.file != file && Valid() && peer.Valid()
      modifies this, peer
      ensures Valid() && peer.Valid()
      ensures (Abs(), peer.Abs(), code) == Protocol.ConnectPeer(old(Abs()), old(peer.Abs()), f, net)
    {
      hide ReadConfig;
      var parsed := ParseConfigFile(f);
      if !parsed {
        return FAIL;
      }
      SetClient();
      clientInit := true;
      var reply := OK;
      if pending.NothingPending? && net != RequestLost {
        reply := peer.PeerSaveStatus(cs);
      }
      var answer := Receive(net, reply);
      if answer.None? || answer.value < 0 {
        return FAIL;
      }
      peerInit := true;
      return OK;
    }

    method PeerSaveStatus(cs: ColoStatus) returns (code: int)
      requires Valid()
      modifies this
      ensures Valid() && (Abs(), code) == Protocol.PeerSaveStatus(old(Abs()), cs)
    {
      this.cs := this.cs.(localStatus := MirrorRole(cs.localStatus));
      this.cs := this.cs.(hostIp := cs.peerIp, hostUser := cs.peerUser, hostFilePath := cs.peerFilePath);
      this.cs := this.cs.(peerIp := cs.hostIp, peerUser := cs.hostUser, peerFilePath := cs.hostFilePath);
      this.cs := this.cs.(colodPort := COLOD_PORT);
      if !clientInit {
        SetClient();
      }
      peerInit := true;
      code := OK;
    }

    // ---- connection tests ----

    /** The call of "connect-reply". */
    method AskReply(net: Net) returns (answered: bool)
      modifies `pending, `peerInit
      ensures (Abs(), answered) == Protocol.AskReply(old(Abs()), net)
    {
      var answer := Receive(net, OK);
      if answer.None? {
        peerInit := false;
        return false;
      }
      return true;
    }

    method ConnectStatus(net: Net) returns (code: int)
      modifies `pending, `peerInit
      ensures (Abs(), code) == Protocol.ConnectStatus(old(Abs()), net)
    {
      if !peerInit {
        return FAIL;
      }
      var _ := AskReply(net);
      return OK;
    }

    method ConnectTest(net: Net) returns (code: int)
      modifies `pending, `peerInit
      ensures (Abs(), code) == Protocol.ConnectTest(old(Abs()), net)
    {
      if !peerInit {
        return OK;
      }
      var answered := AskReply(net);
      return if answered then OK else FAIL;
    }

    // ---- defining ----

    method DefineDomain(name: Option<Text>) returns (code: int)
      requires Valid()
      modifies `domains, file
      ensures Valid() && (Abs(), code) == Protocol.Define(old(Abs()), name)
    {
      if name.None? {
        return FAIL;
      }
      var ds := DomainStatus(NO_PID, name.value, ShutOff, false, RoleNone, cs.hostFilePath + name.value + SUFFIX);
      code := file.SaveDomainInfo(ds);
      if code < 0 {
        return FAIL;
      }
      domains := domains[name.value := ds];
      code := OK;
    }

    method UndefineDomain(name: Text) returns (code: int)
      requires Valid()
      modifies `domains, file
      ensures Valid() && (Abs(), code) == Protocol.Undefine(old(Abs()), name)
    {
      var status := TestDomainStatus(name);
      if status != ShutOff {
        return FAIL;
      }
      code := file.Undefine(name);
      domains := domains - {name};
    }

    // ---- enabling ----

    /** The first half of `colod_colo_enable`: the domain takes the role of the node. */
    method TakeRole(name: Text)
      requires cs.localStatus !in {NodeNone, NodeError}
      modifies `domains
      ensures var ds := old(Entry(name)).(coloEnable := true, coloStatus := NodeColoRole(cs.localStatus));
        domains == old(domains)[name := ds]
    {
      ghost var ds := Entry(name).(coloEnable := true);
      Overwrite(domains, name, ds, ds.(coloStatus := NodeColoRole(cs.localStatus)));
      domains := domains[name := Entry(name).(coloEnable := true)];
      if cs.localStatus == NodePrimary {
        domains := domains[name := domains[name].(coloStatus := RolePrimary)];
      } else if cs.localStatus == NodeSecondary {
        domains := domains[name := domains[name].(coloStatus := RoleSecondary)];
      }
    }

    method EnableColo(peer: Daemon, name: Text, net: Net) returns (code: int)
      requires peer != this && peer.file != file && Valid() && peer.Valid()
      modifies this, file, peer, peer.file
      ensures Valid() && peer.Valid()
      ensures (Abs(), peer.Abs(), code) == Protocol.ColoEnable(old(Abs()), old(peer.Abs()), name, net)
    {
      hide Protocol.PeerSaveDomain, Protocol.ConcludeEnable;
      if cs.localStatus == NodeNone || cs.localStatus == NodeError {
        return FAIL;
      }
      TakeRole(name);
      if !clientInit {
        SetClient();
      }
      var reply := OK;
      if pending.NothingPending? && net != RequestLost {
        reply := peer.PeerSaveDomain(domains[name]);
      }
      var answer := Receive(net, reply);
      code := ConcludeEnable(name, answer);
    }

    /** The second half: what is not confirmed is disabled again. */
    method ConcludeEnable(name: Text, answer: Option<int>) returns (code: int)
      requires Valid() && name in domains
      modifies `domains, `peerInit, file
      ensures Valid() && (Abs(), code) == Protocol.ConcludeEnable(old(Abs()), name, answer)
    {
      if answer.None? {
        domains := domains[name := domains[name].(coloEnable := false)];
        peerInit := false;
        return FAIL;
      }
      if answer.value < 0 {
        domains := domains[name := domains[name].(coloEnable := false)];
        return FAIL;
      }
      code := file.SetColoEnable(name, domains[name].coloStatus);
      if code < 0 {
        domains := domains[name := domains[name].(coloEnable := false)];
        return FAIL;
      }
      code := OK;
    }

    method PeerSaveDomain(ds: DomainStatus) returns (code: int)
      requires Valid()
      modifies `domains, file
      ensures Valid() && (Abs(), code) == Protocol.PeerSaveDomain(old(Abs()), ds)
    {
      var nds := ds;
      if ds.coloEnable {
        nds := nds.(coloStatus := if ds.coloStatus == RolePrimary then RoleSecondary else RolePrimary);
      }
      code := file.SaveDomainInfo(nds);
      if code < 0 {
        return FAIL;
      }
      code := file.SetColoEnable(nds.name, nds.coloStatus);
      if code < 0 {
        return FAIL;
      }
      domains := domains[ds.name := nds];
    }

    method DisableColo(name: Text) returns (code: int)
      requires Valid()
      modifies `domains, file
      ensures Valid() && (Abs(), code) == Protocol.ColoDisable(old(Abs()), name)
    {
      code := file.SetColoDisable(name);
      if code < 0 {
        return FAIL;
      }
      domains := domains[name := Entry(name).(coloEnable := false)];
    }

    // ---- failover ----

    /** A secondary is marked before its commands go out, a primary only afterwards. */
    method DoFailover(name: Text, qmp: bool) returns (code: int)
      modifies `domains
      ensures (Abs(), code) == Protocol.Failover(old(Abs()), name, qmp)
    {
      ghost var ds := Entry(name);
      Overwrite(domains, name, ds, ds.(coloStatus := RoleFailover));
      Overwrite(domains, name, ds, ds.(status := Running, coloStatus := RoleDegrade));
      Overwrite(domains, name, ds.(coloStatus := RoleFailover), ds.(status := Running, coloStatus := RoleDegrade));
      domains := domains[name := Entry(name)];
      if domains[name].status == ShutOff || !domains[name].coloEnable {
        return FAIL;
      }
      var role := domains[name].coloStatus;
      if role == RoleSecondary {
        domains := domains[name := domains[name].(coloStatus := RoleFailover)];
        if !qmp {
          return FAIL;
        }
        domains := domains[name := domains[name].(status := Running, coloStatus := RoleDegrade)];
        return OK;
      } else if role == RolePrimary {
        if !qmp {
          return FAIL;
        }
        domains := domains[name := domains[name].(status := Running, coloStatus := RoleDegrade)];
        return OK;
      }
      return FAIL;
    }

    // ---- processes ----

    /** `run_new_vm` with the result of the fork. */
    method RunNewVm(name: Text, pid: int)
      requires Valid()
      modifies `live, file
      ensures Valid() && Abs() == RunVm(old(Abs()), name, pid)
    {
      if pid > 0 {
        live := live + {pid};
        file.SaveDomainPid(name, pid);
      }
    }

    /** `destroy_domain` */
    method DestroyProcess(name: Text) returns (code: int)
      requires Valid()
      modifies `live, file
      ensures Valid() && (Abs(), code) == DestroyVm(old(Abs()), name)
    {
      var pid;
      code, pid := file.GetDomainPid(name);
      if code < 0 {
        return FAIL;
      }
      MapOfList(file.domains);
      code := file.RemoveDomainPid(name);
      if code < 0 {
        return FAIL;
      }
      if pid != 0 && pid !in live {
        return FAIL;
      }
      live := live - {pid};
      return OK;
    }

    method PeerDestroyDomain(name: Text) returns (code: int)
      requires Valid()
      modifies `domains, `live, file
      ensures Valid() && (Abs(), code) == Protocol.PeerDestroy(old(Abs()), name)
    {
      if !Entry(name).coloEnable {
        domains := domains[name := Entry(name)];
        return FAIL;
      }
      var status := TestDomainStatus(name);
      if status == ShutOff {
        return FAIL;
      }
      code := DestroyProcess(name);
      if code < 0 {
        return FAIL;
      }
      ghost var ds := Entry(name).(pid := NO_PID);
      Overwrite(domains, name, ds, ds.(status := ShutOff));
      domains := domains[name := Entry(name).(pid := NO_PID)];
      domains := domains[name := domains[name].(status := ShutOff)];
    }

    method DestroyDomain(peer: Daemon, name: Text, net: Net) returns (code: int)
      requires peer != this && peer.file != file && Valid() && peer.Valid()
      modifies this, file, peer, peer.file
      ensures Valid() && peer.Valid()
      ensures (Abs(), peer.Abs(), code) == Protocol.Destroy(old(Abs()), old(peer.Abs()), name, net)
    {
      hide Test, DestroyVm, PeerDestroy;
      var status := TestDomainStatus(name);
      if status == ColoEnabled {
        var reply := OK;
        if pending.NothingPending? && net != RequestLost {
          reply := peer.PeerDestroyDomain(name);
        }
        var answer := Receive(net, reply);
        if answer.None? {
          peerInit := false;
          return FAIL;
        }
        if answer.value < 0 {
          return FAIL;
        }
      } else if status != Running {
        return FAIL;
      }
      code := DestroyProcess(name);
      if code < 0 {
        return FAIL;
      }
      ghost var ds := Entry(name).(pid := NO_PID);
      Overwrite(domains, name, ds, ds.(status := ShutOff));
      domains := domains[name := Entry(name).(pid := NO_PID)];
      domains := domains[name := domains[name].(status := ShutOff)];
      code := OK;
    }

    // ---- starting ----

    /** Sends the commands one by one until the monitor stops taking them. */
    method SendQmpCmds(cmds: seq<Cmd>, run: QmpRun) returns (code: int, sent: seq<Cmd>)
      ensures sent == Sent(cmds, run) && code == if run.ok then OK else FAIL
    {
      sent := [];
      var i := 0;
      while i < |cmds|
        invariant i <= |cmds| && sent == cmds[..i]
        invariant !run.ok ==> i <= run.sent
      {
        if !run.ok && i == run.sent {
          return FAIL, sent;
        }
        sent := sent + [cmds[i]];
        i := i + 1;
      }
      assert cmds[..i] == cmds;
      code := if run.ok then OK else FAIL;
    }

    method GeneratePvmQmpCmds(conf: Config, role: ColoRole) returns (cmds: seq<Cmd>)
      ensures cmds == PvmCmds(conf, cs, role)
    {
      var secondary := if role == RolePrimary then cs.peerIp else cs.hostIp;
      cmds := [Capabilities];
      cmds := cmds + [DriveAdd(secondary, conf.nbd)];
      cmds := cmds + [BlockdevChange];
      cmds := cmds + [SetColoCapability];
      cmds := cmds + [SetBandwidth];
      cmds := cmds + [Migrate(secondary, conf.migrate)];
    }

    method GenerateSvmQmpCmds(conf: Config, role: ColoRole) returns (cmds: seq<Cmd>)
      ensures cmds == SvmCmds(conf, cs, role)
    {
      var secondary := if role == RolePrimary then cs.peerIp else cs.hostIp;
      cmds := [Capabilities];
      cmds := cmds + [NbdServerStart(secondary, conf.nbd)];
      cmds := cmds + [NbdServerAdd];
      cmds := cmds + [SetBandwidth];
    }

    /** Launches the process and enters it in memory. */
    method Launch(name: Text, pid: int, status: DomainState)
      requires Valid()
      modifies `domains, `live, file
      ensures Valid() && Abs() == Launched(old(Abs()), name, pid, status)
    {
      RunNewVm(name, pid);
      ghost var ds := Entry(name).(pid := pid);
      Overwrite(domains, name, ds, ds.(status := status));
      domains := domains[name := Entry(name).(pid := pid)];
      domains := domains[name := domains[name].(status := status)];
    }

    method PeerStartDomain(name: Text, colo: bool, m: Machine) returns (code: int)
      requires Valid()
      modifies `domains, `live, file
      ensures Valid() && (Abs(), code) == Protocol.PeerStart(old(Abs()), name, colo, m)
    {
      hide Launched;
      if !colo {
        return FAIL;
      }
      domains := domains[name := Entry(name)];
      if !domains[name].coloEnable {
        return FAIL;
      }
      var conf;
      code, conf := file.GetDomain(name, _ => m.conf);
      if code < 0 {
        return FAIL;
      }
      if m.fork.None? {
        return FAIL;
      }
      Launch(name, m.fork.value, ColoEnabled);
      code := OK;
    }

    method PeerSendQmpCmds(name: Text, role: ColoRole, m: Machine) returns (code: int, sent: seq<Cmd>)
      requires Valid()
      modifies `domains, file
      ensures Valid() && (Abs(), code, sent) == Protocol.PeerSendQmp(old(Abs()), name, role, m)
    {
      hide Test, SvmCmds, Sent;
      var status := TestDomainStatus(name);
      sent := [];
      if status == ShutOff {
        return FAIL, sent;
      }
      var conf;
      code, conf := file.GetDomain(name, _ => m.conf);
      if code < 0 {
        return FAIL, sent;
      }
      if role == RolePrimary {
        return OK, sent;
      } else if role == RoleSecondary {
        var cmds := GenerateSvmQmpCmds(conf.value, Entry(name).coloStatus);
        code, sent := SendQmpCmds(cmds, m.qmp);
        return code, sent;
      }
      code := FAIL;
    }

    /** The second half of `colod_start`: the monitor commands on both machines. */
    method Engage(peer: Daemon, name: Text, role: ColoRole, net: Net, mine: Machine, other: Machine) returns (code: int, log: seq<Event>)
      requires peer != this && peer.file != file && Valid() && peer.Valid() && mine.conf.Some?
      modifies this, peer, peer.file
      ensures Valid() && peer.Valid()
      ensures (Abs(), peer.Abs(), code, log) == Protocol.Engage(old(Abs()), old(peer.Abs()), name, role, net, mine, other)
    {
      hide Protocol.PeerSendQmp, PvmCmds, SvmCmds, Sent;
      log := [];
      if role == RolePrimary {
        var answer, remote := AskForCmds(peer, name, RoleSecondary, net, other);
        log := remote;
        if answer.None? || answer.value < 0 {
          return FAIL, log;
        }
        var cmds := GeneratePvmQmpCmds(mine.conf.value, Entry(name).coloStatus);
        var sent;
        code, sent := SendQmpCmds(cmds, mine.qmp);
        log := log + Events(false, sent);
      } else if role == RoleSecondary {
        var cmds := GenerateSvmQmpCmds(mine.conf.value, Entry(name).coloStatus);
        var sent;
        code, sent := SendQmpCmds(cmds, mine.qmp);
        log := Events(false, sent);
        if code < 0 {
          return FAIL, log;
        }
        var answer, remote := AskForCmds(peer, name, RolePrimary, net, other);
        log := log + remote;
        code := if answer.None? || answer.value < 0 then FAIL else OK;
      } else {
        code := OK;
      }
    }

    /** The call of "peer-send-qmpcmds". */
    method AskForCmds(peer: Daemon, name: Text, role: ColoRole, net: Net, other: Machine) returns (answer: Option<int>, log: seq<Event>)
      requires peer != this && peer.file != file && Valid() && peer.Valid()
      modifies this, peer, peer.file
      ensures Valid() && peer.Valid()
      ensures var (peer1, reply, cmds) := Protocol.PeerSendQmp(old(peer.Abs()), name, role, other);
        var me := old(Abs());
        && peer.Abs() == (if Reaches(me, net) then peer1 else old(peer.Abs()))
        && log == (if Reaches(me, net) then Events(true, cmds) else [])
        && answer == Answer(me, net, reply)
        && Abs() == if answer.None? then AfterCall(me, net, reply).(peerInit := false) else AfterCall(me, net, reply)
    {
      hide Protocol.PeerSendQmp;
      log := [];
      var reply := OK;
      if pending.NothingPending? && net != RequestLost {
        var cmds;
        reply, cmds := peer.PeerSendQmpCmds(name, role, other);
        log := Events(true, cmds);
      }
      answer := Receive(net, reply);
      if answer.None? {
        peerInit := false;
      }
    }

    /** The call of "peer-start-domain". */
    method AskToStart(peer: Daemon, name: Text, colo: bool, net: Net, other: Machine) returns (answer: Option<int>)
      requires peer != this && peer.file != file && Valid() && peer.Valid()
      modifies this, peer, peer.file
      ensures Valid() && peer.Valid()
      ensures var (peer1, reply) := Protocol.PeerStart(old(peer.Abs()), name, colo, other);
        var me := old(Abs());
        && peer.Abs() == (if Reaches(me, net) then peer1 else old(peer.Abs()))
        && answer == Answer(me, net, reply)
        && Abs() == if answer.None? then AfterCall(me, net, reply).(peerInit := false) else AfterCall(me, net, reply)
    {
      hide Protocol.PeerStart;
      var reply := OK;
      if pending.NothingPending? && net != RequestLost {
        reply := peer.PeerStartDomain(name, colo, other);
      }
      answer := Receive(net, reply);
      if answer.None? {
        peerInit := false;
      }
    }

    method StartDomain(peer: Daemon, name: Text, colo: bool, net1: Net, net2: Net, mine: Machine, other: Machine)
      returns (code: int, log: seq<Event>)
      requires peer != this && peer.file != file && Valid() && peer.Valid()
      modifies this, file, peer, peer.file
      ensures Valid() && peer.Valid()
      ensures (Abs(), peer.Abs(), code, log) == Protocol.Start(old(Abs()), old(peer.Abs()), name, colo, net1, net2, mine, other)
    {
      hide Test, Protocol.PeerStart, Launched, Protocol.Engage;
      log := [];
      var role := Entry(name).coloStatus;
      var status := TestDomainStatus(name);
      if status != ShutOff {
        return FAIL, log;
      }
      var conf;
      code, conf := file.GetDomain(name, _ => mine.conf);
      if code < 0 {
        return FAIL, log;
      }
      if !colo {
        Launch(name, if mine.fork.Some? then mine.fork.value else NO_PID, Running);
        return OK, log;
      }
      if !Entry(name).coloEnable {
        return OK, log;
      }
      var answer := AskToStart(peer, name, colo, net1, other);
      if answer.None? || answer.value < 0 || mine.fork.None? {
        return FAIL, log;
      }
      Launch(name, mine.fork.value, ColoEnabled);
      code, log := Engage(peer, name, role, net2, mine, other);
    }
  }
}
