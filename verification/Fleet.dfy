/** Two daemon objects carrying out a program of commands, and what that means for the objects. */
module Fleet {
  import opened Types
  import opened Protocol
  import opened Daemons
  import R = RoleSafety
  import Runs

  method Carry(me: Daemon, peer: Daemon, cmd: Command) returns (code: int)
    requires peer != me && peer.file != me.file && me.Valid() && peer.Valid()
    modifies me, me.file, peer, peer.file
    ensures me.Valid() && peer.Valid()
    ensures (me.Abs(), peer.Abs(), code) == Execute(old(me.Abs()), old(peer.Abs()), cmd)
  {
    hide ConnectPeer, ConnectStatus, ConnectTest, Define, Undefine, Start, Destroy, ColoEnable, ColoDisable, Failover, Test;
    code := OK;
    match cmd
    case Connect(file, net) => code := me.ConnectPeer(peer, file, net);
    case ShowStatus(net) => code := me.ConnectStatus(net);
    case TestConnection(net) => code := me.ConnectTest(net);
    case DefineDomain(definition) => code := me.DefineDomain(definition);
    case UndefineDomain(name) => code := me.UndefineDomain(name);
    case StartDomain(name, colo, net1, net2, mine, other) =>
      var log;
      code, log := me.StartDomain(peer, name, colo, net1, net2, mine, other);
    case DestroyDomain(name, net) => code := me.DestroyDomain(peer, name, net);
    case EnableColo(name, net) => code := me.EnableColo(peer, name, net);
    case DisableColo(name) => code := me.DisableColo(name);
    case DoFailover(name, qmp) => code := me.DoFailover(name, qmp);
    case TestDomain(name) => var _ := me.TestDomainStatus(name);
    case Die(pid) => me.live := me.live - {pid};
  }

  /** A whole program ends in the state the protocol says; so what holds in every run holds of the objects. */
  method RunProgram(a: Daemon, b: Daemon, program: Program)
    requires a != b && a.file != b.file && a.Valid() && b.Valid()
    modifies a, a.file, b, b.file
    ensures a.Valid() && b.Valid()
    ensures World(a.Abs(), b.Abs()) == After(old(World(a.Abs(), b.Abs())), program, |program|)
    ensures old(Initial(World(a.Abs(), b.Abs()))) ==> Runs.Agrees(a.Abs()) && Runs.Agrees(b.Abs())
    ensures old(Initial(World(a.Abs(), b.Abs())) && R.Careful(World(a.Abs(), b.Abs()), program)) ==> R.Safe(a.Abs(), b.Abs())
  {
    hide Execute, Initial, R.Careful, R.Safe, Runs.Agrees;
    ghost var w := World(a.Abs(), b.Abs());
    var i := 0;
    while i < |program|
      invariant i <= |program| && a.Valid() && b.Valid()
      invariant World(a.Abs(), b.Abs()) == After(w, program, i)
    {
      if program[i].0 == A {
        var _ := Carry(a, b, program[i].1);
      } else {
        var _ := Carry(b, a, program[i].1);
      }
      i := i + 1;
    }
    if Initial(w) {
      Runs.MemoryAgreesWithFile(w, program, |program|);
      if R.Careful(w, program) {
        R.RolesNeverClash(w, program, |program|);
      }
    }
  }
}
