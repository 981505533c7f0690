/** No domain is ever enabled on both machines in the same role. */
module RoleSafety {
  import opened Types
  import opened Protocol
  import opened Slots

  predicate Compatible(x: DomainStatus, y: DomainStatus)
  {
    x.coloEnable && y.coloEnable && x.coloStatus in {RolePrimary, RoleSecondary} ==> x.coloStatus != y.coloStatus
  }

  ghost predicate Safe(me: Node, peer: Node)
  {
    forall k: Text :: Compatible(SlotOf(me, k).dom, SlotOf(peer, k).dom)
  }

  predicate Plays(me: Node, name: Text, role: ColoRole)
  {
    Domain(me, name).coloEnable && Domain(me, name).coloStatus == role
  }

  /** What a daemon can check on itself before it enables a domain. A call that goes out needs a domain
      that is defined under its own name; a daemon that still waits for a reply may take a late success
      for the answer, unless it has to set up its client anew, which drops the reply. A daemon that is
      not connected, or finds the domain running, refuses in the end anyway, and one that plays the role
      already gains nothing. */
  predicate EnableGuard(me: Node, name: Text)
  {
    var ds, role := Domain(me, name), NodeColoRole(me.cs.localStatus);
    || me.cs.localStatus in {NodeNone, NodeError}
    || (if Sends(me) then
          ds.name == name || ((RunsSaved(me, name) || Plays(me, name, role)) && !Plays(me, ds.name, OppositeRole(role)))
        else
          RunsSaved(me, name) || Plays(me, name, role) || !me.clientInit)
  }

  /** The daemon with `reply` on its way, if it waits for one. It cannot tell these states apart. */
  function Given(me: Node, reply: Option<int>): Node
  {
    if Sends(me) then me else me.(pending := Awaiting(reply))
  }

  lemma EnableKeepsSafe(me: Node, peer: Node, name: Text, net: Net)
    requires Safe(me, peer) && EnableGuard(me, name)
    ensures var (me', peer', _) := ColoEnable(me, peer, name, net); Safe(me', peer')
  {
    if me.cs.localStatus !in {NodeNone, NodeError} {
      EnableSlots(me, peer, name, net);
      hide ColoEnable, SlotOf;
      var (me', peer', _) := ColoEnable(me, peer, name, net);
      forall k: Text
        ensures Compatible(SlotOf(me', k).dom, SlotOf(peer', k).dom)
      {
        assert Compatible(SlotOf(me, k).dom, SlotOf(peer, k).dom);
        SlotDomain(me, k);
      }
    }
  }

  lemma SlotDomain(me: Node, k: Text)
    ensures SlotOf(me, k).dom == Domain(me, k)
  {
  }

  /** A peer that has `name` enabled in a role, and nothing else. */
  function Rival(name: Text, role: ColoRole): Node
  {
    Node(ColoStatus(NodeNone, 0, [], [], [], [], [], []), map[name := DEFAULT_DOMAIN.(coloEnable := true, coloStatus := role)],
      map[], {}, false, false, NothingPending)
  }

  lemma RivalIsSafe(me: Node, name: Text, role: ColoRole)
    requires role !in {RolePrimary, RoleSecondary} || !Plays(me, name, role)
    ensures Safe(me, Rival(name, role))
  {
    SlotDomain(me, name);
  }

  /** When the guard fails, some harmless peer ends up in the same role, a late success being on its way. */
  lemma UnguardedClashes(me: Node, name: Text) returns (peer: Node)
    requires !EnableGuard(me, name)
    ensures Safe(Given(me, Some(OK)), peer)
    ensures var (me', peer', _) := ColoEnable(Given(me, Some(OK)), peer, name, Arrives); !Safe(me', peer')
  {
    var late := Given(me, Some(OK));
    var role := NodeColoRole(me.cs.localStatus);
    var k := if Sends(me) && Plays(me, Domain(me, name).name, OppositeRole(role)) then Domain(me, name).name else name;
    peer := Rival(k, if k == name then role else RoleNone);
    RivalIsSafe(late, k, if k == name then role else RoleNone);
    EnableSlots(late, peer, name, Arrives);
    SlotDomain(late, k);
    hide ColoEnable, Safe;
    var (me', peer', _) := ColoEnable(late, peer, name, Arrives);
    Clash(me', peer', k);
  }

  lemma Clash(me: Node, peer: Node, k: Text)
    requires !Compatible(SlotOf(me, k).dom, SlotOf(peer, k).dom)
    ensures !Safe(me, peer)
  {
  }

  lemma GivenKeepsGuard(me: Node, name: Text, reply: Option<int>)
    ensures EnableGuard(Given(me, reply), name) <==> EnableGuard(me, name)
  {
  }

  /** The guard is exact: enabling is harmless with every reply that may still be on its way, every peer
      and every delivery if and only if it holds. */
  lemma EnableGuardIsExact(me: Node, name: Text)
    ensures EnableGuard(me, name) <==>
      forall reply, peer, net :: Safe(Given(me, reply), peer) ==>
        var (me', peer', _) := ColoEnable(Given(me, reply), peer, name, net); Safe(me', peer')
  {
    hide ColoEnable, Safe, EnableGuard, Given;
    if EnableGuard(me, name) {
      forall reply, peer, net | Safe(Given(me, reply), peer)
        ensures var (me', peer', _) := ColoEnable(Given(me, reply), peer, name, net); Safe(me', peer')
      {
        GivenKeepsGuard(me, name, reply);
        EnableKeepsSafe(Given(me, reply), peer, name, net);
      }
    } else {
      var peer := UnguardedClashes(me, name);
    }
  }

  lemma QuietKeepsSafe(me: Node, peer: Node, me': Node, peer': Node)
    requires Safe(me, peer) && Quiet(me, me') && Quiet(peer, peer')
    ensures Safe(me', peer')
  {
    hide SlotOf, Agreement;
    forall k: Text
      ensures Compatible(SlotOf(me', k).dom, SlotOf(peer', k).dom)
    {
      assert Compatible(SlotOf(me, k).dom, SlotOf(peer, k).dom);
      assert QuietMove(SlotOf(me, k), SlotOf(me', k)) && QuietMove(SlotOf(peer, k), SlotOf(peer', k));
    }
  }

  lemma StepKeepsSafe(me: Node, peer: Node, cmd: Command)
    requires Safe(me, peer) && (cmd.EnableColo? ==> EnableGuard(me, cmd.name))
    ensures var (me', peer', _) := Execute(me, peer, cmd); Safe(me', peer')
  {
    hide Safe, EnableGuard, ColoEnable, Quiet;
    if cmd.EnableColo? {
      EnableKeepsSafe(me, peer, cmd.name, cmd.net);
    } else {
      StepIsQuiet(me, peer, cmd);
      hide Execute;
      var (me', peer', _) := Execute(me, peer, cmd);
      QuietKeepsSafe(me, peer, me', peer');
    }
  }

  lemma SafeIsSymmetric(me: Node, peer: Node)
    ensures Safe(me, peer) <==> Safe(peer, me)
  {
    hide SlotOf;
  }

  /** Every command of the program that enables a domain meets the guard where it is given. */
  ghost predicate Careful(w: World, program: Program)
  {
    forall i :: 0 <= i < |program| && program[i].1.EnableColo? ==> EnableGuard(At(After(w, program, i), program[i].0), program[i].1.name)
  }

  lemma InitiallySafe(w: World)
    requires Initial(w)
    ensures Safe(w.a, w.b)
  {
  }

  /** In every run of careful commands, with requests and replies lost anywhere and the machines' roles
      swapped at will, no domain is ever enabled on both machines in the same role. */
  lemma {:induction false} RolesNeverClash(w: World, program: Program, i: nat)
    requires Initial(w) && Careful(w, program) && i <= |program|
    ensures Safe(After(w, program, i).a, After(w, program, i).b)
  {
    hide Execute, Safe, EnableGuard, Initial;
    if i == 0 {
      InitiallySafe(w);
    } else {
      RolesNeverClash(w, program, i - 1);
      var was := After(w, program, i - 1);
      var (side, cmd) := program[i - 1];
      assert cmd.EnableColo? ==> EnableGuard(At(was, side), cmd.name);
      hide Careful, After;
      assert After(w, program, i) == Step(was, side, cmd) by { AfterStep(w, program, i - 1); }
      var me, peer := At(was, side), At(was, Other(side));
      SafeIsSymmetric(was.a, was.b);
      StepKeepsSafe(me, peer, cmd);
      var (me', peer', _) := Execute(me, peer, cmd);
      SafeIsSymmetric(me', peer');
    }
  }

  /** A config that makes the connecting machine the primary. */
  const PRIMARY := ConfigFile(Some(NodePrimary), Some([1]), Some([]), Some([]), Some([2]), Some([]), Some([]))

  lemma ConnectAsPrimary(me: Node, peer: Node)
    requires Sends(me)
    ensures var (me', peer', _) := ConnectPeer(me, peer, PRIMARY, Arrives);
      && me'.cs.localStatus == NodePrimary && peer'.cs.localStatus == NodeSecondary
      && me'.domains == me.domains && me'.saved == me.saved && peer'.domains == peer.domains && peer'.saved == peer.saved
      && me'.clientInit && Sends(me') && (Sends(peer) ==> Sends(peer'))
      && (peer.clientInit ==> peer'.pending == peer.pending && peer'.clientInit)
  {
  }

  /** Enabling a name that is not defined tells the peer of the empty name. */
  lemma EnableUndefined(me: Node, peer: Node, name: Text)
    requires me.cs.localStatus == NodePrimary && me.clientInit && Sends(me)
    requires name !in me.domains && name !in me.saved && name != []
    ensures var (me', peer', _) := ColoEnable(me, peer, name, Arrives);
      && Plays(me', name, RolePrimary) && me'.saved == me.saved
      && SlotOf(peer', name) == SlotOf(peer, name)
      && peer'.pending == peer.pending
  {
    EnableSlots(me, peer, name, Arrives);
    SlotDomain(ColoEnable(me, peer, name, Arrives).0, name);
  }

  /** Carelessness is enough to clash, with nothing lost: enable a name that is not defined, let the other
      machine connect as the primary, and enable the name there. */
  lemma CarelessRunClashes(w: World, name: Text)
    requires Initial(w) && name != []
    ensures var program: Program :=
        [(A, Connect(PRIMARY, Arrives)), (A, EnableColo(name, Arrives)), (B, Connect(PRIMARY, Arrives)), (B, EnableColo(name, Arrives))];
      !Careful(w, program) && !Safe(After(w, program, 4).a, After(w, program, 4).b)
  {
    hide ConnectPeer, ColoEnable, Careful, Safe;
    var program: Program :=
      [(A, Connect(PRIMARY, Arrives)), (A, EnableColo(name, Arrives)), (B, Connect(PRIMARY, Arrives)), (B, EnableColo(name, Arrives))];
    var w1 := After(w, program, 1);
    ConnectAsPrimary(w.a, w.b);
    assert w1 == Step(After(w, program, 0), A, program[0].1);
    var w2 := After(w, program, 2);
    EnableUndefined(w1.a, w1.b, name);
    assert w2 == Step(w1, A, program[1].1);
    SlotDomain(w2.a, name);
    var w3 := After(w, program, 3);
    ConnectAsPrimary(w2.b, w2.a);
    assert w3 == Step(w2, B, program[2].1);
    var w4 := After(w, program, 4);
    EnableUndefined(w3.b, w3.a, name);
    assert w4 == Step(w3, B, program[3].1);
    PlayersClash(w4.a, w4.b, name, RolePrimary);
    if Careful(w, program) {
      RolesNeverClash(w, program, 4);
    }
  }

  /** An enabling whose request arrives and whose reply is lost leaves that success behind. */
  lemma EnableTimesOut(me: Node, peer: Node, name: Text)
    requires me.cs.localStatus == NodePrimary && me.clientInit && Sends(me)
    requires Domain(me, name).name == name
    ensures var (me', peer', _) := ColoEnable(me, peer, name, ReplyLost);
      && me'.pending == Awaiting(Some(OK)) && me'.clientInit && me'.cs == me.cs && peer'.pending == peer.pending && peer'.cs == peer.cs
      && Domain(me', name).name == name && me'.saved == me.saved && Plays(peer', name, RoleSecondary)
      && Domain(peer', name).name == name && !RunsSaved(peer', name)
  {
    EnableSlots(me, peer, name, ReplyLost);
    EnableCalls(me, peer, name, ReplyLost);
    var (me', peer', _) := ColoEnable(me, peer, name, ReplyLost);
    SlotDomain(me', name);
    SlotDomain(peer', name);
    assert me'.saved == me.saved;
    assert SlotOf(peer', name) == TakenSlot(me, name);
    hide ColoEnable;
  }

  /** That success is then taken for the answer to the next call, which is not sent. */
  lemma EnableLate(me: Node, peer: Node, name: Text)
    requires me.cs.localStatus == NodeSecondary && me.clientInit && me.pending == Awaiting(Some(OK)) && !RunsSaved(me, name)
    ensures var (me', peer', code) := ColoEnable(me, peer, name, Arrives);
      peer' == peer && code == OK && Plays(me', name, RoleSecondary)
  {
    EnableSlots(me, peer, name, Arrives);
    SlotDomain(ColoEnable(me, peer, name, Arrives).0, name);
  }

  /** One lost reply is enough for a defined name: enable it with the reply lost, let the other machine
      connect as the primary, and enable it again. Both machines have it as SECONDARY. */
  lemma LateSuccessClashes(w: World, name: Text)
    requires Initial(w)
    ensures var program: Program :=
        [(A, DefineDomain(Some(name))), (A, Connect(PRIMARY, Arrives)), (A, EnableColo(name, ReplyLost)),
         (B, Connect(PRIMARY, Arrives)), (A, EnableColo(name, Arrives))];
      !Careful(w, program) && Plays(After(w, program, 5).a, name, RoleSecondary) && Plays(After(w, program, 5).b, name, RoleSecondary)
  {
    hide ConnectPeer, ColoEnable, Careful, Safe;
    var program: Program :=
      [(A, DefineDomain(Some(name))), (A, Connect(PRIMARY, Arrives)), (A, EnableColo(name, ReplyLost)),
       (B, Connect(PRIMARY, Arrives)), (A, EnableColo(name, Arrives))];
    var w1, w2, w3, w4 := After(w, program, 1), After(w, program, 2), After(w, program, 3), After(w, program, 4);
    assert After(w, program, 0) == w;
    AfterStep(w, program, 0);
    AfterStep(w, program, 1);
    AfterStep(w, program, 2);
    AfterStep(w, program, 3);
    AfterStep(w, program, 4);
    hide After;
    ConnectAsPrimary(w1.a, w1.b);
    EnableTimesOut(w2.a, w2.b, name);
    ConnectAsPrimary(w3.b, w3.a);
    EnableLate(w4.a, w4.b, name);
    PlayersClash(After(w, program, 5).a, After(w, program, 5).b, name, RoleSecondary);
    if Careful(w, program) {
      RolesNeverClash(w, program, 5);
    }
  }

  lemma PlayersClash(me: Node, peer: Node, name: Text, role: ColoRole)
    requires Plays(me, name, role) && Plays(peer, name, role) && role in {RolePrimary, RoleSecondary}
    ensures !Safe(me, peer)
  {
    SlotDomain(me, name);
    SlotDomain(peer, name);
    assert !Compatible(SlotOf(me, name).dom, SlotOf(peer, name).dom);
  }
}
