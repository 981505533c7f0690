/** What holds in every run of the two daemons. */
module Runs {
  import opened Types
  import opened Protocol
  import opened Slots

  // ---- memory and save file ----

  ghost predicate Agrees(me: Node)
  {
    forall k: Text :: Agreement(SlotOf(me, k))
  }

  lemma QuietKeepsAgreement(me: Node, after: Node)
    requires Agrees(me) && Quiet(me, after)
    ensures Agrees(after)
  {
    hide SlotOf, Agreement;
    forall k: Text
      ensures Agreement(SlotOf(after, k))
    {
      assert Agreement(SlotOf(me, k)) && QuietMove(SlotOf(me, k), SlotOf(after, k));
    }
  }

  lemma ChangedKeepsAgreement(me: Node, after: Node, name: Text, s: Slot)
    requires Agrees(me) && Changed(me, after, name, s) && Agreement(s)
    ensures Agrees(after)
  {
    hide SlotOf, Agreement;
    forall k: Text
      ensures Agreement(SlotOf(after, k))
    {
      assert Agreement(SlotOf(me, k));
    }
  }

  lemma EnableKeepsAgreement(me: Node, peer: Node, name: Text, net: Net)
    requires Agrees(me) && Agrees(peer)
    ensures var (me', peer', _) := ColoEnable(me, peer, name, net); Agrees(me') && Agrees(peer')
  {
    if me.cs.localStatus !in {NodeNone, NodeError} {
      EnableSlots(me, peer, name, net);
      var (me', peer', _) := ColoEnable(me, peer, name, net);
      assert Agreement(SlotOf(me, name));
      assert Agreement(EnabledSlot(me, name, net)) && Agreement(TakenSlot(me, name));
      hide ColoEnable, Changed, Agrees, SlotOf;
      ChangedKeepsAgreement(me, me', name, EnabledSlot(me, name, net));
      if Reaches(Caller(me), net) {
        ChangedKeepsAgreement(peer, peer', Offer(me, name).name, TakenSlot(me, name));
      }
    }
  }

  lemma StepKeepsAgreement(me: Node, peer: Node, cmd: Command)
    requires Agrees(me) && Agrees(peer)
    ensures var (me', peer', _) := Execute(me, peer, cmd); Agrees(me') && Agrees(peer')
  {
    hide Agrees, ColoEnable, Quiet;
    if cmd.EnableColo? {
      EnableKeepsAgreement(me, peer, cmd.name, cmd.net);
    } else {
      StepIsQuiet(me, peer, cmd);
      hide Execute;
      var (me', peer', _) := Execute(me, peer, cmd);
      QuietKeepsAgreement(me, me');
      QuietKeepsAgreement(peer, peer');
    }
  }

  /** In every run, whatever is lost, each record of a save file belongs to a known domain, it says
      "running" exactly when it has a process, and then memory has the same process and says so too. */
  lemma {:induction false} MemoryAgreesWithFile(w: World, program: Program, i: nat)
    requires Initial(w) && i <= |program|
    ensures Agrees(After(w, program, i).a) && Agrees(After(w, program, i).b)
  {
    hide Execute, Agrees, Initial;
    if i == 0 {
      InitiallyAgrees(w);
    } else {
      MemoryAgreesWithFile(w, program, i - 1);
      AfterStep(w, program, i - 1);
      hide After;
      var was := After(w, program, i - 1);
      var (side, cmd) := program[i - 1];
      StepKeepsAgreement(At(was, side), At(was, Other(side)), cmd);
    }
  }

  lemma InitiallyAgrees(w: World)
    requires Initial(w)
    ensures Agrees(w.a) && Agrees(w.b)
  {
  }

  // ---- failover ----

  predicate FailsOver(w: World, side: Side, cmd: Command, name: Text)
  {
    cmd.DoFailover? && cmd.name == name && Code(w, side, cmd) == OK
  }

  /** The command enables `name` on `side`: an enabling there succeeds, or the peer's offer arrives. */
  predicate Enables(w: World, giver: Side, cmd: Command, side: Side, name: Text)
  {
    cmd.EnableColo? && At(w, giver).cs.localStatus !in {NodeNone, NodeError}
    && if giver == side then cmd.name == name && Code(w, giver, cmd) == OK
       else Reaches(Caller(At(w, giver)), cmd.net) && Offer(At(w, giver), cmd.name).name == name
  }

  /** The domain is not enabled in one of the two roles: it has failed over, was disabled, or was never
      enabled. */
  predicate OutOfRole(me: Node, name: Text)
  {
    var ds := SlotOf(me, name).dom;
    !ds.coloEnable || ds.coloStatus !in {RolePrimary, RoleSecondary}
  }

  lemma FailoverNeedsRole(me: Node, name: Text, qmp: bool)
    ensures var (me', code) := Failover(me, name, qmp);
      && (OutOfRole(me, name) ==> code == FAIL && me' == Touch(me, name) && (name in me.domains ==> me' == me))
      && (code == OK ==> OutOfRole(me', name))
  {
    assert name in me.domains ==> me.domains[name := me.domains[name]] == me.domains;
  }

  lemma OtherCommandsKeepOutOfRole(w: World, giver: Side, cmd: Command, side: Side, name: Text)
    requires OutOfRole(At(w, side), name) && !Enables(w, giver, cmd, side, name)
    ensures OutOfRole(At(Step(w, giver, cmd), side), name)
  {
    var me, peer := At(w, giver), At(w, Other(giver));
    var (me', peer', _) := Execute(me, peer, cmd);
    if cmd.EnableColo? {
      if me.cs.localStatus !in {NodeNone, NodeError} {
        EnableSlots(me, peer, cmd.name, cmd.net);
        hide ColoEnable, SlotOf, Answer, Reaches, Offer;
      }
    } else {
      StepIsQuiet(me, peer, cmd);
      hide Execute, SlotOf, Agreement;
      assert QuietMove(SlotOf(me, name), SlotOf(me', name)) && QuietMove(SlotOf(peer, name), SlotOf(peer', name));
    }
  }

  lemma {:induction false} OutOfRoleUntilEnabled(w: World, program: Program, i: nat, j: nat, side: Side, name: Text)
    requires i <= j <= |program| && OutOfRole(At(After(w, program, i), side), name)
    requires forall m :: i <= m < j ==> !Enables(After(w, program, m), program[m].0, program[m].1, side, name)
    ensures OutOfRole(At(After(w, program, j), side), name)
  {
    hide Step, OutOfRole, Enables;
    if i < j {
      OutOfRoleUntilEnabled(w, program, i, j - 1, side, name);
      OtherCommandsKeepOutOfRole(After(w, program, j - 1), program[j - 1].0, program[j - 1].1, side, name);
    }
  }

  /** Between two successful failovers of a domain on one machine an enabling of it has succeeded there,
      or an offer of the peer has arrived. */
  lemma FailoverNeedsRebuild(w: World, program: Program, i: nat, j: nat, side: Side, name: Text)
    requires i < j < |program| && program[i].0 == side && program[j].0 == side
    requires FailsOver(After(w, program, i), side, program[i].1, name)
    requires FailsOver(After(w, program, j), side, program[j].1, name)
    ensures exists m :: i < m < j && Enables(After(w, program, m), program[m].0, program[m].1, side, name)
  {
    hide Step, OutOfRole, Enables, FailsOver, At;
    var was, now := After(w, program, i), After(w, program, j);
    FailoverLeavesRole(was, side, program[i].1, name);
    FailoverLeavesRole(now, side, program[j].1, name);
    assert After(w, program, i + 1) == Step(was, side, program[i].1);
    if forall m :: i < m < j ==> !Enables(After(w, program, m), program[m].0, program[m].1, side, name) {
      OutOfRoleUntilEnabled(w, program, i + 1, j, side, name);
      assert false;
    }
  }

  lemma FailoverLeavesRole(w: World, side: Side, cmd: Command, name: Text)
    requires FailsOver(w, side, cmd, name)
    ensures !OutOfRole(At(w, side), name) && OutOfRole(At(Step(w, side, cmd), side), name)
  {
    FailoverNeedsRole(At(w, side), name, cmd.qmp);
    hide Failover, OutOfRole;
  }
}
