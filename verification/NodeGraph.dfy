/** The document nodes: a node shares a reference, a reference shares data, and an undefined node keeps
    the containers that become defined when it does. */
module NodeGraph {
  import opened Types
  import opened Definedness
  import opened Documents
  import opened Disciplines

  class NodeData {
    var isDefined: bool
    var kind: Kind
    var scalar: string
    var store: Store<Node>
    ghost var origin: Origin<Node>

    constructor ()
      ensures !isDefined && kind == Undefined && scalar == "" && store == Emptied() && origin == Origin({}, true)
    {
      isDefined, kind, scalar, store, origin := false, Undefined, "", Emptied(), Origin({}, true);
    }
  }

  class NodeRef {
    var data: NodeData

    constructor (d: NodeData)
      ensures data == d
    {
      data := d;
    }
  }

  class Node {
    var ref: NodeRef
    var deps: set<Node>
    var index: nat

    constructor ()
      ensures fresh(ref) && fresh(ref.data) && deps == {} && index == 0
      ensures !IsDefined() && ref.data.kind == Undefined && ref.data.scalar == ""
      ensures ref.data.store == Emptied() && ref.data.origin == Origin({}, true)
    {
      var d := new NodeData();
      var r := new NodeRef(d);
      ref, deps, index := r, {}, 0;
    }

    predicate IsDefined()
      reads `ref, ref`data, ref.data`isDefined
    {
      ref.data.isDefined
    }

    method SetDefined(ghost S: set<Node>)
      requires this in S && Separate(S) && !IsDefined()
      modifies ref.data`isDefined
      ensures Snapshot(S) == old(Snapshot(S)).(done := old(Snapshot(S)).done + {this})
      ensures Separate(S) && Datas(S) == old(Datas(S))
    {
      ref.data.isDefined := true;
    }

    method SetDependencies(ds: set<Node>, ghost S: set<Node>)
      requires this in S && Separate(S)
      modifies this`deps
      ensures Snapshot(S) == old(Snapshot(S)).(deps := old(Snapshot(S)).deps[this := ds])
      ensures Separate(S) && Datas(S) == old(Datas(S))
    {
      deps := ds;
    }

    /** A depth-first walk in place over a graph that may have cycles. */
    method MarkDefined(ghost S: set<Node>)
      requires this in S && Snapshot(S).Closed() && Separate(S)
      modifies S`deps, Datas(S)`isDefined
      decreases S - Snapshot(S).done
      ensures Snapshot(S) == old(Snapshot(S)).Mark(this)
      ensures Separate(S) && Datas(S) == old(Datas(S))
    {
      ghost var start := Snapshot(S);
      if IsDefined() {
        MarkOfMarked(start, this);
        return;
      }
      MarkingStarts(start, this);
      SetDefined(S);
      var rest := deps;
      while rest != {}
        invariant Marking(start, this, Snapshot(S), rest)
        invariant Snapshot(S).Closed() && Separate(S) && Datas(S) == old(Datas(S))
        decreases rest
      {
        var d :| d in rest;
        MarkingAdvances(start, this, Snapshot(S), rest, d);
        d.MarkDefined(S);
        rest := rest - {d};
      }
      MarkingEnds(start, this, Snapshot(S));
      SetDependencies({}, S);
    }

    /** Some container that is already recorded has the rank of `rhs`, so the ordered set refuses `rhs`. */
    predicate Clash(rhs: Node)
      reads `deps, rhs`index, deps`index
    {
      exists d :: d in deps && d.index == rhs.index
    }

    method AddDependency(rhs: Node, ghost S: set<Node>)
      requires this in S && rhs in S && Snapshot(S).Closed() && Separate(S)
      modifies S`deps, Datas(S)`isDefined
      ensures Snapshot(S) == old(Snapshot(S)).Link(this, rhs, old(Clash(rhs)))
      ensures Separate(S) && Datas(S) == old(Datas(S))
    {
      if IsDefined() {
        rhs.MarkDefined(S);
      } else if !Clash(rhs) {
        SetDependencies(deps + {rhs}, S);
      }
    }
  }

  ghost function Refs(S: set<Node>): set<NodeRef>
    reads S`ref
  {
    set m <- S :: m.ref
  }

  ghost function Datas(S: set<Node>): set<NodeData>
    reads S`ref, Refs(S)`data
  {
    set m <- S :: m.ref.data
  }

  ghost function Snapshot(S: set<Node>): Marks<Node>
    reads S`ref, S`deps, Refs(S)`data, Datas(S)`isDefined
  {
    Marks(map m <- S :: m.deps, set m <- S | m.IsDefined())
  }

  /** An undefined node shares its data with no other node. */
  ghost predicate Separate(S: set<Node>)
    reads S`ref, Refs(S)`data, Datas(S)`isDefined
  {
    forall a, b :: a in S && b in S && a != b && !a.IsDefined() ==> a.ref.data != b.ref.data
  }

  ghost function Layout(S: set<Node>): map<Node, Contents<Node>>
    reads S`ref, Refs(S)`data, Datas(S)`store, Datas(S)`origin
  {
    map c <- S :: (c.ref.data.store, c.ref.data.origin)
  }

  ghost function Faces(S: set<Node>): map<Node, Face>
    reads S`ref, Refs(S)`data, Datas(S)`kind, Datas(S)`scalar
  {
    map c <- S :: (c.ref.data.kind, c.ref.data.scalar)
  }

  ghost function Ranks(S: set<Node>): map<Node, nat>
    reads S`index
  {
    map c <- S :: c.index
  }

  ghost function Sharers(S: set<Node>, d: NodeData): set<Node>
    reads S`ref, Refs(S)`data
  {
    set c <- S | c.ref.data == d
  }

  ghost function RefSharers(S: set<Node>, r: NodeRef): set<Node>
    reads S`ref
  {
    set c <- S | c.ref == r
  }

  ghost function Bonds(S: set<Node>): map<Node, Ties<Node>>
    reads S`ref, Refs(S)`data
  {
    map c <- S :: Ties(Sharers(S, c.ref.data), RefSharers(S, c.ref))
  }

  lemma SharersAlike(S: set<Node>, c: Node)
    requires c in S && Separate(S)
    ensures Alike(Snapshot(S), Layout(S), c, Sharers(S, c.ref.data))
  {
  }

  lemma SharersLook(S: set<Node>, n: Node)
    requires n in S
    ensures n in RefSharers(S, n.ref) && RefSharers(S, n.ref) <= Sharers(S, n.ref.data)
    ensures forall m <- Sharers(S, n.ref.data) :: m in S && Sharers(S, m.ref.data) == Sharers(S, n.ref.data) && Faces(S)[m] == Faces(S)[n]
    ensures forall m <- RefSharers(S, n.ref) :: m in S && RefSharers(S, m.ref) == RefSharers(S, n.ref)
  {
  }

  lemma NoMarks(S: set<Node>)
    requires S == {}
    ensures Separate(S) && Snapshot(S) == Marks(map[], {}) && Layout(S) == map[]
  {
  }

  lemma NoFaces(S: set<Node>)
    requires S == {}
    ensures Faces(S) == map[] && Ranks(S) == map[]
  {
  }

  lemma NoBonds(S: set<Node>)
    requires S == {}
    ensures Bonds(S) == map[]
  {
  }

  lemma GrownMarks(S: set<Node>, n: Node)
    requires Separate(S) && n !in S
    requires n.ref !in Refs(S) && n.ref.data !in Datas(S) && !n.IsDefined()
    ensures Separate(S + {n})
    ensures Snapshot(S + {n}) == Snapshot(S).(deps := Snapshot(S).deps[n := n.deps])
  {
  }

  lemma GrownLayout(S: set<Node>, n: Node)
    requires n !in S
    ensures Layout(S + {n}) == Layout(S)[n := (n.ref.data.store, n.ref.data.origin)]
  {
  }

  lemma GrownFaces(S: set<Node>, n: Node)
    requires n !in S
    ensures Faces(S + {n}) == Faces(S)[n := (n.ref.data.kind, n.ref.data.scalar)]
    ensures Ranks(S + {n}) == Ranks(S)[n := n.index]
  {
  }

  lemma GrownBonds(S: set<Node>, n: Node)
    requires n !in S && n.ref !in Refs(S) && n.ref.data !in Datas(S)
    ensures Bonds(S + {n}) == Bonds(S)[n := Ties({n}, {n})]
  {
    var all := S + {n};
    assert Sharers(all, n.ref.data) == {n} && RefSharers(all, n.ref) == {n};
    forall c | c in S
      ensures Sharers(all, c.ref.data) == Sharers(S, c.ref.data) && RefSharers(all, c.ref) == RefSharers(S, c.ref)
    {
      assert c.ref in Refs(S) && c.ref.data in Datas(S);
    }
  }

  // What does not change on the heap does not change in the value.

  twostate lemma SameMarks(S: set<Node>)
    requires forall c <- S :: c.ref == old(c.ref) && c.ref.data == old(c.ref.data)
    requires forall c <- S :: c.deps == old(c.deps) && c.ref.data.isDefined == old(c.ref.data.isDefined)
    ensures Snapshot(S) == old(Snapshot(S)) && Separate(S) == old(Separate(S))
  {
  }

  twostate lemma SameLayout(S: set<Node>)
    requires forall c <- S :: c.ref == old(c.ref) && c.ref.data == old(c.ref.data)
    requires forall c <- S :: c.ref.data.store == old(c.ref.data.store) && c.ref.data.origin == old(c.ref.data.origin)
    ensures Layout(S) == old(Layout(S))
  {
  }

  twostate lemma SameFaces(S: set<Node>)
    requires forall c <- S :: c.ref == old(c.ref) && c.ref.data == old(c.ref.data)
    requires forall c <- S :: c.ref.data.kind == old(c.ref.data.kind) && c.ref.data.scalar == old(c.ref.data.scalar)
    ensures Faces(S) == old(Faces(S))
  {
  }

  twostate lemma SameRanks(S: set<Node>)
    requires forall c <- S :: c.index == old(c.index)
    ensures Ranks(S) == old(Ranks(S))
  {
  }

  twostate lemma SameBonds(S: set<Node>)
    requires forall c <- S :: c.ref == old(c.ref) && c.ref.data == old(c.ref.data)
    ensures Bonds(S) == old(Bonds(S))
  {
    forall c | c in S
      ensures Sharers(S, c.ref.data) == old(Sharers(S, c.ref.data)) && RefSharers(S, c.ref) == old(RefSharers(S, c.ref))
    {
      assert forall m <- S :: m.ref == old(m.ref) && m.ref.data == old(m.ref.data);
    }
  }

  /** Of `all` nodes, `n` takes over from `rhs`: those in `moved` get its data, which stays as it is. */
  datatype Transfer = Transfer(all: set<Node>, moved: set<Node>, n: Node, rhs: Node)

  twostate lemma MovedMarks(t: Transfer)
    requires t.rhs in t.all && forall c <- t.all :: c.deps == old(c.deps)
    requires forall c <- t.all :: c in t.moved ==> c.ref.data == old(t.rhs.ref.data) && c.IsDefined()
    requires forall c <- t.all :: c !in t.moved ==> c.ref.data == old(c.ref.data) && c.IsDefined() == old(c.IsDefined())
    requires old(t.rhs.IsDefined()) && (forall c <- t.all :: c in t.moved ==> old(c.IsDefined())) && old(Separate(t.all))
    ensures Snapshot(t.all) == old(Snapshot(t.all)) && Separate(t.all)
  {
  }

  twostate lemma MovedLayout(t: Transfer)
    requires t.rhs in t.all
    requires forall c <- t.all :: c in t.moved ==> c.ref.data.store == old(t.rhs.ref.data.store) && c.ref.data.origin == old(t.rhs.ref.data.origin)
    requires forall c <- t.all :: c !in t.moved ==> c.ref.data.store == old(c.ref.data.store) && c.ref.data.origin == old(c.ref.data.origin)
    ensures Layout(t.all) == Shared(old(Layout(t.all)), t.moved, old(Layout(t.all))[t.rhs])
  {
  }

  twostate lemma MovedFaces(t: Transfer)
    requires t.rhs in t.all
    requires forall c <- t.all :: c in t.moved ==> c.ref.data.kind == old(t.rhs.ref.data.kind) && c.ref.data.scalar == old(t.rhs.ref.data.scalar)
    requires forall c <- t.all :: c !in t.moved ==> c.ref.data.kind == old(c.ref.data.kind) && c.ref.data.scalar == old(c.ref.data.scalar)
    ensures Faces(t.all) == Shared(old(Faces(t.all)), t.moved, old(Faces(t.all))[t.rhs])
  {
  }

  twostate lemma MovedKin(t: Transfer)
    requires t.rhs in t.all && t.moved <= t.all
    requires forall m <- t.all :: m.ref.data == if m in t.moved then old(t.rhs.ref.data) else old(m.ref.data)
    ensures forall c <- t.all ::
      Sharers(t.all, c.ref.data) == Joined(old(Sharers(t.all, c.ref.data)), c, t.moved, old(Sharers(t.all, t.rhs.ref.data)))
  {
  }

  twostate lemma MovedTwins(t: Transfer)
    requires t.rhs in t.all && t.moved <= t.all
    requires forall m <- t.all :: m.ref == if m in t.moved then old(t.rhs.ref) else old(m.ref)
    ensures forall c <- t.all ::
      RefSharers(t.all, c.ref) == Joined(old(RefSharers(t.all, c.ref)), c, t.moved, old(RefSharers(t.all, t.rhs.ref)))
  {
  }

  twostate lemma MovedRef(t: Transfer)
    requires t.rhs in t.all && t.n in t.all && t.moved == {t.n}
    requires t.n.ref == old(t.rhs.ref) && t.n.ref.data == old(t.rhs.ref.data)
    requires forall m <- t.all :: m != t.n ==> m.ref == old(m.ref) && m.ref.data == old(m.ref.data)
    ensures Bonds(t.all) == RefJoined(old(Bonds(t.all)), t.n, t.rhs)
  {
    hide Sharers, RefSharers, Joined;
    MovedKin(t);
    MovedTwins(t);
  }

  twostate lemma MovedData(t: Transfer)
    requires t.rhs in t.all && t.n in t.all && t.moved == old(RefSharers(t.all, t.n.ref))
    requires forall m <- t.all :: m.ref == old(m.ref)
    requires forall m <- t.all :: m.ref.data == if m in t.moved then old(t.rhs.ref.data) else old(m.ref.data)
    ensures Bonds(t.all) == DataJoined(old(Bonds(t.all)), t.n, t.rhs)
  {
    MovedKin(t);
    hide Sharers, Joined;
    assert forall c <- t.all :: RefSharers(t.all, c.ref) == old(RefSharers(t.all, c.ref));
  }

  /** The whole value after `n` has taken over the reference of `rhs`. */
  twostate lemma RefTaken(t: Transfer)
    requires t.n in t.all && t.rhs in t.all && t.moved == {t.n}
    requires old(t.n.IsDefined()) && old(t.rhs.IsDefined()) && old(Separate(t.all))
    requires forall c <- t.all :: c.ref == old(if c == t.n then t.rhs.ref else c.ref) && c.deps == old(c.deps) && c.index == old(c.index)
    requires forall c <- t.all :: c.ref.data == old(if c == t.n then t.rhs.ref.data else c.ref.data)
    requires forall d <- old(Datas(t.all)) :: unchanged(d)
    ensures Separate(t.all) && Snapshot(t.all) == old(Snapshot(t.all)) && Ranks(t.all) == old(Ranks(t.all))
    ensures Layout(t.all) == Shared(old(Layout(t.all)), {t.n}, old(Layout(t.all))[t.rhs])
    ensures Faces(t.all) == Shared(old(Faces(t.all)), {t.n}, old(Faces(t.all))[t.rhs])
    ensures t.rhs in old(Bonds(t.all)) && Bonds(t.all) == RefJoined(old(Bonds(t.all)), t.n, t.rhs)
  {
    assert t.rhs in old(Bonds(t.all));
    assert forall c <- t.all :: old(c.ref.data) in old(Datas(t.all));
    hide Snapshot, Layout, Faces, Ranks, Bonds, Separate, Shared, RefJoined;
    MovedMarks(t);
    MovedLayout(t);
    MovedFaces(t);
    MovedRef(t);
    SameRanks(t.all);
  }

  /** The whole value after the reference of `n` has taken over the data of `rhs`. */
  twostate lemma DataTaken(t: Transfer)
    requires t.n in t.all && t.rhs in t.all && t.moved == old(RefSharers(t.all, t.n.ref))
    requires old(t.n.IsDefined()) && old(t.rhs.IsDefined()) && old(Separate(t.all))
    requires forall c <- t.all :: c.ref == old(c.ref) && c.deps == old(c.deps) && c.index == old(c.index)
    requires forall c <- t.all :: c.ref.data == old(if c.ref == t.n.ref then t.rhs.ref.data else c.ref.data)
    requires forall d <- old(Datas(t.all)) :: unchanged(d)
    ensures Separate(t.all) && Snapshot(t.all) == old(Snapshot(t.all)) && Ranks(t.all) == old(Ranks(t.all))
    ensures Layout(t.all) == Shared(old(Layout(t.all)), t.moved, old(Layout(t.all))[t.rhs])
    ensures Faces(t.all) == Shared(old(Faces(t.all)), t.moved, old(Faces(t.all))[t.rhs])
    ensures t.n in old(Bonds(t.all)) && t.rhs in old(Bonds(t.all)) && Bonds(t.all) == DataJoined(old(Bonds(t.all)), t.n, t.rhs)
  {
    assert t.n in old(Bonds(t.all)) && t.rhs in old(Bonds(t.all));
    assert forall c <- t.all :: old(c.ref.data) in old(Datas(t.all));
    hide Snapshot, Layout, Faces, Ranks, Bonds, Separate, Shared, DataJoined;
    MovedMarks(t);
    MovedLayout(t);
    MovedFaces(t);
    MovedData(t);
    SameRanks(t.all);
  }

  /** The nodes of one document and the operations on them. The first group changes the heap in one
      step each; the second consists of the public operations. Every one is proved to do to the document
      what the operation of the same name does to its value. */
  class Memory {
    var nodes: set<Node>
    var amount: nat

    ghost function Document(): Doc<Node>
      reads this, nodes, Refs(nodes), Datas(nodes)
    {
      Doc(Snapshot(nodes), Layout(nodes), Faces(nodes), Ranks(nodes), Bonds(nodes), amount)
    }

    ghost predicate Valid()
      reads this, nodes, Refs(nodes), Datas(nodes)
    {
      Separate(nodes) && Document().Valid()
    }

    /** The nodes that share data with `c`. */
    ghost function Family(c: Node): set<Node>
      reads `nodes, nodes`ref, Refs(nodes)`data, c`ref, c.ref`data
    {
      Sharers(nodes, c.ref.data)
    }

    constructor ()
      ensures Valid() && nodes == {} && amount == 0
    {
      nodes, amount := {}, 0;
      new;
      hide Snapshot, Layout, Faces, Ranks, Bonds, Separate, Coherent;
      NoMarks({});
      NoFaces({});
      NoBonds({});
      NothingIsValid<Node>();
    }

    /** The value of the document, node by node. */
    lemma Reading(m: Node)
      requires m in nodes
      ensures Document().Has(m) && Document().marks.deps[m] == m.deps && (m.IsDefined() <==> Document().Defined(m))
      ensures Document().layout[m] == (m.ref.data.store, m.ref.data.origin)
      ensures Document().face[m] == (m.ref.data.kind, m.ref.data.scalar) && Document().rank[m] == m.index
      ensures Document().ties[m] == Ties(Family(m), RefSharers(nodes, m.ref)) && Document().Kin(m) == Family(m)
    {
    }

    lemma AllNodes()
      ensures Document().layout.Keys == nodes
    {
    }

    lemma ClashReads(m: Node, c: Node)
      requires Document().marks.Closed() && m in nodes && c in nodes
      ensures Document().Has(m) && Document().Has(c) && (m.Clash(c) <==> Document().Clash(m, c))
    {
      Reading(m);
      Reading(c);
      assert m.deps <= nodes;
      assert forall d :: d in m.deps ==> d in nodes && Document().rank[d] == d.index;
    }

    lemma FamilyFits(c: Node)
      requires Valid() && c in nodes
      ensures Document().Has(c) && Document().Kin(c) == Family(c) && Document().Family(c, Family(c))
    {
      hide Coherent;
      SharersAlike(nodes, c);
    }

    // Each write to the heap, seen on every part of the value.

    method NewNode() returns (n: Node)
      requires Separate(nodes)
      modifies this`nodes
      ensures fresh(n) && fresh(n.ref) && fresh(n.ref.data) && nodes == old(nodes) + {n} && Separate(nodes)
      ensures Datas(nodes) == old(Datas(nodes)) + {n.ref.data}
      ensures var was := old(Snapshot(nodes)); Snapshot(nodes) == was.(deps := was.deps[n := {}])
      ensures Layout(nodes) == old(Layout(nodes))[n := (Emptied(), Origin({}, true))]
      ensures Faces(nodes) == old(Faces(nodes))[n := (Undefined, "")] && Ranks(nodes) == old(Ranks(nodes))[n := 0]
      ensures Bonds(nodes) == old(Bonds(nodes))[n := Ties({n}, {n})]
    {
      hide Snapshot, Layout, Faces, Ranks, Bonds, Separate;
      n := new Node();
      SameBonds(nodes);
      GrownBonds(nodes, n);
      SameMarks(nodes);
      SameLayout(nodes);
      SameFaces(nodes);
      SameRanks(nodes);
      GrownMarks(nodes, n);
      GrownLayout(nodes, n);
      GrownFaces(nodes, n);
      nodes := nodes + {n};
    }

    method PutFace(d: NodeData, kind: Kind, text: string)
      modifies d`kind, d`scalar
      ensures d.kind == kind && d.scalar == text && Separate(nodes) == old(Separate(nodes))
      ensures Snapshot(nodes) == old(Snapshot(nodes)) && Layout(nodes) == old(Layout(nodes)) && Ranks(nodes) == old(Ranks(nodes))
      ensures Faces(nodes) == Shared(old(Faces(nodes)), old(Sharers(nodes, d)), (kind, text)) && Bonds(nodes) == old(Bonds(nodes))
    {
      hide Snapshot, Layout, Ranks, Bonds, Separate;
      d.kind, d.scalar := kind, text;
      SameBonds(nodes);
      SameMarks(nodes);
      SameLayout(nodes);
      SameRanks(nodes);
    }

    method PutStore(d: NodeData, store: Store<Node>, ghost origin: Origin<Node>)
      modifies d`store, d`origin
      ensures d.store == store && d.origin == origin && Separate(nodes) == old(Separate(nodes))
      ensures Snapshot(nodes) == old(Snapshot(nodes)) && Faces(nodes) == old(Faces(nodes)) && Ranks(nodes) == old(Ranks(nodes))
      ensures Layout(nodes) == Shared(old(Layout(nodes)), old(Sharers(nodes, d)), (store, origin)) && Bonds(nodes) == old(Bonds(nodes))
    {
      hide Snapshot, Faces, Ranks, Bonds, Separate;
      d.store, d.origin := store, origin;
      SameBonds(nodes);
      SameMarks(nodes);
      SameFaces(nodes);
      SameRanks(nodes);
    }

    method PutRef(n: Node, rhs: Node)
      requires n in nodes && rhs in nodes && n.IsDefined() && rhs.IsDefined() && Separate(nodes)
      modifies n`ref
      ensures n.ref == old(rhs.ref) == rhs.ref && Separate(nodes)
      ensures Snapshot(nodes) == old(Snapshot(nodes)) && Ranks(nodes) == old(Ranks(nodes))
      ensures Layout(nodes) == Shared(old(Layout(nodes)), {n}, old(Layout(nodes))[rhs])
      ensures Faces(nodes) == Shared(old(Faces(nodes)), {n}, old(Faces(nodes))[rhs])
      ensures rhs in old(Bonds(nodes)) && Bonds(nodes) == RefJoined(old(Bonds(nodes)), n, rhs)
    {
      hide Snapshot, Layout, Faces, Ranks, Bonds, Separate, Shared, RefJoined;
      n.ref := rhs.ref;
      RefTaken(Transfer(nodes, {n}, n, rhs));
    }

    method PutData(n: Node, rhs: Node)
      requires n in nodes && rhs in nodes && n.IsDefined() && rhs.IsDefined() && Separate(nodes)
      modifies n.ref`data
      ensures n.ref.data == old(rhs.ref.data) == rhs.ref.data && Separate(nodes)
      ensures Snapshot(nodes) == old(Snapshot(nodes)) && Ranks(nodes) == old(Ranks(nodes))
      ensures Layout(nodes) == Shared(old(Layout(nodes)), RefSharers(nodes, n.ref), old(Layout(nodes))[rhs])
      ensures Faces(nodes) == Shared(old(Faces(nodes)), RefSharers(nodes, n.ref), old(Faces(nodes))[rhs])
      ensures n in old(Bonds(nodes)) && rhs in old(Bonds(nodes)) && Bonds(nodes) == DataJoined(old(Bonds(nodes)), n, rhs)
    {
      hide Snapshot, Layout, Faces, Ranks, Bonds, Separate, Shared, DataJoined;
      n.ref.data := rhs.ref.data;
      DataTaken(Transfer(nodes, RefSharers(nodes, n.ref), n, rhs));
    }

    method PutIndex(c: Node, k: nat)
      requires c in nodes
      modifies c`index
      ensures c.index == k && Separate(nodes) == old(Separate(nodes))
      ensures Snapshot(nodes) == old(Snapshot(nodes)) && Layout(nodes) == old(Layout(nodes)) && Faces(nodes) == old(Faces(nodes))
      ensures Ranks(nodes) == old(Ranks(nodes))[c := k] && Bonds(nodes) == old(Bonds(nodes))
    {
      hide Snapshot, Layout, Faces, Bonds, Separate;
      c.index := k;
    }

    method Mark(n: Node)
      requires Separate(nodes) && Snapshot(nodes).Closed() && n in nodes
      modifies nodes`deps, Datas(nodes)`isDefined
      ensures Separate(nodes) && Snapshot(nodes) == old(Snapshot(nodes)).Mark(n)
      ensures Layout(nodes) == old(Layout(nodes)) && Faces(nodes) == old(Faces(nodes)) && Ranks(nodes) == old(Ranks(nodes))
      ensures Bonds(nodes) == old(Bonds(nodes))
    {
      hide Snapshot, Layout, Faces, Ranks, Bonds, Separate, Marks.Mark;
      n.MarkDefined(nodes);
      SameBonds(nodes);
      SameLayout(nodes);
      SameFaces(nodes);
      SameRanks(nodes);
    }

    method Link(m: Node, c: Node)
      requires Separate(nodes) && Snapshot(nodes).Closed() && m in nodes && c in nodes
      modifies nodes`deps, Datas(nodes)`isDefined
      ensures Separate(nodes) && Snapshot(nodes) == old(Snapshot(nodes)).Link(m, c, old(m.Clash(c)))
      ensures Layout(nodes) == old(Layout(nodes)) && Faces(nodes) == old(Faces(nodes)) && Ranks(nodes) == old(Ranks(nodes))
      ensures Bonds(nodes) == old(Bonds(nodes))
    {
      hide Snapshot, Layout, Faces, Ranks, Bonds, Separate, Marks.Link;
      m.AddDependency(c, nodes);
      SameBonds(nodes);
      SameLayout(nodes);
      SameFaces(nodes);
      SameRanks(nodes);
    }

    /** The value of a heap without shared undefined data tells who shares with whom. */
    lemma IsBonded()
      requires Separate(nodes)
      ensures Document().Bonded()
    {
      var d := Document();
      forall n | n in nodes ensures d.ties.Keys == d.layout.Keys == d.face.Keys && d.Bond(n) {
        SharersAlike(nodes, n);
        SharersLook(nodes, n);
        hide Snapshot, Separate, Alike;
      }
      hide Snapshot, Separate, Alike, Doc<Node>.Bond;
    }

    // Each write to the heap, seen on the value.

    lemma ValidMeans()
      requires Valid()
      ensures Separate(nodes) && Document().Valid() && Snapshot(nodes).Closed() && Document().marks == Snapshot(nodes)
    {
      CoherentFacts(Snapshot(nodes), Layout(nodes));
      hide Coherent;
    }

    lemma IsValid()
      ensures Valid() <==> Separate(nodes) && Document().Valid()
    {
    }

    method Allocate() returns (n: Node)
      requires Separate(nodes)
      modifies this`nodes
      ensures Separate(nodes)
      ensures fresh(n) && fresh(n.ref) && fresh(n.ref.data) && nodes == old(nodes) + {n}
      ensures Datas(nodes) == old(Datas(nodes)) + {n.ref.data}
      ensures Document() == old(Document()).Create(n)
      ensures forall c :: c in old(nodes) ==> Family(c) == old(Family(c))
    {
      hide Snapshot, Layout, Faces, Ranks, Bonds, Separate;
      n := NewNode();
    }

    method Define(n: Node)
      requires Valid() && n in nodes
      modifies nodes`deps, Datas(nodes)`isDefined
      ensures Separate(nodes) && Document() == old(Document()).Mark(n)
    {
      ValidMeans();
      hide Snapshot, Layout, Faces, Ranks, Bonds, Separate, Marks.Mark;
      Mark(n);
    }

    method Connect(m: Node, c: Node)
      requires Separate(nodes) && Document().marks.Closed() && m in nodes && c in nodes
      modifies nodes`deps, Datas(nodes)`isDefined
      ensures old(Document()).Has(m) && old(Document()).Has(c)
      ensures Separate(nodes) && Document() == old(Document()).Link(m, c)
    {
      ClashReads(m, c);
      hide Snapshot, Layout, Faces, Ranks, Bonds, Separate, Marks.Link, Doc<Node>.Clash;
      Link(m, c);
    }

    method WriteFace(n: Node, kind: Kind, text: string)
      requires n in nodes
      modifies n.ref.data`kind, n.ref.data`scalar
      ensures n.ref.data.kind == kind && n.ref.data.scalar == text && Separate(nodes) == old(Separate(nodes))
      ensures Document() == old(Document()).Paint(old(Family(n)), (kind, text))
    {
      hide Snapshot, Layout, Faces, Ranks, Bonds, Separate, Shared;
      PutFace(n.ref.data, kind, text);
    }

    method WriteStore(c: Node, store: Store<Node>, ghost origin: Origin<Node>)
      requires c in nodes
      modifies c.ref.data`store, c.ref.data`origin
      ensures c.ref.data.store == store && Separate(nodes) == old(Separate(nodes))
      ensures Document() == old(Document()).Put(old(Family(c)), (store, origin))
    {
      hide Snapshot, Layout, Faces, Ranks, Bonds, Separate, Shared;
      PutStore(c.ref.data, store, origin);
    }

    lemma SharersMarked(n: Node)
      requires n in nodes && n.IsDefined()
      ensures n in RefSharers(nodes, n.ref) && RefSharers(nodes, n.ref) <= Document().marks.done
    {
    }

    method WriteRef(n: Node, rhs: Node)
      requires n in nodes && rhs in nodes && n.IsDefined() && rhs.IsDefined() && Separate(nodes)
      modifies n`ref
      ensures n.ref == old(rhs.ref) == rhs.ref && Separate(nodes)
      ensures var was := old(Document());
        && was.Has(rhs)
        && Document() == was.Put({n}, was.layout[rhs]).Paint({n}, was.face[rhs]).(ties := RefJoined(was.ties, n, rhs))
    {
      Reading(rhs);
      hide Snapshot, Layout, Faces, Ranks, Bonds, Separate, Shared;
      PutRef(n, rhs);
    }

    method WriteData(n: Node, rhs: Node)
      requires n in nodes && rhs in nodes && n.IsDefined() && rhs.IsDefined() && Separate(nodes)
      modifies n.ref`data
      ensures n.ref.data == old(rhs.ref.data) == rhs.ref.data && Separate(nodes)
      ensures var was, xs := old(Document()), old(RefSharers(nodes, n.ref));
        && was.Has(n) && was.Has(rhs)
        && Document() == was.Put(xs, was.layout[rhs]).Paint(xs, was.face[rhs]).(ties := DataJoined(was.ties, n, rhs))
    {
      Reading(n);
      Reading(rhs);
      hide Snapshot, Layout, Faces, Ranks, Bonds, Separate, Shared;
      PutData(n, rhs);
    }

    method NextIndex(c: Node)
      requires c in nodes
      modifies c`index, this`amount
      ensures Separate(nodes) == old(Separate(nodes)) && c.index == old(amount) && amount == old(amount) + 1
      ensures var was := old(Document()); Document() == was.(rank := was.rank[c := was.amount], amount := was.amount + 1)
    {
      hide Snapshot, Layout, Faces, Ranks, Bonds, Separate;
      PutIndex(c, amount);
      amount := amount + 1;
    }

    // The operations.

    lemma MarkedIsMarked(d: Doc<Node>, n: Node, rhs: Node)
      requires d.Valid() && d.Has(n) && d.Has(rhs) && d.Defined(rhs)
      ensures d.Mark(n).Defined(n) && d.Mark(n).Defined(rhs)
    {
      MarkMarks(d.marks, n);
      hide Marks.Mark, Coherent;
    }

    method CreateNode() returns (n: Node)
      requires Valid()
      modifies this`nodes
      ensures Valid() && fresh(n) && fresh(n.ref) && fresh(n.ref.data) && nodes == old(nodes) + {n}
      ensures Datas(nodes) == old(Datas(nodes)) + {n.ref.data}
      ensures n !in old(Document()).layout && Document() == old(Document()).Create(n)
      ensures Created(old(Document()), n, Document())
      ensures forall c :: c in old(nodes) ==> Family(c) == old(Family(c))
    {
      hide *;
      ValidMeans();
      AllNodes();
      ghost var was := Document();
      n := Allocate();
      CreateKeeps(was, n);
      CreatedIs(was, n);
      IsValid();
    }

    lemma CreatedIs(d: Doc<Node>, n: Node)
      requires n !in d.layout
      ensures Created(d, n, d.Create(n))
    {
    }

    method SetScalar(n: Node, text: string)
      requires Valid() && n in nodes
      modifies nodes`deps, Datas(nodes)`isDefined, n.ref.data`kind, n.ref.data`scalar
      ensures Valid() && Document() == old(Document()).Assign(n, text, old(Family(n)))
      ensures old(Document()).Has(n) && Assigned(old(Document()), n, text, Document())
      ensures n.IsDefined() && n.ref.data.kind == Scalar && n.ref.data.scalar == text
      ensures forall m <- nodes :: m.ref.data != n.ref.data ==>
        m.ref.data.kind == old(m.ref.data.kind) && m.ref.data.scalar == old(m.ref.data.scalar)
    {
      hide Document, Valid, Doc<Node>.Valid, Doc<Node>.Mark, Doc<Node>.Paint, Separate, Doc<Node>.Family;
      ValidMeans();
      FamilyFits(n);
      AllNodes();
      ghost var was, xs := Document(), Family(n);
      AssignKeeps(was, n, text, xs);
      Define(n);
      assert Family(n) == xs;
      WriteFace(n, Scalar, text);
      IsValid();
      Reading(n);
    }

    /** What a variable without a value becomes when it is used. */
    method SetNull(n: Node)
      requires Valid() && n in nodes
      modifies nodes`deps, Datas(nodes)`isDefined, n.ref.data`kind, n.ref.data`scalar
      ensures Valid() && old(Document()).Has(n) && Nullified(old(Document()), n, Document())
      ensures n.IsDefined() && n.ref.data.kind == Null && n.ref.data.scalar == old(n.ref.data.scalar)
      ensures forall m <- nodes :: m.ref.data != n.ref.data ==>
        m.ref.data.kind == old(m.ref.data.kind) && m.ref.data.scalar == old(m.ref.data.scalar)
    {
      hide Document, Valid, Doc<Node>.Valid, Doc<Node>.Mark, Doc<Node>.Paint, Separate, Doc<Node>.Family;
      ValidMeans();
      FamilyFits(n);
      Reading(n);
      ghost var was, xs := Document(), Family(n);
      NullifyKeeps(was, n, xs);
      Define(n);
      assert Family(n) == xs;
      WriteFace(n, Null, n.ref.data.scalar);
      IsValid();
      Reading(n);
    }

    /** Assigning a node makes two nodes share a reference: safe exactly when the source is defined. */
    method SetRef(n: Node, rhs: Node)
      requires Valid() && n in nodes && rhs in nodes
      modifies nodes`deps, n`ref, Datas(nodes)`isDefined
      ensures n.ref == rhs.ref == old(rhs.ref)
      ensures Valid() <==> old(rhs.IsDefined()) || n == rhs
      ensures old(Document()).Has(n) && old(Document()).Has(rhs) && (old(Document()).Defined(rhs) <==> old(rhs.IsDefined()))
      ensures Valid() ==> RefShared(old(Document()), n, rhs, Document())
    {
      hide Document, Valid, Doc<Node>.Valid, Doc<Node>.Mark, Doc<Node>.Paint, Doc<Node>.Put, Doc<Node>.ShareRef, RefJoined;
      ValidMeans();
      Reading(n);
      Reading(rhs);
      ghost var was := Document();
      if rhs.IsDefined() {
        MarkedIsMarked(was, n, rhs);
        ShareRefKeeps(was, n, rhs);
        Define(n);
        Reading(n);
        Reading(rhs);
        WriteRef(n, rhs);
        IsValid();
      } else if n != rhs {
        n.ref := rhs.ref;
        assert !rhs.IsDefined();
        assert !Separate(nodes);
        IsValid();
      }
    }

    /** Assigning a value makes two references share data: safe exactly when the source is defined. */
    method SetData(n: Node, rhs: Node)
      requires Valid() && n in nodes && rhs in nodes
      modifies nodes`deps, n.ref`data, Datas(nodes)`isDefined
      ensures n.ref.data == rhs.ref.data == old(rhs.ref.data)
      ensures Valid() <==> old(rhs.IsDefined()) || n == rhs
      ensures old(Document()).Has(n) && old(Document()).Has(rhs) && (old(Document()).Defined(rhs) <==> old(rhs.IsDefined()))
      ensures Valid() ==> DataShared(old(Document()), n, rhs, Document())
    {
      hide Document, Valid, Doc<Node>.Valid, Doc<Node>.Mark, Doc<Node>.Paint, Doc<Node>.Put, Doc<Node>.ShareData, DataJoined;
      ValidMeans();
      Reading(n);
      Reading(rhs);
      ghost var was := Document();
      if rhs.IsDefined() {
        MarkedIsMarked(was, n, rhs);
        Define(n);
        Reading(n);
        Reading(rhs);
        SharersMarked(n);
        ShareDataKeeps(was, n, rhs);
        WriteData(n, rhs);
        IsValid();
      } else if n != rhs {
        n.ref.data := rhs.ref.data;
        assert !rhs.IsDefined();
        assert !Separate(nodes);
        IsValid();
      }
    }

    /** Whether the container stays known to its new child. */
    predicate Records(m: Node, c: Node)
      reads m`ref, m.ref`data, m.ref.data`isDefined, c`ref, c.ref`data, c.ref.data`isDefined
      reads m`deps, c`index, m.deps`index
    {
      m.IsDefined() || c.IsDefined() || c in m.deps || !m.Clash(c)
    }

    lemma RecordsReads(m: Node, c: Node)
      requires Valid() && m in nodes && c in nodes
      ensures Document().Has(m) && Document().Has(c) && (Records(m, c) <==> Document().Records(m, c))
    {
      hide Valid;
      ValidMeans();
      Reading(m);
      Reading(c);
      ClashReads(m, c);
      hide Document, Doc<Node>.Clash;
    }

    method PushBack(c: Node, input: Node)
      requires Valid() && c in nodes && input in nodes
      modifies this`amount, c`index, nodes`deps, Datas(nodes)`isDefined, c.ref.data`store, c.ref.data`origin
      ensures old(Document()).Has(c) && old(Document()).Has(input)
      ensures Pushed(old(Document()), c, input, Document())
      ensures c.ref.data.store.sequence == old(c.ref.data.store.sequence) + [input] && c.ref.data.store.pairs == old(c.ref.data.store.pairs)
      ensures c.index == old(amount) && amount == old(amount) + 1
      ensures Valid() <==> old(Document()).Records(input, c)
    {
      hide Document, Valid, Doc<Node>.Valid, Doc<Node>.Link, Doc<Node>.Put, Doc<Node>.Records, Doc<Node>.Family, Family, Appended, Separate;
      ValidMeans();
      Reading(c);
      Reading(input);
      FamilyFits(c);
      ghost var was, xs := Document(), Family(c);
      PushKeeps(was, c, input, xs);
      var store := c.ref.data.store;
      ghost var origin := c.ref.data.origin;
      PartsOf(store, input, input);
      PutLink(was, xs, (Appended(store, input), origin.(indexed := false)), input, c);
      WriteStore(c, Appended(store, input), origin.(indexed := false));
      PutKeepsMarks(was, xs, (Appended(store, input), origin.(indexed := false)));
      Connect(input, c);
      LinkKeepsRanks(was, xs, (Appended(store, input), origin.(indexed := false)), input, c);
      NextIndex(c);
      IsValid();
    }

    lemma PartsOf(s: Store<Node>, k: Node, v: Node)
      ensures Paired(s, k, v).pairs == s.pairs + [(k, v)] && Paired(s, k, v).sequence == s.sequence
      ensures Appended(s, v).sequence == s.sequence + [v] && Appended(s, v).pairs == s.pairs
    {
    }

    lemma PutKeepsMarks(d: Doc<Node>, xs: set<Node>, h: Contents<Node>)
      ensures d.Put(xs, h).marks == d.marks && d.Put(xs, h).face == d.face && d.Put(xs, h).rank == d.rank && d.Put(xs, h).amount == d.amount
    {
    }

    lemma LinkKeepsRanks(d: Doc<Node>, xs: set<Node>, h: Contents<Node>, m: Node, c: Node)
      requires d.Has(m) && d.Has(c)
      ensures d.Link(m, c).Put(xs, h).rank == d.rank && d.Link(m, c).Put(xs, h).amount == d.amount
      ensures d.Link(m, c).rank == d.rank && d.Link(m, c).amount == d.amount
    {
    }

    method AddPair(c: Node, k: Node, v: Node)
      requires Valid() && c in nodes && k in nodes && v in nodes
      modifies nodes`deps, Datas(nodes)`isDefined, c.ref.data`store, c.ref.data`origin
      ensures old(Document()).Has(c) && old(Document()).Has(k) && old(Document()).Has(v)
      ensures PairPut(old(Document()), c, k, v, Document())
      ensures c.ref.data.store.pairs == old(c.ref.data.store.pairs) + [(k, v)] && c.ref.data.store.sequence == old(c.ref.data.store.sequence)
      ensures var was := old(Document());
        Valid() <==> was.Defined(k) || was.Defined(v) || (was.Records(k, c) && was.Records(v, c))
    {
      hide Document, Valid, Snapshot, Layout, Faces, Ranks, Bonds, Separate, Coherent, Doc<Node>.Valid, Doc<Node>.Link, Doc<Node>.Put, Doc<Node>.Pair,
        Doc<Node>.Records, Doc<Node>.Family, Doc<Node>.Has, Paired, Family, Marks.Closed;
      ValidMeans();
      Reading(c);
      Reading(k);
      Reading(v);
      FamilyFits(c);
      ghost var was, xs := Document(), Family(c);
      PairKeeps(was, c, k, v, xs);
      PairIs(was, c, k, v, xs);
      PartsOf(c.ref.data.store, k, v);
      WriteStore(c, Paired(c.ref.data.store, k, v), c.ref.data.origin);
      Connect(k, c);
      Connect(v, c);
      IsValid();
    }

    lemma PairIs(d: Doc<Node>, c: Node, k: Node, v: Node, xs: set<Node>)
      requires d.Valid() && d.Has(c) && d.Has(k) && d.Has(v) && d.Family(c, xs)
      ensures var put := d.Put(xs, (Paired(d.layout[c].0, k, v), d.layout[c].1));
        && put.Has(k) && put.Has(c) && put.marks.Closed()
        && put.Link(k, c).Has(v) && put.Link(k, c).Has(c) && put.Link(k, c).marks.Closed()
        && put.Link(k, c).Link(v, c) == d.Pair(c, k, v, xs)
    {
      CoherentFacts(d.marks, d.layout);
      LinkHas(d, k, c, v);
      LinkHas(d, k, c, c);
      var h := PlainPaired(d.layout[c], k, v);
      PutKeepsMarks(d, xs, h);
      hide Doc<Node>.Valid, Doc<Node>.Link, Doc<Node>.Put, Doc<Node>.Family, Paired, Marks.Closed;
      PutLink(d, xs, h, k, c);
      PutLink(d.Link(k, c), xs, h, v, c);
      LinkCloses(d.Put(xs, h), k, c);
    }

    /** Whether indexing the sequence of `c` with `key` finds or makes an element. */
    predicate Reaches(c: Node, key: int)
      reads c`ref, c.ref`data, c.ref.data`kind, c.ref.data`store
      reads (set m | m in c.ref.data.store.sequence)`ref, (set m | m in c.ref.data.store.sequence :: m.ref)`data
      reads (set m | m in c.ref.data.store.sequence :: m.ref.data)`isDefined
    {
      var q := c.ref.data.store.sequence;
      c.ref.data.kind !in {Map, Scalar} && 0 <= key <= |q| && (key > 0 ==> q[key - 1].IsDefined())
    }

    lemma ContentsInside(c: Node)
      requires Valid() && c in nodes
      ensures forall m <- c.ref.data.store.sequence :: m in nodes
      ensures forall p <- c.ref.data.store.pairs :: p.0 in nodes && p.1 in nodes
    {
      hide Coherent;
      CoherentFacts(Snapshot(nodes), Layout(nodes));
      Reading(c);
      AllNodes();
      var layout := Layout(nodes);
      assert layout[c].0 == c.ref.data.store && layout.Keys == nodes;
      forall m <- c.ref.data.store.sequence ensures m in nodes { assert m in layout; }
      forall p <- c.ref.data.store.pairs ensures p.0 in nodes && p.1 in nodes { assert p.0 in layout && p.1 in layout; }
    }

    lemma ReachesReads(c: Node, key: int)
      requires Valid() && c in nodes
      ensures Document().Has(c) && (Reaches(c, key) <==> Document().Reaches(c, key))
    {
      hide Valid;
      ContentsInside(c);
      Reading(c);
      var q := c.ref.data.store.sequence;
      if 0 < key <= |q| {
        Reading(q[key - 1]);
      }
      hide Document;
    }

    /** The container gets its new contents and kind, and then the child records it. */
    method Fill(c: Node, m: Node, store: Store<Node>, ghost origin: Origin<Node>, kind: Kind)
      requires Separate(nodes) && Document().marks.Closed() && c in nodes && m in nodes
      modifies nodes`deps, Datas(nodes)`isDefined, c.ref.data`store, c.ref.data`kind, c.ref.data`scalar, c.ref.data`origin
      ensures old(Document()).Has(c) && old(Document()).Has(m) && Separate(nodes)
      ensures var was, xs := old(Document()), old(Family(c));
        Document() == was.Link(m, c).Put(xs, (store, origin)).Paint(xs, (kind, was.face[c].1))
    {
      hide Document, Doc<Node>.Link, Doc<Node>.Put, Doc<Node>.Paint, Separate;
      Reading(c);
      Reading(m);
      ghost var was, xs, h, f := Document(), Family(c), (store, origin), (kind, c.ref.data.scalar);
      PutLink(was, xs, h, m, c);
      PaintLink(was.Put(xs, h), xs, f, m, c);
      PutKeepsMarks(was, xs, h);
      PaintKeepsMarks(was.Put(xs, h), xs, f);
      WriteStore(c, store, origin);
      assert Family(c) == xs;
      WriteFace(c, kind, c.ref.data.scalar);
      Connect(m, c);
    }

    /** `get_idx` made a new last element. */
    method Extend(c: Node, key: nat) returns (r: Node)
      requires Valid() && c in nodes && Reaches(c, key) && key == |c.ref.data.store.sequence|
      modifies this`nodes, nodes`deps, Datas(nodes)`isDefined, c.ref.data`store, c.ref.data`kind, c.ref.data`scalar, c.ref.data`origin
      ensures Valid() && fresh(r) && fresh(r.ref) && fresh(r.ref.data) && nodes == old(nodes) + {r}
      ensures old(Document()).Has(c) && !old(Document()).Has(r) && r !in old(Document()).layout
      ensures Document() == old(Document()).Extend(c, r, old(Family(c)))
    {
      hide Document, Valid, Doc<Node>.Valid, Doc<Node>.Link, Doc<Node>.Put, Doc<Node>.Paint, Doc<Node>.Create, Doc<Node>.Family, Doc<Node>.Has, Family, Appended, Separate, Reaches;
      ReachesReads(c, key);
      ValidMeans();
      Reading(c);
      FamilyFits(c);
      ghost var was, xs := Document(), Family(c);
      r := CreateNode();
      ExtendKeeps(was, c, r, xs);
      CreateKeepsOthers(was, r, c);
      ValidMeans();
      Fill(c, r, Appended(c.ref.data.store, r), c.ref.data.origin, Sequence);
      FaceKept(was, r, c);
      IsValid();
    }

    lemma FaceKept(d: Doc<Node>, n: Node, c: Node)
      requires d.Has(c) && n !in d.layout && n != c
      ensures d.Create(n).Has(c) && d.Create(n).face[c] == d.face[c]
    {
    }

    lemma PaintKeepsMarks(d: Doc<Node>, xs: set<Node>, f: Face)
      ensures d.Paint(xs, f).marks == d.marks
    {
    }

    /** A child that is found again is linked once more. */
    method Refind(c: Node, r: Node, kind: Kind)
      requires Valid() && c in nodes && r in nodes
      requires r in c.ref.data.store.sequence || exists p :: p in c.ref.data.store.pairs && p.1 == r
      modifies nodes`deps, Datas(nodes)`isDefined, c.ref.data`kind, c.ref.data`scalar
      ensures old(Document()).Has(c) && old(Document()).Has(r)
      ensures Valid() && Document() == old(Document()).Find(c, r, kind, old(Family(c)))
    {
      hide Document, Valid, Doc<Node>.Valid, Doc<Node>.Link, Doc<Node>.Paint, Separate;
      ValidMeans();
      Reading(c);
      Reading(r);
      ghost var was, xs, f := Document(), Family(c), (kind, c.ref.data.scalar);
      FindKeeps(was, c, r, kind, xs);
      PaintLink(was, xs, f, r, c);
      PaintKeepsMarks(was, xs, f);
      WriteFace(c, kind, c.ref.data.scalar);
      Connect(r, c);
      IsValid();
    }

    /** `get_idx`, then the dependency of what it finds. A null result stands for the paths that leave
        the sequence: conversion to a map, and subscripting a scalar. */
    method Index(c: Node, key: int) returns (r: Node?)
      requires Valid() && c in nodes
      modifies this`nodes, nodes`deps, Datas(nodes)`isDefined, c.ref.data`store, c.ref.data`kind, c.ref.data`scalar, c.ref.data`origin
      ensures Valid() && (nodes == old(nodes) || (r != null && fresh(r) && fresh(r.ref) && fresh(r.ref.data) && nodes == old(nodes) + {r}))
      ensures r != null ==> r in nodes
      ensures old(Document()).Has(c) && Indexed(old(Document()), c, key, Opt(r), Document())
    {
      hide Document, Valid, Doc<Node>.Valid, Doc<Node>.Reaches, Doc<Node>.Extend, Doc<Node>.Find, Doc<Node>.Family, Doc<Node>.Has, Family;
      ReachesReads(c, key);
      ContentsInside(c);
      Reading(c);
      FamilyFits(c);
      if !Reaches(c, key) {
        return null;
      }
      if key == |c.ref.data.store.sequence| {
        r := Extend(c, key);
      } else {
        r := c.ref.data.store.sequence[key];
        Refind(c, r, Sequence);
      }
    }

    /** Whether a key node is the scalar `text`. */
    predicate Spells(k: Node, text: string)
      reads k`ref, k.ref`data, k.ref.data
    {
      k.IsDefined() && k.ref.data.kind == Scalar && k.ref.data.scalar == text
    }

    /** The first pair of `c` whose key is `text`. */
    method Find(c: Node, text: string) returns (at: nat)
      requires Valid() && c in nodes
      ensures at <= |c.ref.data.store.pairs| && old(Document()).Has(c) && old(Document()).FirstKey(c, text, at)
      ensures Valid() && Document() == old(Document()) && Family(c) == old(Family(c))
    {
      hide Document, Valid;
      Reading(c);
      ContentsInside(c);
      var pairs := c.ref.data.store.pairs;
      ghost var d, xs := Document(), Family(c);
      at := 0;
      while at < |pairs| && !Spells(pairs[at].0, text)
        invariant at <= |pairs| && Valid() && Document() == d && Family(c) == xs
        invariant forall i :: 0 <= i < at ==> !d.Spells(pairs[i].0, text)
      {
        Reading(pairs[at].0);
        at := at + 1;
      }
      if at < |pairs| {
        Reading(pairs[at].0);
      }
    }

    /** `convert_to_node` of a literal. */
    method CreateScalar(text: string) returns (k: Node)
      requires Valid()
      modifies this`nodes, nodes`deps, Datas(nodes)`isDefined
      ensures Valid() && fresh(k) && fresh(k.ref) && fresh(k.ref.data) && nodes == old(nodes) + {k}
      ensures Datas(nodes) == old(Datas(nodes)) + {k.ref.data}
      ensures k !in old(Document()).layout && Document() == Keyed(old(Document()), k, text)
      ensures forall c :: c in old(nodes) ==> Family(c) == old(Family(c))
    {
      hide Document, Valid, Keyed, Doc<Node>.Create, Doc<Node>.Assign, Doc<Node>.Has, Assigned, Created, Separate, Doc<Node>.Family, Node.IsDefined;
      AllNodes();
      ghost var was := Document();
      k := CreateNode();
      KeyedIs(was, k, text);
      FamilyAlone(k);
      SetScalar(k, text);
    }

    lemma FamilyAlone(k: Node)
      requires k in nodes && forall c <- nodes :: c != k ==> c.ref.data != k.ref.data
      ensures Family(k) == {k}
    {
    }

    method CreateEntry(text: string) returns (k: Node, v: Node)
      requires Valid()
      modifies this`nodes, nodes`deps, Datas(nodes)`isDefined
      ensures Valid() && fresh(k) && fresh(v) && fresh(k.ref) && fresh(v.ref) && fresh(k.ref.data) && fresh(v.ref.data)
      ensures nodes == old(nodes) + {k} + {v} && k != v
      ensures k !in old(Document()).layout && v !in old(Document()).layout
      ensures Datas(nodes) == old(Datas(nodes)) + {k.ref.data} + {v.ref.data}
      ensures v !in Keyed(old(Document()), k, text).layout && Document() == Keyed(old(Document()), k, text).Create(v)
      ensures forall c :: c in old(nodes) ==> Family(c) == old(Family(c))
    {
      hide Document, Valid, Doc<Node>.Create, Family;
      AllNodes();
      k := CreateScalar(text);
      hide Keyed;
      v := CreateNode();
    }

    /** A fresh value under a fresh literal key. The key is defined at once, the container is not: only
        the value records it. */
    method Enter(c: Node, text: string) returns (k: Node, v: Node)
      requires Valid() && c in nodes
      modifies this`nodes, nodes`deps, Datas(nodes)`isDefined, c.ref.data`store, c.ref.data`kind, c.ref.data`scalar, c.ref.data`origin
      ensures Valid() && fresh(k) && fresh(v) && fresh(k.ref) && fresh(v.ref) && fresh(k.ref.data) && fresh(v.ref.data)
      ensures nodes == old(nodes) + {k} + {v} && k != v
      ensures old(Document()).Has(c) && k !in old(Document()).layout && v !in old(Document()).layout
      ensures !old(Document()).Has(k) && !old(Document()).Has(v)
      ensures Document() == old(Document()).Enter(c, k, v, text, old(Family(c)))
    {
      hide *;
      ValidMeans();
      Reading(c);
      FamilyFits(c);
      ghost var was, xs := Document(), Family(c);
      k, v := CreateEntry(text);
      EnterIs(was, c, k, v, text, xs);
      ValidMeans();
      Reading(c);
      Fill(c, v, Paired(c.ref.data.store, k, v), c.ref.data.origin.(literals := c.ref.data.origin.literals + {k}), Map);
      IsValid();
    }

    lemma EnterIs(d: Doc<Node>, c: Node, k: Node, v: Node, text: string, xs: set<Node>)
      requires d.Valid() && d.Has(c) && k !in d.layout && v !in d.layout && k != v && d.Family(c, xs)
      ensures !d.Has(k) && !d.Has(v) && d.Enter(c, k, v, text, xs).Valid()
      ensures var made := Keyed(d, k, text).Create(v);
        && made.Has(c) && made.Has(v) && made.layout[c] == d.layout[c]
        && made.Link(v, c).Put(xs, (Paired(d.layout[c].0, k, v), d.layout[c].1.(literals := d.layout[c].1.literals + {k})))
             .Paint(xs, (Map, made.face[c].1)) == d.Enter(c, k, v, text, xs)
    {
      hide Keyed, Doc<Node>.Create, Doc<Node>.Link, Doc<Node>.Put, Doc<Node>.Paint, Doc<Node>.Valid, Doc<Node>.Family, Coherent;
      EnterKeeps(d, c, k, v, text, xs);
      KeyedKeepsOthers(d, k, text, c, xs);
      CreateKeepsOthers(Keyed(d, k, text), v, c);
      EnteredFace(d, k, v, c, text);
    }

    lemma EnteredFace(d: Doc<Node>, k: Node, v: Node, c: Node, text: string)
      requires d.Has(c) && k !in d.layout && v !in d.layout
      ensures Keyed(d, k, text).Create(v).Has(c) && Keyed(d, k, text).Create(v).face[c] == d.face[c]
    {
    }

    /** Indexing by a literal key: `node_data::get` on a map, then the dependency of what it finds. The
        value of the first pair with that key, at position `at`, or of a new last pair whose key is
        defined even when `c` is not. A null result stands for the paths that are not modelled: a
        scalar, and converting a sequence. */
    method Lookup(c: Node, text: string) returns (r: Node?, ghost k: Node, ghost at: nat)
      requires Valid() && c in nodes
      modifies this`nodes, nodes`deps, Datas(nodes)`isDefined, c.ref.data`store, c.ref.data`kind, c.ref.data`scalar, c.ref.data`origin
      ensures Valid() && forall n <- nodes :: n in old(nodes) || (fresh(n) && fresh(n.ref) && fresh(n.ref.data))
      ensures old(nodes) <= nodes && (r != null ==> r in nodes)
      ensures old(Document()).Has(c) && LookedUp(old(Document()), c, text, at, k, Opt(r), Document())
    {
      hide Document, Valid, Doc<Node>.Valid, Doc<Node>.FirstKey, Doc<Node>.Enter, Doc<Node>.Find, Doc<Node>.Family, Doc<Node>.Has, Family;
      r, k, at := null, c, 0;
      Reading(c);
      if c.ref.data.kind == Scalar || c.ref.data.kind == Sequence {
        return;
      }
      ContentsInside(c);
      FamilyFits(c);
      var i := Find(c, text);
      at := i;
      if i < |c.ref.data.store.pairs| {
        r := c.ref.data.store.pairs[i].1;
        Refind(c, r, Map);
      } else {
        var key;
        key, r := Enter(c, text);
        k := key;
      }
    }

    /** `remove_idx` on the sequence of `c`. */
    method Remove(c: Node, key: int) returns (removed: bool)
      requires Valid() && c in nodes
      modifies c.ref.data`store, c.ref.data`origin
      ensures old(Document()).Has(c) && removed == (0 <= key < |old(c.ref.data.store.sequence)|)
      ensures Valid() && ErasedFrom(old(Document()), c, key, Document())
      ensures var q := old(c.ref.data.store.sequence); c.ref.data.store.sequence == if removed then q[..key] + q[key + 1..] else q
    {
      hide Document, Valid, Doc<Node>.Valid, Doc<Node>.Put, Doc<Node>.Family, Doc<Node>.Has, Family;
      ValidMeans();
      Reading(c);
      FamilyFits(c);
      removed := 0 <= key < |c.ref.data.store.sequence|;
      if removed {
        EraseKeeps(Document(), c, key, Family(c));
        WriteStore(c, Erased(c.ref.data.store, key), c.ref.data.origin);
        IsValid();
      }
    }

    /** `node_data::remove` on the map of `c`: the first pair with the key, if there is one. */
    method RemoveKey(c: Node, text: string) returns (removed: bool, ghost at: nat)
      requires Valid() && c in nodes
      modifies c.ref.data`store, c.ref.data`origin
      ensures old(Document()).Has(c) && removed == (old(c.ref.data.kind) == Map && at < |old(c.ref.data.store.pairs)|)
      ensures Valid() && DroppedFrom(old(Document()), c, text, at, Document())
      ensures var ps := old(c.ref.data.store.pairs); c.ref.data.store.pairs == if removed then ps[..at] + ps[at + 1..] else ps
    {
      hide Document, Valid, Doc<Node>.Valid, Doc<Node>.Put, Doc<Node>.Family, Doc<Node>.Has, Doc<Node>.FirstKey, Family;
      ValidMeans();
      Reading(c);
      FamilyFits(c);
      removed, at := false, 0;
      if c.ref.data.kind == Map {
        var i := Find(c, text);
        at := i;
        removed := i < |c.ref.data.store.pairs|;
        DropKeeps(Document(), c, i, Family(c));
        WriteStore(c, Unpaired(c.ref.data.store, i), c.ref.data.origin);
        IsValid();
      }
    }

    /** The counter of defined elements moves to a length whose elements are all defined. */
    method Recount(c: Node, k: nat)
      requires Valid() && c in nodes
      modifies c.ref.data`store, c.ref.data`origin
      ensures old(Document()).Has(c) && Valid() && Recounted(old(Document()), c, k, Document())
    {
      hide Document, Valid, Doc<Node>.Valid, Doc<Node>.Put, Doc<Node>.Family, Doc<Node>.Has, Family;
      ValidMeans();
      Reading(c);
      ContentsInside(c);
      FamilyFits(c);
      var q := c.ref.data.store.sequence;
      ghost var d, xs := Document(), Family(c);
      var i := 0;
      while i < k && i < |q| && q[i].IsDefined()
        invariant i <= k && i <= |q| && Valid() && Document() == d && Family(c) == xs
        invariant forall j :: 0 <= j < i ==> d.Defined(q[j])
      {
        Reading(q[i]);
        i := i + 1;
      }
      if i == k {
        ValidMeans();
        Reading(c);
        assert d.Has(c) && d.Countable(c, k);
        RecountKeeps(d, c, k, xs);
        WriteStore(c, c.ref.data.store.(seqSize := k), c.ref.data.origin);
        assert Document() == d.Recount(c, k, xs);
        IsValid();
      } else if i < |q| {
        Reading(q[i]);
      }
    }

    /** What the invariant means for a reader of the document. */
    lemma Meaning(c: Node, m: Node)
      requires Valid() && c in nodes && m in nodes
      ensures m.IsDefined() ==> m.deps == {}
      ensures m.IsDefined() && (m in c.ref.data.store.sequence || exists p :: p in c.ref.data.store.pairs && p.1 == m) ==> c.IsDefined()
      ensures c.ref.data.store.seqSize <= |c.ref.data.store.sequence|
      ensures forall i :: 0 <= i < c.ref.data.store.seqSize ==> c.ref.data.store.sequence[i].IsDefined()
      ensures c.ref.data.origin.indexed ==> forall i :: 0 <= i < |c.ref.data.store.sequence| - 1 ==> c.ref.data.store.sequence[i].IsDefined()
    {
      hide Coherent;
      CoherentMeaning(Snapshot(nodes), Layout(nodes), c, m);
    }
  }

  function Opt(r: Node?): Option<Node>
  {
    if r == null then None else Some(r)
  }

  predicate BothDefined(k: Node, v: Node)
    reads k`ref, k.ref`data, k.ref.data`isDefined, v`ref, v.ref`data, v.ref.data`isDefined
  {
    k.IsDefined() && v.IsDefined()
  }

  ghost function Ends(pairs: seq<(Node, Node)>): set<Node>
  {
    (set p | p in pairs :: p.0) + (set p | p in pairs :: p.1)
  }

  ghost function DefinedEnds(pairs: seq<(Node, Node)>): set<Node>
    reads Ends(pairs)`ref, Refs(Ends(pairs))`data, Datas(Ends(pairs))`isDefined
  {
    set n <- Ends(pairs) | n.IsDefined()
  }

  lemma BothDefinedMeans(pairs: seq<(Node, Node)>)
    ensures forall i :: 0 <= i < |pairs| ==> (BothDefined(pairs[i].0, pairs[i].1) <==> pairs[i].0 in DefinedEnds(pairs) && pairs[i].1 in DefinedEnds(pairs))
  {
    forall i | 0 <= i < |pairs|
      ensures pairs[i].0 in Ends(pairs) && pairs[i].1 in Ends(pairs)
    {
      assert pairs[i] in pairs;
    }
  }

  /** The map form of `node_iterator_base`: a position among the pairs that skips undefined ones. */
  class MapIterator {
    const pairs: seq<(Node, Node)>
    var at: nat

    constructor (pairs: seq<(Node, Node)>, at: nat)
      requires at <= |pairs|
      ensures this.pairs == pairs && at <= this.at <= |pairs|
      ensures this.at < |pairs| ==> BothDefined(pairs[this.at].0, pairs[this.at].1)
      ensures forall i :: at <= i < this.at ==> !BothDefined(pairs[i].0, pairs[i].1)
    {
      this.pairs, this.at := pairs, at;
      new;
      IncrementUntilDefined();
    }

    method IncrementUntilDefined()
      requires at <= |pairs|
      modifies this`at
      ensures old(at) <= at <= |pairs|
      ensures at < |pairs| ==> BothDefined(pairs[at].0, pairs[at].1)
      ensures forall i :: old(at) <= i < at ==> !BothDefined(pairs[i].0, pairs[i].1)
    {
      while at != |pairs| && !BothDefined(pairs[at].0, pairs[at].1)
        invariant old(at) <= at <= |pairs|
        invariant forall i :: old(at) <= i < at ==> !BothDefined(pairs[i].0, pairs[i].1)
      {
        at := at + 1;
      }
    }

    method Advance()
      requires at < |pairs|
      modifies this`at
      ensures old(at) < at <= |pairs|
      ensures at < |pairs| ==> BothDefined(pairs[at].0, pairs[at].1)
      ensures forall i :: old(at) < i < at ==> !BothDefined(pairs[i].0, pairs[i].1)
    {
      at := at + 1;
      IncrementUntilDefined();
    }
  }

  /** From begin to end the iteration shows exactly the pairs with a defined key and value, in order. */
  method Iterate(pairs: seq<(Node, Node)>) returns (shown: seq<(Node, Node)>)
    ensures shown == DefinedPairs(pairs, DefinedEnds(pairs))
  {
    hide BothDefined, DefinedPairs;
    ghost var done := DefinedEnds(pairs);
    var it := new MapIterator(pairs, 0);
    BothDefinedMeans(pairs);
    assert DefinedEnds(pairs) == done;
    NothingShownYet(pairs, done, it.at);
    shown := [];
    while it.at != |pairs|
      invariant it.pairs == pairs && it.at <= |pairs| && fresh(it) && DefinedEnds(pairs) == done
      invariant it.at < |pairs| ==> BothDefined(pairs[it.at].0, pairs[it.at].1)
      invariant shown == DefinedPairs(pairs[..it.at], done)
      decreases |pairs| - it.at
    {
      var was := it.at;
      shown := shown + [pairs[was]];
      BothDefinedMeans(pairs);
      it.Advance();
      assert DefinedEnds(pairs) == done;
      BothDefinedMeans(pairs);
      ShownThenSkipped(pairs, done, was, it.at);
    }
    assert pairs[..it.at] == pairs;
  }

  // ---- programs ----

  ghost predicate Inside(mem: Memory, hs: Handles<Node>)
    reads mem`nodes
  {
    forall i: nat :: Bound(hs, i) ==> hs[i].value in mem.nodes
  }

  lemma InsideIsHandled(mem: Memory, hs: Handles<Node>)
    requires Inside(mem, hs)
    ensures Handled(mem.Document(), hs)
  {
    hide Memory.Document;
    forall i: nat | Bound(hs, i) ensures mem.Document().Has(hs[i].value) {
      mem.Reading(hs[i].value);
    }
  }

  /** What one operation promises: it is sound exactly when it is harmless, which is exactly when the
      invariant survives; and then it does what it does to the value. */
  ghost predicate Keeps(was: Doc<Node>, hs: Handles<Node>, op: Op, sound: bool, how: Choice<Node>, now: Doc<Node>, hs': Handles<Node>, valid: bool)
    requires Handled(was, hs)
  {
    && (sound <==> Harmless(was, hs, op))
    && (valid <==> sound)
    && (sound ==> Moves(was, hs, op, how, now, hs'))
  }

  /** Operations that make and write a node. */
  method Write(mem: Memory, hs: Handles<Node>, op: Op) returns (sound: bool, hs': Handles<Node>, ghost how: Choice<Node>)
    requires mem.Valid() && Inside(mem, hs)
    requires op.Create? || op.Nullify? || op.Assign?
    modifies mem, mem.nodes, Refs(mem.nodes), Datas(mem.nodes)
    ensures Handled(old(mem.Document()), hs)
    ensures Keeps(old(mem.Document()), hs, op, sound, how, mem.Document(), hs', mem.Valid())
    ensures sound ==> Inside(mem, hs')
    ensures forall n <- mem.nodes :: (n in old(mem.nodes) || fresh(n)) && (n.ref in old(Refs(mem.nodes)) || fresh(n.ref))
              && (n.ref.data in old(Datas(mem.nodes)) || fresh(n.ref.data))
  {
    hide Memory.Document, Memory.Valid, Memory.Records, Memory.Family, Node.IsDefined, Doc<Node>.Has, Doc<Node>.Records, Doc<Node>.Defined,
      Created, Nullified, Assigned, RefShared, DataShared, Pushed, PairPut, Indexed, LookedUp, ErasedFrom, DroppedFrom, Recounted;
    InsideIsHandled(mem, hs);
    sound, hs', how := true, hs, Choice(None, 0);
    match op {
      case Create =>
        var n := mem.CreateNode();
        hs' := hs + [Some(n)];
      case Nullify(n) =>
        if Bound(hs, n) {
          mem.SetNull(hs[n].value);
        }
      case Assign(n, text) =>
        if Bound(hs, n) {
          mem.SetScalar(hs[n].value, text);
        }
    }
  }

  /** Operations that share and collect nodes. */
  method Build(mem: Memory, hs: Handles<Node>, op: Op) returns (sound: bool, hs': Handles<Node>, ghost how: Choice<Node>)
    requires mem.Valid() && Inside(mem, hs)
    requires op.ShareRef? || op.ShareData? || op.Push? || op.Pair?
    modifies mem, mem.nodes, Refs(mem.nodes), Datas(mem.nodes)
    ensures Handled(old(mem.Document()), hs)
    ensures Keeps(old(mem.Document()), hs, op, sound, how, mem.Document(), hs', mem.Valid())
    ensures sound ==> Inside(mem, hs')
    ensures forall n <- mem.nodes :: (n in old(mem.nodes) || fresh(n)) && (n.ref in old(Refs(mem.nodes)) || fresh(n.ref))
              && (n.ref.data in old(Datas(mem.nodes)) || fresh(n.ref.data))
  {
    hide Memory.Document, Memory.Valid, Memory.Records, Memory.Family, Node.IsDefined, Doc<Node>.Has, Doc<Node>.Records, Doc<Node>.Defined,
      Created, Nullified, Assigned, RefShared, DataShared, Pushed, PairPut, Indexed, LookedUp, ErasedFrom, DroppedFrom, Recounted;
    InsideIsHandled(mem, hs);
    sound, hs', how := true, hs, Choice(None, 0);
    match op {
      case ShareRef(n, rhs) =>
        if Bound(hs, n) && Bound(hs, rhs) {
          sound := hs[rhs].value.IsDefined() || hs[n] == hs[rhs];
          mem.SetRef(hs[n].value, hs[rhs].value);
        }
        hs' := Rebound(hs, n, rhs);
      case ShareData(n, rhs) =>
        if Bound(hs, n) && Bound(hs, rhs) {
          sound := hs[rhs].value.IsDefined() || hs[n] == hs[rhs];
          mem.SetData(hs[n].value, hs[rhs].value);
        }
      case Push(c, m) =>
        if Bound(hs, c) && Bound(hs, m) {
          sound := mem.Records(hs[m].value, hs[c].value);
          mem.RecordsReads(hs[m].value, hs[c].value);
          mem.PushBack(hs[c].value, hs[m].value);
        }
      case Pair(c, k, v) =>
        if Bound(hs, c) && Bound(hs, k) && Bound(hs, v) {
          sound := hs[k].value.IsDefined() || hs[v].value.IsDefined()
            || (mem.Records(hs[k].value, hs[c].value) && mem.Records(hs[v].value, hs[c].value));
          mem.RecordsReads(hs[k].value, hs[c].value);
          mem.RecordsReads(hs[v].value, hs[c].value);
          mem.Reading(hs[k].value);
          mem.Reading(hs[v].value);
          mem.AddPair(hs[c].value, hs[k].value, hs[v].value);
        }
    }
  }

  /** Operations on the contents of one container. */
  method Visit(mem: Memory, hs: Handles<Node>, op: Op) returns (sound: bool, hs': Handles<Node>, ghost how: Choice<Node>)
    requires mem.Valid() && Inside(mem, hs)
    requires op.At? || op.Key? || op.Erase? || op.Drop? || op.Recount?
    modifies mem, mem.nodes, Refs(mem.nodes), Datas(mem.nodes)
    ensures Handled(old(mem.Document()), hs)
    ensures Keeps(old(mem.Document()), hs, op, sound, how, mem.Document(), hs', mem.Valid())
    ensures sound ==> Inside(mem, hs')
    ensures forall n <- mem.nodes :: (n in old(mem.nodes) || fresh(n)) && (n.ref in old(Refs(mem.nodes)) || fresh(n.ref))
              && (n.ref.data in old(Datas(mem.nodes)) || fresh(n.ref.data))
  {
    hide Memory.Document, Memory.Valid, Memory.Records, Memory.Family, Node.IsDefined, Doc<Node>.Has, Doc<Node>.Records, Doc<Node>.Defined,
      Created, Nullified, Assigned, RefShared, DataShared, Pushed, PairPut, Indexed, LookedUp, ErasedFrom, DroppedFrom, Recounted;
    InsideIsHandled(mem, hs);
    sound, hs', how := true, hs, Choice(None, 0);
    match op {
      case At(c, key) =>
        if Bound(hs, c) {
          var r := mem.Index(hs[c].value, key);
          hs' := hs + [Opt(r)];
        } else {
          hs' := hs + [None];
        }
      case Key(c, text) =>
        if Bound(hs, c) {
          ghost var k, at;
          var r;
          r, k, at := mem.Lookup(hs[c].value, text);
          how := Choice(Some(k), at);
          hs' := hs + [Opt(r)];
        } else {
          hs' := hs + [None];
        }
      case Erase(c, key) =>
        if Bound(hs, c) {
          var _ := mem.Remove(hs[c].value, key);
        }
      case Drop(c, text) =>
        if Bound(hs, c) {
          ghost var at;
          var removed;
          removed, at := mem.RemoveKey(hs[c].value, text);
          how := Choice(None, at);
        }
      case Recount(c, k) =>
        if Bound(hs, c) {
          mem.Recount(hs[c].value, k);
        }
    }
  }

  method Step(mem: Memory, hs: Handles<Node>, op: Op) returns (sound: bool, hs': Handles<Node>, ghost how: Choice<Node>)
    requires mem.Valid() && Inside(mem, hs)
    modifies mem, mem.nodes, Refs(mem.nodes), Datas(mem.nodes)
    ensures Handled(old(mem.Document()), hs)
    ensures Keeps(old(mem.Document()), hs, op, sound, how, mem.Document(), hs', mem.Valid())
    ensures sound ==> Inside(mem, hs')
    ensures forall n <- mem.nodes :: (n in old(mem.nodes) || fresh(n)) && (n.ref in old(Refs(mem.nodes)) || fresh(n.ref))
              && (n.ref.data in old(Datas(mem.nodes)) || fresh(n.ref.data))
  {
    hide *;
    match op {
      case At(_, _) => sound, hs', how := Visit(mem, hs, op);
      case Key(_, _) => sound, hs', how := Visit(mem, hs, op);
      case Erase(_, _) => sound, hs', how := Visit(mem, hs, op);
      case Drop(_, _) => sound, hs', how := Visit(mem, hs, op);
      case Recount(_, _) => sound, hs', how := Visit(mem, hs, op);
      case Create => sound, hs', how := Write(mem, hs, op);
      case Nullify(_) => sound, hs', how := Write(mem, hs, op);
      case Assign(_, _) => sound, hs', how := Write(mem, hs, op);
      case _ => sound, hs', how := Build(mem, hs, op);
    }
  }

  /** Runs a program, on the variables it is given, up to its first harmful operation. The trace shows what
      every operation did; the invariant survives exactly when all of them were harmless. A disciplined
      program runs to its end. */
  method Run(mem: Memory, given: Handles<Node>, ops: seq<Op>)
    returns (hs: Handles<Node>, done: nat, ghost trace: seq<Moment<Node>>, ghost hows: seq<Choice<Node>>)
    requires mem.Valid() && Inside(mem, given)
    modifies mem, mem.nodes, Refs(mem.nodes), Datas(mem.nodes)
    ensures History(trace, hows, ops) && |hows| == done && trace[0] == Moment(old(mem.Document()), given)
    ensures mem.Valid() <==> done == |ops|
    ensures done == |ops| ==> Inside(mem, hs) && trace[done] == Moment(mem.Document(), hs)
    ensures done < |ops| ==> !Harmless(trace[done].doc, trace[done].hs, ops[done])
    ensures Disciplined(Plan(|given|, {}, {}), ops) ==> done == |ops|
  {
    hide Memory.Document, Memory.Valid, Keeps, Harmless, Moves, Disciplined, Doc<Node>.Valid, Doc<Node>.Bonded, Handled, Fits;
    hs, done, hows := given, 0, [];
    trace := [Moment(mem.Document(), hs)];
    mem.ValidMeans();
    mem.IsBonded();
    InsideIsHandled(mem, hs);
    ghost var all, refs, datas := mem.nodes, Refs(mem.nodes), Datas(mem.nodes);
    while done < |ops|
      invariant done <= |ops| && mem.Valid() && Inside(mem, hs)
      invariant History(trace, hows, ops) && |hows| == done && trace[0] == Moment(old(mem.Document()), given)
      invariant trace[done] == Moment(mem.Document(), hs)
      invariant forall n <- mem.nodes :: (n in all || fresh(n)) && (n.ref in refs || fresh(n.ref)) && (n.ref.data in datas || fresh(n.ref.data))
    {
      ghost var was, before := mem.Document(), hs;
      var sound, hs', how := Step(mem, hs, ops[done]);
      assert Keeps(was, before, ops[done], sound, how, mem.Document(), hs', mem.Valid());
      KeepsMeans(was, before, ops[done], sound, how, mem.Document(), hs', mem.Valid());
      if !sound {
        if Disciplined(Plan(|given|, {}, {}), ops) {
          NothingKnownFits(trace[0].doc, given);
          DisciplineSuffices(Plan(|given|, {}, {}), trace, hows, ops);
          assert false;
        }
        return;
      }
      hs := hs';
      mem.ValidMeans();
      mem.IsBonded();
      InsideIsHandled(mem, hs);
      Longer(trace, hows, ops, how, Moment(mem.Document(), hs));
      trace := trace + [Moment(mem.Document(), hs)];
      hows := hows + [how];
      done := done + 1;
    }
  }

  lemma KeepsMeans(was: Doc<Node>, hs: Handles<Node>, op: Op, sound: bool, how: Choice<Node>, now: Doc<Node>, hs': Handles<Node>, valid: bool)
    requires Handled(was, hs) && Keeps(was, hs, op, sound, how, now, hs', valid)
    ensures (sound <==> Harmless(was, hs, op)) && (valid <==> sound) && (sound ==> Moves(was, hs, op, how, now, hs'))
  {
  }

  lemma Longer(trace: seq<Moment<Node>>, hows: seq<Choice<Node>>, ops: seq<Op>, how: Choice<Node>, next: Moment<Node>)
    requires History(trace, hows, ops) && |hows| < |ops|
    requires var last := trace[|hows|];
      Harmless(last.doc, last.hs, ops[|hows|]) && Moves(last.doc, last.hs, ops[|hows|], how, next.doc, next.hs)
    requires next.doc.Valid() && next.doc.Bonded() && Handled(next.doc, next.hs)
    ensures History(trace + [next], hows + [how], ops)
  {
    hide Harmless, Moves, Doc<Node>.Valid, Doc<Node>.Bonded, Handled;
  }
}
