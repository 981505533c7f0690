/** Definedness propagation on values: what marking a node defined does to the recorded containers, and
    what the containers hold. */
module Definedness {
  import opened Reachability

  /** What each vertex will mark, and the vertices that are marked already. */
  datatype Marks<T> = Marks(deps: map<T, set<T>>, done: set<T>)
  {
    /** The subgraph on the unmarked vertices. */
    ghost function Undone(): map<T, set<T>>
    {
      map m | m in deps && m !in done :: deps[m]
    }

    /** Every successor set lies within the vertices, and marked vertices have given up theirs. */
    ghost predicate Sound()
    {
      && done <= deps.Keys
      && (forall m :: m in deps ==> deps[m] <= deps.Keys)
      && (forall m :: m in done ==> deps[m] == {})
    }

    ghost predicate Closed()
    {
      done <= deps.Keys && forall m :: m in deps ==> deps[m] <= deps.Keys
    }

    /** Exactly the unmarked vertices that `n` reaches become marked and give up their sets. */
    ghost function Mark(n: T): Marks<T>
    {
      var r := Reached(Undone(), n);
      Marks(Cleared(deps, r), done + r)
    }

    /** Each parent of a child is marked, or the child is unmarked and will mark the parent. */
    ghost predicate Tracks(kids: map<T, set<T>>)
    {
      forall c, m :: c in kids && m in kids[c] ==> c in done || (m in deps && m !in done && c in deps[m])
    }

    /** Child `m` is told of its parent `c`; `clash` says that `m` knows a parent of the same rank. */
    ghost function Link(m: T, c: T, clash: bool): Marks<T>
    {
      if m in done then Mark(c)
      else if clash || m !in deps then this
      else Marks(deps[m := deps[m] + {c}], done)
    }
  }

  /** `deps` with the sets of the vertices in `xs` emptied. */
  ghost function Cleared<T>(deps: map<T, set<T>>, xs: set<T>): map<T, set<T>>
  {
    map m | m in deps :: if m in xs then {} else deps[m]
  }

  /** The parents in `sharers` gain the child `m`. */
  ghost function WithChild<T>(kids: map<T, set<T>>, sharers: set<T>, m: T): map<T, set<T>>
  {
    map c | c in kids :: if c in sharers then kids[c] + {m} else kids[c]
  }

  /** The state of a depth-first marking from `n` that started in `start`: the vertices marked since,
      other than `n`, have given up their sets, and the successors of `n` still to visit are in `rest`. */
  ghost predicate Marking<T>(start: Marks<T>, n: T, now: Marks<T>, rest: set<T>)
  {
    && start.Closed() && n in start.deps && n !in start.done
    && n in now.done && start.done <= now.done <= start.deps.Keys
    && rest <= start.deps[n]
    && now.deps == Cleared(start.deps, now.done - start.done - {n})
    && now.done - start.done <= Reached(start.Undone(), n)
    && (forall m :: m in now.done && m !in start.done && m != n ==> start.deps[m] <= now.done)
    && start.deps[n] <= now.done + rest
  }

  lemma MarkingStarts<T>(start: Marks<T>, n: T)
    requires start.Closed() && n in start.deps && n !in start.done
    ensures Marking(start, n, start.(done := start.done + {n}), start.deps[n])
  {
    ReachedIsClosed(start.Undone(), n);
    assert Cleared(start.deps, start.done + {n} - start.done - {n}) == start.deps;
  }

  /** Marking from one more successor keeps the state consistent. */
  lemma MarkingAdvances<T>(start: Marks<T>, n: T, now: Marks<T>, rest: set<T>, d: T)
    requires Marking(start, n, now, rest) && d in rest
    ensures Marking(start, n, now.Mark(d), rest - {d}) && now.Mark(d).Closed()
  {
    var g, h := start.Undone(), now.Undone();
    var r := Reached(h, d);
    ReachedPrepend(h, g, n, d);
    ReachedIsClosed(h, d);
    forall m | m in r
      ensures start.deps[m] <= now.done + r
    {
      forall b | b in start.deps[m] ensures b in now.done + r {
        assert b in now.done || b in h;
      }
    }
    assert Cleared(now.deps, r) == Cleared(start.deps, now.done + r - start.done - {n});
  }

  lemma MarkingEnds<T>(start: Marks<T>, n: T, now: Marks<T>)
    requires Marking(start, n, now, {})
    ensures now.(deps := now.deps[n := {}]) == start.Mark(n)
  {
    var g := start.Undone();
    ReachedIsClosed(g, n);
    ReachedIsLeast(g, n, now.done);
  }

  lemma MarkOfMarked<T>(start: Marks<T>, n: T)
    requires n in start.done
    ensures start.Mark(n) == start
  {
    NothingReachedFromOutside(start.Undone(), n);
  }

  lemma MarkKeepsSound<T>(start: Marks<T>, n: T)
    requires start.Sound()
    ensures start.Mark(n).Sound()
  {
    forall m | m in start.Mark(n).deps
      ensures start.Mark(n).deps[m] <= start.deps.Keys
    {
      assert start.deps[m] <= start.deps.Keys;
    }
  }

  lemma ClosedSetKeepsTracks<T>(start: Marks<T>, kids: map<T, set<T>>, r: set<T>)
    requires start.Sound() && start.Tracks(kids)
    requires ClosedUnder(start.Undone(), r) && r <= start.deps.Keys
    ensures Marks(Cleared(start.deps, r), start.done + r).Tracks(kids)
  {
  }

  lemma MarkMarks<T>(start: Marks<T>, n: T)
    requires n in start.deps
    ensures start.done + {n} <= start.Mark(n).done
  {
    ReachedIsClosed(start.Undone(), n);
  }

  lemma MarkLone<T>(start: Marks<T>, n: T)
    requires n in start.deps && start.deps[n] == {}
    ensures start.Mark(n) == start.(done := start.done + {n})
  {
    if n in start.done {
      MarkOfMarked(start, n);
    } else {
      ReachedIsClosed(start.Undone(), n);
      ReachedIsLeast(start.Undone(), n, {n});
    }
  }

  /** Marking from any vertex keeps every parent tracked. */
  lemma MarkKeepsTracks<T>(start: Marks<T>, kids: map<T, set<T>>, n: T)
    requires start.Sound() && start.Tracks(kids)
    ensures start.Mark(n).Tracks(kids)
  {
    ReachedIsClosed(start.Undone(), n);
    ClosedSetKeepsTracks(start, kids, Reached(start.Undone(), n));
  }

  lemma WithChildTracks<T>(marks: Marks<T>, kids: map<T, set<T>>, sharers: set<T>, m: T)
    requires marks.Tracks(kids) && sharers <= kids.Keys
    ensures marks.Tracks(WithChild(kids, sharers, m))
       <==> forall c :: c in sharers ==> c in marks.done || (m in marks.deps && m !in marks.done && c in marks.deps[m])
  {
    var kids' := WithChild(kids, sharers, m);
    assert forall c :: c in sharers ==> m in kids'[c];
  }

  lemma MoreDepsTrack<T>(marks: Marks<T>, kids: map<T, set<T>>, m: T, more: set<T>)
    requires marks.Tracks(kids) && m in marks.deps && marks.deps[m] <= more
    ensures marks.(deps := marks.deps[m := more]).Tracks(kids)
  {
  }

  /** A new child of `c` stays tracked exactly when no other parent of the same rank stands in the way. */
  lemma LinkTracks<T>(start: Marks<T>, kids: map<T, set<T>>, m: T, c: T, sharers: set<T>, clash: bool)
    requires start.Sound() && start.Tracks(kids)
    requires m in start.deps && c in start.deps && c in kids && c in sharers && sharers <= kids.Keys
    requires sharers <= if c in start.done then start.done else {c}
    ensures start.Link(m, c, clash).Sound()
    ensures start.Link(m, c, clash).Tracks(WithChild(kids, sharers, m))
       <==> m in start.done || c in start.done || c in start.deps[m] || !clash
  {
    hide Marks.Tracks, WithChild;
    var after := start.Link(m, c, clash);
    if m in start.done {
      MarkKeepsSound(start, c);
      MarkKeepsTracks(start, kids, c);
      MarkMarks(start, c);
    } else if !clash {
      MoreDepsTrack(start, kids, m, start.deps[m] + {c});
    }
    WithChildTracks(after, kids, sharers, m);
  }

  /** The contents of a node's data: the sequence with the length of a prefix known to be defined, and
      the key/value pairs. */
  datatype Store<T> = Store(sequence: seq<T>, seqSize: nat, pairs: seq<(T, T)>)

  /** How the contents came about: the keys that were made from literals, which record no container,
      and whether the sequence has grown by indexing only. */
  datatype Origin<T> = Origin(literals: set<T>, indexed: bool)

  type Contents<T> = (Store<T>, Origin<T>)

  /** What a node holds: its children, all its keys, those children and literal keys that must be defined,
      and whether the counter of defined elements lies within the sequence. */
  datatype Holding<T> = Holding(kids: set<T>, keys: set<T>, settled: set<T>, counted: bool)
  {
    ghost predicate Fits(all: set<T>, done: set<T>)
    {
      kids <= all && keys <= all && settled <= done && counted
    }
  }

  ghost function Holds<T>(c: Contents<T>): Holding<T>
  {
    var (s, o) := c;
    Holding(
      (set m | m in s.sequence) + (set p | p in s.pairs :: p.1) + (set p | p in s.pairs && p.0 !in o.literals :: p.0),
      set p | p in s.pairs :: p.0,
      (set i | 0 <= i < |s.sequence| && (i < s.seqSize || (o.indexed && i + 1 < |s.sequence|)) :: s.sequence[i]) + o.literals,
      s.seqSize <= |s.sequence|)
  }

  function Emptied<T>(): Store<T>
  {
    Store([], 0, [])
  }

  function Appended<T>(s: Store<T>, m: T): Store<T>
  {
    s.(sequence := s.sequence + [m])
  }

  lemma HoldsNothing<T>(indexed: bool)
    ensures Holds<T>((Emptied(), Origin({}, indexed))) == Holding({}, {}, {}, true)
  {
  }

  lemma HoldsAppended<T>(s: Store<T>, o: Origin<T>, m: T, byIndex: bool, done: set<T>)
    requires s.seqSize <= |s.sequence| && Holds((s, o)).settled <= done
    requires byIndex && s.sequence != [] ==> s.sequence[|s.sequence| - 1] in done
    ensures var now := Holds((Appended(s, m), o.(indexed := o.indexed && byIndex)));
            now.kids == Holds((s, o)).kids + {m} && now.keys == Holds((s, o)).keys && now.counted && now.settled <= done
  {
    var now := Holds((Appended(s, m), o.(indexed := o.indexed && byIndex)));
    assert (set x | x in s.sequence + [m]) == (set x | x in s.sequence) + {m};
    assert o.literals <= Holds((s, o)).settled;
    forall x | x in now.settled && x !in o.literals
      ensures x in done
    {
      var i :| 0 <= i < |s.sequence| + 1 && (s.sequence + [m])[i] == x && (i < s.seqSize || (o.indexed && byIndex && i < |s.sequence|));
      assert i < |s.sequence| && s.sequence[i] == x;
      assert i + 1 < |s.sequence| || i < s.seqSize ==> x in Holds((s, o)).settled;
    }
  }

  function Paired<T>(s: Store<T>, k: T, v: T): Store<T>
  {
    s.(pairs := s.pairs + [(k, v)])
  }

  lemma PairedEnds<T>(pairs: seq<(T, T)>, k: T, v: T)
    ensures var pairs' := pairs + [(k, v)];
      && (set p | p in pairs' :: p.1) == (set p | p in pairs :: p.1) + {v}
      && (set p | p in pairs' :: p.0) == (set p | p in pairs :: p.0) + {k}
  {
    var pairs' := pairs + [(k, v)];
    assert forall p :: p in pairs' <==> p in pairs || p == (k, v);
    assert (k, v) in pairs';
  }

  lemma PairedPlainKeys<T>(pairs: seq<(T, T)>, k: T, v: T, literals: set<T>)
    ensures (set p | p in pairs + [(k, v)] && p.0 !in literals :: p.0)
         == (set p | p in pairs && p.0 !in literals :: p.0) + (if k in literals then {} else {k})
  {
    var pairs' := pairs + [(k, v)];
    assert forall p :: p in pairs' <==> p in pairs || p == (k, v);
    assert (k, v) in pairs';
  }

  lemma HoldsPaired<T>(s: Store<T>, o: Origin<T>, k: T, v: T, literal: bool)
    requires s.seqSize <= |s.sequence|
    requires literal ==> k !in Holds((s, o)).keys
    ensures var was := Holds((s, o));
            var o' := if literal then o.(literals := o.literals + {k}) else o;
            var now := Holds((Paired(s, k, v), o'));
            && now.kids == was.kids + (if k in o'.literals then {v} else {k, v})
            && now.keys == was.keys + {k} && now.settled == was.settled + (if literal then {k} else {}) && now.counted
  {
    var o' := if literal then o.(literals := o.literals + {k}) else o;
    PairedEnds(s.pairs, k, v);
    PairedPlainKeys(s.pairs, k, v, o'.literals);
    assert (set p | p in s.pairs && p.0 !in o'.literals :: p.0) == (set p | p in s.pairs && p.0 !in o.literals :: p.0) by {
      assert literal ==> forall p :: p in s.pairs ==> p.0 in Holds((s, o)).keys;
    }
  }

  /** `remove_idx`. */
  function Erased<T>(s: Store<T>, key: nat): Store<T>
  {
    if key < |s.sequence| then
      s.(sequence := s.sequence[..key] + s.sequence[key + 1..], seqSize := if s.seqSize > key then s.seqSize - 1 else s.seqSize)
    else s
  }

  lemma HoldsErased<T>(s: Store<T>, o: Origin<T>, key: nat)
    requires s.seqSize <= |s.sequence|
    ensures var was, now := Holds((s, o)), Holds((Erased(s, key), o));
            now.kids <= was.kids && now.keys == was.keys && now.settled <= was.settled && now.counted
  {
    var s' := Erased(s, key);
    if key < |s.sequence| {
      forall i | 0 <= i < |s'.sequence|
        ensures s'.sequence[i] == s.sequence[if i < key then i else i + 1]
      {
      }
    }
  }

  /** `node_data::remove` on a map. */
  function Unpaired<T>(s: Store<T>, at: nat): Store<T>
  {
    if at < |s.pairs| then s.(pairs := s.pairs[..at] + s.pairs[at + 1..]) else s
  }

  lemma HoldsUnpaired<T>(s: Store<T>, o: Origin<T>, at: nat)
    requires s.seqSize <= |s.sequence|
    ensures var was, now := Holds((s, o)), Holds((Unpaired(s, at), o));
            now.kids <= was.kids && now.keys <= was.keys && now.settled == was.settled && now.counted
  {
    assert forall p :: p in Unpaired(s, at).pairs ==> p in s.pairs;
  }

  ghost function Held<T>(layout: map<T, Contents<T>>): map<T, Holding<T>>
  {
    map c | c in layout :: Holds(layout[c])
  }

  lemma HoldsCounted<T>(s: Store<T>, o: Origin<T>, k: nat, done: set<T>)
    requires k <= |s.sequence| && (forall i :: 0 <= i < k ==> s.sequence[i] in done)
    requires Holds((s, o)).settled <= done
    ensures var was, now := Holds((s, o)), Holds((s.(seqSize := k), o));
            now.kids == was.kids && now.keys == was.keys && now.settled <= done && now.counted
  {
    assert o.literals <= Holds((s, o)).settled;
    forall x | x in Holds((s.(seqSize := k), o)).settled && x !in o.literals
      ensures x in done
    {
      var i :| 0 <= i < |s.sequence| && s.sequence[i] == x && (i < k || (o.indexed && i + 1 < |s.sequence|));
      assert i + 1 < |s.sequence| && o.indexed ==> x in Holds((s, o)).settled;
    }
  }

  lemma HeldCreated<T>(layout: map<T, Contents<T>>, n: T, indexed: bool)
    ensures Held(layout[n := (Emptied(), Origin({}, indexed))]) == Held(layout)[n := Holding({}, {}, {}, true)]
  {
    HoldsNothing<T>(indexed);
  }

  ghost function Kids<T>(layout: map<T, Holding<T>>): map<T, set<T>>
  {
    map c | c in layout :: layout[c].kids
  }

  /** What every operation keeps, whatever its arguments are. */
  ghost predicate Shaped<T>(marks: Marks<T>, layout: map<T, Holding<T>>)
  {
    && marks.Sound()
    && layout.Keys == marks.deps.Keys
    && forall c :: c in layout ==> layout[c].Fits(layout.Keys, marks.done)
  }

  ghost predicate Linked<T>(marks: Marks<T>, layout: map<T, Holding<T>>)
  {
    Shaped(marks, layout) && marks.Tracks(Kids(layout))
  }

  lemma MarkKeepsLinked<T>(marks: Marks<T>, layout: map<T, Holding<T>>, n: T)
    requires Linked(marks, layout)
    ensures Linked(marks.Mark(n), layout)
  {
    MarkKeepsSound(marks, n);
    MarkKeepsTracks(marks, Kids(layout), n);
  }

  lemma CreateKeepsLinked<T>(marks: Marks<T>, layout: map<T, Holding<T>>, n: T)
    requires Linked(marks, layout) && n !in layout
    ensures Linked(marks.(deps := marks.deps[n := {}]), layout[n := Holding({}, {}, {}, true)])
  {
  }

  /** The nodes in `xs` hold `h`. */
  ghost function Shared<T, H>(layout: map<T, H>, xs: set<T>, h: H): map<T, H>
  {
    map c | c in layout :: if c in xs then h else layout[c]
  }

  lemma HeldShared<T>(layout: map<T, Contents<T>>, xs: set<T>, h: Contents<T>)
    ensures Held(Shared(layout, xs, h)) == Shared(Held(layout), xs, Holds(h))
  {
  }

  lemma ShareKeepsLinked<T>(marks: Marks<T>, layout: map<T, Holding<T>>, xs: set<T>, rhs: T)
    requires Linked(marks, layout) && xs <= marks.done && rhs in layout
    ensures Linked(marks, Shared(layout, xs, layout[rhs]))
  {
  }

  lemma AdoptShapes<T>(marks: Marks<T>, layout: map<T, Holding<T>>, m: T, c: T, sharers: set<T>, h: Holding<T>, clash: bool)
    requires Shaped(marks, layout) && m in layout && c in layout && sharers <= layout.Keys && sharers != {}
    requires marks.Link(m, c, clash).Sound()
    requires forall d :: d in sharers ==> layout[d].kids + {m} == h.kids
    requires h.settled <= marks.done && h.keys <= layout.Keys && h.counted
    ensures Shaped(marks.Link(m, c, clash), Shared(layout, sharers, h))
  {
    LinkEffect(marks, m, c, clash);
    hide Marks.Link, Marks.Sound;
  }

  /** Node `c`, and whoever shares its data, gains the child `m`, which is then linked to `c`. */
  lemma AdoptLinks<T>(marks: Marks<T>, layout: map<T, Holding<T>>, m: T, c: T, sharers: set<T>, h: Holding<T>, clash: bool)
    requires Linked(marks, layout)
    requires m in layout && c in layout && c in sharers && sharers <= layout.Keys
    requires sharers <= if c in marks.done then marks.done else {c}
    requires forall d :: d in sharers ==> layout[d].kids + {m} == h.kids
    requires h.settled <= marks.done && h.keys <= layout.Keys && h.counted
    ensures Linked(marks.Link(m, c, clash), Shared(layout, sharers, h))
       <==> m in marks.done || c in marks.done || c in marks.deps[m] || !clash
  {
    hide Marks.Link, Marks.Tracks;
    LinkTracks(marks, Kids(layout), m, c, sharers, clash);
    AdoptShapes(marks, layout, m, c, sharers, h, clash);
    hide Shaped;
    assert Kids(Shared(layout, sharers, h)) == WithChild(Kids(layout), sharers, m);
  }

  /** The invariant of a document: every container of a defined node is defined, and every container of
      an undefined node is defined or recorded. */
  ghost predicate Coherent<T>(marks: Marks<T>, layout: map<T, Contents<T>>)
  {
    Linked(marks, Held(layout))
  }

  lemma NothingIsCoherent<T>()
    ensures Coherent<T>(Marks(map[], {}), map[])
  {
  }

  lemma ContentsFit<T>(marks: Marks<T>, layout: map<T, Contents<T>>, c: T)
    requires Coherent(marks, layout) && c in layout
    ensures Holds(layout[c]).Fits(layout.Keys, marks.done)
    ensures var h := Holds(layout[c]); h.kids <= layout.Keys && h.keys <= layout.Keys && h.settled <= marks.done
    ensures layout[c].0.seqSize <= |layout[c].0.sequence|
  {
    assert Held(layout)[c].Fits(layout.Keys, marks.done);
  }

  lemma ContentsKnown<T>(c: Contents<T>, all: set<T>, done: set<T>)
    requires Holds(c).Fits(all, done)
    ensures forall m :: m in c.0.sequence ==> m in all
    ensures forall p :: p in c.0.pairs ==> p.0 in all && p.1 in all
  {
    forall m | m in c.0.sequence ensures m in all {
      assert m in Holds(c).kids;
    }
    forall p | p in c.0.pairs ensures p.0 in all && p.1 in all {
      assert p.1 in Holds(c).kids && p.0 in Holds(c).keys;
    }
  }

  lemma CoherentFacts<T>(marks: Marks<T>, layout: map<T, Contents<T>>)
    requires Coherent(marks, layout)
    ensures marks.Closed() && layout.Keys == marks.deps.Keys
    ensures forall c, m :: c in layout && m in layout[c].0.sequence ==> m in layout
    ensures forall c, p :: c in layout && p in layout[c].0.pairs ==> p.0 in layout && p.1 in layout
    ensures forall c :: c in layout ==> layout[c].0.seqSize <= |layout[c].0.sequence|
  {
    assert marks.Closed() && layout.Keys == marks.deps.Keys;
    hide *;
    forall c | c in layout
      ensures forall m :: m in layout[c].0.sequence ==> m in layout
      ensures forall p :: p in layout[c].0.pairs ==> p.0 in layout && p.1 in layout
      ensures layout[c].0.seqSize <= |layout[c].0.sequence|
    {
      ContentsFit(marks, layout, c);
      ContentsKnown(layout[c], layout.Keys, marks.done);
    }
  }

  lemma KidTracks<T>(marks: Marks<T>, layout: map<T, Holding<T>>, c: T, m: T)
    requires Linked(marks, layout) && c in layout && m in layout[c].kids && m in marks.done
    ensures c in marks.done
  {
    assert m in Kids(layout)[c];
  }

  lemma SettledMeaning<T>(c: Contents<T>, all: set<T>, done: set<T>)
    requires Holds(c).Fits(all, done)
    ensures forall i :: 0 <= i < c.0.seqSize && i < |c.0.sequence| ==> c.0.sequence[i] in done
    ensures c.1.indexed ==> forall i :: 0 <= i < |c.0.sequence| - 1 ==> c.0.sequence[i] in done
    ensures c.1.literals <= done
  {
    forall i | 0 <= i < |c.0.sequence| && (i < c.0.seqSize || (c.1.indexed && i + 1 < |c.0.sequence|))
      ensures c.0.sequence[i] in done
    {
      assert c.0.sequence[i] in Holds(c).settled;
    }
    assert c.1.literals <= Holds(c).settled;
  }

  lemma IsKid<T>(c: Contents<T>, m: T)
    requires m in c.0.sequence || exists p :: p in c.0.pairs && p.1 == m
    ensures m in Holds(c).kids
  {
  }

  lemma CoherentIsLinked<T>(marks: Marks<T>, layout: map<T, Contents<T>>)
    ensures Coherent(marks, layout) <==> Linked(marks, Held(layout))
    ensures Held(layout).Keys == layout.Keys && forall c :: c in layout ==> Held(layout)[c] == Holds(layout[c])
  {
    hide Holds, Linked;
  }

  lemma CoherentMeaning<T>(marks: Marks<T>, layout: map<T, Contents<T>>, c: T, m: T)
    requires Coherent(marks, layout) && c in layout && m in layout
    ensures layout.Keys == marks.deps.Keys && (m in marks.done ==> marks.deps[m] == {})
    ensures var (s, o) := layout[c];
            && s.seqSize <= |s.sequence|
            && (m in marks.done && (m in s.sequence || exists p :: p in s.pairs && p.1 == m) ==> c in marks.done)
            && (forall i :: 0 <= i < s.seqSize ==> s.sequence[i] in marks.done)
            && (o.indexed ==> forall i :: 0 <= i < |s.sequence| - 1 ==> s.sequence[i] in marks.done)
            && o.literals <= marks.done
  {
    hide Marks.Tracks, Holds;
    var (s, o) := layout[c];
    ContentsFit(marks, layout, c);
    SettledMeaning(layout[c], layout.Keys, marks.done);
    CoherentIsLinked(marks, layout);
    if m in marks.done && (m in s.sequence || exists p :: p in s.pairs && p.1 == m) {
      IsKid(layout[c], m);
      KidTracks(marks, Held(layout), c, m);
    }
  }

  lemma MarkCoherent<T>(marks: Marks<T>, layout: map<T, Contents<T>>, n: T)
    requires Coherent(marks, layout)
    ensures Coherent(marks.Mark(n), layout)
    ensures n in layout ==> marks.done + {n} <= marks.Mark(n).done
  {
    MarkKeepsLinked(marks, Held(layout), n);
    if n in layout {
      MarkMarks(marks, n);
    }
  }

  lemma CreateCoherent<T>(marks: Marks<T>, layout: map<T, Contents<T>>, n: T)
    requires Coherent(marks, layout) && n !in layout
    ensures Coherent(marks.(deps := marks.deps[n := {}]), layout[n := (Emptied(), Origin({}, true))])
  {
    CreateKeepsLinked(marks, Held(layout), n);
    HeldCreated(layout, n, true);
  }

  lemma ShareCoherent<T>(marks: Marks<T>, layout: map<T, Contents<T>>, xs: set<T>, rhs: T)
    requires Coherent(marks, layout) && xs <= marks.done && rhs in layout
    ensures Coherent(marks, Shared(layout, xs, layout[rhs]))
  {
    ShareKeepsLinked(marks, Held(layout), xs, rhs);
    HeldShared(layout, xs, layout[rhs]);
  }

  /** Finding a child again links it once more, which loses nothing. */
  lemma RelinkCoherent<T>(marks: Marks<T>, layout: map<T, Contents<T>>, m: T, c: T, clash: bool)
    requires Coherent(marks, layout) && c in layout
    requires m in layout[c].0.sequence || exists p :: p in layout[c].0.pairs && p.1 == m
    ensures Coherent(marks.Link(m, c, clash), layout)
  {
    assert m in Holds(layout[c]).kids;
    RelinkLinks(marks, Held(layout), m, c, clash);
  }

  /** The nodes that share data with `c`: all defined, or `c` alone. */
  ghost predicate Alike<T>(marks: Marks<T>, layout: map<T, Contents<T>>, c: T, sharers: set<T>)
  {
    && c in layout && c in sharers && sharers <= layout.Keys
    && sharers <= (if c in marks.done then marks.done else {c})
    && forall d :: d in sharers ==> layout[d] == layout[c]
  }

  /** Node `c`, and whoever shares its data, comes to hold one more child, which is then linked to `c`. */
  lemma AdoptContents<T>(marks: Marks<T>, layout: map<T, Contents<T>>, m: T, c: T, sharers: set<T>, now: Contents<T>, clash: bool)
    requires Coherent(marks, layout) && Alike(marks, layout, c, sharers) && m in layout
    requires Holds(now).kids == Holds(layout[c]).kids + {m} && Holds(now).Fits(layout.Keys, marks.done)
    ensures Coherent(marks.Link(m, c, clash), Shared(layout, sharers, now))
       <==> m in marks.done || c in marks.done || c in marks.deps[m] || !clash
  {
    hide Linked, Shared, Marks.Link, Holds;
    AdoptLinks(marks, Held(layout), m, c, sharers, Holds(now), clash);
    HeldShared(layout, sharers, now);
  }

  /** Appending a child to the sequence of `c` keeps all parents tracked exactly when `c` is recorded. */
  lemma AppendLinks<T>(marks: Marks<T>, layout: map<T, Contents<T>>, m: T, c: T, sharers: set<T>, byIndex: bool, clash: bool)
    requires Coherent(marks, layout) && Alike(marks, layout, c, sharers) && m in layout
    requires var q := layout[c].0.sequence; byIndex && q != [] ==> q[|q| - 1] in marks.done
    ensures var (s, o) := layout[c];
            var layout' := Shared(layout, sharers, (Appended(s, m), o.(indexed := o.indexed && byIndex)));
            Coherent(marks.Link(m, c, clash), layout') <==> m in marks.done || c in marks.done || c in marks.deps[m] || !clash
  {
    var (s, o) := layout[c];
    var now := (Appended(s, m), o.(indexed := o.indexed && byIndex));
    hide Holds, Coherent, Marks.Link, Shared;
    ContentsFit(marks, layout, c);
    HoldsAppended(s, o, m, byIndex, marks.done);
    AdoptContents(marks, layout, m, c, sharers, now, clash);
  }

  lemma HoldsIndexed<T>(c: Contents<T>, m: T, all: set<T>, done: set<T>)
    requires Holds(c).Fits(all, done) && m in all
    requires c.0.sequence != [] ==> c.0.sequence[|c.0.sequence| - 1] in done
    ensures var now := Holds((Appended(c.0, m), c.1)); now.Fits(all, done) && now.kids == Holds(c).kids + {m}
  {
    assert c == (c.0, c.1) && c.1 == c.1.(indexed := c.1.indexed && true);
    HoldsAppended(c.0, c.1, m, true, done);
  }

  /** Appending by indexing, which leaves a gap nowhere. */
  lemma IndexLinks<T>(marks: Marks<T>, layout: map<T, Contents<T>>, m: T, c: T, sharers: set<T>, clash: bool)
    requires Coherent(marks, layout) && Alike(marks, layout, c, sharers) && m in layout && !clash
    requires var q := layout[c].0.sequence; q != [] ==> q[|q| - 1] in marks.done
    ensures Coherent(marks.Link(m, c, clash), Shared(layout, sharers, (Appended(layout[c].0, m), layout[c].1)))
  {
    assert c in layout;
    hide *;
    ContentsFit(marks, layout, c);
    HoldsIndexed(layout[c], m, layout.Keys, marks.done);
    AdoptContents(marks, layout, m, c, sharers, (Appended(layout[c].0, m), layout[c].1), clash);
  }

  /** Linking a node again to a container that holds it already loses nothing. */
  lemma RelinkLinks<T>(marks: Marks<T>, layout: map<T, Holding<T>>, m: T, c: T, clash: bool)
    requires Linked(marks, layout) && c in layout && m in layout[c].kids
    ensures Linked(marks.Link(m, c, clash), layout)
  {
    assert layout[c].Fits(layout.Keys, marks.done) && m in Kids(layout)[c];
    if m in marks.done {
      MarkKeepsLinked(marks, layout, c);
    } else {
      assert c !in marks.done ==> marks.deps[m] + {c} == marks.deps[m];
    }
  }

  /** A container that holds no more than before, and whose settled elements are defined, stays linked. */
  lemma ReplaceLinks<T>(marks: Marks<T>, layout: map<T, Contents<T>>, c: T, sharers: set<T>, now: Contents<T>)
    requires Coherent(marks, layout) && Alike(marks, layout, c, sharers)
    requires var was := Holds(layout[c]); Holds(now).kids <= was.kids && Holds(now).keys <= was.keys
    requires Holds(now).settled <= marks.done && Holds(now).counted
    ensures Coherent(marks, Shared(layout, sharers, now))
  {
    HeldShared(layout, sharers, now);
    ReplaceHeldLinks(marks, Held(layout), sharers, Holds(now));
  }

  lemma ReplaceHeldLinks<T>(marks: Marks<T>, layout: map<T, Holding<T>>, sharers: set<T>, h: Holding<T>)
    requires Linked(marks, layout) && sharers <= layout.Keys && sharers != {}
    requires forall d :: d in sharers ==> h.kids <= layout[d].kids && h.keys <= layout[d].keys
    requires h.settled <= marks.done && h.counted
    ensures Linked(marks, Shared(layout, sharers, h))
  {
  }

  lemma EraseLinks<T>(marks: Marks<T>, layout: map<T, Contents<T>>, c: T, sharers: set<T>, key: nat)
    requires Coherent(marks, layout) && Alike(marks, layout, c, sharers)
    ensures Coherent(marks, Shared(layout, sharers, (Erased(layout[c].0, key), layout[c].1)))
  {
    var (s, o) := layout[c];
    assert Held(layout)[c].Fits(layout.Keys, marks.done);
    HoldsErased(s, o, key);
    ReplaceLinks(marks, layout, c, sharers, (Erased(s, key), o));
  }

  lemma UnpairLinks<T>(marks: Marks<T>, layout: map<T, Contents<T>>, c: T, sharers: set<T>, at: nat)
    requires Coherent(marks, layout) && Alike(marks, layout, c, sharers)
    ensures Coherent(marks, Shared(layout, sharers, (Unpaired(layout[c].0, at), layout[c].1)))
  {
    hide Coherent, Shared;
    var (s, o) := layout[c];
    ContentsFit(marks, layout, c);
    HoldsUnpaired(s, o, at);
    ReplaceLinks(marks, layout, c, sharers, (Unpaired(s, at), o));
  }

  lemma CountLinks<T>(marks: Marks<T>, layout: map<T, Contents<T>>, c: T, sharers: set<T>, k: nat)
    requires Coherent(marks, layout) && Alike(marks, layout, c, sharers)
    requires var q := layout[c].0.sequence; k <= |q| && forall i :: 0 <= i < k ==> q[i] in marks.done
    ensures Coherent(marks, Shared(layout, sharers, (layout[c].0.(seqSize := k), layout[c].1)))
  {
    var (s, o) := layout[c];
    assert Held(layout)[c].Fits(layout.Keys, marks.done);
    HoldsCounted(s, o, k, marks.done);
    ReplaceLinks(marks, layout, c, sharers, (s.(seqSize := k), o));
  }

  function LiteralPaired<T>(c: Contents<T>, k: T, v: T): Contents<T>
  {
    (Paired(c.0, k, v), c.1.(literals := c.1.literals + {k}))
  }

  lemma HoldsLiteralPaired<T>(c: Contents<T>, k: T, v: T, all: set<T>, done: set<T>)
    requires Holds(c).Fits(all, done) && k in all && v in all && k in done && k !in Holds(c).keys
    ensures var was, now := Holds(c), Holds(LiteralPaired(c, k, v));
            now.Fits(all, done) && now.kids == was.kids + {v}
  {
    assert c == (c.0, c.1);
    HoldsPaired(c.0, c.1, k, v, true);
  }

  /** A new pair whose key was made from a literal: only the value records its container. */
  lemma LiteralPairLinks<T>(marks: Marks<T>, layout: map<T, Contents<T>>, k: T, v: T, c: T, sharers: set<T>, clash: bool)
    requires Coherent(marks, layout) && Alike(marks, layout, c, sharers)
    requires k in layout && k in marks.done && v in layout && k !in Holds(layout[c]).keys
    requires v in marks.done || c in marks.done || c in marks.deps[v] || !clash
    ensures Coherent(marks.Link(v, c, clash), Shared(layout, sharers, LiteralPaired(layout[c], k, v)))
  {
    assert c in layout;
    hide *;
    ContentsFit(marks, layout, c);
    HoldsLiteralPaired(layout[c], k, v, layout.Keys, marks.done);
    AdoptContents(marks, layout, v, c, sharers, LiteralPaired(layout[c], k, v), clash);
  }

  /** Linking any two vertices keeps every parent tracked that was. */
  lemma LinkKeepsLinked<T>(marks: Marks<T>, layout: map<T, Holding<T>>, m: T, c: T, clash: bool)
    requires Linked(marks, layout) && m in layout && c in layout
    ensures Linked(marks.Link(m, c, clash), layout)
  {
    if m in marks.done {
      MarkKeepsLinked(marks, layout, c);
    } else if !clash {
      MoreDepsTrack(marks, Kids(layout), m, marks.deps[m] + {c});
      hide Marks.Tracks;
    }
  }

  /** A marked node may hold anything that fits. */
  lemma MarkedHoldsAnything<T>(marks: Marks<T>, layout: map<T, Holding<T>>, sharers: set<T>, h: Holding<T>)
    requires Linked(marks, layout) && sharers <= marks.done && h.Fits(layout.Keys, marks.done)
    ensures Linked(marks, Shared(layout, sharers, h))
  {
  }

  /** An unmarked parent with two more unmarked children is tracked by them if and only if both record it. */
  lemma TwoMoreTrack<T>(marks: Marks<T>, kids: map<T, set<T>>, kids': map<T, set<T>>, k: T, v: T, c: T)
    requires marks.Tracks(kids) && kids'.Keys == kids.Keys && c in kids && k in marks.deps && v in marks.deps
    requires forall d | d in kids :: kids'[d] == if d == c then kids[c] + {k, v} else kids[d]
    requires k !in marks.done && v !in marks.done && c !in marks.done
    ensures marks.Tracks(kids') <==> c in marks.deps[k] && c in marks.deps[v]
  {
    assert k in kids'[c] && v in kids'[c];
  }

  /** An unmarked node with two more unmarked children needs both to record it. */
  lemma TwoKids<T>(marks: Marks<T>, layout: map<T, Holding<T>>, k: T, v: T, c: T, h: Holding<T>)
    requires Linked(marks, layout) && k in layout && v in layout && c in layout
    requires k !in marks.done && v !in marks.done && c !in marks.done
    requires h.kids == layout[c].kids + {k, v} && h.Fits(layout.Keys, marks.done)
    ensures Linked(marks, Shared(layout, {c}, h)) <==> c in marks.deps[k] && c in marks.deps[v]
  {
    hide Marks.Tracks, Marks.Closed;
    TwoMoreTrack(marks, Kids(layout), Kids(Shared(layout, {c}, h)), k, v, c);
  }

  /** Two children linked in turn to an unmarked node, when one of the three is marked. */
  lemma LinkTwiceMarks<T>(marks: Marks<T>, k: T, v: T, c: T, clashK: bool, clashV: bool)
    requires marks.Closed() && k in marks.deps && v in marks.deps && c in marks.deps
    requires k in marks.done || v in marks.done || c in marks.done
    ensures c in marks.Link(k, c, clashK).Link(v, c, clashV).done
  {
    LinkEffect(marks, k, c, clashK);
    MarkMarks(marks, c);
    MarkMarks(marks.Link(k, c, clashK), c);
  }

  /** And when none is. */
  lemma LinkTwiceRecords<T>(marks: Marks<T>, k: T, v: T, c: T, clashK: bool, clashV: bool)
    requires k in marks.deps && v in marks.deps && (k == v && clashK ==> clashV)
    requires k !in marks.done && v !in marks.done && c !in marks.done
    ensures var next := marks.Link(k, c, clashK);
      var last := next.Link(v, c, clashV);
      && last.done == marks.done && v in next.deps && k in last.deps && v in last.deps
      && (c in last.deps[k] && c in last.deps[v] <==>
           (c in marks.deps[k] || !clashK) && (c in next.deps[v] || !clashV))
  {
    hide Marks.Mark;
  }

  lemma LinkTwiceKeepsLinked<T>(marks: Marks<T>, layout: map<T, Holding<T>>, k: T, v: T, c: T, clashK: bool, clashV: bool)
    requires Linked(marks, layout) && k in layout && v in layout && c in layout
    ensures var next := marks.Link(k, c, clashK);
      var last := next.Link(v, c, clashV);
      && Linked(last, layout) && v in next.deps && k in last.deps && v in last.deps
      && marks.done <= last.done && layout.Keys == marks.deps.Keys && marks.Closed()
  {
    assert layout.Keys == marks.deps.Keys && marks.Closed();
    hide *;
    LinkKeepsLinked(marks, layout, k, c, clashK);
    LinkEffect(marks, k, c, clashK);
    LinkKeepsLinked(marks.Link(k, c, clashK), layout, v, c, clashV);
    LinkEffect(marks.Link(k, c, clashK), v, c, clashV);
  }

  lemma FitsMore<T>(h: Holding<T>, all: set<T>, done: set<T>, more: set<T>)
    requires h.Fits(all, done) && done <= more
    ensures h.Fits(all, more)
  {
  }

  lemma PairHolds<T>(marks: Marks<T>, layout: map<T, Holding<T>>, k: T, v: T, c: T, sharers: set<T>, h: Holding<T>, clashK: bool, clashV: bool)
    requires Linked(marks, layout) && k in layout && v in layout && c in layout
    requires c in sharers && sharers <= if c in marks.done then marks.done else {c}
    requires h.Fits(layout.Keys, marks.done) && (k in marks.done || h.kids == layout[c].kids + {k, v})
    requires k == v && clashK ==> clashV
    ensures var next := marks.Link(k, c, clashK);
      && v in next.deps
      && (Linked(next.Link(v, c, clashV), Shared(layout, sharers, h)) <==>
            || k in marks.done || v in marks.done || c in marks.done
            || ((c in marks.deps[k] || !clashK) && (c in next.deps[v] || !clashV)))
  {
    hide *;
    LinkTwiceKeepsLinked(marks, layout, k, v, c, clashK, clashV);
    var last := marks.Link(k, c, clashK).Link(v, c, clashV);
    FitsMore(h, layout.Keys, marks.done, last.done);
    if k in marks.done || v in marks.done || c in marks.done {
      LinkTwiceMarks(marks, k, v, c, clashK, clashV);
      MarkedHoldsAnything(last, layout, sharers, h);
    } else {
      LinkTwiceRecords(marks, k, v, c, clashK, clashV);
      assert sharers == {c};
      TwoKids(last, layout, k, v, c, h);
    }
  }

  function PlainPaired<T>(c: Contents<T>, k: T, v: T): Contents<T>
  {
    (Paired(c.0, k, v), c.1)
  }

  lemma HoldsPlainPaired<T>(c: Contents<T>, k: T, v: T, all: set<T>, done: set<T>)
    requires Holds(c).Fits(all, done) && k in all && v in all
    ensures var was, now := Holds(c), Holds(PlainPaired(c, k, v));
            now.Fits(all, done) && (k in done || now.kids == was.kids + {k, v})
  {
    assert c == (c.0, c.1);
    assert c.1.literals <= Holds(c).settled;
    HoldsPaired(c.0, c.1, k, v, false);
  }

  /** A new pair of nodes, of which the key and then the value record the container: nothing is lost exactly
      when one of the three is defined, or the container gets recorded in both. */
  lemma PairLinks<T>(marks: Marks<T>, layout: map<T, Contents<T>>, k: T, v: T, c: T, sharers: set<T>, clashK: bool, clashV: bool)
    requires Coherent(marks, layout) && Alike(marks, layout, c, sharers)
    requires k in layout && v in layout && (k == v && clashK ==> clashV)
    ensures var next := marks.Link(k, c, clashK);
      && v in next.deps
      && (Coherent(next.Link(v, c, clashV), Shared(layout, sharers, PlainPaired(layout[c], k, v))) <==>
            || k in marks.done || v in marks.done || c in marks.done
            || ((c in marks.deps[k] || !clashK) && (c in next.deps[v] || !clashV)))
  {
    var h := Holds(PlainPaired(layout[c], k, v));
    assert c in sharers && sharers <= if c in marks.done then marks.done else {c};
    hide *;
    CoherentIsLinked(marks, layout);
    CoherentIsLinked(marks.Link(k, c, clashK).Link(v, c, clashV), Shared(layout, sharers, PlainPaired(layout[c], k, v)));
    ContentsFit(marks, layout, c);
    HoldsPlainPaired(layout[c], k, v, layout.Keys, marks.done);
    HeldShared(layout, sharers, PlainPaired(layout[c], k, v));
    PairHolds(marks, Held(layout), k, v, c, sharers, h, clashK, clashV);
  }

  /** Linking loses a recorded container only of a vertex that becomes marked. */
  lemma LinkEffect<T>(marks: Marks<T>, m: T, c: T, clash: bool)
    requires marks.Closed() && m in marks.deps && c in marks.deps
    ensures var next := marks.Link(m, c, clash);
      && next.Closed() && next.deps.Keys == marks.deps.Keys && marks.done <= next.done
      && forall x :: x in marks.deps ==> x in next.done || next.deps[x] == marks.deps[x] || next.deps[x] == marks.deps[x] + {c}
  {
  }

  /** The pairs a map iteration is meant to show, in order: those with both ends in `done`. */
  ghost function DefinedPairs<T>(pairs: seq<(T, T)>, done: set<T>): seq<(T, T)>
  {
    if pairs == [] then []
    else
      var front, p := pairs[..|pairs| - 1], pairs[|pairs| - 1];
      DefinedPairs(front, done) + (if p.0 in done && p.1 in done then [p] else [])
  }

  lemma {:induction false} SkippedAddNothing<T>(pairs: seq<(T, T)>, done: set<T>, i: nat, j: nat)
    requires i <= j <= |pairs|
    requires forall k :: i <= k < j ==> !(pairs[k].0 in done && pairs[k].1 in done)
    ensures DefinedPairs(pairs[..j], done) == DefinedPairs(pairs[..i], done)
  {
    if i < j {
      SkippedAddNothing(pairs, done, i, j - 1);
      assert pairs[..j][..j - 1] == pairs[..j - 1];
    }
  }

  lemma NothingShownYet<T>(pairs: seq<(T, T)>, done: set<T>, j: nat)
    requires j <= |pairs|
    requires forall k :: 0 <= k < j ==> !(pairs[k].0 in done && pairs[k].1 in done)
    ensures DefinedPairs(pairs[..j], done) == []
  {
    SkippedAddNothing(pairs, done, 0, j);
  }

  /** One step of the iteration: the pair at `i` is shown and those up to `j` are skipped. */
  lemma ShownThenSkipped<T>(pairs: seq<(T, T)>, done: set<T>, i: nat, j: nat)
    requires i < j <= |pairs| && pairs[i].0 in done && pairs[i].1 in done
    requires forall k :: i < k < j ==> !(pairs[k].0 in done && pairs[k].1 in done)
    ensures DefinedPairs(pairs[..j], done) == DefinedPairs(pairs[..i], done) + [pairs[i]]
  {
    assert pairs[..i + 1][..i] == pairs[..i];
    SkippedAddNothing(pairs, done, i + 1, j);
  }
}
