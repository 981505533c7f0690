/** What each operation changes in a document, node by node. */
module Effects {
  import opened Types
  import opened Definedness
  import opened Documents
  import opened Disciplines

  /** No node has other contents, a rank or company it did not have; `now` may have more nodes. */
  ghost predicate SameShape<T>(was: Doc<T>, now: Doc<T>)
  {
    now.layout == was.layout && now.rank == was.rank && now.ties == was.ties && now.amount == was.amount
  }

  /** The nodes in `xs` have face `f` now, and all others the one they had. */
  ghost predicate Painted<T>(was: Doc<T>, xs: set<T>, f: Face, now: Doc<T>)
  {
    now.face.Keys == was.face.Keys && forall c | c in was.face :: now.face[c] == if c in xs then f else was.face[c]
  }

  /** The nodes in `xs` have contents `h` now, and all others those they had. */
  ghost predicate Filled<T>(was: Doc<T>, xs: set<T>, h: Contents<T>, now: Doc<T>)
  {
    now.layout.Keys == was.layout.Keys && forall c | c in was.layout :: now.layout[c] == if c in xs then h else was.layout[c]
  }

  // ---- scalars ----

  /** Assigning a text: all that share the data of the node have exactly this text now, no other node has
      changed, and what the node reaches is defined. */
  lemma AssignWrites<T>(was: Doc<T>, hs: Handles<T>, i: nat, text: string, how: Choice<T>, now: Doc<T>, hs': Handles<T>)
    requires Handled(was, hs) && Bound(hs, i) && Moves(was, hs, Op.Assign(i, text), how, now, hs')
    ensures var n := hs[i].value;
      hs' == hs && SameShape(was, now) && Painted(was, was.Kin(n), (Scalar, text), now) && now.marks == was.marks.Mark(n)
  {
    hide Marks.Mark;
  }

  lemma NullifyWrites<T>(was: Doc<T>, hs: Handles<T>, i: nat, how: Choice<T>, now: Doc<T>, hs': Handles<T>)
    requires Handled(was, hs) && Bound(hs, i) && Moves(was, hs, Nullify(i), how, now, hs')
    ensures var n := hs[i].value;
      hs' == hs && SameShape(was, now) && Painted(was, was.Kin(n), (Null, was.face[n].1), now) && now.marks == was.marks.Mark(n)
  {
    hide Marks.Mark;
  }

  // ---- sharing ----

  /** Sharing a reference: the one node is what the other is, and in its company from now on. */
  lemma ShareRefTakes<T>(was: Doc<T>, hs: Handles<T>, i: nat, j: nat, how: Choice<T>, now: Doc<T>, hs': Handles<T>)
    requires Handled(was, hs) && Bound(hs, i) && Bound(hs, j) && was.Defined(hs[j].value)
    requires Moves(was, hs, ShareRef(i, j), how, now, hs')
    ensures var n, rhs := hs[i].value, hs[j].value;
      && hs' == hs[i := hs[j]]
      && Filled(was, {n}, was.layout[rhs], now) && Painted(was, {n}, was.face[rhs], now) && now.marks == was.marks.Mark(n)
      && now.rank == was.rank && now.amount == was.amount && now.ties.Keys == was.ties.Keys
      && (forall c | c in was.ties && c != n && c !in was.ties[rhs].kin :: now.ties[c].kin == was.ties[c].kin - {n})
      && (forall c | c in was.ties && (c == n || c in was.ties[rhs].kin) :: now.ties[c].kin == was.ties[rhs].kin + {n})
      && (forall c | c in was.ties && c != n && c !in was.ties[rhs].twins :: now.ties[c].twins == was.ties[c].twins - {n})
      && (forall c | c in was.ties && (c == n || c in was.ties[rhs].twins) :: now.ties[c].twins == was.ties[rhs].twins + {n})
  {
    hide Marks.Mark;
  }

  /** Sharing data: the same for all nodes with the reference of the first. */
  lemma ShareDataTakes<T>(was: Doc<T>, hs: Handles<T>, i: nat, j: nat, how: Choice<T>, now: Doc<T>, hs': Handles<T>)
    requires Handled(was, hs) && Bound(hs, i) && Bound(hs, j) && was.Defined(hs[j].value)
    requires Moves(was, hs, ShareData(i, j), how, now, hs')
    ensures var n, rhs := hs[i].value, hs[j].value;
      var xs := was.ties[n].twins;
      && hs' == hs
      && Filled(was, xs, was.layout[rhs], now) && Painted(was, xs, was.face[rhs], now) && now.marks == was.marks.Mark(n)
      && now.rank == was.rank && now.amount == was.amount && now.ties.Keys == was.ties.Keys
      && (forall c | c in was.ties && c !in xs && c !in was.ties[rhs].kin :: now.ties[c].kin == was.ties[c].kin - xs)
      && (forall c | c in was.ties && (c in xs || c in was.ties[rhs].kin) :: now.ties[c].kin == was.ties[rhs].kin + xs)
      && (forall c | c in was.ties :: now.ties[c].twins == was.ties[c].twins)
  {
    hide Marks.Mark;
  }

  // ---- collecting ----

  /** Appending: the sequence has the element at its end, everything else is as before, and the container has
      the highest rank. */
  lemma PushAppends<T>(was: Doc<T>, hs: Handles<T>, i: nat, j: nat, how: Choice<T>, now: Doc<T>, hs': Handles<T>)
    requires Handled(was, hs) && Bound(hs, i) && Bound(hs, j) && Moves(was, hs, Push(i, j), how, now, hs')
    ensures var c, m := hs[i].value, hs[j].value;
      var (s, o) := was.layout[c];
      && hs' == hs && now.face == was.face && now.ties == was.ties
      && Filled(was, was.Kin(c), (Store(s.sequence + [m], s.seqSize, s.pairs), Origin(o.literals, false)), now)
      && now.rank == was.rank[c := was.amount] && now.amount == was.amount + 1
      && now.marks == was.marks.Link(m, c, was.Clash(m, c))
  {
    hide Marks.Link, Doc<T>.Clash;
  }

  lemma LinkMarks<T>(d: Doc<T>, m: T, c: T)
    requires d.Has(m) && d.Has(c)
    ensures d.Link(m, c) == d.(marks := d.Link(m, c).marks)
  {
  }

  lemma PutIs<T>(d: Doc<T>, xs: set<T>, h: Contents<T>)
    ensures d.Put(xs, h) == d.(layout := d.Put(xs, h).layout) && Filled(d, xs, h, d.Put(xs, h))
  {
  }

  lemma PaintIs<T>(d: Doc<T>, xs: set<T>, f: Face)
    ensures d.Paint(xs, f) == d.(face := d.Paint(xs, f).face) && Painted(d, xs, f, d.Paint(xs, f))
  {
  }

  lemma PairUnfolds<T>(d: Doc<T>, c: T, k: T, v: T, xs: set<T>)
    requires d.Valid() && d.Has(c) && d.Has(k) && d.Has(v)
    ensures d.Link(k, c).Has(v) && d.Link(k, c).Has(c)
    ensures d.Pair(c, k, v, xs) == d.Link(k, c).Link(v, c).Put(xs, (Store(d.layout[c].0.sequence, d.layout[c].0.seqSize, d.layout[c].0.pairs + [(k, v)]), d.layout[c].1))
  {
    LinkHas(d, k, c, v);
    LinkHas(d, k, c, c);
    hide Doc<T>.Link, Doc<T>.Put, Doc<T>.Valid, Doc<T>.Has;
  }

  lemma MovesPair<T>(was: Doc<T>, hs: Handles<T>, i: nat, j: nat, l: nat, how: Choice<T>, now: Doc<T>, hs': Handles<T>)
    requires Handled(was, hs) && Bound(hs, i) && Bound(hs, j) && Bound(hs, l) && Moves(was, hs, Pair(i, j, l), how, now, hs')
    ensures was.Has(hs[i].value) && was.Has(hs[j].value) && was.Has(hs[l].value)
    ensures hs' == hs && now == was.Pair(hs[i].value, hs[j].value, hs[l].value, was.Kin(hs[i].value))
  {
  }

  /** Inserting: the pair is the last one, and everything else is as before. */
  lemma PairInserts<T>(was: Doc<T>, hs: Handles<T>, i: nat, j: nat, l: nat, how: Choice<T>, now: Doc<T>, hs': Handles<T>)
    requires was.Valid() && Handled(was, hs) && Bound(hs, i) && Bound(hs, j) && Bound(hs, l) && Moves(was, hs, Pair(i, j, l), how, now, hs')
    ensures var c, k, v := hs[i].value, hs[j].value, hs[l].value;
      var (s, o) := was.layout[c];
      && hs' == hs && now.face == was.face && now.ties == was.ties && now.rank == was.rank && now.amount == was.amount
      && Filled(was, was.Kin(c), (Store(s.sequence, s.seqSize, s.pairs + [(k, v)]), o), now)
  {
    MovesPair(was, hs, i, j, l, how, now, hs');
    var c, k, v := hs[i].value, hs[j].value, hs[l].value;
    var (s, o) := was.layout[c];
    hide *;
    PairUnfolds(was, c, k, v, was.Kin(c));
    LinkMarks(was, k, c);
    LinkMarks(was.Link(k, c), v, c);
    PutIs(was.Link(k, c).Link(v, c), was.Kin(c), (Store(s.sequence, s.seqSize, s.pairs + [(k, v)]), o));
    SameFilled(was, was.Link(k, c).Link(v, c), was.Kin(c), (Store(s.sequence, s.seqSize, s.pairs + [(k, v)]), o), now);
  }

  lemma SameFilled<T>(was: Doc<T>, was': Doc<T>, xs: set<T>, h: Contents<T>, now: Doc<T>)
    requires was'.layout == was.layout && Filled(was', xs, h, now)
    ensures Filled(was, xs, h, now)
  {
  }

  // ---- looking up ----

  /** Whoever shares the data with `c` has this kind now, and no other old node has another face. */
  ghost predicate Turned<T>(was: Doc<T>, c: T, kind: Kind, now: Doc<T>)
    requires was.Has(c)
  {
    forall x | x in was.face :: x in now.face && now.face[x] == if x in was.Kin(c) then (kind, was.face[c].1) else was.face[x]
  }

  /** `n` is new, empty, and shares with no node. */
  ghost predicate Made<T>(was: Doc<T>, n: T, now: Doc<T>)
  {
    n !in was.layout && now.Has(n) && now.layout[n] == (Emptied(), Origin({}, true)) && now.ties[n] == Ties({n}, {n})
  }

  /** The old nodes share as before; those that share data with `c` have contents `h` now, the others their own. */
  ghost predicate Grown<T>(was: Doc<T>, c: T, h: Contents<T>, now: Doc<T>)
    requires was.Has(c)
  {
    forall x | x in was.layout :: x in now.layout && x in now.ties && x in was.ties && now.ties[x] == was.ties[x]
      && now.layout[x] == if x in was.Kin(c) then h else was.layout[x]
  }

  lemma FindIs<T>(d: Doc<T>, c: T, r: T, kind: Kind)
    requires d.Has(c) && d.Has(r)
    ensures var now := d.Find(c, r, kind, d.Kin(c)); SameShape(d, now) && Turned(d, c, kind, now)
  {
    LinkMarks(d, r, c);
    hide Doc<T>.Link;
  }

  /** Filling a container of a document that has just got a new node. */
  lemma FillIs<T>(d: Doc<T>, c: T, r: T, xs: set<T>, h: Contents<T>, f: Face)
    requires d.Has(c) && d.Has(r)
    ensures var now := d.Link(r, c).Put(xs, h).Paint(xs, f);
      && now.ties == d.ties && now.rank == d.rank && Filled(d, xs, h, now) && Painted(d, xs, f, now) && now.marks == d.Link(r, c).marks
      && now.layout.Keys == d.layout.Keys
  {
    LinkMarks(d, r, c);
    var linked := d.Link(r, c);
    PutIs(linked, xs, h);
    PaintIs(linked.Put(xs, h), xs, f);
    hide Doc<T>.Link, Doc<T>.Put, Doc<T>.Paint;
  }

  lemma KinIsOld<T>(d: Doc<T>, c: T, n: T)
    requires d.Valid() && d.Bonded() && d.Has(c) && n !in d.layout
    ensures n !in d.Kin(c)
  {
    assert d.Bond(c);
  }

  ghost predicate KeptAt<T>(d: Doc<T>, now: Doc<T>, x: T)
  {
    d.Has(x) && now.Has(x) && now.layout[x] == d.layout[x] && now.face[x] == d.face[x] && now.ties[x] == d.ties[x]
  }

  /** The old nodes are as they were. */
  ghost predicate OldKept<T>(d: Doc<T>, now: Doc<T>)
  {
    forall x | x in d.layout :: KeptAt(d, now, x)
  }

  /** A node that has just been made. */
  ghost predicate Blank<T>(d: Doc<T>, n: T)
  {
    d.Has(n) && d.layout[n] == (Emptied(), Origin({}, true)) && d.ties[n] == Ties({n}, {n})
  }

  lemma CreateIs<T>(d: Doc<T>, n: T)
    requires d.Valid() && n !in d.layout
    ensures OldKept(d, d.Create(n)) && Blank(d.Create(n), n) && d.Create(n).layout.Keys == d.layout.Keys + {n}
    ensures d.Create(n).Has(n) && d.Create(n).face[n] == (Undefined, "")
  {
    hide Doc<T>.Valid, KeptAt, Blank, Doc<T>.Create;
    FaceKeys(d);
    forall x | x in d.layout ensures KeptAt(d, d.Create(n), x) { CreateKeepsAt(d, n, x); }
    CreateIsBlank(d, n);
  }

  lemma CreateKeepsAt<T>(d: Doc<T>, n: T, x: T)
    requires d.Has(x) && n !in d.layout
    ensures KeptAt(d, d.Create(n), x)
  {
  }

  lemma CreateIsBlank<T>(d: Doc<T>, n: T)
    ensures Blank(d.Create(n), n) && d.Create(n).layout.Keys == d.layout.Keys + {n}
    ensures d.Create(n).Has(n) && d.Create(n).face[n] == (Undefined, "")
  {
  }

  lemma FaceKeys<T>(d: Doc<T>)
    requires d.Valid()
    ensures d.face.Keys == d.layout.Keys && d.ties.Keys == d.layout.Keys && d.rank.Keys == d.layout.Keys
    ensures forall n | n in d.layout :: d.Has(n)
  {
    CoherentFacts(d.marks, d.layout);
    hide Coherent;
  }

  /** A document that has grown by `n` and then had a container filled. */
  lemma FilledIs<T>(d: Doc<T>, c: T, h: Contents<T>, kind: Kind, made: Doc<T>, now: Doc<T>)
    requires d.Has(c) && d.face.Keys == d.layout.Keys && d.ties.Keys == d.layout.Keys && OldKept(d, made)
    requires now.ties == made.ties && Filled(made, d.Kin(c), h, now) && Painted(made, d.Kin(c), (kind, d.face[c].1), now)
    ensures Turned(d, c, kind, now) && Grown(d, c, h, now)
  {
  }

  lemma NewNode<T>(d: Doc<T>, xs: set<T>, h: Contents<T>, f: Face, made: Doc<T>, now: Doc<T>, n: T)
    requires n !in d.layout && n !in xs && Blank(made, n) && now.Has(n)
    requires now.ties == made.ties && Filled(made, xs, h, now) && Painted(made, xs, f, now)
    ensures Made(d, n, now) && now.face[n] == made.face[n]
  {
  }

  lemma ExtendUnfolds<T>(d: Doc<T>, c: T, r: T)
    requires d.Has(c) && r !in d.layout && !d.Has(r)
    ensures var made := d.Create(r);
      && made.Has(c) && made.Has(r)
      && d.Extend(c, r, d.Kin(c)) ==
           made.Link(r, c).Put(d.Kin(c), (Store(d.layout[c].0.sequence + [r], d.layout[c].0.seqSize, d.layout[c].0.pairs), d.layout[c].1))
             .Paint(d.Kin(c), (Sequence, d.face[c].1))
  {
    CreateKeepsOthers(d, r, c);
    hide Doc<T>.Link, Doc<T>.Put, Doc<T>.Paint, Doc<T>.Create;
  }

  lemma ExtendIs<T>(d: Doc<T>, c: T, r: T)
    requires d.Valid() && d.Bonded() && d.Has(c) && r !in d.layout && !d.Has(r)
    ensures var now := d.Extend(c, r, d.Kin(c));
      var (s, o) := d.layout[c];
      && Made(d, r, now) && Turned(d, c, Sequence, now) && Grown(d, c, (Store(s.sequence + [r], s.seqSize, s.pairs), o), now)
      && now.layout.Keys == d.layout.Keys + {r} && now.face[r] == (Undefined, "")
  {
    var (s, o) := d.layout[c];
    var xs, h, f := d.Kin(c), (Store(s.sequence + [r], s.seqSize, s.pairs), o), (Sequence, d.face[c].1);
    hide *;
    ExtendUnfolds(d, c, r);
    FaceKeys(d);
    KinIsOld(d, c, r);
    CreateKeeps(d, r);
    CreateIs(d, r);
    GrowsBy(d, c, r, d.Create(r), xs, h, Sequence);
  }

  /** The last new node is linked to the container that is filled. */
  lemma GrowsBy<T>(d: Doc<T>, c: T, r: T, made: Doc<T>, xs: set<T>, h: Contents<T>, kind: Kind)
    requires d.Has(c) && d.face.Keys == d.layout.Keys && d.ties.Keys == d.layout.Keys && xs == d.Kin(c)
    requires made.Valid() && made.Has(c) && OldKept(d, made) && r !in d.layout && r !in xs && Blank(made, r)
    ensures made.Has(r)
    ensures var now := made.Link(r, c).Put(xs, h).Paint(xs, (kind, d.face[c].1));
      && Made(d, r, now) && Turned(d, c, kind, now) && Grown(d, c, h, now) && made.marks.done <= now.marks.done
      && now.layout.Keys == made.layout.Keys
      && forall k | k !in d.layout && k !in xs && Blank(made, k) :: Made(d, k, now) && now.face[k] == made.face[k]
  {
    var f := (kind, d.face[c].1);
    assert made.Has(r);
    hide *;
    FillIs(made, c, r, xs, h, f);
    var now := made.Link(r, c).Put(xs, h).Paint(xs, f);
    FilledIs(d, c, h, kind, made, now);
    forall k | k !in d.layout && k !in xs && Blank(made, k)
      ensures Made(d, k, now) && now.face[k] == made.face[k]
    {
      BlankHas(made, k);
      FillHas(made, c, r, xs, h, f, k);
      NewNode(d, xs, h, f, made, now, k);
    }
    FillHas(made, c, r, xs, h, f, r);
  }

  lemma BlankHas<T>(d: Doc<T>, n: T)
    requires Blank(d, n)
    ensures d.Has(n)
  {
  }

  lemma AppendedIs<T>(s: Store<T>, r: T)
    ensures Appended(s, r) == Store(s.sequence + [r], s.seqSize, s.pairs)
  {
  }

  lemma FillHas<T>(d: Doc<T>, c: T, r: T, xs: set<T>, h: Contents<T>, f: Face, n: T)
    requires d.Valid() && d.Has(c) && d.Has(r) && d.Has(n)
    ensures d.Link(r, c).Put(xs, h).Paint(xs, f).Has(n) && d.marks.done <= d.Link(r, c).Put(xs, h).Paint(xs, f).marks.done
  {
    LinkHas(d, r, c, n);
    hide Doc<T>.Link, Doc<T>.Valid;
  }
  lemma KeyedIsMade<T>(d: Doc<T>, k: T, text: string)
    requires d.Valid() && k !in d.layout
    ensures var keyed := Keyed(d, k, text);
      && OldKept(d, keyed) && Blank(keyed, k) && keyed.Has(k) && keyed.Defined(k) && keyed.face[k] == (Scalar, text) && keyed.layout.Keys == d.layout.Keys + {k}
  {
    CreateIs(d, k);
    PaintIs(d.Create(k), {k}, (Scalar, text));
    hide Doc<T>.Create, Doc<T>.Paint, Doc<T>.Valid;
  }

  lemma BothMade<T>(d: Doc<T>, keyed: Doc<T>, made: Doc<T>, k: T)
    requires OldKept(d, keyed) && OldKept(keyed, made) && d.layout.Keys <= keyed.layout.Keys && Blank(keyed, k)
    ensures OldKept(d, made) && Blank(made, k) && made.face[k] == keyed.face[k]
  {
  }

  lemma EntryIsMade<T>(d: Doc<T>, k: T, v: T, text: string)
    requires d.Valid() && k !in d.layout && v !in d.layout && k != v
    ensures v !in Keyed(d, k, text).layout
    ensures var made := Keyed(d, k, text).Create(v);
      && made.Valid() && OldKept(d, made) && Blank(made, k) && Blank(made, v) && made.Has(k) && made.Has(v) && made.Defined(k)
      && made.face[k] == (Scalar, text) && made.face[v] == (Undefined, "") && made.layout.Keys == d.layout.Keys + {k, v}
  {
    var keyed := Keyed(d, k, text);
    hide *;
    KeyedKeeps(d, k, text);
    KeyedIsMade(d, k, text);
    assert v !in keyed.layout;
    CreateKeeps(keyed, v);
    CreateIs(keyed, v);
    BothMade(d, keyed, keyed.Create(v), k);
    CreateKeepsOthers(keyed, v, k);
    StaysDefined(keyed, keyed.Create(v), k);
  }

  lemma EnterIs<T>(d: Doc<T>, c: T, k: T, v: T, text: string)
    requires d.Valid() && d.Bonded() && d.Has(c) && k !in d.layout && v !in d.layout && k != v && !d.Has(k) && !d.Has(v)
    ensures var now := d.Enter(c, k, v, text, d.Kin(c));
      var (s, o) := d.layout[c];
      && Made(d, v, now) && Made(d, k, now) && now.Defined(k) && now.face[k] == (Scalar, text) && now.face[v] == (Undefined, "")
      && Turned(d, c, Map, now) && now.layout.Keys == d.layout.Keys + {k, v}
      && Grown(d, c, (Store(s.sequence, s.seqSize, s.pairs + [(k, v)]), o.(literals := o.literals + {k})), now)
  {
    var made, h, xs := Keyed(d, k, text).Create(v), LiteralPaired(d.layout[c], k, v), d.Kin(c);
    hide *;
    EnterUnfolds(d, c, k, v, text);
    FaceKeys(d);
    KinIsOld(d, c, k);
    KinIsOld(d, c, v);
    EntryIsMade(d, k, v, text);
    GrowsBy(d, c, v, made, xs, h, Map);
    PairedIs(d.layout[c], k, v);
    StaysDefined(made, d.Enter(c, k, v, text, d.Kin(c)), k);
  }

  lemma StaysDefined<T>(d: Doc<T>, now: Doc<T>, n: T)
    requires d.marks.done <= now.marks.done
    ensures d.Defined(n) ==> now.Defined(n)
  {
  }

  lemma PairedIs<T>(c: Contents<T>, k: T, v: T)
    ensures LiteralPaired(c, k, v) == (Store(c.0.sequence, c.0.seqSize, c.0.pairs + [(k, v)]), c.1.(literals := c.1.literals + {k}))
  {
  }

  lemma EnterUnfolds<T>(d: Doc<T>, c: T, k: T, v: T, text: string)
    requires d.Has(c) && k !in d.layout && v !in d.layout && k != v
    ensures v !in Keyed(d, k, text).layout
    ensures var made := Keyed(d, k, text).Create(v);
      && !d.Has(k) && !d.Has(v) && Keyed(d, k, text).Has(c) && made.Has(v) && made.Has(c)
      && d.Enter(c, k, v, text, d.Kin(c)) ==
           made.Link(v, c).Put(d.Kin(c), LiteralPaired(d.layout[c], k, v)).Paint(d.Kin(c), (Map, d.face[c].1))
  {
    assert v !in Keyed(d, k, text).layout && Keyed(d, k, text).Has(c);
    hide Doc<T>.Link, Doc<T>.Put, Doc<T>.Paint, Keyed;
  }

  /** Indexing gives the element with that number, or a new last one if the number is the next and the last
      element is defined; otherwise nothing, and nothing happens. */
  ghost predicate AtEffect<T>(was: Doc<T>, c: T, key: int, r: Option<T>, now: Doc<T>)
    requires was.Has(c)
  {
    var (s, o) := was.layout[c];
    && (r.Some? <==> was.face[c].0 !in {Map, Scalar} && 0 <= key <= |s.sequence| && (key > 0 ==> was.Defined(s.sequence[key - 1])))
    && (r.None? ==> now == was)
    && (r.Some? ==> Turned(was, c, Sequence, now))
    && (r.Some? && key < |s.sequence| ==> r.value == s.sequence[key] && SameShape(was, now))
    && (r.Some? && key == |s.sequence| ==>
          && Made(was, r.value, now) && now.face[r.value] == (Undefined, "") && now.layout.Keys == was.layout.Keys + {r.value}
          && Grown(was, c, (Store(s.sequence + [r.value], s.seqSize, s.pairs), o), now))
  }

  lemma AtGives<T>(was: Doc<T>, c: T, key: int, r: Option<T>, now: Doc<T>)
    requires was.Valid() && was.Bonded() && was.Has(c) && Indexed(was, c, key, r, now)
    ensures AtEffect(was, c, key, r, now)
  {
    assert c in was.layout && c in was.face;
    hide AtEffect, Doc<T>.Valid, Doc<T>.Bonded, Doc<T>.Extend, Doc<T>.Find, Doc<T>.Has, Doc<T>.Reaches;
    if !was.Reaches(c, key) {
      AtRefused(was, c, key);
    } else if key < |was.layout[c].0.sequence| {
      AtFound(was, c, key, r.value);
    } else {
      assert key == |was.layout[c].0.sequence| by { ReachesBound(was, c, key); }
      AtExtends(was, c, r.value);
    }
  }

  lemma ReachesBound<T>(d: Doc<T>, c: T, key: int)
    requires d.Has(c) && d.Reaches(c, key)
    ensures key <= |d.layout[c].0.sequence|
  {
  }

  lemma AtRefused<T>(was: Doc<T>, c: T, key: int)
    requires was.Has(c) && !was.Reaches(c, key)
    ensures AtEffect(was, c, key, None, was)
  {
  }

  lemma AtFound<T>(was: Doc<T>, c: T, key: int, n: T)
    requires was.Has(c) && was.Reaches(c, key) && key < |was.layout[c].0.sequence| && n == was.layout[c].0.sequence[key] && was.Has(n)
    ensures AtEffect(was, c, key, Some(n), was.Find(c, n, Sequence, was.Kin(c)))
  {
    FindIs(was, c, n, Sequence);
    hide Doc<T>.Find, Made, Turned, Grown;
  }

  lemma AtExtends<T>(was: Doc<T>, c: T, n: T)
    requires was.Valid() && was.Bonded() && was.Has(c) && was.Reaches(c, |was.layout[c].0.sequence|) && n !in was.layout && !was.Has(n)
    ensures AtEffect(was, c, |was.layout[c].0.sequence|, Some(n), was.Extend(c, n, was.Kin(c)))
  {
    ExtendIs(was, c, n);
    hide Doc<T>.Valid, Doc<T>.Bonded, Doc<T>.Extend, Made, Turned, Grown;
  }

  /** Looking a text up on a node that is neither scalar nor sequence gives the value of the first pair whose key
      is that text, or a new value in a new last pair with such a key, which is defined at once. */
  ghost predicate KeyEffect<T>(was: Doc<T>, c: T, text: string, at: nat, k: T, r: Option<T>, now: Doc<T>)
    requires was.Has(c)
  {
    var (s, o) := was.layout[c];
    && (r.Some? <==> was.face[c].0 !in {Scalar, Sequence})
    && (r.None? ==> now == was)
    && (r.Some? ==>
          at <= |s.pairs| && (forall a | 0 <= a < at :: !was.Spells(s.pairs[a].0, text)) && Turned(was, c, Map, now))
    && (r.Some? && at < |s.pairs| ==> was.Spells(s.pairs[at].0, text) && r.value == s.pairs[at].1 && SameShape(was, now))
    && (r.Some? && at == |s.pairs| ==>
          && k != r.value && Made(was, r.value, now) && Made(was, k, now) && now.layout.Keys == was.layout.Keys + {k, r.value}
          && now.face[r.value] == (Undefined, "") && now.face[k] == (Scalar, text) && now.Defined(k)
          && Grown(was, c, (Store(s.sequence, s.seqSize, s.pairs + [(k, r.value)]), o.(literals := o.literals + {k})), now))
  }

  lemma KeyGives<T>(was: Doc<T>, c: T, text: string, at: nat, k: T, r: Option<T>, now: Doc<T>)
    requires was.Valid() && was.Bonded() && was.Has(c) && LookedUp(was, c, text, at, k, r, now)
    ensures KeyEffect(was, c, text, at, k, r, now)
  {
    assert c in was.layout && c in was.face;
    hide KeyEffect, Doc<T>.Valid, Doc<T>.Bonded, Doc<T>.Enter, Doc<T>.Find, Doc<T>.FirstKey, Doc<T>.Has;
    if r.None? {
      KeyRefused(was, c, text, at, k);
    } else if at < |was.layout[c].0.pairs| {
      KeyFound(was, c, text, at, k, r.value);
    } else {
      assert at == |was.layout[c].0.pairs| by { FirstKeyBound(was, c, text, at); }
      KeyEnters(was, c, text, k, r.value);
    }
  }

  lemma FirstKeyBound<T>(d: Doc<T>, c: T, text: string, at: nat)
    requires d.Has(c) && d.FirstKey(c, text, at)
    ensures at <= |d.layout[c].0.pairs|
  {
  }

  lemma KeyRefused<T>(was: Doc<T>, c: T, text: string, at: nat, k: T)
    requires was.Has(c) && was.face[c].0 in {Scalar, Sequence}
    ensures KeyEffect(was, c, text, at, k, None, was)
  {
  }

  lemma KeyFound<T>(was: Doc<T>, c: T, text: string, at: nat, k: T, n: T)
    requires was.Has(c) && was.FirstKey(c, text, at) && was.face[c].0 !in {Scalar, Sequence}
    requires at < |was.layout[c].0.pairs| && n == was.layout[c].0.pairs[at].1 && was.Has(n)
    ensures KeyEffect(was, c, text, at, k, Some(n), was.Find(c, n, Map, was.Kin(c)))
  {
    FindIs(was, c, n, Map);
    hide Doc<T>.Find, Doc<T>.Spells, Made, Turned, Grown;
  }

  lemma KeyEnters<T>(was: Doc<T>, c: T, text: string, k: T, v: T)
    requires was.Valid() && was.Bonded() && was.Has(c) && k !in was.layout && v !in was.layout && k != v && !was.Has(k) && !was.Has(v)
    requires was.FirstKey(c, text, |was.layout[c].0.pairs|) && was.face[c].0 !in {Scalar, Sequence}
    ensures KeyEffect(was, c, text, |was.layout[c].0.pairs|, k, Some(v), was.Enter(c, k, v, text, was.Kin(c)))
  {
    EnterIs(was, c, k, v, text);
    hide Doc<T>.Valid, Doc<T>.Bonded, Doc<T>.Enter, Doc<T>.Spells, Made, Turned, Grown;
  }

  // ---- removing ----

  /** `now` is `was` without the item at `at`; those behind it have moved up. */
  ghost predicate OneOut<I>(was: seq<I>, at: int, now: seq<I>)
  {
    && 0 <= at < |was| && |now| == |was| - 1
    && (forall a | 0 <= a < at :: now[a] == was[a])
    && (forall a | at <= a < |now| :: now[a] == was[a + 1])
  }

  /** Removing an element: it goes, those behind it move up, and the counter goes with it. */
  lemma EraseRemoves<T>(was: Doc<T>, hs: Handles<T>, i: nat, key: int, how: Choice<T>, now: Doc<T>, hs': Handles<T>)
    requires Handled(was, hs) && Bound(hs, i) && Moves(was, hs, Erase(i, key), how, now, hs')
    ensures var c := hs[i].value;
      var (s, o) := was.layout[c];
      && hs' == hs && now == was.(layout := now.layout) && (!(0 <= key < |s.sequence|) ==> now == was)
      && forall x | x in was.layout :: x in now.layout &&
           if x in was.Kin(c) && 0 <= key < |s.sequence| then
             && OneOut(s.sequence, key, now.layout[x].0.sequence) && now.layout[x].0.pairs == s.pairs && now.layout[x].1 == o
             && now.layout[x].0.seqSize == if key < s.seqSize then s.seqSize - 1 else s.seqSize
           else now.layout[x] == was.layout[x]
  {
  }

  /** Removing a key: on a map the first pair with it goes, and those behind it move up. */
  lemma DropRemoves<T>(was: Doc<T>, hs: Handles<T>, i: nat, text: string, how: Choice<T>, now: Doc<T>, hs': Handles<T>)
    requires Handled(was, hs) && Bound(hs, i) && Moves(was, hs, Drop(i, text), how, now, hs')
    ensures var c := hs[i].value;
      var (s, o) := was.layout[c];
      && hs' == hs && now == was.(layout := now.layout) && (was.face[c].0 != Map ==> now == was)
      && (was.face[c].0 == Map ==>
            && how.at <= |s.pairs| && (forall a | 0 <= a < how.at :: !was.Spells(s.pairs[a].0, text))
            && (how.at < |s.pairs| ==> was.Spells(s.pairs[how.at].0, text)))
      && forall x | x in was.layout :: x in now.layout &&
           if x in was.Kin(c) && was.face[c].0 == Map && how.at < |s.pairs| then
             && OneOut(s.pairs, how.at, now.layout[x].0.pairs) && now.layout[x].0.sequence == s.sequence
             && now.layout[x].0.seqSize == s.seqSize && now.layout[x].1 == o
           else now.layout[x] == was.layout[x] || (x in was.Kin(c) && now.layout[x] == was.layout[c])
  {
    hide Doc<T>.Spells;
  }

  // ---- scalars are defined ----

  /** A node with a scalar is defined. */
  ghost predicate Texts<T>(d: Doc<T>)
  {
    forall n | n in d.face && d.face[n].0 == Scalar :: d.Defined(n)
  }

  lemma TextsStay<T>(was: Doc<T>, now: Doc<T>, xs: set<T>, f: Face)
    requires Texts(was) && Painted(was, xs, f, now) && was.marks.done <= now.marks.done && (f.0 == Scalar ==> xs <= now.marks.done)
    ensures Texts(now)
  {
  }

  /** The same when a look-up has turned a container into a map or a sequence and may have made nodes. */
  lemma TextsTurned<T>(was: Doc<T>, c: T, kind: Kind, now: Doc<T>, made: set<T>)
    requires was.Valid() && now.Valid() && was.Has(c) && Texts(was) && Turned(was, c, kind, now) && kind != Scalar
    requires was.marks.done <= now.marks.done && now.layout.Keys == was.layout.Keys + made
    requires forall n | n in made && n in now.face :: now.face[n].0 == Scalar ==> now.Defined(n)
    ensures Texts(now)
  {
    hide Coherent;
  }

  lemma KinIsMarked<T>(d: Doc<T>, n: T)
    requires d.Bonded() && d.Has(n)
    ensures d.Kin(n) <= d.Mark(n).marks.done && d.ties[n].twins <= d.Mark(n).marks.done
  {
    assert d.Bond(n);
    MarkMarks(d.marks, n);
    hide Marks.Mark;
  }

  lemma SparesDone<T>(d: Doc<T>, put: set<T>, now: Doc<T>)
    requires Spares(d, put, now)
    ensures d.marks.done <= now.marks.done
  {
  }

  lemma AtTexts<T>(was: Doc<T>, c: T, key: int, r: Option<T>, now: Doc<T>)
    requires was.Valid() && now.Valid() && Texts(was) && was.Has(c) && AtEffect(was, c, key, r, now) && was.marks.done <= now.marks.done
    ensures Texts(now)
  {
    hide Doc<T>.Valid, Texts, Turned, Grown, Made;
    if r.Some? {
      TextsTurned(was, c, Sequence, now, if key < |was.layout[c].0.sequence| then {} else {r.value});
    }
  }

  lemma KeyTexts<T>(was: Doc<T>, c: T, text: string, at: nat, k: T, r: Option<T>, now: Doc<T>)
    requires was.Valid() && now.Valid() && Texts(was) && was.Has(c) && KeyEffect(was, c, text, at, k, r, now) && was.marks.done <= now.marks.done
    ensures Texts(now)
  {
    hide Doc<T>.Valid, Texts, Turned, Grown, Made, Doc<T>.Spells;
    if r.Some? {
      TextsTurned(was, c, Map, now, if at < |was.layout[c].0.pairs| then {} else {k, r.value});
    }
  }

  lemma IndexKeepsTexts<T>(was: Doc<T>, c: T, key: int, r: Option<T>, now: Doc<T>)
    requires was.Valid() && was.Bonded() && Texts(was) && now.Valid() && was.Has(c) && Indexed(was, c, key, r, now)
    ensures Texts(now)
  {
    hide *;
    AtGives(was, c, key, r, now);
    IndexSpares(was, c, key, r, now);
    SparesDone(was, {}, now);
    AtTexts(was, c, key, r, now);
  }

  lemma LookupKeepsTexts<T>(was: Doc<T>, c: T, text: string, at: nat, k: T, r: Option<T>, now: Doc<T>)
    requires was.Valid() && was.Bonded() && Texts(was) && now.Valid() && was.Has(c) && LookedUp(was, c, text, at, k, r, now)
    ensures Texts(now)
  {
    hide *;
    KeyGives(was, c, text, at, k, r, now);
    LookupSpares(was, c, text, at, k, r, now);
    SparesDone(was, {}, now);
    KeyTexts(was, c, text, at, k, r, now);
  }

  /** The operation gives some nodes another face. */
  ghost predicate Writes<T>(was: Doc<T>, hs: Handles<T>, op: Op)
  {
    match op
    case Nullify(n) => Bound(hs, n)
    case Assign(n, _) => Bound(hs, n)
    case ShareRef(n, rhs) => Bound(hs, n) && Bound(hs, rhs) && was.Defined(hs[rhs].value)
    case ShareData(n, rhs) => Bound(hs, n) && Bound(hs, rhs) && was.Defined(hs[rhs].value)
    case _ => false
  }

  predicate Looks<T>(hs: Handles<T>, op: Op)
  {
    (op.At? || op.Key?) && Bound(hs, op.c)
  }

  predicate Inserts<T>(hs: Handles<T>, op: Op)
  {
    op.Pair? && Bound(hs, op.c) && Bound(hs, op.k) && Bound(hs, op.v)
  }

  lemma FacesKept<T>(was: Doc<T>, hs: Handles<T>, op: Op, how: Choice<T>, now: Doc<T>, hs': Handles<T>)
    requires was.Valid() && Handled(was, hs) && Moves(was, hs, op, how, now, hs')
    requires !Writes(was, hs, op) && !Looks(hs, op) && !op.Create? && !Inserts(hs, op)
    ensures now.face == was.face
  {
    hide Doc<T>.Valid, Marks.Link, Doc<T>.Clash, Doc<T>.Has;
  }

  lemma WritesKeepTexts<T>(was: Doc<T>, hs: Handles<T>, op: Op, how: Choice<T>, now: Doc<T>, hs': Handles<T>)
    requires was.Bonded() && Texts(was) && Handled(was, hs) && Moves(was, hs, op, how, now, hs') && was.marks.done <= now.marks.done
    requires Writes(was, hs, op)
    ensures Texts(now)
  {
    assert was.Has(hs[op.n].value);
    var n := hs[op.n].value;
    MarkMarks(was.marks, n);
    KinIsMarked(was, n);
    match op
    case Nullify(i) =>
      NullifyWrites(was, hs, i, how, now, hs');
      hide *;
      TextsStay(was, now, was.Kin(n), (Null, was.face[n].1));
    case Assign(i, text) =>
      AssignWrites(was, hs, i, text, how, now, hs');
      hide *;
      TextsStay(was, now, was.Kin(n), (Scalar, text));
    case ShareRef(i, j) =>
      assert was.Has(hs[j].value);
      ShareRefTakes(was, hs, i, j, how, now, hs');
      hide *;
      TextsStay(was, now, {n}, was.face[hs[j].value]);
    case ShareData(i, j) =>
      assert was.Has(hs[j].value);
      ShareDataTakes(was, hs, i, j, how, now, hs');
      hide *;
      TextsStay(was, now, was.ties[n].twins, was.face[hs[j].value]);
  }

  /** No operation gives a scalar to an undefined node. */
  lemma MovesKeepTexts<T>(was: Doc<T>, hs: Handles<T>, op: Op, how: Choice<T>, now: Doc<T>, hs': Handles<T>)
    requires was.Valid() && was.Bonded() && Texts(was) && now.Valid() && Handled(was, hs) && Moves(was, hs, op, how, now, hs')
    ensures Texts(now)
  {
    MovesIndexed(was, hs, op, how, now, hs');
    MovesSpares(was, hs, op, how, now, hs');
    SparesDone(was, PutBy(hs, op), now);
    hide Moves, Spares, NewVariable, Handled, Doc<T>.Valid, Doc<T>.Bonded, Indexed, LookedUp, Texts, Created, Writes;
    if Writes(was, hs, op) {
      WritesKeepTexts(was, hs, op, how, now, hs');
    } else if op.Create? {
      TextsCreated(was, hs'[|hs|].value, now);
    } else if Looks(hs, op) {
      if op.At? {
        IndexKeepsTexts(was, hs[op.c].value, op.key, hs'[|hs|], now);
      } else {
        LookupKeepsTexts(was, hs[op.c].value, op.text, how.at, if how.key.Some? then how.key.value else hs[op.c].value, hs'[|hs|], now);
      }
    } else if Inserts(hs, op) {
      PairInserts(was, hs, op.c, op.k, op.v, how, now, hs');
      TextsSame(was, now);
    } else {
      TextsKept(was, hs, op, how, now, hs');
    }
  }

  lemma TextsKept<T>(was: Doc<T>, hs: Handles<T>, op: Op, how: Choice<T>, now: Doc<T>, hs': Handles<T>)
    requires was.Valid() && Texts(was) && Handled(was, hs) && Moves(was, hs, op, how, now, hs') && was.marks.done <= now.marks.done
    requires !Writes(was, hs, op) && !Looks(hs, op) && !op.Create? && !Inserts(hs, op)
    ensures Texts(now)
  {
    FacesKept(was, hs, op, how, now, hs');
    hide Moves, Handled, Doc<T>.Valid;
    TextsSame(was, now);
  }

  /** What a look-up or a creation amounts to. */
  lemma MovesIndexed<T>(was: Doc<T>, hs: Handles<T>, op: Op, how: Choice<T>, now: Doc<T>, hs': Handles<T>)
    requires Handled(was, hs) && Moves(was, hs, op, how, now, hs')
    ensures op.At? && Bound(hs, op.c) ==>
      was.Has(hs[op.c].value) && |hs'| == |hs| + 1 && hs'[..|hs|] == hs && Indexed(was, hs[op.c].value, op.key, hs'[|hs|], now)
    ensures op.Key? && Bound(hs, op.c) ==>
      && was.Has(hs[op.c].value) && |hs'| == |hs| + 1 && hs'[..|hs|] == hs
      && LookedUp(was, hs[op.c].value, op.text, how.at, if how.key.Some? then how.key.value else hs[op.c].value, hs'[|hs|], now)
    ensures op.Create? ==> |hs'| == |hs| + 1 && hs'[..|hs|] == hs && hs'[|hs|].Some? && Created(was, hs'[|hs|].value, now)
  {
    hide Indexed, LookedUp, Created;
  }

  lemma TextsSame<T>(was: Doc<T>, now: Doc<T>)
    requires Texts(was) && now.face == was.face && was.marks.done <= now.marks.done
    ensures Texts(now)
  {
  }

  lemma TextsCreated<T>(was: Doc<T>, n: T, now: Doc<T>)
    requires Texts(was) && Created(was, n, now)
    ensures Texts(now)
  {
  }

  /** In no run does an undefined node have a scalar, if none had one at the start. */
  lemma {:induction false} TextsInHistory<T>(trace: seq<Moment<T>>, hows: seq<Choice<T>>, ops: seq<Op>, i: nat)
    requires History(trace, hows, ops) && i <= |hows| && Texts(trace[0].doc)
    ensures Texts(trace[i].doc)
  {
    hide Texts, Moves, Doc<T>.Valid, Doc<T>.Bonded, Harmless;
    if i > 0 {
      TextsInHistory(trace, hows, ops, i - 1);
      MovesKeepTexts(trace[i - 1].doc, trace[i - 1].hs, ops[i - 1], hows[i - 1], trace[i].doc, trace[i].hs);
    }
  }

  // ---- looking up twice ----

  lemma KeysAreNodes<T>(d: Doc<T>, c: T)
    requires d.Valid() && d.Has(c)
    ensures forall a | 0 <= a < |d.layout[c].0.pairs| :: d.Has(d.layout[c].0.pairs[a].0) && d.Has(d.layout[c].0.pairs[a].1)
    ensures forall a | 0 <= a < |d.layout[c].0.sequence| :: d.Has(d.layout[c].0.sequence[a])
  {
    var (s, o) := d.layout[c];
    assert c in d.layout && Coherent(d.marks, d.layout);
    hide *;
    CoherentFacts(d.marks, d.layout);
    FaceKeys(d);
    forall a | 0 <= a < |s.pairs| ensures d.Has(s.pairs[a].0) && d.Has(s.pairs[a].1) {
      assert s.pairs[a] in s.pairs;
    }
    forall a | 0 <= a < |s.sequence| ensures d.Has(s.sequence[a]) {
      assert s.sequence[a] in s.sequence;
    }
  }

  /** A look-up does not change what the keys of the container spell. */
  lemma StillSpells<T>(was: Doc<T>, c: T, now: Doc<T>, k: T, text: string)
    requires was.Bonded() && Texts(was) && was.Has(c) && was.Has(k) && now.Has(k) && was.face[c].0 != Scalar
    requires Turned(was, c, Map, now) && was.marks.done <= now.marks.done
    ensures now.Spells(k, text) <==> was.Spells(k, text)
  {
    assert was.Bond(c);
  }

  /** A key that is looked up twice in a row gives the same node both times. */
  lemma KeyAgain<T>(was: Doc<T>, c: T, text: string, at: nat, k: T, r: Option<T>, mid: Doc<T>, at': nat, k': T, r': Option<T>, now: Doc<T>)
    requires was.Valid() && was.Bonded() && Texts(was) && mid.Valid() && mid.Bonded() && was.Has(c) && mid.Has(c)
    requires LookedUp(was, c, text, at, k, r, mid) && LookedUp(mid, c, text, at', k', r', now)
    ensures r' == r
  {
    KinHasSelf(was, c);
    KeyGives(was, c, text, at, k, r, mid);
    KeyGives(mid, c, text, at', k', r', now);
    LookupSpares(was, c, text, at, k, r, mid);
    SparesDone(was, {}, mid);
    hide LookedUp, Doc<T>.Valid, Doc<T>.Bonded, Texts, Spares, NewVariable;
    if r.Some? { SecondLook(was, c, text, at, k, r.value, mid, at', k', r', now); }
  }

  lemma SecondLook<T>(was: Doc<T>, c: T, text: string, at: nat, k: T, n: T, mid: Doc<T>, at': nat, k': T, r': Option<T>, now: Doc<T>)
    requires was.Valid() && was.Bonded() && Texts(was) && mid.Valid() && was.Has(c) && mid.Has(c) && c in was.Kin(c)
    requires was.marks.done <= mid.marks.done
    requires KeyEffect(was, c, text, at, k, Some(n), mid) && KeyEffect(mid, c, text, at', k', r', now)
    ensures r' == Some(n)
  {
    PairsAfter(was, c, text, at, k, n, mid);
    KeysStaySpelled(was, c, text, at, k, n, mid);
    hide Doc<T>.Valid, Doc<T>.Bonded, Texts, Doc<T>.Spells, Turned, Grown, SameShape, Made;
    assert at' == at;
  }

  /** The pairs and the kind of a container after a look-up. */
  lemma PairsAfter<T>(was: Doc<T>, c: T, text: string, at: nat, k: T, n: T, mid: Doc<T>)
    requires was.Has(c) && mid.Has(c) && c in was.Kin(c) && KeyEffect(was, c, text, at, k, Some(n), mid)
    ensures mid.face[c].0 == Map
    ensures mid.layout[c].0.pairs == was.layout[c].0.pairs + if at < |was.layout[c].0.pairs| then [] else [(k, n)]
  {
    hide Doc<T>.Spells, Made;
  }

  lemma KeysStaySpelled<T>(was: Doc<T>, c: T, text: string, at: nat, k: T, n: T, mid: Doc<T>)
    requires was.Valid() && was.Bonded() && Texts(was) && mid.Valid() && was.Has(c) && mid.Has(c) && c in was.Kin(c)
    requires was.marks.done <= mid.marks.done && KeyEffect(was, c, text, at, k, Some(n), mid)
    ensures at <= |was.layout[c].0.pairs| && at < |mid.layout[c].0.pairs|
    ensures forall a | 0 <= a < at :: !mid.Spells(mid.layout[c].0.pairs[a].0, text)
    ensures mid.Spells(mid.layout[c].0.pairs[at].0, text) && mid.layout[c].0.pairs[at].1 == n
  {
    PairsAfter(was, c, text, at, k, n, mid);
    var pairs, pairs' := was.layout[c].0.pairs, mid.layout[c].0.pairs;
    KeysAreNodes(was, c);
    KeysAreNodes(mid, c);
    hide Doc<T>.Valid, Doc<T>.Bonded, Texts, Doc<T>.Spells, Doc<T>.Has, Turned, Grown, SameShape, Made;
    forall a | 0 <= a < |pairs| ensures mid.Spells(pairs'[a].0, text) <==> was.Spells(pairs[a].0, text) {
      assert pairs'[a] == pairs[a];
      StillSpells(was, c, mid, pairs[a].0, text);
    }
    if at == |pairs| {
      assert pairs'[at] == (k, n);
      SpellsItself(mid, k, text);
    }
  }

  lemma KinHasSelf<T>(d: Doc<T>, c: T)
    requires d.Bonded() && d.Has(c)
    ensures c in d.Kin(c)
  {
    assert d.Bond(c);
  }

  lemma SpellsItself<T>(d: Doc<T>, k: T, text: string)
    requires d.Has(k) && d.face[k] == (Scalar, text) && d.Defined(k)
    ensures d.Spells(k, text)
  {
  }
}
