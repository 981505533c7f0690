/** A document as a value: the nodes with their definedness, contents, scalars and ranks, what each operation
    makes of it, and which operations are harmless. */
module Documents {
  import opened Types
  import opened Definedness

  datatype Kind = Undefined | Null | Scalar | Sequence | Map

  /** The kind of a node and its scalar. */
  type Face = (Kind, string)

  /** The nodes that share data with a node, and those that share its reference, itself included. */
  datatype Ties<T> = Ties(kin: set<T>, twins: set<T>)

  /** The group of `c` after the nodes in `moved` have joined the group `target`. */
  function Joined<T>(group: set<T>, c: T, moved: set<T>, target: set<T>): set<T>
  {
    if c in moved + target then target + moved else group - moved
  }

  /** `n` has taken over the reference of `rhs`. */
  ghost function RefJoined<T>(ties: map<T, Ties<T>>, n: T, rhs: T): map<T, Ties<T>>
    requires rhs in ties
  {
    map c | c in ties :: Ties(Joined(ties[c].kin, c, {n}, ties[rhs].kin), Joined(ties[c].twins, c, {n}, ties[rhs].twins))
  }

  /** The reference of `n` has taken over the data of `rhs`. */
  ghost function DataJoined<T>(ties: map<T, Ties<T>>, n: T, rhs: T): map<T, Ties<T>>
    requires n in ties && rhs in ties
  {
    map c | c in ties :: Ties(Joined(ties[c].kin, c, ties[n].twins, ties[rhs].kin), ties[c].twins)
  }

  /** Nodes are ranked by when they last had an element appended; `amount` is the next rank. */
  datatype Doc<T> = Doc(
    marks: Marks<T>, layout: map<T, Contents<T>>, face: map<T, Face>, rank: map<T, nat>, ties: map<T, Ties<T>>, amount: nat)
  {
    ghost predicate Valid()
    {
      Coherent(marks, layout) && face.Keys == layout.Keys && rank.Keys == layout.Keys && ties.Keys == layout.Keys
    }

    /** Nodes share data in groups, and references in groups within these; those that share data look alike, and
        an undefined node shares with none. */
    ghost predicate Bonded()
    {
      && ties.Keys == layout.Keys && face.Keys == layout.Keys
      && forall n | n in ties :: Bond(n)
    }

    ghost predicate Bond(n: T)
      requires n in ties && ties.Keys == layout.Keys && face.Keys == layout.Keys
    {
      var (kin, twins) := (ties[n].kin, ties[n].twins);
      && n in twins && twins <= kin && Alike(marks, layout, n, kin)
      && (forall m | m in kin :: ties[m].kin == kin && face[m] == face[n])
      && (forall m | m in twins :: ties[m].twins == twins)
    }

    ghost predicate Has(n: T)
    {
      n in layout && n in face && n in rank && n in ties && n in marks.deps
    }

    ghost function Kin(n: T): set<T>
      requires Has(n)
    {
      ties[n].kin
    }

    predicate Defined(n: T)
    {
      n in marks.done
    }

    /** Some container recorded in `m` has the rank of `c`. */
    ghost predicate Clash(m: T, c: T)
      requires Has(m) && Has(c)
    {
      exists d :: d in marks.deps[m] && d in rank && rank[d] == rank[c]
    }

    /** The container stays known to its new child. */
    ghost predicate Records(m: T, c: T)
      requires Has(m) && Has(c)
    {
      Defined(m) || Defined(c) || c in marks.deps[m] || !Clash(m, c)
    }

    ghost function Link(m: T, c: T): Doc<T>
      requires Has(m) && Has(c)
    {
      this.(marks := marks.Link(m, c, Clash(m, c)))
    }

    ghost function Mark(n: T): Doc<T>
    {
      this.(marks := marks.Mark(n))
    }

    /** The nodes in `xs` share data: they get contents or a face together. */
    ghost function Put(xs: set<T>, h: Contents<T>): Doc<T>
    {
      this.(layout := Shared(layout, xs, h))
    }

    ghost function Paint(xs: set<T>, f: Face): Doc<T>
    {
      this.(face := Shared(face, xs, f))
    }

    ghost function Create(n: T): Doc<T>
    {
      Doc(marks.(deps := marks.deps[n := {}]), layout[n := (Emptied(), Origin({}, true))], face[n := (Undefined, "")],
          rank[n := 0], ties[n := Ties({n}, {n})], amount)
    }

    ghost function Nullify(n: T, xs: set<T>): Doc<T>
      requires Has(n)
    {
      Mark(n).Paint(xs, (Null, face[n].1))
    }

    ghost function Assign(n: T, text: string, xs: set<T>): Doc<T>
    {
      Mark(n).Paint(xs, (Scalar, text))
    }

    ghost function Share(n: T, rhs: T, xs: set<T>): Doc<T>
      requires Has(rhs)
    {
      Mark(n).Put(xs, layout[rhs]).Paint(xs, face[rhs])
    }

    ghost function ShareRef(n: T, rhs: T): Doc<T>
      requires Has(n) && Has(rhs)
    {
      Share(n, rhs, {n}).(ties := RefJoined(ties, n, rhs))
    }

    ghost function ShareData(n: T, rhs: T): Doc<T>
      requires Has(n) && Has(rhs)
    {
      Share(n, rhs, ties[n].twins).(ties := DataJoined(ties, n, rhs))
    }

    ghost function Push(c: T, m: T, xs: set<T>): Doc<T>
      requires Has(c) && Has(m)
    {
      Link(m, c).Put(xs, (Appended(layout[c].0, m), layout[c].1.(indexed := false))).(rank := rank[c := amount], amount := amount + 1)
    }

    ghost function Pair(c: T, k: T, v: T, xs: set<T>): Doc<T>
      requires Has(c) && Has(k) && Has(v)
    {
      var next := Link(k, c);
      if next.Has(v) && next.Has(c) then next.Link(v, c).Put(xs, PlainPaired(layout[c], k, v)) else this
    }

    /** A new last element, made by indexing. */
    ghost function Extend(c: T, r: T, xs: set<T>): Doc<T>
      requires Has(c) && !Has(r)
    {
      Create(r).Link(r, c).Put(xs, (Appended(layout[c].0, r), layout[c].1)).Paint(xs, (Sequence, face[c].1))
    }

    /** A child that is found again. */
    ghost function Find(c: T, r: T, kind: Kind, xs: set<T>): Doc<T>
      requires Has(c) && Has(r)
    {
      Link(r, c).Paint(xs, (kind, face[c].1))
    }

    /** A new value under a new literal key, which is defined at once. */
    ghost function Enter(c: T, k: T, v: T, text: string, xs: set<T>): Doc<T>
      requires Has(c) && !Has(k) && !Has(v) && k != v
    {
      Keyed(this, k, text).Create(v).Link(v, c).Put(xs, LiteralPaired(layout[c], k, v)).Paint(xs, (Map, face[c].1))
    }

    ghost function Erase(c: T, key: nat, xs: set<T>): Doc<T>
      requires Has(c)
    {
      Put(xs, (Erased(layout[c].0, key), layout[c].1))
    }

    ghost function Drop(c: T, at: nat, xs: set<T>): Doc<T>
      requires Has(c)
    {
      Put(xs, (Unpaired(layout[c].0, at), layout[c].1))
    }

    ghost function Recount(c: T, k: nat, xs: set<T>): Doc<T>
      requires Has(c)
    {
      Put(xs, (layout[c].0.(seqSize := k), layout[c].1))
    }

    /** Whether indexing the sequence of `c` with `key` finds or makes an element. */
    ghost predicate Reaches(c: T, key: int)
      requires Has(c)
    {
      var q := layout[c].0.sequence;
      face[c].0 !in {Map, Scalar} && 0 <= key <= |q| && (key > 0 ==> Defined(q[key - 1]))
    }

    ghost predicate Spells(k: T, text: string)
    {
      Defined(k) && k in face && face[k] == (Scalar, text)
    }

    /** `at` is the position of the first pair of `c` with the key `text`, or the number of pairs. */
    ghost predicate FirstKey(c: T, text: string, at: nat)
      requires Has(c)
    {
      var pairs := layout[c].0.pairs;
      at <= |pairs| && (at < |pairs| ==> Spells(pairs[at].0, text)) && forall i :: 0 <= i < at ==> !Spells(pairs[i].0, text)
    }

    ghost predicate Countable(c: T, k: nat)
      requires Has(c)
    {
      var q := layout[c].0.sequence;
      k <= |q| && forall i :: 0 <= i < k ==> Defined(q[i])
    }

    /** The nodes in `xs` have the contents of `c`, and an undefined `c` is the only one. */
    ghost predicate Family(c: T, xs: set<T>)
    {
      Alike(marks, layout, c, xs)
    }
  }

  // ---- what each operation does to the invariant ----

  lemma NothingIsValid<T>()
    ensures Doc<T>.Doc(Marks(map[], {}), map[], map[], map[], map[], 0).Valid()
  {
    NothingIsCoherent<T>();
    hide Coherent;
  }

  lemma CreateKeeps<T>(d: Doc<T>, n: T)
    requires d.Valid() && n !in d.layout
    ensures d.Create(n).Valid()
  {
    hide Coherent;
    CreateCoherent(d.marks, d.layout, n);
  }

  lemma AssignKeeps<T>(d: Doc<T>, n: T, text: string, xs: set<T>)
    requires d.Valid() && n in d.layout
    ensures d.Assign(n, text, xs).Valid() && d.Assign(n, text, xs).Defined(n)
  {
    hide Coherent, Marks.Mark;
    MarkCoherent(d.marks, d.layout, n);
  }

  lemma NullifyKeeps<T>(d: Doc<T>, n: T, xs: set<T>)
    requires d.Valid() && d.Has(n)
    ensures d.Nullify(n, xs).Valid() && d.Nullify(n, xs).Defined(n)
  {
    hide Coherent, Marks.Mark;
    MarkCoherent(d.marks, d.layout, n);
  }

  lemma ShareKeeps<T>(d: Doc<T>, n: T, rhs: T, xs: set<T>)
    requires d.Valid() && n in d.layout && d.Has(rhs) && d.Defined(rhs) && xs <= d.Mark(n).marks.done
    ensures d.Share(n, rhs, xs).Valid()
  {
    hide Coherent, Marks.Mark, Shared;
    MarkCoherent(d.marks, d.layout, n);
    ShareCoherent(d.Mark(n).marks, d.layout, xs, rhs);
    assert Shared(d.layout, xs, d.layout[rhs]).Keys == d.layout.Keys by { SharedKeys(d.layout, xs, d.layout[rhs]); }
    assert Shared(d.face, xs, d.face[rhs]).Keys == d.face.Keys by { SharedKeys(d.face, xs, d.face[rhs]); }
  }

  /** The takeover of a reference, as the marking and the write that it consists of. */
  lemma ShareRefKeeps<T>(d: Doc<T>, n: T, rhs: T)
    requires d.Valid() && d.Has(n) && d.Has(rhs) && d.Defined(rhs) && d.Mark(n).Defined(n)
    ensures d.ShareRef(n, rhs).Valid()
    ensures var marked := d.Mark(n);
      && marked.Has(rhs)
      && d.ShareRef(n, rhs) == marked.Put({n}, marked.layout[rhs]).Paint({n}, marked.face[rhs]).(ties := RefJoined(marked.ties, n, rhs))
  {
    ShareKeeps(d, n, rhs, {n});
    MarkHas(d, n, rhs);
    hide Coherent, Marks.Mark, Shared;
    assert RefJoined(d.ties, n, rhs).Keys == d.ties.Keys;
  }

  /** The takeover of data by the whole reference. */
  lemma ShareDataKeeps<T>(d: Doc<T>, n: T, rhs: T)
    requires d.Valid() && d.Has(n) && d.Has(rhs) && d.Defined(rhs) && d.ties[n].twins <= d.Mark(n).marks.done
    ensures d.ShareData(n, rhs).Valid()
    ensures var marked, xs := d.Mark(n), d.ties[n].twins;
      && marked.Has(n) && marked.Has(rhs)
      && d.ShareData(n, rhs) == marked.Put(xs, marked.layout[rhs]).Paint(xs, marked.face[rhs]).(ties := DataJoined(marked.ties, n, rhs))
  {
    ShareKeeps(d, n, rhs, d.ties[n].twins);
    MarkHas(d, n, n);
    MarkHas(d, n, rhs);
    hide Coherent, Marks.Mark, Shared;
    assert DataJoined(d.ties, n, rhs).Keys == d.ties.Keys;
  }

  lemma MarkHas<T>(d: Doc<T>, n: T, m: T)
    requires d.Has(m)
    ensures d.Mark(n).Has(m)
  {
  }

  lemma SharedKeys<T, H>(layout: map<T, H>, xs: set<T>, h: H)
    ensures Shared(layout, xs, h).Keys == layout.Keys
  {
  }

  /** Appending keeps the invariant exactly when the container gets recorded. */
  lemma PushKeeps<T>(d: Doc<T>, c: T, m: T, xs: set<T>)
    requires d.Valid() && d.Has(c) && d.Has(m) && d.Family(c, xs)
    ensures d.Push(c, m, xs).Valid() <==> d.Records(m, c)
  {
    hide Coherent, Marks.Link, Shared, Alike, Doc<T>.Clash;
    var now := (Appended(d.layout[c].0, m), d.layout[c].1.(indexed := false));
    AppendLinks(d.marks, d.layout, m, c, xs, false, d.Clash(m, c));
    SharedKeys(d.layout, xs, now);
  }

  lemma LinkHas<T>(d: Doc<T>, m: T, c: T, n: T)
    requires d.Valid() && d.Has(m) && d.Has(c) && d.Has(n)
    ensures d.Link(m, c).Has(n) && d.marks.done <= d.Link(m, c).marks.done
  {
    CoherentFacts(d.marks, d.layout);
    LinkEffect(d.marks, m, c, d.Clash(m, c));
    hide Coherent, Marks.Link, Doc<T>.Clash;
  }

  lemma LinkCloses<T>(d: Doc<T>, m: T, c: T)
    requires d.marks.Closed() && d.Has(m) && d.Has(c)
    ensures d.Link(m, c).marks.Closed() && d.Link(m, c).layout == d.layout
  {
    LinkEffect(d.marks, m, c, d.Clash(m, c));
    hide Marks.Link, Doc<T>.Clash;
  }

  /** Contents and faces can be written before or after a link. */
  lemma PutLink<T>(d: Doc<T>, xs: set<T>, h: Contents<T>, m: T, c: T)
    requires d.Has(m) && d.Has(c)
    ensures d.Put(xs, h).Has(m) && d.Put(xs, h).Has(c)
    ensures d.Put(xs, h).Link(m, c) == d.Link(m, c).Put(xs, h)
  {
  }

  lemma PaintLink<T>(d: Doc<T>, xs: set<T>, f: Face, m: T, c: T)
    requires d.Has(m) && d.Has(c)
    ensures d.Paint(xs, f).Has(m) && d.Paint(xs, f).Has(c)
    ensures d.Paint(xs, f).Link(m, c) == d.Link(m, c).Paint(xs, f)
  {
  }

  /** A new node that is assigned a scalar. */
  lemma KeyedIs<T>(d: Doc<T>, k: T, text: string)
    requires k !in d.layout
    ensures d.Create(k).Assign(k, text, {k}) == Keyed(d, k, text)
  {
    MarkLone(d.Create(k).marks, k);
    hide Marks.Mark, Shared;
  }

  /** A clash of a node with itself as key and value stays one, and the first link of an undefined pair
      changes nothing for the second. */
  lemma SecondClash<T>(d: Doc<T>, k: T, v: T, c: T)
    requires d.Valid() && d.Has(k) && d.Has(v) && d.Has(c)
    ensures var next := d.Link(k, c);
      && next.Has(v) && next.Has(c)
      && (k == v && d.Clash(k, c) ==> next.Clash(v, c))
      && (!d.Defined(k) && !d.Defined(v) && !d.Defined(c) && (k != v || d.Records(k, c)) ==>
            (c in next.marks.deps[v] || !next.Clash(v, c) <==> d.Records(v, c)))
  {
    LinkHas(d, k, c, v);
    LinkHas(d, k, c, c);
    assert d.Defined(k) ==> d.marks.deps[k] == {};
    hide Coherent, Marks.Mark;
    var next := d.Link(k, c);
    if !d.Defined(k) {
      assert next.marks.deps[k] == d.marks.deps[k] || next.marks.deps[k] == d.marks.deps[k] + {c};
    }
  }

  /** Inserting a pair keeps the invariant exactly when one of the three nodes is defined or the container
      gets recorded in both ends. */
  lemma PairKeeps<T>(d: Doc<T>, c: T, k: T, v: T, xs: set<T>)
    requires d.Valid() && d.Has(c) && d.Has(k) && d.Has(v) && d.Family(c, xs)
    ensures d.Pair(c, k, v, xs).Valid() <==> d.Defined(k) || d.Defined(v) || (d.Records(k, c) && d.Records(v, c))
  {
    SecondClash(d, k, v, c);
    PairLinks(d.marks, d.layout, k, v, c, xs, d.Clash(k, c), d.Link(k, c).Clash(v, c));
    hide Coherent, Marks.Link, Shared, Alike, Doc<T>.Clash, PlainPaired;
    SharedKeys(d.layout, xs, PlainPaired(d.layout[c], k, v));
  }

  lemma LoneRecords<T>(d: Doc<T>, m: T, c: T)
    requires d.Has(m) && d.Has(c) && d.marks.deps[m] == {}
    ensures !d.Clash(m, c)
  {
  }

  lemma CreateFamily<T>(d: Doc<T>, n: T, c: T, xs: set<T>)
    requires n !in d.layout && d.Family(c, xs)
    ensures d.Create(n).Family(c, xs)
  {
  }

  lemma PaintKeeps<T>(d: Doc<T>, xs: set<T>, f: Face)
    requires d.Valid()
    ensures d.Paint(xs, f).Valid()
  {
    hide Coherent, Shared;
    SharedKeys(d.face, xs, f);
  }

  lemma AppendKeeps<T>(d: Doc<T>, c: T, r: T, xs: set<T>)
    requires d.Valid() && d.Has(c) && d.Has(r) && d.Family(c, xs) && d.marks.deps[r] == {}
    requires var q := d.layout[c].0.sequence; q != [] ==> d.Defined(q[|q| - 1])
    ensures d.Link(r, c).Put(xs, (Appended(d.layout[c].0, r), d.layout[c].1)).Valid()
  {
    LoneRecords(d, r, c);
    var now := (Appended(d.layout[c].0, r), d.layout[c].1);
    hide Coherent, Marks.Link, Shared, Alike, Doc<T>.Clash, Appended;
    IndexLinks(d.marks, d.layout, r, c, xs, false);
    SharedKeys(d.layout, xs, now);
  }

  lemma CreateKeepsOthers<T>(d: Doc<T>, n: T, c: T)
    requires d.Has(c) && n !in d.layout
    ensures var made := d.Create(n);
      && made.Has(n) && made.Has(c) && made.layout[c] == d.layout[c] && made.marks.deps[n] == {} && made.marks.done == d.marks.done
  {
  }

  lemma ExtendKeeps<T>(d: Doc<T>, c: T, r: T, xs: set<T>)
    requires d.Valid() && d.Has(c) && r !in d.layout && d.Family(c, xs)
    requires d.Reaches(c, |d.layout[c].0.sequence|)
    ensures !d.Has(r) && d.Extend(c, r, xs).Valid()
  {
    var made := d.Create(r);
    CreateKeepsOthers(d, r, c);
    CreateKeeps(d, r);
    CreateFamily(d, r, c, xs);
    hide Doc<T>.Valid, Doc<T>.Create, Doc<T>.Link, Doc<T>.Put, Doc<T>.Paint, Doc<T>.Family, Appended;
    AppendKeeps(made, c, r, xs);
    PaintKeeps(made.Link(r, c).Put(xs, (Appended(d.layout[c].0, r), d.layout[c].1)), xs, (Sequence, d.face[c].1));
  }

  lemma FindKeeps<T>(d: Doc<T>, c: T, r: T, kind: Kind, xs: set<T>)
    requires d.Valid() && d.Has(c) && d.Has(r)
    requires r in d.layout[c].0.sequence || exists p :: p in d.layout[c].0.pairs && p.1 == r
    ensures d.Find(c, r, kind, xs).Valid()
  {
    hide Coherent, Marks.Link, Shared, Doc<T>.Clash;
    RelinkCoherent(d.marks, d.layout, r, c, d.Clash(r, c));
    SharedKeys(d.face, xs, (kind, d.face[c].1));
  }

  lemma KeyedKeeps<T>(d: Doc<T>, k: T, text: string)
    requires d.Valid() && k !in d.layout
    ensures Keyed(d, k, text).Valid()
  {
    var made := d.Create(k);
    CreateKeeps(d, k);
    MarkLone(made.marks, k);
    hide Coherent, Marks.Mark, Shared;
    MarkCoherent(made.marks, made.layout, k);
    SharedKeys(made.face, {k}, (Scalar, text));
  }

  lemma LiteralKeeps<T>(d: Doc<T>, c: T, k: T, v: T, xs: set<T>)
    requires d.Valid() && d.Has(c) && d.Has(k) && d.Has(v) && d.Family(c, xs)
    requires d.Defined(k) && d.marks.deps[v] == {} && k !in Holds(d.layout[c]).keys
    ensures d.Link(v, c).Put(xs, LiteralPaired(d.layout[c], k, v)).Valid()
  {
    LoneRecords(d, v, c);
    hide Coherent, Marks.Link, Shared, Alike, Doc<T>.Clash, LiteralPaired, Holds;
    LiteralPairLinks(d.marks, d.layout, k, v, c, xs, false);
    SharedKeys(d.layout, xs, LiteralPaired(d.layout[c], k, v));
  }

  /** The document with a new node that has a scalar. */
  ghost function Keyed<T>(d: Doc<T>, k: T, text: string): Doc<T>
  {
    var painted := d.Create(k).Paint({k}, (Scalar, text));
    painted.(marks := painted.marks.(done := d.marks.done + {k}))
  }

  lemma KeyedKeepsOthers<T>(d: Doc<T>, k: T, text: string, c: T, xs: set<T>)
    requires d.Has(c) && k !in d.layout && d.Family(c, xs)
    ensures var keyed := Keyed(d, k, text);
      && keyed.Has(k) && keyed.Has(c) && keyed.layout[c] == d.layout[c] && keyed.Defined(k) && keyed.Family(c, xs)
      && keyed.layout.Keys == d.layout.Keys + {k}
  {
  }

  lemma EnterKeeps<T>(d: Doc<T>, c: T, k: T, v: T, text: string, xs: set<T>)
    requires d.Valid() && d.Has(c) && k !in d.layout && v !in d.layout && k != v && d.Family(c, xs)
    ensures !d.Has(k) && !d.Has(v) && d.Enter(c, k, v, text, xs).Valid()
  {
    var keyed := Keyed(d, k, text);
    KeyedKeeps(d, k, text);
    KeyedKeepsOthers(d, k, text, c, xs);
    CreateKeepsOthers(keyed, v, c);
    CreateKeepsOthers(keyed, v, k);
    CreateKeeps(keyed, v);
    CreateFamily(keyed, v, c, xs);
    KeyIsNew(d, c, k);
    var made := keyed.Create(v);
    hide Doc<T>.Valid, Doc<T>.Create, Doc<T>.Link, Doc<T>.Put, Doc<T>.Paint, Doc<T>.Family, LiteralPaired, Holds;
    LiteralKeeps(made, c, k, v, xs);
    PaintKeeps(made.Link(v, c).Put(xs, LiteralPaired(d.layout[c], k, v)), xs, (Map, d.face[c].1));
  }

  lemma KeyIsNew<T>(d: Doc<T>, c: T, k: T)
    requires d.Valid() && c in d.layout && k !in d.layout
    ensures k !in Holds(d.layout[c]).keys
  {
    ContentsFit(d.marks, d.layout, c);
  }

  lemma EraseKeeps<T>(d: Doc<T>, c: T, key: nat, xs: set<T>)
    requires d.Valid() && d.Has(c) && d.Family(c, xs)
    ensures d.Erase(c, key, xs).Valid()
  {
    hide Coherent, Shared, Alike, Erased;
    EraseLinks(d.marks, d.layout, c, xs, key);
    SharedKeys(d.layout, xs, (Erased(d.layout[c].0, key), d.layout[c].1));
  }

  lemma DropKeeps<T>(d: Doc<T>, c: T, at: nat, xs: set<T>)
    requires d.Valid() && d.Has(c) && d.Family(c, xs)
    ensures d.Drop(c, at, xs).Valid()
  {
    hide Coherent, Shared, Alike, Unpaired;
    UnpairLinks(d.marks, d.layout, c, xs, at);
    SharedKeys(d.layout, xs, (Unpaired(d.layout[c].0, at), d.layout[c].1));
  }

  lemma RecountKeeps<T>(d: Doc<T>, c: T, k: nat, xs: set<T>)
    requires d.Valid() && d.Has(c) && d.Family(c, xs) && d.Countable(c, k)
    ensures d.Recount(c, k, xs).Valid()
  {
    hide Coherent, Shared, Alike;
    CountLinks(d.marks, d.layout, c, xs, k);
    SharedKeys(d.layout, xs, (d.layout[c].0.(seqSize := k), d.layout[c].1));
  }

  // ---- programs ----

  /** One step of a program over a document; nodes are named by their position among the handles. */
  datatype Op =
    | Create
    | Nullify(n: nat)
    | Assign(n: nat, text: string)
    | ShareRef(n: nat, rhs: nat)
    | ShareData(n: nat, rhs: nat)
    | Push(c: nat, m: nat)
    | Pair(c: nat, k: nat, v: nat)
    | At(c: nat, key: int)
    | Key(c: nat, text: string)
    | Erase(c: nat, key: int)
    | Drop(c: nat, text: string)
    | Recount(c: nat, k: nat)

  /** The variables of a program; one that got no node stays unbound. */
  type Handles<T> = seq<Option<T>>

  predicate Bound<T>(hs: Handles<T>, i: nat)
  {
    i < |hs| && hs[i].Some?
  }

  /** Variable `n` holds the node of `rhs`, if there is one. */
  function Rebound<T>(hs: Handles<T>, n: nat, rhs: nat): (hs': Handles<T>)
    ensures |hs'| == |hs|
  {
    if n < |hs| && Bound(hs, rhs) then hs[n := hs[rhs]] else hs
  }

  datatype Moment<T> = Moment(doc: Doc<T>, hs: Handles<T>)

  ghost predicate Handled<T>(doc: Doc<T>, hs: Handles<T>)
  {
    forall i: nat :: Bound(hs, i) ==> doc.Has(hs[i].value)
  }

  /** The operation neither loses a container nor shares an undefined node. */
  ghost predicate Harmless<T>(doc: Doc<T>, hs: Handles<T>, op: Op)
    requires Handled(doc, hs)
  {
    match op
    case Push(c, m) => Bound(hs, c) && Bound(hs, m) ==> doc.Records(hs[m].value, hs[c].value)
    case Pair(c, k, v) =>
      Bound(hs, c) && Bound(hs, k) && Bound(hs, v) ==>
        || doc.Defined(hs[k].value) || doc.Defined(hs[v].value)
        || (doc.Records(hs[k].value, hs[c].value) && doc.Records(hs[v].value, hs[c].value))
    case ShareRef(n, rhs) => Bound(hs, n) && Bound(hs, rhs) ==> doc.Defined(hs[rhs].value) || hs[n] == hs[rhs]
    case ShareData(n, rhs) => Bound(hs, n) && Bound(hs, rhs) ==> doc.Defined(hs[rhs].value) || hs[n] == hs[rhs]
    case _ => true
  }

  ghost predicate Created<T>(was: Doc<T>, n: T, now: Doc<T>)
  {
    !was.Has(n) && n !in was.layout && now == was.Create(n)
  }

  ghost predicate Nullified<T>(was: Doc<T>, n: T, now: Doc<T>)
    requires was.Has(n)
  {
    now == was.Nullify(n, was.Kin(n))
  }

  ghost predicate Assigned<T>(was: Doc<T>, n: T, text: string, now: Doc<T>)
    requires was.Has(n)
  {
    now == was.Assign(n, text, was.Kin(n))
  }

  ghost predicate RefShared<T>(was: Doc<T>, n: T, rhs: T, now: Doc<T>)
    requires was.Has(n) && was.Has(rhs)
  {
    now == if was.Defined(rhs) then was.ShareRef(n, rhs) else was
  }

  ghost predicate DataShared<T>(was: Doc<T>, n: T, rhs: T, now: Doc<T>)
    requires was.Has(n) && was.Has(rhs)
  {
    now == if was.Defined(rhs) then was.ShareData(n, rhs) else was
  }

  ghost predicate Pushed<T>(was: Doc<T>, c: T, m: T, now: Doc<T>)
    requires was.Has(c) && was.Has(m)
  {
    now == was.Push(c, m, was.Kin(c))
  }

  ghost predicate PairPut<T>(was: Doc<T>, c: T, k: T, v: T, now: Doc<T>)
    requires was.Has(c) && was.Has(k) && was.Has(v)
  {
    now == was.Pair(c, k, v, was.Kin(c))
  }

  /** What indexing gives and makes. */
  ghost predicate Indexed<T>(was: Doc<T>, c: T, key: int, r: Option<T>, now: Doc<T>)
    requires was.Has(c)
  {
    if !was.Reaches(c, key) then r == None && now == was
    else
      && r.Some?
      && var q := was.layout[c].0.sequence;
         if key == |q| then !was.Has(r.value) && r.value !in was.layout && now == was.Extend(c, r.value, was.Kin(c))
         else r.value == q[key] && was.Has(r.value) && now == was.Find(c, r.value, Sequence, was.Kin(c))
  }

  /** What looking up a key gives and makes; a scalar is refused, and converting a sequence is not covered. */
  ghost predicate LookedUp<T>(was: Doc<T>, c: T, text: string, at: nat, k: T, r: Option<T>, now: Doc<T>)
    requires was.Has(c)
  {
    if was.face[c].0 in {Scalar, Sequence} then r == None && now == was
    else
      && r.Some? && was.FirstKey(c, text, at)
      && var pairs := was.layout[c].0.pairs;
         if at < |pairs| then
           r.value == pairs[at].1 && was.Has(r.value) && now == was.Find(c, r.value, Map, was.Kin(c))
         else
           && !was.Has(k) && !was.Has(r.value) && k != r.value && k !in was.layout && r.value !in was.layout
           && now == was.Enter(c, k, r.value, text, was.Kin(c))
  }

  ghost predicate ErasedFrom<T>(was: Doc<T>, c: T, key: int, now: Doc<T>)
    requires was.Has(c)
  {
    now == if 0 <= key < |was.layout[c].0.sequence| then was.Erase(c, key, was.Kin(c)) else was
  }

  ghost predicate DroppedFrom<T>(was: Doc<T>, c: T, text: string, at: nat, now: Doc<T>)
    requires was.Has(c)
  {
    if was.face[c].0 != Map then now == was
    else was.FirstKey(c, text, at) && now == was.Drop(c, at, was.Kin(c))
  }

  ghost predicate Recounted<T>(was: Doc<T>, c: T, k: nat, now: Doc<T>)
    requires was.Has(c)
  {
    now == if was.Countable(c, k) then was.Recount(c, k, was.Kin(c)) else was
  }

  /** What an operation leaves open: the new key node, and the position that the first key determines. */
  datatype Choice<T> = Choice(key: Option<T>, at: nat)

  /** What a harmless operation does. One on an unbound variable does nothing, but assigning a node also
      rebinds the variable. */
  ghost predicate Moves<T>(was: Doc<T>, hs: Handles<T>, op: Op, how: Choice<T>, now: Doc<T>, hs': Handles<T>)
    requires Handled(was, hs)
  {
    match op
    case Create => |hs'| == |hs| + 1 && hs' == hs + [hs'[|hs|]] && hs'[|hs|].Some? && Created(was, hs'[|hs|].value, now)
    case Nullify(n) => hs' == hs && if Bound(hs, n) then Nullified(was, hs[n].value, now) else now == was
    case Assign(n, text) => hs' == hs && if Bound(hs, n) then Assigned(was, hs[n].value, text, now) else now == was
    case ShareRef(n, rhs) =>
      && hs' == Rebound(hs, n, rhs)
      && if Bound(hs, n) && Bound(hs, rhs) then RefShared(was, hs[n].value, hs[rhs].value, now) else now == was
    case ShareData(n, rhs) =>
      hs' == hs && if Bound(hs, n) && Bound(hs, rhs) then DataShared(was, hs[n].value, hs[rhs].value, now) else now == was
    case Push(c, m) =>
      hs' == hs && if Bound(hs, c) && Bound(hs, m) then Pushed(was, hs[c].value, hs[m].value, now) else now == was
    case Pair(c, k, v) =>
      hs' == hs && if Bound(hs, c) && Bound(hs, k) && Bound(hs, v)
        then PairPut(was, hs[c].value, hs[k].value, hs[v].value, now) else now == was
    case At(c, key) =>
      && |hs'| == |hs| + 1 && hs' == hs + [hs'[|hs|]]
      && if Bound(hs, c) then Indexed(was, hs[c].value, key, hs'[|hs|], now) else hs'[|hs|] == None && now == was
    case Key(c, text) =>
      && |hs'| == |hs| + 1 && hs' == hs + [hs'[|hs|]]
      && if Bound(hs, c) then
           var r := hs'[|hs|];
           LookedUp(was, hs[c].value, text, how.at, if how.key.Some? then how.key.value else hs[c].value, r, now)
         else hs'[|hs|] == None && now == was
    case Erase(c, key) => hs' == hs && if Bound(hs, c) then ErasedFrom(was, hs[c].value, key, now) else now == was
    case Drop(c, text) => hs' == hs && if Bound(hs, c) then DroppedFrom(was, hs[c].value, text, how.at, now) else now == was
    case Recount(c, k) => hs' == hs && if Bound(hs, c) then Recounted(was, hs[c].value, k, now) else now == was
  }
}
