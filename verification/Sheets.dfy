/** What the daemon's edits do to the list in the save file: each program of `Edits`, run on a document that
    shows a list of entries, leaves one that shows the list with the change and nothing else. */
module Sheets {
  import opened Types
  import opened Definedness
  import opened Documents
  import opened Disciplines
  import opened Effects
  import opened Edits

  // ---- entries ----

  /** The fields of an entry, in order. */
  type Row = seq<(string, string)>

  /** The position of the first field with a key, or the number of fields. */
  function KeyIndex(row: Row, key: string): (i: nat)
    ensures i <= |row| && (i < |row| ==> row[i].0 == key)
    ensures forall a | 0 <= a < i :: row[a].0 != key
  {
    if row == [] || row[0].0 == key then 0 else 1 + KeyIndex(row[1..], key)
  }

  /** The first field with the key gets the text, or a new last field has both. */
  function SetField(row: Row, key: string, text: string): Row
  {
    var a := KeyIndex(row, key);
    if a < |row| then row[a := (key, text)] else row + [(key, text)]
  }

  function SetFields(row: Row, es: seq<Entry>): Row
    decreases |es|
  {
    if es == [] then row else SetFields(SetField(row, es[0].key, es[0].text), es[1..])
  }

  // ---- what a document shows ----

  /** The node is defined and has this scalar. */
  ghost predicate ShowsText<T>(d: Doc<T>, n: T, s: string)
  {
    d.Has(n) && d.Defined(n) && d.face[n] == (Scalar, s)
  }

  ghost predicate ShowsRow<T>(d: Doc<T>, m: T, row: Row)
  {
    && d.Has(m) && d.Defined(m) && d.face[m].0 !in {Scalar, Sequence}
    && var pairs := d.layout[m].0.pairs;
       && |pairs| == |row|
       && forall a | 0 <= a < |row| :: ShowsText(d, pairs[a].0, row[a].0) && ShowsText(d, pairs[a].1, row[a].1)
  }

  /** `n` holds the list, whose entries are the nodes `q`. */
  ghost predicate ShowsList<T>(d: Doc<T>, n: T, q: seq<T>, rows: seq<Row>)
  {
    && d.Has(n) && d.Defined(n) && d.face[n].0 !in {Scalar, Map} && d.layout[n].0.sequence == q && |q| == |rows|
    && forall j | 0 <= j < |q| :: ShowsRow(d, q[j], rows[j])
  }

  /** The first pair of `c` with this key leads to `n`. */
  ghost predicate Leads<T>(d: Doc<T>, c: T, key: string, n: T)
  {
    && d.Has(c) && d.Defined(c) && d.face[c].0 !in {Scalar, Sequence}
    && exists at: nat :: d.FirstKey(c, key, at) && at < |d.layout[c].0.pairs| && d.layout[c].0.pairs[at].1 == n
  }

  // ---- documents without sharing ----

  ghost function Below<T>(d: Doc<T>, m: T): set<T>
    requires d.Has(m)
  {
    var s := d.layout[m].0;
    (set x | x in s.sequence) + (set p | p in s.pairs :: p.0) + (set p | p in s.pairs :: p.1)
  }

  /** No node below `m` is there twice. */
  ghost predicate Forks<T>(d: Doc<T>, m: T)
    requires d.Has(m)
  {
    var s := d.layout[m].0;
    && (forall a, b | 0 <= a < b < |s.sequence| :: s.sequence[a] != s.sequence[b])
    && (forall a, b | 0 <= a < b < |s.pairs| :: s.pairs[a].1 != s.pairs[b].1)
    && (forall a, b | 0 <= a < |s.pairs| && 0 <= b < |s.pairs| :: s.pairs[a].0 != s.pairs[b].1)
  }

  /** The nodes `all` are in one place at most, those in `tops` in none, and share with none of the others. */
  ghost predicate Trees<T>(d: Doc<T>, tops: set<T>, all: set<T>)
  {
    && tops <= all
    && (forall n | n in all :: d.Has(n))
    && (forall n, m | n in all && m in all && m in d.Kin(n) :: m == n)
    && (forall n | n in all :: Below(d, n) <= all && Below(d, n) !! tops && Forks(d, n))
    && (forall n, m | n in all && m in all && n != m :: Below(d, n) !! Below(d, m))
  }

  /** The nodes `all` form trees as they come from a file. */
  ghost predicate Tidy<T>(d: Doc<T>, tops: set<T>, all: set<T>)
  {
    Trees(d, tops, all) && forall n | n in all :: d.Defined(n)
  }

  // ---- steps of a program ----

  ghost predicate Good<T>(m: Moment<T>)
  {
    m.doc.Valid() && m.doc.Bonded() && Handled(m.doc, m.hs)
  }

  /** A program has run: the documents and variables in between, and the choices. */
  datatype Trace<T> = Trace(at: seq<Moment<T>>, hows: seq<Choice<T>>)
  {
    function Start(): Moment<T>
      requires at != []
    {
      at[0]
    }

    function End(): Moment<T>
      requires at != []
    {
      at[|at| - 1]
    }

    function To(k: nat): Trace<T>
      requires k < |at| && k <= |hows|
    {
      Trace(at[..k + 1], hows[..k])
    }

    function From(k: nat): Trace<T>
      requires k < |at| && k <= |hows|
    {
      Trace(at[k..], hows[k..])
    }
  }

  ghost predicate Step<T>(m: Moment<T>, op: Op, how: Choice<T>, next: Moment<T>)
  {
    Good(m) && Good(next) && Moves(m.doc, m.hs, op, how, next.doc, next.hs)
  }

  ghost predicate Does<T>(r: Trace<T>, ops: seq<Op>)
  {
    && |r.at| == |ops| + 1 && |r.hows| == |ops| && Good(r.at[0])
    && forall i | 0 <= i < |ops| :: Step(r.at[i], ops[i], r.hows[i], r.at[i + 1])
  }

  lemma HistoryDoes<T>(trace: seq<Moment<T>>, hows: seq<Choice<T>>, ops: seq<Op>)
    requires History(trace, hows, ops) && |hows| == |ops|
    ensures Does(Trace(trace, hows), ops)
  {
    hide Moves, Doc<T>.Valid, Doc<T>.Bonded, Harmless;
  }

  lemma Cut<T>(r: Trace<T>, a: seq<Op>, b: seq<Op>)
    requires Does(r, a + b)
    ensures |a| < |r.at| && |a| <= |r.hows| && r.To(|a|).at != [] && r.From(|a|).at != []
    ensures Does(r.To(|a|), a) && Does(r.From(|a|), b)
    ensures r.To(|a|).Start() == r.Start() && r.To(|a|).End() == r.From(|a|).Start() == r.at[|a|] && r.From(|a|).End() == r.End()
  {
    hide Step, Good;
    assert forall i | 0 <= i < |a| :: (a + b)[i] == a[i];
    assert forall i | 0 <= i < |b| :: (a + b)[|a| + i] == b[i];
    var rest := r.From(|a|);
    if b != [] { assert rest.at[0] == r.at[|a|]; }
    StartIsGood(r, a + b, |a|);
  }

  lemma StartIsGood<T>(r: Trace<T>, ops: seq<Op>, i: nat)
    requires Does(r, ops) && i <= |ops|
    ensures Good(r.at[i])
  {
    if i > 0 { assert Step(r.at[i - 1], ops[i - 1], r.hows[i - 1], r.at[i]); }
    hide Good;
  }

  /** Variables are only added. */
  ghost predicate Extends<T>(hs: Handles<T>, hs': Handles<T>)
  {
    |hs| <= |hs'| && hs'[..|hs|] == hs
  }

  lemma StillBound<T>(hs: Handles<T>, hs': Handles<T>, i: nat)
    requires Extends(hs, hs') && i < |hs|
    ensures hs'[i] == hs[i]
  {
    assert hs'[..|hs|][i] == hs[i];
  }

  // ---- writing one text ----

  /** Of the nodes in `all`, only `v` is different: it has the text, and nothing below it or what it had. */
  ghost predicate Written<T>(d: Doc<T>, d': Doc<T>, all: set<T>, v: T, text: string)
  {
    && ShowsText(d', v, text) && (forall x | x in all :: d.Has(x) && d'.Has(x) && (d.Defined(x) ==> d'.Defined(x)))
    && (forall x | x in all && x != v :: d'.layout[x] == d.layout[x] && d'.face[x] == d.face[x])
    && (forall x, y | x in all && y in all && y in d'.Kin(x) :: y in d.Kin(x) || y == x)
    && d.Has(v) && (d'.layout[v] == d.layout[v] || d'.layout[v].0 == Emptied())
  }

  /** The only node of `all` among the kin of `v` is `v`. */
  ghost predicate Alone<T>(d: Doc<T>, all: set<T>, v: T)
  {
    d.Has(v) && forall x | x in all && x in d.Kin(v) :: x == v
  }

  lemma StepMeans<T>(m: Moment<T>, op: Op, how: Choice<T>, m': Moment<T>)
    requires Step(m, op, how, m')
    ensures m.doc.Valid() && m.doc.Bonded() && Handled(m.doc, m.hs) && m'.doc.Valid() && m'.doc.Bonded() && Handled(m'.doc, m'.hs)
    ensures Moves(m.doc, m.hs, op, how, m'.doc, m'.hs)
  {
    hide Moves, Doc<T>.Valid, Doc<T>.Bonded, Handled;
  }

  lemma PaintedIsWritten<T>(d: Doc<T>, d': Doc<T>, all: set<T>, v: T, text: string)
    requires Alone(d, all, v) && (forall x | x in all :: d.Has(x)) && v in d.Kin(v)
    requires d'.layout == d.layout && d'.rank == d.rank && d'.ties == d.ties && Painted(d, d.Kin(v), (Scalar, text), d')
    requires d.marks.done <= d'.marks.done && v in d'.marks.done && (forall x | d.Has(x) :: d'.Has(x))
    ensures Written(d, d', all, v, text)
  {
  }

  lemma HasStays<T>(m: Moment<T>, op: Op, how: Choice<T>, m': Moment<T>)
    requires Step(m, op, how, m')
    ensures forall x | m.doc.Has(x) :: m'.doc.Has(x)
    ensures m.doc.marks.done <= m'.doc.marks.done
  {
    StepMeans(m, op, how, m');
    hide Moves, Doc<T>.Valid, Doc<T>.Bonded, Handled, Step, NewVariable, Lone, Doc<T>.Has, Spares;
    MovesSpares(m.doc, m.hs, op, how, m'.doc, m'.hs);
    SparesMeans(m.doc, PutBy(m.hs, op), m'.doc);
  }

  lemma SparesMeans<T>(d: Doc<T>, put: set<T>, d': Doc<T>)
    requires Spares(d, put, d')
    ensures d.marks.done <= d'.marks.done && forall x | d.Has(x) :: d'.Has(x)
  {
    hide Lone;
  }

  lemma AssignWritten<T>(m: Moment<T>, i: nat, text: string, how: Choice<T>, m': Moment<T>, all: set<T>)
    requires Step(m, Op.Assign(i, text), how, m') && Bound(m.hs, i) && Alone(m.doc, all, m.hs[i].value)
    requires forall x | x in all :: m.doc.Has(x)
    ensures m'.hs == m.hs && Written(m.doc, m'.doc, all, m.hs[i].value, text)
  {
    var v := m.hs[i].value;
    StepMeans(m, Op.Assign(i, text), how, m');
    HasStays(m, Op.Assign(i, text), how, m');
    hide *;
    AssignWrites(m.doc, m.hs, i, text, how, m'.doc, m'.hs);
    SameShapeMeans(m.doc, m'.doc);
    MarkMarks(m.doc.marks, v);
    KinHasSelf(m.doc, v);
    PaintedIsWritten(m.doc, m'.doc, all, v, text);
  }

  lemma SameShapeMeans<T>(d: Doc<T>, d': Doc<T>)
    requires SameShape(d, d')
    ensures d'.layout == d.layout && d'.rank == d.rank && d'.ties == d.ties
  {
  }

  /** Making a node changes no other. */
  lemma CreateStep<T>(m: Moment<T>, how: Choice<T>, m': Moment<T>) returns (t: T)
    requires Step(m, Op.Create, how, m')
    ensures m'.hs == m.hs + [Some(t)] && t !in m.doc.layout
    ensures OldKept(m.doc, m'.doc) && Blank(m'.doc, t) && m'.doc.layout.Keys == m.doc.layout.Keys + {t}
    ensures forall x | x in m.doc.layout :: m.doc.Has(x) && (m.doc.Defined(x) ==> m'.doc.Defined(x))
  {
    StepMeans(m, Op.Create, how, m');
    HasStays(m, Op.Create, how, m');
    MovesIndexed(m.doc, m.hs, Op.Create, how, m'.doc, m'.hs);
    t := m'.hs[|m.hs|].value;
    CreatedMeans(m.doc, t, m'.doc);
    hide Moves, Step, Created, OldKept, Blank, Doc<T>.Valid, Doc<T>.Bonded, Handled, Doc<T>.Has;
    assert m'.hs == m.hs + [Some(t)];
    CreateIs(m.doc, t);
    FaceKeys(m.doc);
  }

  lemma CreatedMeans<T>(d: Doc<T>, t: T, d': Doc<T>)
    requires Created(d, t, d')
    ensures t !in d.layout && d' == d.Create(t)
  {
  }

  /** After a node has been made the old ones keep their own company. */
  lemma KeptAlone<T>(d: Doc<T>, d': Doc<T>, all: set<T>, v: T)
    requires OldKept(d, d') && Alone(d, all, v) && (forall x | x in all :: x in d.layout) && v in d.layout
    ensures Alone(d', all, v) && forall x | x in all :: d'.Has(x) && d'.Kin(x) == d.Kin(x)
  {
  }

  /** Sharing data with a lone node that has the text. */
  lemma SharedIsWritten<T>(d: Doc<T>, d': Doc<T>, all: set<T>, v: T, t: T, text: string)
    requires Alone(d, all, v) && (forall x | x in all :: d.Has(x)) && d.Has(t) && t !in all && (forall x | x in all :: x !in d.Kin(t))
    requires v in d.ties[v].twins && d.ties[v].twins <= d.Kin(v) && d.face[t] == (Scalar, text) && d.layout[t].0 == Emptied()
    requires var xs := d.ties[v].twins;
      && Filled(d, xs, d.layout[t], d') && Painted(d, xs, d.face[t], d') && d'.ties.Keys == d.ties.Keys
      && (forall c | c in d.ties && c !in xs && c !in d.ties[t].kin :: d'.ties[c].kin == d.ties[c].kin - xs)
      && (forall c | c in d.ties && (c in xs || c in d.ties[t].kin) :: d'.ties[c].kin == d.ties[t].kin + xs)
    requires d.marks.done <= d'.marks.done && v in d'.marks.done && (forall x | d.Has(x) :: d'.Has(x))
    ensures Written(d, d', all, v, text)
  {
    assert v !in d.Kin(t) || v !in all;
  }

  lemma ShareWritten<T>(m: Moment<T>, i: nat, j: nat, how: Choice<T>, m': Moment<T>, all: set<T>, text: string)
    requires Step(m, ShareData(i, j), how, m') && Bound(m.hs, i) && Bound(m.hs, j)
    requires (forall x | x in all :: m.doc.Has(x)) && Alone(m.doc, all, m.hs[i].value)
    requires var t := m.hs[j].value; ShowsText(m.doc, t, text) && t !in all && m.doc.layout[t].0 == Emptied() && (forall x | x in all :: x !in m.doc.Kin(t))
    ensures m'.hs == m.hs && Written(m.doc, m'.doc, all, m.hs[i].value, text)
  {
    var v, t := m.hs[i].value, m.hs[j].value;
    StepMeans(m, ShareData(i, j), how, m');
    HasStays(m, ShareData(i, j), how, m');
    TwinsMeans(m.doc, v);
    ShowsMeans(m.doc, t, text);
    hide *;
    ShareDataTakes(m.doc, m.hs, i, j, how, m'.doc, m'.hs);
    MarkMarks(m.doc.marks, v);
    SharedIsWritten(m.doc, m'.doc, all, v, t, text);
  }

  lemma TwinsMeans<T>(d: Doc<T>, v: T)
    requires d.Bonded() && d.Has(v)
    ensures v in d.ties[v].twins && d.ties[v].twins <= d.Kin(v)
  {
    assert d.Bond(v);
  }

  lemma ShowsMeans<T>(d: Doc<T>, n: T, s: string)
    requires ShowsText(d, n, s)
    ensures d.Has(n) && d.Defined(n) && d.face[n] == (Scalar, s)
  {
  }

  /** The node that was made and written is out of everyone's way. */
  lemma HelperAlone<T>(d1: Doc<T>, d2: Doc<T>, all: set<T>, v: T, t: T, text: string)
    requires Alone(d1, all, v) && Blank(d1, t) && t !in all && v in all && Written(d1, d2, all + {t}, t, text)
    ensures Alone(d2, all, v) && (forall x | x in all :: d2.Has(x) && x !in d2.Kin(t)) && d2.layout[t].0 == Emptied()
  {
    forall x | x in all ensures x !in d2.Kin(t) {
      assert x in all + {t} && t in all + {t};
      assert x in d2.Kin(t) ==> x in d1.Kin(t) || x == t;
    }
    forall x | x in all && x in d2.Kin(v) ensures x == v {
      assert x in d1.Kin(v) || x == v;
    }
  }

  lemma WrittenTogether<T>(d0: Doc<T>, d1: Doc<T>, d2: Doc<T>, d3: Doc<T>, all: set<T>, v: T, t: T, text: string)
    requires OldKept(d0, d1) && (forall x | x in all :: x in d0.layout && (d0.Defined(x) ==> d1.Defined(x))) && v in all && t !in all
    requires Written(d1, d2, all + {t}, t, text) && Written(d2, d3, all, v, text)
    ensures Written(d0, d3, all, v, text)
  {
    forall x, y | x in all && y in all && y in d3.Kin(x) ensures y in d0.Kin(x) || y == x {
      assert y in d2.Kin(x) || y == x;
      assert y in d2.Kin(x) ==> y in d1.Kin(x) || y == x;
      assert KeptAt(d0, d1, x);
    }
    forall x | x in all && x != v ensures d3.layout[x] == d0.layout[x] && d3.face[x] == d0.face[x] {
      assert KeptAt(d0, d1, x);
    }
    forall x | x in all ensures d0.Has(x) && d3.Has(x) && (d0.Defined(x) ==> d3.Defined(x)) {
      assert KeptAt(d0, d1, x);
    }
    assert KeptAt(d0, d1, v);
  }

  /** A number or truth value is written by way of a node of its own. */
  lemma EncodedWritten<T>(m0: Moment<T>, h0: Choice<T>, m1: Moment<T>, h1: Choice<T>, m2: Moment<T>, h2: Choice<T>, m3: Moment<T>,
                          i: nat, text: string, all: set<T>)
    requires Step(m0, Op.Create, h0, m1) && Step(m1, Op.Assign(|m0.hs|, text), h1, m2) && Step(m2, ShareData(i, |m0.hs|), h2, m3)
    requires Bound(m0.hs, i) && m0.hs[i].value in all && Alone(m0.doc, all, m0.hs[i].value) && forall x | x in all :: m0.doc.Has(x)
    ensures Extends(m0.hs, m3.hs) && |m3.hs| == |m0.hs| + 1 && Written(m0.doc, m3.doc, all, m0.hs[i].value, text)
  {
    var v := m0.hs[i].value;
    var t := CreateStep(m0, h0, m1);
    forall x | x in all ensures x in m0.doc.layout { assert m0.doc.Has(x); }
    assert t !in all && m1.hs[i] == m0.hs[i];
    KeptAlone(m0.doc, m1.doc, all, v);
    BlankAlone(m1.doc, all + {t}, t);
    hide Step, Written, Alone, OldKept, Blank, ShowsText, Doc<T>.Has, Doc<T>.Defined;
    AssignWritten(m1, |m0.hs|, text, h1, m2, all + {t});
    HelperAlone(m1.doc, m2.doc, all, v, t, text);
    WrittenShows(m1.doc, m2.doc, all + {t}, t, text);
    ShareWritten(m2, i, |m0.hs|, h2, m3, all, text);
    WrittenTogether(m0.doc, m1.doc, m2.doc, m3.doc, all, v, t, text);
  }

  lemma BlankAlone<T>(d: Doc<T>, all: set<T>, t: T)
    requires Blank(d, t)
    ensures Alone(d, all, t) && d.Has(t)
  {
  }

  lemma WrittenShows<T>(d: Doc<T>, d': Doc<T>, all: set<T>, v: T, text: string)
    requires Written(d, d', all, v, text)
    ensures ShowsText(d', v, text)
  {
  }

  // ---- one field of one entry ----

  /** Nothing but the kind of `c` may have changed among the nodes in `all`. */
  ghost predicate Looked<T>(d: Doc<T>, d': Doc<T>, all: set<T>, c: T, kind: Kind)
  {
    && (forall x | x in all :: d.Has(x) && d'.Has(x) && (d.Defined(x) ==> d'.Defined(x)) && d'.layout[x] == d.layout[x] && d'.ties[x] == d.ties[x])
    && (forall x | x in all && x != c :: d'.face[x] == d.face[x])
    && c in all && d'.face[c].0 == kind
  }

  /** Of the nodes in `all`, at most `m` and those below it have changed. */
  ghost predicate OutsideKept<T>(d: Doc<T>, d': Doc<T>, all: set<T>, m: T)
  {
    && m in all && d.Has(m)
    && forall x | x in all :: d.Has(x) && d'.Has(x) && (x != m && x !in Below(d, m) ==> d'.layout[x] == d.layout[x] && d'.face[x] == d.face[x])
  }

  lemma NodeShrinks<T>(d: Doc<T>, d': Doc<T>, x: T)
    requires d.Has(x) && d'.Has(x) && (d'.layout[x] == d.layout[x] || d'.layout[x].0 == Emptied()) && Forks(d, x)
    ensures Below(d', x) <= Below(d, x) && Forks(d', x)
  {
  }

  /** Trees stay trees when nothing is added to them and no node gets more company. */
  lemma TreesShrink<T>(d: Doc<T>, d': Doc<T>, tops: set<T>, all: set<T>)
    requires Trees(d, tops, all)
    requires forall x | x in all :: d'.Has(x) && (d'.layout[x] == d.layout[x] || d'.layout[x].0 == Emptied())
    requires forall x, y | x in all && y in all && y in d'.Kin(x) :: y in d.Kin(x) || y == x
    ensures Trees(d', tops, all)
  {
    hide Below, Forks;
    forall x | x in all ensures d'.Has(x) && Below(d', x) <= Below(d, x) && Forks(d', x) {
      NodeShrinks(d, d', x);
    }
  }

  lemma WrittenTrees<T>(d: Doc<T>, d': Doc<T>, tops: set<T>, all: set<T>, v: T, text: string)
    requires Trees(d, tops, all) && Written(d, d', all, v, text) && v in all
    ensures Trees(d', tops, all)
  {
    hide Trees;
    TreesShrink(d, d', tops, all);
  }

  lemma LookedTrees<T>(d: Doc<T>, d': Doc<T>, tops: set<T>, all: set<T>, c: T, kind: Kind)
    requires Trees(d, tops, all) && Looked(d, d', all, c, kind)
    ensures Trees(d', tops, all)
  {
    hide Trees;
    TreesShrink(d, d', tops, all);
  }

  /** The value in a field: below its entry, and nothing else there. */
  lemma CellIsBelow<T>(d: Doc<T>, m: T, a: nat)
    requires d.Has(m) && a < |d.layout[m].0.pairs| && Forks(d, m)
    ensures d.layout[m].0.pairs[a].0 in Below(d, m) && d.layout[m].0.pairs[a].1 in Below(d, m)
    ensures forall b | 0 <= b < |d.layout[m].0.pairs| :: d.layout[m].0.pairs[b].0 != d.layout[m].0.pairs[a].1
    ensures forall b | 0 <= b < |d.layout[m].0.pairs| && b != a :: d.layout[m].0.pairs[b].1 != d.layout[m].0.pairs[a].1
  {
    assert d.layout[m].0.pairs[a] in d.layout[m].0.pairs;
  }

  lemma RowCells<T>(d: Doc<T>, m: T, row: Row, a: nat)
    requires ShowsRow(d, m, row) && a < |row|
    ensures a < |d.layout[m].0.pairs| && ShowsText(d, d.layout[m].0.pairs[a].0, row[a].0) && ShowsText(d, d.layout[m].0.pairs[a].1, row[a].1)
    ensures d.layout[m].0.pairs[a].0 != m && d.layout[m].0.pairs[a].1 != m
  {
  }

  lemma TreesMean<T>(d: Doc<T>, tops: set<T>, all: set<T>, m: T)
    requires Trees(d, tops, all) && m in all
    ensures d.Has(m) && Below(d, m) <= all && Below(d, m) !! tops && Forks(d, m)
    ensures forall x | x in all && x != m :: d.Has(x) && Below(d, x) !! Below(d, m)
    ensures forall x | x in all && x in d.Kin(m) :: x == m
  {
    hide Below, Forks;
  }

  /** What a row shows after one of its cells has been written. */
  lemma CellWritten<T>(d0: Doc<T>, d1: Doc<T>, d2: Doc<T>, all: set<T>, m: T, row: Row, a: nat, text: string)
    requires ShowsRow(d0, m, row) && a < |row| && d0.Has(m) && Forks(d0, m) && Below(d0, m) <= all && m in all
    requires Looked(d0, d1, all, m, Map) && Written(d1, d2, all, d0.layout[m].0.pairs[a].1, text)
    ensures ShowsRow(d2, m, row[a := (row[a].0, text)])
  {
    var pairs, v := d0.layout[m].0.pairs, d0.layout[m].0.pairs[a].1;
    RowCells(d0, m, row, a);
    assert m != v && d2.layout[m] == d0.layout[m];
    CellIsBelow(d0, m, a);
    forall b | 0 <= b < |row|
      ensures ShowsText(d2, pairs[b].0, row[b].0) && ShowsText(d2, pairs[b].1, if b == a then text else row[b].1)
    {
      PairIsBelow(d0, m, b);
      CellKept(d0, d1, d2, all, m, row, b, v, text);
    }
    hide Below, Forks, ShowsText, Written, Looked;
    RowFrom(d2, m, pairs, row[a := (row[a].0, text)]) by { RowStays(d0, d1, d2, all, m, v, text); }
  }

  lemma RowStays<T>(d0: Doc<T>, d1: Doc<T>, d2: Doc<T>, all: set<T>, m: T, v: T, text: string)
    requires m in all && m != v && Looked(d0, d1, all, m, Map) && Written(d1, d2, all, v, text) && d0.Has(m) && d0.Defined(m)
    ensures d2.Has(m) && d2.Defined(m) && d2.face[m].0 == Map && d2.layout[m] == d0.layout[m]
  {
  }

  lemma RowFrom<T>(d: Doc<T>, m: T, pairs: seq<(T, T)>, row: Row)
    requires d.Has(m) && d.Defined(m) && d.face[m].0 == Map && d.layout[m].0.pairs == pairs && |pairs| == |row|
    requires forall b | 0 <= b < |row| :: ShowsText(d, pairs[b].0, row[b].0) && ShowsText(d, pairs[b].1, row[b].1)
    ensures ShowsRow(d, m, row)
  {
  }

  /** A cell other than the written one still shows what it did. */
  lemma CellKept<T>(d0: Doc<T>, d1: Doc<T>, d2: Doc<T>, all: set<T>, m: T, row: Row, b: nat, v: T, text: string)
    requires ShowsRow(d0, m, row) && b < |row| && Looked(d0, d1, all, m, Map) && Written(d1, d2, all, v, text) && d0.Has(m)
    requires d0.layout[m].0.pairs[b].0 in all && d0.layout[m].0.pairs[b].1 in all
    ensures d0.layout[m].0.pairs[b].0 != v ==> ShowsText(d2, d0.layout[m].0.pairs[b].0, row[b].0)
    ensures ShowsText(d2, d0.layout[m].0.pairs[b].1, if d0.layout[m].0.pairs[b].1 == v then text else row[b].1)
  {
    RowCells(d0, m, row, b);
  }

  lemma PairIsBelow<T>(d: Doc<T>, m: T, a: nat)
    requires d.Has(m) && a < |d.layout[m].0.pairs|
    ensures d.layout[m].0.pairs[a].0 in Below(d, m) && d.layout[m].0.pairs[a].1 in Below(d, m)
  {
    assert d.layout[m].0.pairs[a] in d.layout[m].0.pairs;
  }

  lemma LookedWritten<T>(d0: Doc<T>, d1: Doc<T>, d2: Doc<T>, all: set<T>, m: T, v: T, text: string)
    requires d0.Has(m) && v in Below(d0, m) && Looked(d0, d1, all, m, Map) && Written(d1, d2, all, v, text)
    ensures OutsideKept(d0, d2, all, m) && forall x | x in all :: d0.Defined(x) ==> d2.Defined(x)
  {
    hide Below;
  }

  /** An existing field gets a text. */
  lemma FoundSet<T>(d0: Doc<T>, d1: Doc<T>, d2: Doc<T>, tops: set<T>, all: set<T>, m: T, row: Row, a: nat, text: string)
    requires Tidy(d0, tops, all) && m in all && ShowsRow(d0, m, row) && a < |row| && a < |d0.layout[m].0.pairs|
    requires Looked(d0, d1, all, m, Map) && Written(d1, d2, all, d0.layout[m].0.pairs[a].1, text)
    ensures Tidy(d2, tops, all) && ShowsRow(d2, m, row[a := (row[a].0, text)]) && OutsideKept(d0, d2, all, m)
  {
    var v := d0.layout[m].0.pairs[a].1;
    TreesMean(d0, tops, all, m);
    PairIsBelow(d0, m, a);
    hide Below, Forks, Trees, Looked, Written, ShowsRow, OutsideKept;
    LookedTrees(d0, d1, tops, all, m, Map);
    WrittenTrees(d1, d2, tops, all, v, text);
    CellWritten(d0, d1, d2, all, m, row, a, text);
    LookedWritten(d0, d1, d2, all, m, v, text);
  }

  // ---- a new field ----

  /** `m` has a new last pair of two new nodes, the first of which spells the key; nothing else is different but
      the kind of `m`. */
  ghost predicate Entered<T>(d: Doc<T>, d': Doc<T>, all: set<T>, m: T, k: T, v: T, key: string)
  {
    && m in all && k !in all && v !in all && k != v && ShowsText(d', k, key) && d'.Has(v) && d'.Has(m)
    && d'.layout[k].0 == Emptied() && d'.layout[v].0 == Emptied() && d'.Kin(k) == {k} && d'.Kin(v) == {v}
    && (forall x | x in all :: d.Has(x) && d'.Has(x) && (d.Defined(x) ==> d'.Defined(x)) && d'.ties[x] == d.ties[x])
    && (forall x | x in all :: k !in d.Kin(x) && v !in d.Kin(x))
    && (forall x | x in all && x != m :: d'.layout[x] == d.layout[x] && d'.face[x] == d.face[x])
    && d'.layout[m].0 == (var s := d.layout[m].0; Store(s.sequence, s.seqSize, s.pairs + [(k, v)])) && d'.face[m].0 == Map
  }

  lemma PairAdds<T>(d: Doc<T>, d': Doc<T>, m: T, k: T, v: T)
    requires d.Has(m) && d'.Has(m) && k !in Below(d, m) && v !in Below(d, m) && k != v && Forks(d, m)
    requires d'.layout[m].0 == (var s := d.layout[m].0; Store(s.sequence, s.seqSize, s.pairs + [(k, v)]))
    ensures Below(d', m) == Below(d, m) + {k, v} && Forks(d', m)
  {
    var ps, ps' := d.layout[m].0.pairs, d'.layout[m].0.pairs;
    assert forall p :: p in ps' <==> p in ps || p == (k, v);
    assert (k, v) in ps';
    forall a | 0 <= a < |ps| ensures ps[a].0 in Below(d, m) && ps[a].1 in Below(d, m) { PairIsBelow(d, m, a); }
    assert forall a | 0 <= a < |ps| :: ps'[a] == ps[a];
    assert Below(d', m) == Below(d, m) + {k, v};
  }

  lemma NothingBelow<T>(d: Doc<T>, x: T)
    requires d.Has(x) && d.layout[x].0 == Emptied()
    ensures Below(d, x) == {} && Forks(d, x)
  {
  }

  lemma SameBelow<T>(d: Doc<T>, d': Doc<T>, x: T)
    requires d.Has(x) && d'.Has(x) && d'.layout[x].0 == d.layout[x].0
    ensures Below(d', x) == Below(d, x) && (Forks(d', x) <==> Forks(d, x))
  {
  }

  lemma EnteredTrees<T>(d: Doc<T>, d': Doc<T>, tops: set<T>, all: set<T>, m: T, k: T, v: T, key: string)
    requires Trees(d, tops, all) && Entered(d, d', all, m, k, v, key)
    ensures Trees(d', tops, all + {k, v})
  {
    hide Below, Forks;
    PairAdds(d, d', m, k, v);
    NothingBelow(d', k);
    NothingBelow(d', v);
    forall x | x in all && x != m ensures Below(d', x) == Below(d, x) && Forks(d', x) { SameBelow(d, d', x); }
    var all' := all + {k, v};
    assert forall n | n in all' :: Below(d', n) == if n == m then Below(d, m) + {k, v} else if n in all then Below(d, n) else {};
    KinOfEntered(d, d', all, m, k, v, key);
    NewTrees(d, d', tops, all, m, k, v);
  }

  lemma KinOfEntered<T>(d: Doc<T>, d': Doc<T>, all: set<T>, m: T, k: T, v: T, key: string)
    requires Entered(d, d', all, m, k, v, key) && forall n, l | n in all && l in all && l in d.Kin(n) :: l == n
    ensures forall n | n in all + {k, v} :: d'.Has(n)
    ensures forall n, l | n in all + {k, v} && l in all + {k, v} && l in d'.Kin(n) :: l == n
  {
    forall n, l | n in all + {k, v} && l in all + {k, v} && l in d'.Kin(n) ensures l == n {
      if n in all { assert d'.Kin(n) == d.Kin(n); }
    }
  }

  lemma NewTrees<T>(d: Doc<T>, d': Doc<T>, tops: set<T>, all: set<T>, m: T, k: T, v: T)
    requires Trees(d, tops, all) && m in all && k !in all && v !in all
    requires forall n | n in all + {k, v} :: d'.Has(n) && Forks(d', n)
    requires forall n | n in all + {k, v} :: Below(d', n) == if n == m then Below(d, m) + {k, v} else if n in all then Below(d, n) else {}
    requires forall n, l | n in all + {k, v} && l in all + {k, v} && l in d'.Kin(n) :: l == n
    ensures Trees(d', tops, all + {k, v})
  {
    hide Below, Forks;
  }

  /** A cell of the row to which a pair has been added. */
  lemma CellCarried<T>(d0: Doc<T>, d1: Doc<T>, d2: Doc<T>, all: set<T>, m: T, row: Row, k: T, v: T, key: string, text: string, b: nat)
    requires ShowsRow(d0, m, row) && b < |row| && d0.Has(m) && Entered(d0, d1, all, m, k, v, key) && Written(d1, d2, all + {k, v}, v, text)
    requires d0.layout[m].0.pairs[b].0 in all && d0.layout[m].0.pairs[b].1 in all
    ensures ShowsText(d2, d0.layout[m].0.pairs[b].0, row[b].0) && ShowsText(d2, d0.layout[m].0.pairs[b].1, row[b].1)
  {
    RowCells(d0, m, row, b);
  }

  lemma NewRowStays<T>(d0: Doc<T>, d1: Doc<T>, d2: Doc<T>, all: set<T>, m: T, k: T, v: T, key: string, text: string)
    requires Entered(d0, d1, all, m, k, v, key) && Written(d1, d2, all + {k, v}, v, text) && d0.Has(m) && d0.Defined(m)
    ensures d2.Has(m) && d2.Defined(m) && d2.face[m].0 == Map && d2.layout[m].0.pairs == d0.layout[m].0.pairs + [(k, v)]
    ensures ShowsText(d2, k, key) && ShowsText(d2, v, text)
  {
  }

  lemma NewCellWritten<T>(d0: Doc<T>, d1: Doc<T>, d2: Doc<T>, all: set<T>, m: T, row: Row, k: T, v: T, key: string, text: string)
    requires ShowsRow(d0, m, row) && d0.Has(m) && Below(d0, m) <= all
    requires Entered(d0, d1, all, m, k, v, key) && Written(d1, d2, all + {k, v}, v, text)
    ensures ShowsRow(d2, m, row + [(key, text)])
  {
    hide *;
    HasMeans(d0, m);
    RowSize(d0, m, row);
    var pairs, row', pairs' := d0.layout[m].0.pairs, row + [(key, text)], d0.layout[m].0.pairs + [(k, v)];
    NewRowStays(d0, d1, d2, all, m, k, v, key, text);
    forall b | 0 <= b < |row'| ensures ShowsText(d2, pairs'[b].0, row'[b].0) && ShowsText(d2, pairs'[b].1, row'[b].1) {
      if b < |row| {
        PairIsBelow(d0, m, b);
        CellCarried(d0, d1, d2, all, m, row, k, v, key, text, b);
      }
    }
    HasMeans(d2, m);
    RowFrom(d2, m, pairs', row');
  }

  lemma RowSize<T>(d: Doc<T>, m: T, row: Row)
    requires ShowsRow(d, m, row)
    ensures d.Has(m) && d.Defined(m) && |d.layout[m].0.pairs| == |row|
  {
    hide ShowsText;
  }

  lemma EnteredWritten<T>(d0: Doc<T>, d1: Doc<T>, d2: Doc<T>, all: set<T>, m: T, k: T, v: T, key: string, text: string)
    requires d0.Has(m) && Entered(d0, d1, all, m, k, v, key) && Written(d1, d2, all + {k, v}, v, text) && forall x | x in all :: d0.Defined(x)
    ensures OutsideKept(d0, d2, all, m) && forall x | x in all + {k, v} :: d2.Defined(x)
  {
    hide Below;
  }

  /** A new field comes with its text. */
  lemma NewSet<T>(d0: Doc<T>, d1: Doc<T>, d2: Doc<T>, tops: set<T>, all: set<T>, m: T, row: Row, k: T, v: T, key: string, text: string)
    requires Tidy(d0, tops, all) && m in all && ShowsRow(d0, m, row)
    requires Entered(d0, d1, all, m, k, v, key) && Written(d1, d2, all + {k, v}, v, text)
    ensures Tidy(d2, tops, all + {k, v}) && ShowsRow(d2, m, row + [(key, text)]) && OutsideKept(d0, d2, all, m)
  {
    TreesMean(d0, tops, all, m);
    hide Below, Forks, Trees, Entered, Written, ShowsRow, OutsideKept;
    EnteredTrees(d0, d1, tops, all, m, k, v, key);
    WrittenTrees(d1, d2, tops, all + {k, v}, v, text);
    NewCellWritten(d0, d1, d2, all, m, row, k, v, key, text);
    EnteredWritten(d0, d1, d2, all, m, k, v, key, text);
  }

  // ---- looking a field up ----

  lemma KeyStep<T>(m: Moment<T>, x: nat, key: string, how: Choice<T>, m': Moment<T>)
    requires Step(m, Key(x, key), how, m') && Bound(m.hs, x)
    ensures m.doc.Has(m.hs[x].value) && |m'.hs| == |m.hs| + 1 && Extends(m.hs, m'.hs)
    ensures KeyEffect(m.doc, m.hs[x].value, key, how.at, if how.key.Some? then how.key.value else m.hs[x].value, m'.hs[|m.hs|], m'.doc)
    ensures m.doc.marks.done <= m'.doc.marks.done && forall n | m.doc.Has(n) :: m'.doc.Has(n)
  {
    var c, k := m.hs[x].value, if how.key.Some? then how.key.value else m.hs[x].value;
    StepMeans(m, Key(x, key), how, m');
    HasStays(m, Key(x, key), how, m');
    MovesIndexed(m.doc, m.hs, Key(x, key), how, m'.doc, m'.hs);
    hide Moves, Step, Handled, Doc<T>.Valid, Doc<T>.Bonded, Doc<T>.Has, KeyEffect, LookedUp;
    KeyGives(m.doc, c, key, how.at, k, m'.hs[|m.hs|], m'.doc);
  }

  /** The place of a key in a row is that of the first pair that spells it. */
  lemma FirstIsIndex<T>(d: Doc<T>, m: T, row: Row, key: string, at: nat)
    requires ShowsRow(d, m, row) && at <= |row| && |d.layout[m].0.pairs| == |row|
    requires forall a | 0 <= a < at :: !d.Spells(d.layout[m].0.pairs[a].0, key)
    requires at < |row| ==> d.Spells(d.layout[m].0.pairs[at].0, key)
    ensures at == KeyIndex(row, key)
  {
    forall a | 0 <= a < |row| ensures d.Spells(d.layout[m].0.pairs[a].0, key) <==> row[a].0 == key {
      RowCells(d, m, row, a);
    }
  }

  lemma TreesAlone<T>(d: Doc<T>, tops: set<T>, all: set<T>, v: T)
    requires Trees(d, tops, all) && v in all
    ensures Alone(d, all, v) && forall x | x in all :: d.Has(x)
  {
    hide Below, Forks;
  }

  /** Nothing but the kind of `c`, and of those who share with it, may have changed. */
  ghost predicate Peeked<T>(d: Doc<T>, d': Doc<T>, c: T, kind: Kind)
  {
    d.Has(c) && SameShape(d, d') && Turned(d, c, kind, d')
  }

  /** A field that is there is found, and nothing changes. */
  lemma FieldFound<T>(m: Moment<T>, x: nat, key: string, how: Choice<T>, m': Moment<T>, tops: set<T>, all: set<T>, row: Row)
    requires Step(m, Key(x, key), how, m') && Bound(m.hs, x) && KeyIndex(row, key) < |row|
    requires Tidy(m.doc, tops, all) && m.hs[x].value in all && ShowsRow(m.doc, m.hs[x].value, row)
    ensures |m'.hs| == |m.hs| + 1 && Extends(m.hs, m'.hs)
    ensures |m.doc.layout[m.hs[x].value].0.pairs| == |row|
    ensures m'.hs[|m.hs|] == Some(m.doc.layout[m.hs[x].value].0.pairs[KeyIndex(row, key)].1)
    ensures Looked(m.doc, m'.doc, all, m.hs[x].value, Map) && Peeked(m.doc, m'.doc, m.hs[x].value, Map)
  {
    KeyStep(m, x, key, how, m');
    hide Step, Moves, Extends, Below, Forks;
    var c := m.hs[x].value;
    RowIndex(m.doc, c, row, key, how, m'.hs[|m.hs|], m'.doc);
    TreesMean(m.doc, tops, all, c);
    FoundLooks(m.doc, c, key, how.at, if how.key.Some? then how.key.value else c, m'.hs[|m.hs|].value, m'.doc, all);
  }

  lemma RowIndex<T>(d: Doc<T>, c: T, row: Row, key: string, how: Choice<T>, r: Option<T>, d': Doc<T>)
    requires ShowsRow(d, c, row) && KeyEffect(d, c, key, how.at, if how.key.Some? then how.key.value else c, r, d')
    ensures r.Some? && how.at == KeyIndex(row, key) && |d.layout[c].0.pairs| == |row|
  {
    FirstIsIndex(d, c, row, key, how.at);
  }

  lemma FoundLooks<T>(d: Doc<T>, c: T, key: string, at: nat, k: T, n: T, d': Doc<T>, all: set<T>)
    requires d.Has(c) && KeyEffect(d, c, key, at, k, Some(n), d') && at < |d.layout[c].0.pairs| && c in all
    requires (forall x | x in all :: d.Has(x)) && (forall x | x in all && x in d.Kin(c) :: x == c) && c in d.Kin(c)
    requires d.marks.done <= d'.marks.done && forall x | d.Has(x) :: d'.Has(x)
    ensures Looked(d, d', all, c, Map) && n == d.layout[c].0.pairs[at].1 && Peeked(d, d', c, Map)
  {
  }

  /** A field that is not there is made. */
  lemma FieldEntered<T>(m: Moment<T>, x: nat, key: string, how: Choice<T>, m': Moment<T>, tops: set<T>, all: set<T>, row: Row) returns (k: T, v: T)
    requires Step(m, Key(x, key), how, m') && Bound(m.hs, x) && KeyIndex(row, key) == |row|
    requires Tidy(m.doc, tops, all) && m.hs[x].value in all && ShowsRow(m.doc, m.hs[x].value, row)
    ensures |m'.hs| == |m.hs| + 1 && Extends(m.hs, m'.hs) && m'.hs[|m.hs|] == Some(v)
    ensures Entered(m.doc, m'.doc, all, m.hs[x].value, k, v, key) && k !in m.doc.layout && v !in m.doc.layout
  {
    var c := m.hs[x].value;
    k := if how.key.Some? then how.key.value else c;
    KeyStep(m, x, key, how, m');
    StepMeans(m, Key(x, key), how, m');
    hide Step, Moves, Extends, Below, Forks, Handled, Doc<T>.Valid, Doc<T>.Bonded;
    RowIndex(m.doc, c, row, key, how, m'.hs[|m.hs|], m'.doc);
    v := m'.hs[|m.hs|].value;
    TreesMean(m.doc, tops, all, c);
    KinHasSelf(m.doc, c);
    NewEnters(m.doc, c, key, how.at, k, v, m'.doc, all);
  }

  /** What making an entry does, part by part. */
  lemma EntryParts<T>(d: Doc<T>, c: T, key: string, at: nat, k: T, v: T, d': Doc<T>)
    requires d.Has(c) && KeyEffect(d, c, key, at, k, Some(v), d') && at == |d.layout[c].0.pairs|
    ensures k != v && Made(d, k, d') && Made(d, v, d') && ShowsText(d', k, key) && Turned(d, c, Map, d')
    ensures var (s, o) := d.layout[c];
      Grown(d, c, (Store(s.sequence, s.seqSize, s.pairs + [(k, v)]), o.(literals := o.literals + {k})), d')
  {
    hide Turned, Grown, Doc<T>.Spells;
  }

  lemma NewEnters<T>(d: Doc<T>, c: T, key: string, at: nat, k: T, v: T, d': Doc<T>, all: set<T>)
    requires d.Valid() && d.Bonded() && d.Has(c) && KeyEffect(d, c, key, at, k, Some(v), d') && at == |d.layout[c].0.pairs| && c in all
    requires (forall x | x in all :: d.Has(x)) && (forall x | x in all && x in d.Kin(c) :: x == c) && c in d.Kin(c)
    requires d.marks.done <= d'.marks.done && forall x | d.Has(x) :: d'.Has(x)
    ensures Entered(d, d', all, c, k, v, key) && k !in d.layout && v !in d.layout
  {
    EntryParts(d, c, key, at, k, v, d');
    assert k !in d.layout && v !in d.layout;
    forall x | x in all ensures k !in d.Kin(x) && v !in d.Kin(x) {
      KinIsOld(d, x, k);
      KinIsOld(d, x, v);
    }
    hide Doc<T>.Valid, Doc<T>.Bonded, KeyEffect, Entered;
    EntersFrom(d, c, key, k, v, d', all);
  }

  lemma EntersFrom<T>(d: Doc<T>, c: T, key: string, k: T, v: T, d': Doc<T>, all: set<T>)
    requires d.Has(c) && k != v && Made(d, k, d') && Made(d, v, d') && ShowsText(d', k, key) && Turned(d, c, Map, d') && c in all
    requires var (s, o) := d.layout[c];
      Grown(d, c, (Store(s.sequence, s.seqSize, s.pairs + [(k, v)]), o.(literals := o.literals + {k})), d')
    requires (forall x | x in all :: d.Has(x) && k !in d.Kin(x) && v !in d.Kin(x)) && (forall x | x in all && x in d.Kin(c) :: x == c) && c in d.Kin(c)
    requires d.marks.done <= d'.marks.done && forall x | d.Has(x) :: d'.Has(x)
    ensures Entered(d, d', all, c, k, v, key)
  {
  }

  // ---- a whole entry ----

  /** What setting one field of `c` achieves. */
  ghost predicate Sets<T>(m: Moment<T>, m': Moment<T>, tops: set<T>, all: set<T>, all': set<T>, c: T, row: Row)
  {
    && all <= all' && (forall n | n in all' && n !in all :: n !in m.doc.layout)
    && Tidy(m'.doc, tops, all') && ShowsRow(m'.doc, c, row) && OutsideKept(m.doc, m'.doc, all, c) && Extends(m.hs, m'.hs)
    && m.doc.Has(c) && (forall x | x in all && x in Below(m'.doc, c) :: x in Below(m.doc, c))
    && m.doc.layout.Keys <= m'.doc.layout.Keys
  }

  lemma DoesOne<T>(r: Trace<T>, a: Op)
    requires Does(r, [a])
    ensures |r.at| == 2 && |r.hows| == 1 && Step(r.at[0], a, r.hows[0], r.at[1])
  {
    assert [a][0] == a;
    hide Step;
  }

  lemma DoesThree<T>(r: Trace<T>, a: Op, b: Op, c: Op)
    requires Does(r, [a, b, c])
    ensures |r.at| == 4 && |r.hows| == 3
    ensures Step(r.at[0], a, r.hows[0], r.at[1]) && Step(r.at[1], b, r.hows[1], r.at[2]) && Step(r.at[2], c, r.hows[2], r.at[3])
  {
    var ops := [a, b, c];
    assert Step(r.at[0], ops[0], r.hows[0], r.at[1]) && Step(r.at[1], ops[1], r.hows[1], r.at[2]) && Step(r.at[2], ops[2], r.hows[2], r.at[3]);
    hide Step;
  }

  /** What is left of setting a field when its node has been looked up. */
  function WriteOps(count: nat, e: Entry): seq<Op>
  {
    match e
    case Plainly(_, text) => [Op.Assign(count, text)]
    case Encoded(_, text) => [Op.Create, Op.Assign(count + 1, text), ShareData(count, count + 1)]
  }

  lemma SetEntryIs(count: nat, n: nat, e: Entry)
    ensures SetEntry(count, n, e) == [Key(n, e.key)] + WriteOps(count, e)
    ensures Variables(count, SetEntry(count, n, e)) == count + if e.Plainly? then 1 else 2
  {
    var ops := WriteOps(count, e);
    VariablesJoin(count, [Key(n, e.key)], ops);
    assert Variables(count, [Key(n, e.key)]) == count + 1 by { assert [Key(n, e.key)][1..] == []; }
    if e.Encoded? {
      VariablesJoin(count + 1, [ops[0]], [ops[1]] + [ops[2]]);
      VariablesJoin(count + 2, [ops[1]], [ops[2]]);
      assert ops == [ops[0]] + ([ops[1]] + [ops[2]]);
    }
  }

  lemma {:induction false} VariablesJoin(count: nat, a: seq<Op>, b: seq<Op>)
    ensures Variables(count, a + b) == Variables(Variables(count, a), b)
    decreases |a|
  {
    if a == [] {
      assert a + b == b;
    } else {
      assert (a + b)[0] == a[0] && (a + b)[1..] == a[1..] + b;
      VariablesJoin(if a[0].Create? || a[0].At? || a[0].Key? then count + 1 else count, a[1..], b);
    }
  }

  /** The text of a field is written into the node that has been looked up. */
  lemma TextWritten<T>(r: Trace<T>, e: Entry, all: set<T>, count: nat)
    requires Does(r, WriteOps(count, e)) && |r.Start().hs| == count + 1 && Bound(r.Start().hs, count)
    requires r.Start().hs[count].value in all && Alone(r.Start().doc, all, r.Start().hs[count].value)
    requires forall x | x in all :: r.Start().doc.Has(x)
    ensures Extends(r.Start().hs, r.End().hs) && |r.End().hs| == count + if e.Plainly? then 1 else 2
    ensures Written(r.Start().doc, r.End().doc, all, r.Start().hs[count].value, e.text)
  {
    hide Step, Written, Alone, Does, Doc<T>.Has;
    if e.Plainly? {
      DoesOne(r, Op.Assign(count, e.text));
      AssignWritten(r.at[0], count, e.text, r.hows[0], r.at[1], all);
    } else {
      DoesThree(r, Op.Create, Op.Assign(count + 1, e.text), ShareData(count, count + 1));
      EncodedWritten(r.at[0], r.hows[0], r.at[1], r.hows[1], r.at[2], r.hows[2], r.at[3], count, e.text, all);
    }
  }

  lemma FoundBelow<T>(d0: Doc<T>, d1: Doc<T>, d2: Doc<T>, all: set<T>, c: T, v: T, text: string)
    requires Looked(d0, d1, all, c, Map) && Written(d1, d2, all, v, text) && v != c
    ensures d0.Has(c) && d2.Has(c) && Below(d2, c) == Below(d0, c)
  {
    SameBelow(d0, d2, c);
    hide Below;
  }

  lemma EnteredMeans<T>(d0: Doc<T>, d1: Doc<T>, all: set<T>, c: T, k: T, v: T, key: string)
    requires Entered(d0, d1, all, c, k, v, key)
    ensures c in all && k !in all && v !in all && k != v && d0.Has(c) && d1.Has(c) && c != v
    ensures d1.layout[c].0 == (var s := d0.layout[c].0; Store(s.sequence, s.seqSize, s.pairs + [(k, v)]))
  {
  }

  lemma WrittenKeeps<T>(d1: Doc<T>, d2: Doc<T>, all: set<T>, v: T, text: string, c: T)
    requires Written(d1, d2, all, v, text) && c in all && c != v
    ensures d1.Has(c) && d2.Has(c) && d2.layout[c] == d1.layout[c]
  {
  }

  lemma NewBelow<T>(d0: Doc<T>, d1: Doc<T>, d2: Doc<T>, all: set<T>, c: T, k: T, v: T, key: string, text: string)
    requires d0.Has(c) && Entered(d0, d1, all, c, k, v, key) && Written(d1, d2, all + {k, v}, v, text) && Below(d0, c) <= all && Forks(d0, c)
    ensures d2.Has(c) && forall x | x in all && x in Below(d2, c) :: x in Below(d0, c)
  {
    EnteredMeans(d0, d1, all, c, k, v, key);
    WrittenKeeps(d1, d2, all + {k, v}, v, text, c);
    hide Below, Forks, Entered, Written, Doc<T>.Has;
    PairAdds(d0, d1, c, k, v);
    SameBelow(d1, d2, c);
  }

  lemma StepGrows<T>(m: Moment<T>, op: Op, how: Choice<T>, m': Moment<T>)
    requires Step(m, op, how, m')
    ensures m.doc.layout.Keys <= m'.doc.layout.Keys
  {
    hide *;
    StepMeans(m, op, how, m');
    HasStays(m, op, how, m');
    FaceKeys(m.doc);
    FaceKeys(m'.doc);
    forall n | n in m.doc.layout ensures n in m'.doc.layout { HasMeans(m'.doc, n); }
  }

  lemma HasMeans<T>(d: Doc<T>, n: T)
    requires d.Has(n)
    ensures n in d.layout
  {
  }

  lemma {:induction false} DoesGrows<T>(r: Trace<T>, ops: seq<Op>)
    requires Does(r, ops)
    ensures r.at != [] && r.Start().doc.layout.Keys <= r.End().doc.layout.Keys
    decreases |ops|
  {
    hide Step, Good;
    if ops != [] {
      assert ops == [ops[0]] + ops[1..];
      FirstStep(r, ops[0], ops[1..]);
      StepGrows(r.at[0], ops[0], r.hows[0], r.at[1]);
      DoesGrows(r.From(1), ops[1..]);
    }
  }

  /** Variable `x` holds `c`. */
  predicate IsAt<T(==)>(hs: Handles<T>, x: nat, c: T)
  {
    x < |hs| && hs[x] == Some(c)
  }

  /** `v` is the value in the field of the row that `c` shows. */
  ghost predicate IsCell<T>(d: Doc<T>, c: T, row: Row, key: string, v: T)
  {
    var a := KeyIndex(row, key);
    d.Has(c) && a < |row| && a < |d.layout[c].0.pairs| && d.layout[c].0.pairs[a].1 == v
  }

  lemma FoundAt<T>(m: Moment<T>, x: nat, c: T, key: string, how: Choice<T>, m': Moment<T>, tops: set<T>, all: set<T>, row: Row) returns (v: T)
    requires Step(m, Key(x, key), how, m') && IsAt(m.hs, x, c) && KeyIndex(row, key) < |row|
    requires Tidy(m.doc, tops, all) && c in all && ShowsRow(m.doc, c, row)
    ensures |m'.hs| == |m.hs| + 1 && Extends(m.hs, m'.hs) && IsAt(m'.hs, |m.hs|, v) && Looked(m.doc, m'.doc, all, c, Map)
    ensures IsCell(m.doc, c, row, key, v) && v in all && v != c && Peeked(m.doc, m'.doc, c, Map)
  {
    hide *;
    var a := KeyIndex(row, key);
    AtMeans(m.hs, x, c);
    FieldFound(m, x, key, how, m', tops, all, row);
    TidyTrees(m.doc, tops, all);
    TreesMean(m.doc, tops, all, c);
    RowCells(m.doc, c, row, a);
    PairIsBelow(m.doc, c, a);
    HasMeans(m.doc, c);
    v := m.doc.layout[c].0.pairs[a].1;
    AtNew(m'.hs, |m.hs|, v);
    CellIs(m.doc, c, row, key, v);
  }

  lemma AtMeans<T>(hs: Handles<T>, x: nat, c: T)
    requires IsAt(hs, x, c)
    ensures Bound(hs, x) && hs[x] == Some(c)
  {
  }

  lemma CellIs<T>(d: Doc<T>, c: T, row: Row, key: string, v: T)
    requires d.Has(c) && KeyIndex(row, key) < |row| && KeyIndex(row, key) < |d.layout[c].0.pairs|
    requires v == d.layout[c].0.pairs[KeyIndex(row, key)].1
    ensures IsCell(d, c, row, key, v)
  {
  }

  lemma FoundAfter<T>(d0: Doc<T>, d1: Doc<T>, d2: Doc<T>, tops: set<T>, all: set<T>, c: T, row: Row, key: string, v: T, text: string)
    requires Tidy(d0, tops, all) && c in all && ShowsRow(d0, c, row) && IsCell(d0, c, row, key, v) && v != c
    requires Looked(d0, d1, all, c, Map) && Written(d1, d2, all, v, text)
    ensures Tidy(d2, tops, all) && ShowsRow(d2, c, SetField(row, key, text)) && OutsideKept(d0, d2, all, c)
    ensures d0.Has(c) && d2.Has(c) && Below(d2, c) == Below(d0, c)
  {
    FoundSet(d0, d1, d2, tops, all, c, row, KeyIndex(row, key), text);
    FoundBelow(d0, d1, d2, all, c, v, text);
    hide Tidy, ShowsRow, OutsideKept, Below, Looked, Written;
  }

  lemma SetsFrom<T>(m: Moment<T>, m': Moment<T>, tops: set<T>, all: set<T>, all': set<T>, c: T, row: Row)
    requires all <= all' && (forall n | n in all' && n !in all :: n !in m.doc.layout) && Extends(m.hs, m'.hs)
    requires Tidy(m'.doc, tops, all') && ShowsRow(m'.doc, c, row) && OutsideKept(m.doc, m'.doc, all, c)
    requires m.doc.Has(c) && m'.doc.Has(c) && forall x | x in all && x in Below(m'.doc, c) :: x in Below(m.doc, c)
    requires m.doc.layout.Keys <= m'.doc.layout.Keys
    ensures Sets(m, m', tops, all, all', c, row)
  {
    hide Tidy, ShowsRow, OutsideKept, Below, Extends;
  }

  lemma FoundEntry<T>(m0: Moment<T>, h: Choice<T>, r: Trace<T>, x: nat, c: T, e: Entry, tops: set<T>, all: set<T>, row: Row)
    requires r.at != [] && Step(m0, Key(x, e.key), h, r.Start()) && Does(r, WriteOps(|m0.hs|, e)) && IsAt(m0.hs, x, c)
    requires Tidy(m0.doc, tops, all) && c in all && ShowsRow(m0.doc, c, row) && KeyIndex(row, e.key) < |row|
    ensures Sets(m0, r.End(), tops, all, all, c, SetField(row, e.key, e.text))
    ensures |r.End().hs| == |m0.hs| + if e.Plainly? then 1 else 2
  {
    hide *;
    var m1, m2 := r.Start(), r.End();
    var v := FoundAt(m0, x, c, e.key, h, m1, tops, all, row);
    TidyTrees(m0.doc, tops, all);
    LookedTrees(m0.doc, m1.doc, tops, all, c, Map);
    TreesAlone(m1.doc, tops, all, v);
    TextAt(r, e, all, |m0.hs|, v);
    FoundAfter(m0.doc, m1.doc, m2.doc, tops, all, c, row, e.key, v, e.text);
    StepGrows(m0, Key(x, e.key), h, m1);
    DoesGrows(r, WriteOps(|m0.hs|, e));
    ExtendsThen(m0.hs, m1.hs, m2.hs);
    SetsFrom(m0, m2, tops, all, all, c, SetField(row, e.key, e.text));
  }

  lemma TidyTrees<T>(d: Doc<T>, tops: set<T>, all: set<T>)
    requires Tidy(d, tops, all)
    ensures Trees(d, tops, all)
  {
    hide Trees;
  }

  lemma TextAt<T>(r: Trace<T>, e: Entry, all: set<T>, count: nat, v: T)
    requires Does(r, WriteOps(count, e)) && |r.at| > 0 && |r.Start().hs| == count + 1 && IsAt(r.Start().hs, count, v)
    requires v in all && Alone(r.Start().doc, all, v) && forall x | x in all :: r.Start().doc.Has(x)
    ensures Extends(r.Start().hs, r.End().hs) && |r.End().hs| == count + if e.Plainly? then 1 else 2
    ensures Written(r.Start().doc, r.End().doc, all, v, e.text)
  {
    hide Does, Extends, Written, Alone, Doc<T>.Has, WriteOps;
    TextWritten(r, e, all, count);
  }

  lemma NewAt<T>(m: Moment<T>, x: nat, c: T, key: string, how: Choice<T>, m': Moment<T>, tops: set<T>, all: set<T>, row: Row) returns (k: T, v: T)
    requires Step(m, Key(x, key), how, m') && IsAt(m.hs, x, c) && KeyIndex(row, key) == |row|
    requires Tidy(m.doc, tops, all) && c in all && ShowsRow(m.doc, c, row)
    ensures |m'.hs| == |m.hs| + 1 && Extends(m.hs, m'.hs) && IsAt(m'.hs, |m.hs|, v)
    ensures Entered(m.doc, m'.doc, all, c, k, v, key) && k !in m.doc.layout && v !in m.doc.layout
  {
    hide Step, Tidy, ShowsRow, Extends, Entered;
    k, v := FieldEntered(m, x, key, how, m', tops, all, row);
  }

  lemma NewAfter<T>(d0: Doc<T>, d1: Doc<T>, d2: Doc<T>, tops: set<T>, all: set<T>, c: T, row: Row, k: T, v: T, key: string, text: string)
    requires Tidy(d0, tops, all) && c in all && ShowsRow(d0, c, row) && KeyIndex(row, key) == |row|
    requires Entered(d0, d1, all, c, k, v, key) && Written(d1, d2, all + {k, v}, v, text)
    ensures Tidy(d2, tops, all + {k, v}) && ShowsRow(d2, c, SetField(row, key, text)) && OutsideKept(d0, d2, all, c)
    ensures d0.Has(c) && d2.Has(c) && forall x | x in all && x in Below(d2, c) :: x in Below(d0, c)
  {
    TidyTrees(d0, tops, all);
    TreesMean(d0, tops, all, c);
    hide Tidy, Trees, ShowsRow, OutsideKept, Below, Forks, Entered, Written, Doc<T>.Has;
    NewSet(d0, d1, d2, tops, all, c, row, k, v, key, text);
    NewBelow(d0, d1, d2, all, c, k, v, key, text);
  }

  lemma NewEntry<T>(m0: Moment<T>, h: Choice<T>, r: Trace<T>, x: nat, c: T, e: Entry, tops: set<T>, all: set<T>, row: Row) returns (all': set<T>)
    requires r.at != [] && Step(m0, Key(x, e.key), h, r.Start()) && Does(r, WriteOps(|m0.hs|, e)) && IsAt(m0.hs, x, c)
    requires Tidy(m0.doc, tops, all) && c in all && ShowsRow(m0.doc, c, row) && KeyIndex(row, e.key) == |row|
    ensures Sets(m0, r.End(), tops, all, all', c, SetField(row, e.key, e.text))
    ensures |r.End().hs| == |m0.hs| + if e.Plainly? then 1 else 2
  {
    hide *;
    var m1, m2 := r.Start(), r.End();
    var k, v := NewAt(m0, x, c, e.key, h, m1, tops, all, row);
    all' := all + {k, v};
    TidyTrees(m0.doc, tops, all);
    EnteredTrees(m0.doc, m1.doc, tops, all, c, k, v, e.key);
    TreesAlone(m1.doc, tops, all', v);
    TextAt(r, e, all', |m0.hs|, v);
    NewAfter(m0.doc, m1.doc, m2.doc, tops, all, c, row, k, v, e.key, e.text);
    StepGrows(m0, Key(x, e.key), h, m1);
    DoesGrows(r, WriteOps(|m0.hs|, e));
    ExtendsThen(m0.hs, m1.hs, m2.hs);
    SetsFrom(m0, m2, tops, all, all', c, SetField(row, e.key, e.text));
  }

  lemma FirstStep<T>(r: Trace<T>, a: Op, more: seq<Op>)
    requires Does(r, [a] + more)
    ensures |r.at| > 1 && |r.hows| > 0 && Step(r.at[0], a, r.hows[0], r.at[1]) && Does(r.From(1), more)
    ensures r.Start() == r.at[0] && r.From(1).at != [] && r.From(1).Start() == r.at[1] && r.From(1).End() == r.End()
  {
    Cut(r, [a], more);
    assert ([a] + more)[0] == a;
    hide Step;
  }

  /** `c[key] = text`: the row shows the field with its text, and every other node keeps what it had. */
  lemma EntrySet<T>(r: Trace<T>, x: nat, c: T, e: Entry, tops: set<T>, all: set<T>, row: Row) returns (all': set<T>)
    requires r.at != [] && Does(r, SetEntry(|r.Start().hs|, x, e)) && IsAt(r.Start().hs, x, c)
    requires Tidy(r.Start().doc, tops, all) && c in all && ShowsRow(r.Start().doc, c, row)
    ensures Sets(r.Start(), r.End(), tops, all, all', c, SetField(row, e.key, e.text))
    ensures |r.End().hs| == Variables(|r.Start().hs|, SetEntry(|r.Start().hs|, x, e))
  {
    hide *;
    var m0, count, i := r.Start(), |r.Start().hs|, KeyIndex(row, e.key);
    SetEntryIs(count, x, e);
    FirstStep(r, Key(x, e.key), WriteOps(count, e));
    if i < |row| {
      FoundEntry(m0, r.hows[0], r.From(1), x, c, e, tops, all, row);
      all' := all;
    } else {
      all' := NewEntry(m0, r.hows[0], r.From(1), x, c, e, tops, all, row);
    }
  }

  lemma ExtendsThen<T>(a: Handles<T>, b: Handles<T>, c: Handles<T>)
    requires Extends(a, b) && Extends(b, c)
    ensures Extends(a, c)
  {
    assert c[..|a|] == c[..|b|][..|a|];
  }

  lemma SetsSame<T>(m: Moment<T>, tops: set<T>, all: set<T>, c: T, row: Row)
    requires Tidy(m.doc, tops, all) && c in all && ShowsRow(m.doc, c, row)
    ensures Sets(m, m, tops, all, all, c, row)
  {
    TreesMean(m.doc, tops, all, c);
    hide Below, Forks, ShowsRow;
  }

  lemma SetsThen<T>(m0: Moment<T>, m1: Moment<T>, m2: Moment<T>, tops: set<T>, all: set<T>, all1: set<T>, all2: set<T>, c: T, row1: Row, row2: Row)
    requires Sets(m0, m1, tops, all, all1, c, row1) && Sets(m1, m2, tops, all1, all2, c, row2)
    ensures Sets(m0, m2, tops, all, all2, c, row2)
  {
    ExtendsThen(m0.hs, m1.hs, m2.hs);
    hide Below, Tidy, ShowsRow, Extends;
  }

  lemma SetsMean<T>(m: Moment<T>, m': Moment<T>, tops: set<T>, all: set<T>, all': set<T>, c: T, row: Row)
    requires Sets(m, m', tops, all, all', c, row)
    ensures Tidy(m'.doc, tops, all') && ShowsRow(m'.doc, c, row) && all <= all' && Extends(m.hs, m'.hs) && c in all
  {
    hide Below, Tidy, ShowsRow, Extends;
  }

  lemma AtStill<T>(hs: Handles<T>, hs': Handles<T>, x: nat, c: T)
    requires Extends(hs, hs') && IsAt(hs, x, c)
    ensures IsAt(hs', x, c)
  {
    StillBound(hs, hs', x);
  }

  lemma SetEntriesIs(count: nat, n: nat, es: seq<Entry>)
    requires es != []
    ensures var first := SetEntry(count, n, es[0]);
      && SetEntries(count, n, es) == first + SetEntries(Variables(count, first), n, es[1..])
      && Variables(count, SetEntries(count, n, es)) == Variables(Variables(count, first), SetEntries(Variables(count, first), n, es[1..]))
  {
    var first := SetEntry(count, n, es[0]);
    VariablesJoin(count, first, SetEntries(Variables(count, first), n, es[1..]));
  }

  /** All the entries of a list, one after the other. */
  lemma {:induction false} EntriesSet<T>(r: Trace<T>, x: nat, c: T, es: seq<Entry>, tops: set<T>, all: set<T>, row: Row) returns (all': set<T>)
    requires r.at != [] && Does(r, SetEntries(|r.Start().hs|, x, es)) && IsAt(r.Start().hs, x, c)
    requires Tidy(r.Start().doc, tops, all) && c in all && ShowsRow(r.Start().doc, c, row)
    ensures Sets(r.Start(), r.End(), tops, all, all', c, SetFields(row, es))
    ensures |r.End().hs| == Variables(|r.Start().hs|, SetEntries(|r.Start().hs|, x, es))
    decreases |es|
  {
    var m0, count := r.Start(), |r.Start().hs|;
    if es == [] {
      assert r.End() == m0;
      all' := all;
      SetsSame(m0, tops, all, c, row);
      hide Does, Sets;
    } else {
      var first := SetEntry(count, x, es[0]);
      var more, row1 := SetEntries(Variables(count, first), x, es[1..]), SetField(row, es[0].key, es[0].text);
      assert SetFields(row, es) == SetFields(row1, es[1..]);
      hide *;
      SetEntriesIs(count, x, es);
      Cut(r, first, more);
      var r1, r2 := r.To(|first|), r.From(|first|);
      var all1 := EntrySet(r1, x, c, es[0], tops, all, row);
      SetsMean(m0, r2.Start(), tops, all, all1, c, row1);
      AtStill(m0.hs, r2.Start().hs, x, c);
      all' := EntriesSet(r2, x, c, es[1..], tops, all1, row1);
      SetsThen(m0, r2.Start(), r.End(), tops, all, all1, all', c, row1, SetFields(row1, es[1..]));
    }
  }

  // ---- the file ----

  /** The document shows a file whose list, under "domains", is held by `list`, with entries `q` that show `rows`. */
  ghost predicate ShowsFile<T>(d: Doc<T>, root: T, list: T, q: seq<T>, rows: seq<Row>)
  {
    Leads(d, root, "domains", list) && ShowsList(d, list, q, rows)
  }

  /** The node has kept contents and face, and is still defined. */
  ghost predicate NodeKept<T>(d: Doc<T>, d': Doc<T>, x: T)
  {
    d.Has(x) && d'.Has(x) && (d.Defined(x) ==> d'.Defined(x)) && d'.layout[x] == d.layout[x] && d'.face[x] == d.face[x]
  }

  /** The same, but the kind may have become what it is taken for. */
  ghost predicate NodeTurned<T>(d: Doc<T>, d': Doc<T>, x: T, kind: Kind)
  {
    && d.Has(x) && d'.Has(x) && (d.Defined(x) ==> d'.Defined(x)) && d'.layout[x] == d.layout[x]
    && (d'.face[x] == d.face[x] || d'.face[x].0 == kind)
  }

  lemma TextKept<T>(d: Doc<T>, d': Doc<T>, x: T, s: string)
    requires ShowsText(d, x, s) && NodeKept(d, d', x)
    ensures ShowsText(d', x, s)
  {
  }

  lemma RowKept<T>(d: Doc<T>, d': Doc<T>, m: T, row: Row)
    requires ShowsRow(d, m, row) && NodeTurned(d, d', m, Map)
    requires forall y | y in Below(d, m) :: NodeKept(d, d', y)
    ensures ShowsRow(d', m, row)
  {
    forall a | 0 <= a < |row|
      ensures ShowsText(d', d'.layout[m].0.pairs[a].0, row[a].0) && ShowsText(d', d'.layout[m].0.pairs[a].1, row[a].1)
    {
      RowCells(d, m, row, a);
      PairIsBelow(d, m, a);
      TextKept(d, d', d.layout[m].0.pairs[a].0, row[a].0);
      TextKept(d, d', d.layout[m].0.pairs[a].1, row[a].1);
    }
    hide Below, ShowsText, NodeKept;
  }

  lemma LeadsKept<T>(d: Doc<T>, d': Doc<T>, c: T, key: string, n: T)
    requires Leads(d, c, key, n) && NodeTurned(d, d', c, Map)
    requires forall a | 0 <= a < |d.layout[c].0.pairs| :: NodeKept(d, d', d.layout[c].0.pairs[a].0) && d.Defined(d.layout[c].0.pairs[a].0)
    ensures Leads(d', c, key, n)
  {
    var pairs := d.layout[c].0.pairs;
    var at: nat :| d.FirstKey(c, key, at) && at < |pairs| && pairs[at].1 == n;
    forall a | 0 <= a < |pairs| ensures d'.Spells(pairs[a].0, key) <==> d.Spells(pairs[a].0, key) {
      PairIsBelow(d, c, a);
    }
    hide Below;
    assert d'.FirstKey(c, key, at);
  }

  lemma KeysBelow<T>(d: Doc<T>, c: T)
    requires d.Has(c)
    ensures forall a | 0 <= a < |d.layout[c].0.pairs| :: d.layout[c].0.pairs[a].0 in Below(d, c)
  {
    forall a | 0 <= a < |d.layout[c].0.pairs| ensures d.layout[c].0.pairs[a].0 in Below(d, c) { PairIsBelow(d, c, a); }
  }

  lemma LeadsBelow<T>(d: Doc<T>, c: T, key: string, n: T)
    requires Leads(d, c, key, n)
    ensures d.Has(c) && n in Below(d, c)
  {
    var at: nat :| d.FirstKey(c, key, at) && at < |d.layout[c].0.pairs| && d.layout[c].0.pairs[at].1 == n;
    PairIsBelow(d, c, at);
  }

  lemma EntriesBelow<T>(d: Doc<T>, n: T)
    requires d.Has(n)
    ensures forall j | 0 <= j < |d.layout[n].0.sequence| :: d.layout[n].0.sequence[j] in Below(d, n)
  {
    var q := d.layout[n].0.sequence;
    forall j | 0 <= j < |q| ensures q[j] in Below(d, n) { assert q[j] in q; }
  }

  /** Where the nodes of a file are: the root on top, the list below it, the entries below the list. */
  lemma FilePlaces<T>(d: Doc<T>, root: T, list: T, q: seq<T>, rows: seq<Row>, tops: set<T>, all: set<T>)
    requires Trees(d, tops, all) && root in tops && ShowsFile(d, root, list, q, rows)
    ensures root in all && list in all && list != root && list in Below(d, root) && d.layout[list].0.sequence == q && |q| == |rows|
    ensures forall j | 0 <= j < |q| :: q[j] in all && q[j] != root && q[j] != list && q[j] in Below(d, list)
    ensures forall j, l | 0 <= j < l < |q| :: q[j] != q[l]
    ensures forall j, z | 0 <= j < |q| && z in all && z != list :: q[j] !in Below(d, z)
    ensures list !in tops && forall j | 0 <= j < |q| :: q[j] !in tops
  {
    LeadsBelow(d, root, "domains", list);
    TreesMean(d, tops, all, root);
    TreesMean(d, tops, all, list);
    EntriesBelow(d, list);
    assert forall j, l | 0 <= j < l < |q| :: q[j] != q[l];
    hide Below, Leads, Forks, ShowsRow;
  }

  /** What lies below other nodes than `c` is neither `c`, unless it is in the list, nor below `c`. */
  lemma OthersKept<T>(d: Doc<T>, d': Doc<T>, tops: set<T>, all: set<T>, c: T, z: T)
    requires Trees(d, tops, all) && c in all && z in all && z != c && d.Has(c) && d.Has(z)
    requires forall x | x in all && x != c && x !in Below(d, c) :: NodeKept(d, d', x)
    ensures forall y | y in Below(d, z) && y != c :: y in all && NodeKept(d, d', y)
  {
    TreesMean(d, tops, all, z);
    TreesMean(d, tops, all, c);
    hide Below, Forks, NodeKept;
  }

  lemma KeptIsTurned<T>(d: Doc<T>, d': Doc<T>, x: T, kind: Kind)
    requires NodeKept(d, d', x)
    ensures NodeTurned(d, d', x, kind)
  {
  }

  /** A change at `c`, which is an entry of the list or a tree of its own, and below it leaves the rest of the file. */
  lemma FileAround<T>(d: Doc<T>, d': Doc<T>, root: T, list: T, q: seq<T>, rows: seq<Row>, tops: set<T>, all: set<T>, c: T)
    requires Tidy(d, tops, all) && root in tops && ShowsFile(d, root, list, q, rows) && c in all && c != root && c != list && d.Has(c)
    requires forall z | z in all && z != list :: d.Has(z) && c !in Below(d, z)
    requires forall x | x in all && x != c && x !in Below(d, c) :: NodeKept(d, d', x)
    ensures Leads(d', root, "domains", list) && NodeKept(d, d', list)
    ensures forall j | 0 <= j < |q| && j < |rows| && q[j] != c :: ShowsRow(d', q[j], rows[j])
  {
    TidyTrees(d, tops, all);
    FilePlaces(d, root, list, q, rows, tops, all);
    TreesMean(d, tops, all, c);
    assert d.Has(root) && Leads(d, root, "domains", list) && ShowsList(d, list, q, rows);
    assert forall z | z in all :: d.Defined(z);
    OthersKept(d, d', tops, all, c, root);
    RootKept(d, d', tops, all, c, root);
    KeptIsTurned(d, d', root, Map);
    KeysBelow(d, root);
    LeadsKept(d, d', root, "domains", list);
    forall j | 0 <= j < |q| && j < |rows| && q[j] != c ensures ShowsRow(d', q[j], rows[j]) {
      assert ShowsRow(d, q[j], rows[j]);
      OthersKept(d, d', tops, all, c, q[j]);
      OthersKept(d, d', tops, all, c, list);
      KeptIsTurned(d, d', q[j], Map);
      RowKept(d, d', q[j], rows[j]);
    }
    hide Below, Forks, Leads, ShowsRow, NodeKept, NodeTurned, Trees;
  }

  lemma RootKept<T>(d: Doc<T>, d': Doc<T>, tops: set<T>, all: set<T>, c: T, root: T)
    requires Trees(d, tops, all) && c in all && root in tops && root != c && d.Has(c)
    requires forall x | x in all && x != c && x !in Below(d, c) :: NodeKept(d, d', x)
    ensures NodeKept(d, d', root)
  {
    TreesMean(d, tops, all, c);
    hide Below, Forks, NodeKept;
  }

  lemma LookedMeans<T>(d: Doc<T>, d': Doc<T>, all: set<T>, c: T, kind: Kind)
    requires Looked(d, d', all, c, kind)
    ensures forall x | x in all && x != c :: NodeKept(d, d', x)
    ensures NodeTurned(d, d', c, kind) && c in all
  {
  }

  /** Looking something up in the root, the list or an entry leaves what the file shows. */
  lemma FileLooked<T>(d: Doc<T>, d': Doc<T>, root: T, list: T, q: seq<T>, rows: seq<Row>, tops: set<T>, all: set<T>, c: T, kind: Kind)
    requires Tidy(d, tops, all) && root in tops && ShowsFile(d, root, list, q, rows) && Looked(d, d', all, c, kind)
    requires (c == list && kind == Sequence) || (kind == Map && (c == root || c in q))
    ensures ShowsFile(d', root, list, q, rows) && Tidy(d', tops, all)
  {
    TidyTrees(d, tops, all);
    FilePlaces(d, root, list, q, rows, tops, all);
    LookedMeans(d, d', all, c, kind);
    LookedTrees(d, d', tops, all, c, kind);
    assert Leads(d, root, "domains", list) && ShowsList(d, list, q, rows);
    assert forall z | z in all :: d.Defined(z) && d'.Defined(z);
    hide Trees, Below, Forks, Leads, ShowsRow, NodeKept, NodeTurned, Looked, Doc<T>.Has;
    ListLooked(d, d', list, q, rows, c, kind);
    RootLooked(d, d', root, list, tops, all, c, kind);
    forall j | 0 <= j < |q| ensures ShowsRow(d', q[j], rows[j]) {
      assert ShowsRow(d, q[j], rows[j]);
      RowLooked(d, d', q[j], rows[j], tops, all, c, kind);
    }
  }

  lemma ListLooked<T>(d: Doc<T>, d': Doc<T>, list: T, q: seq<T>, rows: seq<Row>, c: T, kind: Kind)
    requires ShowsList(d, list, q, rows) && if c == list then NodeTurned(d, d', list, kind) && kind == Sequence else NodeKept(d, d', list)
    ensures d'.Has(list) && d'.Defined(list) && d'.face[list].0 !in {Scalar, Map} && d'.layout[list].0.sequence == q
  {
    hide ShowsRow;
  }

  lemma KeysNotList<T>(d: Doc<T>, root: T, list: T)
    requires d.Has(root) && Forks(d, root) && Leads(d, root, "domains", list)
    ensures forall a | 0 <= a < |d.layout[root].0.pairs| :: d.layout[root].0.pairs[a].0 != list && d.layout[root].0.pairs[a].0 in Below(d, root)
  {
    var at: nat :| d.FirstKey(root, "domains", at) && at < |d.layout[root].0.pairs| && d.layout[root].0.pairs[at].1 == list;
    KeysBelow(d, root);
  }

  lemma RootLooked<T>(d: Doc<T>, d': Doc<T>, root: T, list: T, tops: set<T>, all: set<T>, c: T, kind: Kind)
    requires Trees(d, tops, all) && root in tops && Leads(d, root, "domains", list) && forall z | z in all :: d.Defined(z)
    requires (forall x | x in all && x != c :: NodeKept(d, d', x)) && NodeTurned(d, d', c, kind)
    requires c == root ==> kind == Map
    requires d.Has(root) && (c == root || c == list || c !in Below(d, root))
    ensures Leads(d', root, "domains", list)
  {
    TreesMean(d, tops, all, root);
    KeysNotList(d, root, list);
    if c != root { KeptIsTurned(d, d', root, Map); }
    hide Trees, Below, Forks, NodeKept, NodeTurned, Leads;
    LeadsKept(d, d', root, "domains", list);
  }

  lemma RowLooked<T>(d: Doc<T>, d': Doc<T>, m: T, row: Row, tops: set<T>, all: set<T>, c: T, kind: Kind)
    requires Trees(d, tops, all) && m in all && ShowsRow(d, m, row)
    requires (forall x | x in all && x != c :: NodeKept(d, d', x)) && NodeTurned(d, d', c, kind)
    requires (c == m ==> kind == Map) && d.Has(m) && c !in Below(d, m)
    ensures ShowsRow(d', m, row)
  {
    TreesMean(d, tops, all, m);
    if c != m { KeptIsTurned(d, d', m, Map); }
    hide Trees, Below, Forks, NodeKept, NodeTurned, ShowsRow;
    RowKept(d, d', m, row);
  }

  // ---- looking around in the file ----

  /** Variable `sf` holds the file, which shows the rows; its nodes are tidy. */
  ghost predicate Open<T>(m: Moment<T>, sf: nat, root: T, list: T, q: seq<T>, rows: seq<Row>, tops: set<T>, all: set<T>)
  {
    IsAt(m.hs, sf, root) && root in tops && Tidy(m.doc, tops, all) && ShowsFile(m.doc, root, list, q, rows)
  }

  lemma OpenMeans<T>(m: Moment<T>, sf: nat, root: T, list: T, q: seq<T>, rows: seq<Row>, tops: set<T>, all: set<T>)
    requires Open(m, sf, root, list, q, rows, tops, all)
    ensures IsAt(m.hs, sf, root) && root in tops && Tidy(m.doc, tops, all) && Trees(m.doc, tops, all) && ShowsFile(m.doc, root, list, q, rows)
    ensures Leads(m.doc, root, "domains", list) && ShowsList(m.doc, list, q, rows)
  {
    hide Trees, Leads, ShowsList;
  }

  /** The nodes at which an edit looks. */
  function Stops<T>(root: T, list: T, q: seq<T>): seq<T>
  {
    [root, list] + q
  }

  /** The node shares with none of these. */
  ghost predicate Elsewhere<T>(d: Doc<T>, n: T, stops: seq<T>)
  {
    d.Has(n) && forall x | x in stops :: d.Has(x) && n !in d.Kin(x)
  }

  /** The nodes that are elsewhere are as they were. */
  ghost predicate Idle<T>(d: Doc<T>, d': Doc<T>, stops: seq<T>)
  {
    forall n | n in d.layout && Elsewhere(d, n, stops) :: NodeKept(d, d', n) && Elsewhere(d', n, stops) && d'.Kin(n) == d.Kin(n)
  }

  ghost predicate Passes<T>(m: Moment<T>, m': Moment<T>, stops: seq<T>)
  {
    Extends(m.hs, m'.hs) && Idle(m.doc, m'.doc, stops)
  }

  lemma PassThen<T>(m0: Moment<T>, m1: Moment<T>, m2: Moment<T>, stops: seq<T>)
    requires Passes(m0, m1, stops) && Passes(m1, m2, stops)
    ensures Passes(m0, m2, stops) && Extends(m0.hs, m1.hs) && Extends(m1.hs, m2.hs)
  {
    ExtendsThen(m0.hs, m1.hs, m2.hs);
    hide Extends, Elsewhere;
  }

  lemma PassMeans<T>(m: Moment<T>, m': Moment<T>, stops: seq<T>)
    requires Passes(m, m', stops)
    ensures Extends(m.hs, m'.hs) && Idle(m.doc, m'.doc, stops)
  {
    hide Extends, Idle;
  }

  lemma StepPasses<T>(m: Moment<T>, op: Op, how: Choice<T>, m': Moment<T>, c: T, kind: Kind, root: T, list: T, q: seq<T>)
    requires Step(m, op, how, m') && Peeked(m.doc, m'.doc, c, kind) && (c == root || c == list || c in q) && Extends(m.hs, m'.hs)
    ensures Passes(m, m', Stops(root, list, q))
  {
    hide *;
    HasStays(m, op, how, m');
    PeekIdles(m.doc, m'.doc, c, kind, root, list, q);
    PassFrom(m, m', Stops(root, list, q));
  }

  lemma PassFrom<T>(m: Moment<T>, m': Moment<T>, stops: seq<T>)
    requires Extends(m.hs, m'.hs) && Idle(m.doc, m'.doc, stops)
    ensures Passes(m, m', stops)
  {
    hide Extends, Idle;
  }

  lemma PeekIdles<T>(d: Doc<T>, d': Doc<T>, c: T, kind: Kind, root: T, list: T, q: seq<T>)
    requires Peeked(d, d', c, kind) && (c == root || c == list || c in q)
    requires d.marks.done <= d'.marks.done && forall x | d.Has(x) :: d'.Has(x)
    ensures Idle(d, d', Stops(root, list, q))
  {
    var stops := Stops(root, list, q);
    assert c in stops;
    hide Stops;
    forall n | n in d.layout && Elsewhere(d, n, stops)
      ensures NodeKept(d, d', n) && Elsewhere(d', n, stops) && d'.Kin(n) == d.Kin(n)
    {
      assert d'.Has(n) && n !in d.Kin(c);
    }
  }

  lemma LeadsLooks<T>(d: Doc<T>, root: T, key: string, n: T, at: nat, k: T, r: Option<T>, d': Doc<T>, all: set<T>)
    requires Leads(d, root, key, n) && d.Has(root) && KeyEffect(d, root, key, at, k, r, d') && root in all
    requires (forall x | x in all :: d.Has(x)) && (forall x | x in all && x in d.Kin(root) :: x == root) && root in d.Kin(root)
    requires d.marks.done <= d'.marks.done && forall x | d.Has(x) :: d'.Has(x)
    ensures r == Some(n) && Looked(d, d', all, root, Map) && Peeked(d, d', root, Map)
  {
    var first: nat :| d.FirstKey(root, key, first) && first < |d.layout[root].0.pairs| && d.layout[root].0.pairs[first].1 == n;
    assert r.Some? && at == first by { hide Looked, Turned, Made, Grown, SameShape, Doc<T>.Spells; }
    hide Doc<T>.Spells, Made, Grown, Leads, Peeked;
    FoundLooks(d, root, key, at, k, n, d', all);
  }

  lemma KeyStepAt<T>(m: Moment<T>, x: nat, c: T, key: string, how: Choice<T>, m': Moment<T>)
    requires Step(m, Key(x, key), how, m') && IsAt(m.hs, x, c)
    ensures m.doc.Has(c) && |m'.hs| == |m.hs| + 1 && Extends(m.hs, m'.hs) && c in m.doc.Kin(c)
    ensures KeyEffect(m.doc, c, key, how.at, if how.key.Some? then how.key.value else c, m'.hs[|m.hs|], m'.doc)
    ensures m.doc.marks.done <= m'.doc.marks.done && forall n | m.doc.Has(n) :: m'.doc.Has(n)
  {
    StepMeans(m, Key(x, key), how, m');
    hide Step, Moves, KeyEffect, Extends, Doc<T>.Valid, Doc<T>.Bonded, Doc<T>.Has, Handled;
    KeyStep(m, x, key, how, m');
    KinHasSelf(m.doc, c);
  }

  lemma LookList<T>(m: Moment<T>, sf: nat, how: Choice<T>, m': Moment<T>, root: T, list: T, q: seq<T>, rows: seq<Row>, tops: set<T>, all: set<T>)
    requires Step(m, Key(sf, "domains"), how, m') && Open(m, sf, root, list, q, rows, tops, all)
    ensures Open(m', sf, root, list, q, rows, tops, all) && Passes(m, m', Stops(root, list, q)) && |m'.hs| == |m.hs| + 1 && IsAt(m'.hs, |m.hs|, list)
  {
    hide *;
    OpenMeans(m, sf, root, list, q, rows, tops, all);
    KeyStepAt(m, sf, root, "domains", how, m');
    FilePlaces(m.doc, root, list, q, rows, tops, all);
    TreesMean(m.doc, tops, all, root);
    TreesAlone(m.doc, tops, all, root);
    LeadsLooks(m.doc, root, "domains", list, how.at, if how.key.Some? then how.key.value else root, m'.hs[|m.hs|], m'.doc, all);
    FileLooked(m.doc, m'.doc, root, list, q, rows, tops, all, root, Map);
    StepPasses(m, Key(sf, "domains"), how, m', root, Map, root, list, q);
    AtStill(m.hs, m'.hs, sf, root);
    OpenFrom(m', sf, root, list, q, rows, tops, all);
    AtNew(m'.hs, |m.hs|, list);
  }

  lemma AtNew<T>(hs: Handles<T>, i: nat, c: T)
    requires i < |hs| && hs[i] == Some(c)
    ensures IsAt(hs, i, c)
  {
  }

  lemma OpenFrom<T>(m: Moment<T>, sf: nat, root: T, list: T, q: seq<T>, rows: seq<Row>, tops: set<T>, all: set<T>)
    requires IsAt(m.hs, sf, root) && root in tops && Tidy(m.doc, tops, all) && ShowsFile(m.doc, root, list, q, rows)
    ensures Open(m, sf, root, list, q, rows, tops, all)
  {
    hide IsAt, Tidy, ShowsFile;
  }

  lemma AtStep<T>(m: Moment<T>, x: nat, c: T, key: int, how: Choice<T>, m': Moment<T>)
    requires Step(m, Op.At(x, key), how, m') && IsAt(m.hs, x, c)
    ensures m.doc.Has(c) && |m'.hs| == |m.hs| + 1 && Extends(m.hs, m'.hs) && c in m.doc.Kin(c)
    ensures AtEffect(m.doc, c, key, m'.hs[|m.hs|], m'.doc)
    ensures m.doc.marks.done <= m'.doc.marks.done && forall n | m.doc.Has(n) :: m'.doc.Has(n)
  {
    StepMeans(m, Op.At(x, key), how, m');
    HasStays(m, Op.At(x, key), how, m');
    MovesIndexed(m.doc, m.hs, Op.At(x, key), how, m'.doc, m'.hs);
    hide Moves, Step, Handled, Doc<T>.Valid, Doc<T>.Bonded, Doc<T>.Has, AtEffect, Indexed;
    AtGives(m.doc, c, key, m'.hs[|m.hs|], m'.doc);
    KinHasSelf(m.doc, c);
  }

  lemma AtLooks<T>(d: Doc<T>, list: T, q: seq<T>, rows: seq<Row>, i: nat, r: Option<T>, d': Doc<T>, all: set<T>)
    requires ShowsList(d, list, q, rows) && i < |q| && AtEffect(d, list, i, r, d') && list in all
    requires (forall x | x in all :: d.Has(x)) && (forall x | x in all && x in d.Kin(list) :: x == list) && list in d.Kin(list)
    requires d.marks.done <= d'.marks.done && forall x | d.Has(x) :: d'.Has(x)
    ensures r == Some(q[i]) && Looked(d, d', all, list, Sequence) && Peeked(d, d', list, Sequence)
  {
    assert i > 0 ==> d.Defined(q[i - 1]) by { if i > 0 { assert ShowsRow(d, q[i - 1], rows[i - 1]); } }
    hide ShowsRow, Made, Grown;
  }

  lemma LookEntry<T>(m: Moment<T>, sf: nat, x: nat, i: nat, how: Choice<T>, m': Moment<T>,
                     root: T, list: T, q: seq<T>, rows: seq<Row>, tops: set<T>, all: set<T>)
    requires Step(m, Op.At(x, i), how, m') && Open(m, sf, root, list, q, rows, tops, all) && IsAt(m.hs, x, list) && i < |q|
    ensures Open(m', sf, root, list, q, rows, tops, all) && Passes(m, m', Stops(root, list, q)) && |m'.hs| == |m.hs| + 1 && IsAt(m'.hs, |m.hs|, q[i])
  {
    hide *;
    OpenMeans(m, sf, root, list, q, rows, tops, all);
    AtStep(m, x, list, i, how, m');
    FilePlaces(m.doc, root, list, q, rows, tops, all);
    TreesMean(m.doc, tops, all, list);
    TreesAlone(m.doc, tops, all, list);
    AtLooks(m.doc, list, q, rows, i, m'.hs[|m.hs|], m'.doc, all);
    FileLooked(m.doc, m'.doc, root, list, q, rows, tops, all, list, Sequence);
    StepPasses(m, Op.At(x, i), how, m', list, Sequence, root, list, q);
    AtStill(m.hs, m'.hs, sf, root);
    OpenFrom(m', sf, root, list, q, rows, tops, all);
    AtNew(m'.hs, |m.hs|, q[i]);
  }

  lemma LookField<T>(m: Moment<T>, sf: nat, x: nat, i: nat, key: string, how: Choice<T>, m': Moment<T>,
                     root: T, list: T, q: seq<T>, rows: seq<Row>, tops: set<T>, all: set<T>)
    requires Step(m, Key(x, key), how, m') && Open(m, sf, root, list, q, rows, tops, all)
    requires i < |q| && i < |rows| && IsAt(m.hs, x, q[i]) && KeyIndex(rows[i], key) < |rows[i]|
    ensures Open(m', sf, root, list, q, rows, tops, all) && Passes(m, m', Stops(root, list, q)) && |m'.hs| == |m.hs| + 1
    ensures HoldsText(m', |m.hs|, rows[i][KeyIndex(rows[i], key)].1)
  {
    hide *;
    OpenMeans(m, sf, root, list, q, rows, tops, all);
    FilePlaces(m.doc, root, list, q, rows, tops, all);
    EntryShows(m.doc, list, q, rows, i);
    var v := FoundAt(m, x, q[i], key, how, m', tops, all, rows[i]);
    FileLooked(m.doc, m'.doc, root, list, q, rows, tops, all, q[i], Map);
    StepPasses(m, Key(x, key), how, m', q[i], Map, root, list, q);
    AtStill(m.hs, m'.hs, sf, root);
    OpenFrom(m', sf, root, list, q, rows, tops, all);
    OpenMeans(m', sf, root, list, q, rows, tops, all);
    EntryShows(m'.doc, list, q, rows, i);
    CellShows(m, m', |m.hs|, all, q[i], rows[i], key, v);
  }

  /** Variable `x` holds a node with this text. */
  ghost predicate HoldsText<T>(m: Moment<T>, x: nat, text: string)
  {
    Bound(m.hs, x) && ShowsText(m.doc, m.hs[x].value, text)
  }

  lemma CellShows<T>(m: Moment<T>, m': Moment<T>, x: nat, all: set<T>, c: T, row: Row, key: string, v: T)
    requires Looked(m.doc, m'.doc, all, c, Map) && IsCell(m.doc, c, row, key, v) && ShowsRow(m'.doc, c, row) && IsAt(m'.hs, x, v)
    ensures KeyIndex(row, key) < |row| && HoldsText(m', x, row[KeyIndex(row, key)].1)
  {
    RowCells(m'.doc, c, row, KeyIndex(row, key));
    hide ShowsRow, ShowsText;
  }

  lemma EntryShows<T>(d: Doc<T>, list: T, q: seq<T>, rows: seq<Row>, i: nat)
    requires ShowsList(d, list, q, rows) && i < |q|
    ensures i < |rows| && ShowsRow(d, q[i], rows[i]) && q[i] in q
  {
    hide ShowsRow;
  }

  // ---- overwriting an entry ----

  lemma DoesAt<T>(r: Trace<T>, ops: seq<Op>, i: nat)
    requires Does(r, ops) && i < |ops|
    ensures |r.at| == |ops| + 1 && |r.hows| == |ops| && Step(r.at[i], ops[i], r.hows[i], r.at[i + 1])
    ensures r.Start() == r.at[0] && r.End() == r.at[|ops|]
  {
    hide Step;
  }

  lemma DoesNone<T>(r: Trace<T>)
    requires Does(r, [])
    ensures r.at != [] && r.End() == r.Start() && Extends(r.Start().hs, r.End().hs)
  {
    hide Good;
  }

  /** The entry has a field of this name. */
  predicate HasField(row: Row, key: string)
  {
    KeyIndex(row, key) < |row|
  }

  lemma FieldMeans(row: Row, key: string)
    requires HasField(row, key)
    ensures KeyIndex(row, key) < |row|
  {
  }

  lemma LookNames(sf: nat, count: nat, i: nat)
    ensures Variables(count, [Key(sf, "domains"), Key(sf, "domains")]) == count + 2
    ensures Variables(count, [Key(sf, "domains"), Key(sf, "domains"), Op.At(count + 1, i), Key(count + 2, "name")]) == count + 4
    ensures Variables(count, [Key(sf, "domains"), Op.At(count, i)]) == count + 2
    ensures Variables(count, [Key(sf, "domains"), Op.At(count, i), Key(count + 1, "status")]) == count + 3
  {
    hide Variables;
    ThreeLooks(count, Key(sf, "domains"), Key(sf, "domains"), Op.At(count + 1, i));
    ThreeLooks(count + 3, Key(count + 2, "name"), Key(sf, "domains"), Op.At(count, i));
    ThreeLooks(count, Key(sf, "domains"), Op.At(count, i), Key(count + 1, "status"));
    var a, b := [Key(sf, "domains"), Key(sf, "domains"), Op.At(count + 1, i)], [Key(count + 2, "name")];
    VariablesJoin(count, a, b);
    assert a + b == [Key(sf, "domains"), Key(sf, "domains"), Op.At(count + 1, i), Key(count + 2, "name")];
  }

  lemma ThreeLooks(count: nat, a: Op, b: Op, c: Op)
    requires (a.Key? || a.At?) && (b.Key? || b.At?) && (c.Key? || c.At?)
    ensures Variables(count, [a]) == count + 1 && Variables(count, [a, b]) == count + 2 && Variables(count, [a, b, c]) == count + 3
  {
    assert [a][1..] == [] && [a, b][1..] == [b] && [a, b, c][1..] == [b, c] && [b, c][1..] == [c] && [b][1..] == [] && [c][1..] == [];
    assert Variables(count + 1, [b]) == count + 2;
    assert Variables(count + 2, [c]) == count + 3;
    assert Variables(count + 1, [b, c]) == count + 3;
  }

  /** The loop head and the look at the name of an entry. */
  lemma NameLooked<T>(r: Trace<T>, sf: nat, i: nat, root: T, list: T, q: seq<T>, rows: seq<Row>, tops: set<T>, all: set<T>)
    requires r.at != [] && Open(r.Start(), sf, root, list, q, rows, tops, all) && i < |q| && i < |rows| && HasField(rows[i], "name")
    requires var count := |r.Start().hs|; Does(r, [Key(sf, "domains"), Key(sf, "domains"), Op.At(count + 1, i), Key(count + 2, "name")])
    ensures Open(r.End(), sf, root, list, q, rows, tops, all) && Passes(r.Start(), r.End(), Stops(root, list, q)) && |r.End().hs| == |r.Start().hs| + 4
    ensures HoldsText(r.End(), |r.Start().hs| + 3, rows[i][KeyIndex(rows[i], "name")].1)
  {
    hide *;
    var count := |r.Start().hs|;
    var ops := [Key(sf, "domains"), Key(sf, "domains"), Op.At(count + 1, i), Key(count + 2, "name")];
    FieldMeans(rows[i], "name");
    DoesAt(r, ops, 0);
    DoesAt(r, ops, 1);
    DoesAt(r, ops, 2);
    DoesAt(r, ops, 3);
    LookList(r.at[0], sf, r.hows[0], r.at[1], root, list, q, rows, tops, all);
    LookList(r.at[1], sf, r.hows[1], r.at[2], root, list, q, rows, tops, all);
    LookEntry(r.at[2], sf, count + 1, i, r.hows[2], r.at[3], root, list, q, rows, tops, all);
    LookField(r.at[3], sf, count + 2, i, "name", r.hows[3], r.at[4], root, list, q, rows, tops, all);
    PassThen(r.at[0], r.at[1], r.at[2], Stops(root, list, q));
    PassThen(r.at[0], r.at[2], r.at[3], Stops(root, list, q));
    PassThen(r.at[0], r.at[3], r.at[4], Stops(root, list, q));
  }

  lemma ListLookedTwice<T>(r: Trace<T>, sf: nat, root: T, list: T, q: seq<T>, rows: seq<Row>, tops: set<T>, all: set<T>)
    requires r.at != [] && Open(r.Start(), sf, root, list, q, rows, tops, all) && Does(r, [Key(sf, "domains"), Key(sf, "domains")])
    ensures Open(r.End(), sf, root, list, q, rows, tops, all) && Passes(r.Start(), r.End(), Stops(root, list, q)) && |r.End().hs| == |r.Start().hs| + 2
  {
    hide *;
    var ops := [Key(sf, "domains"), Key(sf, "domains")];
    DoesAt(r, ops, 0);
    DoesAt(r, ops, 1);
    LookList(r.at[0], sf, r.hows[0], r.at[1], root, list, q, rows, tops, all);
    LookList(r.at[1], sf, r.hows[1], r.at[2], root, list, q, rows, tops, all);
    PassThen(r.at[0], r.at[1], r.at[2], Stops(root, list, q));
  }

  /** Searching for the entry leaves the file as it was. */
  lemma {:induction false} Searched<T>(r: Trace<T>, sf: nat, upTo: nat, root: T, list: T, q: seq<T>, rows: seq<Row>, tops: set<T>, all: set<T>)
    requires r.at != [] && Open(r.Start(), sf, root, list, q, rows, tops, all) && Does(r, Search(|r.Start().hs|, sf, upTo))
    requires upTo <= |q| && upTo <= |rows| && forall j | 0 <= j < upTo :: HasField(rows[j], "name")
    ensures Open(r.End(), sf, root, list, q, rows, tops, all) && Passes(r.Start(), r.End(), Stops(root, list, q))
    ensures |r.End().hs| == Variables(|r.Start().hs|, Search(|r.Start().hs|, sf, upTo))
    decreases upTo
  {
    hide *;
    var count := |r.Start().hs|;
    SearchIs(count, sf, upTo);
    if upTo == 0 {
      ListLookedTwice(r, sf, root, list, q, rows, tops, all);
    } else {
      var before := Search(count, sf, upTo - 1);
      var end := Variables(count, before);
      var last := [Key(sf, "domains"), Key(sf, "domains"), Op.At(end + 1, upTo - 1), Key(end + 2, "name")];
      Cut(r, before, last);
      var r1, r2 := r.To(|before|), r.From(|before|);
      Searched(r1, sf, upTo - 1, root, list, q, rows, tops, all);
      NameLooked(r2, sf, upTo - 1, root, list, q, rows, tops, all);
      PassThen(r.Start(), r2.Start(), r.End(), Stops(root, list, q));
    }
  }

  lemma SearchIs(count: nat, sf: nat, upTo: nat)
    ensures upTo == 0 ==> Search(count, sf, upTo) == [Key(sf, "domains"), Key(sf, "domains")] && Variables(count, Search(count, sf, upTo)) == count + 2
    ensures upTo > 0 ==>
      var before := Search(count, sf, upTo - 1);
      var end := Variables(count, before);
      && Search(count, sf, upTo) == before + [Key(sf, "domains"), Key(sf, "domains"), Op.At(end + 1, upTo - 1), Key(end + 2, "name")]
      && Variables(count, Search(count, sf, upTo)) == end + 4
  {
    hide Variables;
    LookNames(sf, count, 0);
    if upTo > 0 {
      var before := Search(count, sf, upTo - 1);
      var end := Variables(count, before);
      LookNames(sf, end, upTo - 1);
      VariablesJoin(count, before, [Key(sf, "domains"), Key(sf, "domains"), Op.At(end + 1, upTo - 1), Key(end + 2, "name")]);
    }
  }

  lemma OutsideIsKept<T>(d: Doc<T>, d': Doc<T>, tops: set<T>, all: set<T>, all': set<T>, c: T)
    requires OutsideKept(d, d', all, c) && Tidy(d', tops, all') && all <= all'
    ensures d.Has(c) && c in all && forall x | x in all && x != c && x !in Below(d, c) :: NodeKept(d, d', x)
  {
    hide Trees, Below;
  }

  lemma SetsOutside<T>(m: Moment<T>, m': Moment<T>, tops: set<T>, all: set<T>, all': set<T>, c: T, row: Row)
    requires Sets(m, m', tops, all, all', c, row)
    ensures OutsideKept(m.doc, m'.doc, all, c) && m.doc.layout.Keys <= m'.doc.layout.Keys
    ensures forall n | n in all' && n !in all :: n !in m.doc.layout
  {
    hide Below, Tidy, ShowsRow, Extends, OutsideKept;
  }

  /** With one entry showing something new and the others kept, the list shows that. */
  lemma ListFrom<T>(d: Doc<T>, d': Doc<T>, root: T, list: T, q: seq<T>, rows: seq<Row>, i: nat, row: Row)
    requires ShowsList(d, list, q, rows) && i < |q| && NodeKept(d, d', list) && Leads(d', root, "domains", list)
    requires (forall j | 0 <= j < |q| && j < |rows| && q[j] != q[i] :: ShowsRow(d', q[j], rows[j])) && ShowsRow(d', q[i], row)
    requires forall j, l | 0 <= j < l < |q| :: q[j] != q[l]
    ensures i < |rows| && ShowsFile(d', root, list, q, rows[i := row])
  {
    hide ShowsRow, Leads;
  }

  /** Setting fields of an entry changes that entry's row and no other. */
  lemma OpenSet<T>(m: Moment<T>, m': Moment<T>, sf: nat, root: T, list: T, q: seq<T>, rows: seq<Row>, i: nat, row: Row,
                   tops: set<T>, all: set<T>, all': set<T>)
    requires Open(m, sf, root, list, q, rows, tops, all) && i < |q| && Sets(m, m', tops, all, all', q[i], row)
    ensures i < |rows| && Open(m', sf, root, list, q, rows[i := row], tops, all')
  {
    hide *;
    OpenMeans(m, sf, root, list, q, rows, tops, all);
    SetsMean(m, m', tops, all, all', q[i], row);
    SetsOutside(m, m', tops, all, all', q[i], row);
    OutsideIsKept(m.doc, m'.doc, tops, all, all', q[i]);
    FilePlaces(m.doc, root, list, q, rows, tops, all);
    AllHave(m.doc, tops, all);
    FileAround(m.doc, m'.doc, root, list, q, rows, tops, all, q[i]);
    ListFrom(m.doc, m'.doc, root, list, q, rows, i, row);
    AtStill(m.hs, m'.hs, sf, root);
    OpenFrom(m', sf, root, list, q, rows[i := row], tops, all');
  }

  lemma AllHave<T>(d: Doc<T>, tops: set<T>, all: set<T>)
    requires Trees(d, tops, all)
    ensures forall z | z in all :: d.Has(z)
  {
    hide Below, Forks, Doc<T>.Has;
  }

  lemma OverwriteIs(count: nat, sf: nat, i: nat, es: seq<Entry>)
    ensures es == [] ==> Overwrite(count, sf, i, es) == [] && Variables(count, Overwrite(count, sf, i, es)) == count
    ensures es != [] ==> var look, set' := [Key(sf, "domains"), Op.At(count, i)], SetEntry(count + 2, count + 1, es[0]);
      var end := Variables(count + 2, set');
      && Overwrite(count, sf, i, es) == look + (set' + Overwrite(end, sf, i, es[1..]))
      && Variables(count, Overwrite(count, sf, i, es)) == Variables(end, Overwrite(end, sf, i, es[1..]))
  {
    if es != [] {
      var look, set' := [Key(sf, "domains"), Op.At(count, i)], SetEntry(count + 2, count + 1, es[0]);
      var end := Variables(count + 2, set');
      var more := Overwrite(end, sf, i, es[1..]);
      LookNames(sf, count, i);
      VariablesJoin(count, look, set');
      assert Overwrite(count, sf, i, es) == (look + set') + more;
      hide *;
      assert (look + set') + more == look + (set' + more);
      VariablesJoin(count, look, set' + more);
      VariablesJoin(count + 2, set', more);
    }
  }

  lemma FieldsSet(row: Row, es: seq<Entry>)
    ensures es == [] ==> SetFields(row, es) == row
    ensures es != [] ==> SetFields(row, es) == SetFields(SetField(row, es[0].key, es[0].text), es[1..])
  {
  }

  lemma {:induction false} Overwritten<T>(r: Trace<T>, sf: nat, i: nat, es: seq<Entry>,
                                          root: T, list: T, q: seq<T>, rows: seq<Row>, tops: set<T>, all: set<T>) returns (all': set<T>)
    requires r.at != [] && Open(r.Start(), sf, root, list, q, rows, tops, all) && i < |q| && i < |rows|
    requires Does(r, Overwrite(|r.Start().hs|, sf, i, es))
    ensures Open(r.End(), sf, root, list, q, rows[i := SetFields(rows[i], es)], tops, all') && Extends(r.Start().hs, r.End().hs)
    ensures |r.End().hs| == Variables(|r.Start().hs|, Overwrite(|r.Start().hs|, sf, i, es))
    decreases |es|
  {
    hide *;
    var count := |r.Start().hs|;
    FieldsSet(rows[i], es);
    OverwriteIs(count, sf, i, es);
    if es == [] {
      all' := all;
      assert rows[i := rows[i]] == rows;
      DoesNone(r);
    } else {
      var look, set' := [Key(sf, "domains"), Op.At(count, i)], SetEntry(count + 2, count + 1, es[0]);
      var end := Variables(count + 2, set');
      var row, more := SetField(rows[i], es[0].key, es[0].text), Overwrite(end, sf, i, es[1..]);
      Cut(r, look, set' + more);
      var r1, r2 := r.To(|look|), r.From(|look|);
      EntryLooked(r1, sf, i, root, list, q, rows, tops, all);
      PassMeans(r.Start(), r2.Start(), Stops(root, list, q));
      Cut(r2, set', more);
      var r3, r4 := r2.To(|set'|), r2.From(|set'|);
      var all1 := EntryOverwritten(r3, sf, count + 1, i, es[0], root, list, q, rows, tops, all);
      all' := Overwritten(r4, sf, i, es[1..], root, list, q, rows[i := row], tops, all1);
      assert rows[i := row][i := SetFields(row, es[1..])] == rows[i := SetFields(row, es[1..])];
      ExtendsThen(r.Start().hs, r2.Start().hs, r4.Start().hs);
      ExtendsThen(r.Start().hs, r4.Start().hs, r.End().hs);
    }
  }

  lemma EntryLooked<T>(r: Trace<T>, sf: nat, i: nat, root: T, list: T, q: seq<T>, rows: seq<Row>, tops: set<T>, all: set<T>)
    requires r.at != [] && Open(r.Start(), sf, root, list, q, rows, tops, all) && i < |q|
    requires Does(r, [Key(sf, "domains"), Op.At(|r.Start().hs|, i)])
    ensures Open(r.End(), sf, root, list, q, rows, tops, all) && Passes(r.Start(), r.End(), Stops(root, list, q)) && |r.End().hs| == |r.Start().hs| + 2
    ensures IsAt(r.End().hs, |r.Start().hs| + 1, q[i])
  {
    hide *;
    var count := |r.Start().hs|;
    var ops := [Key(sf, "domains"), Op.At(count, i)];
    DoesAt(r, ops, 0);
    DoesAt(r, ops, 1);
    LookList(r.at[0], sf, r.hows[0], r.at[1], root, list, q, rows, tops, all);
    LookEntry(r.at[1], sf, count, i, r.hows[1], r.at[2], root, list, q, rows, tops, all);
    PassThen(r.at[0], r.at[1], r.at[2], Stops(root, list, q));
  }

  lemma EntryOverwritten<T>(r: Trace<T>, sf: nat, x: nat, i: nat, e: Entry,
                            root: T, list: T, q: seq<T>, rows: seq<Row>, tops: set<T>, all: set<T>) returns (all': set<T>)
    requires r.at != [] && Open(r.Start(), sf, root, list, q, rows, tops, all) && i < |q| && i < |rows| && IsAt(r.Start().hs, x, q[i])
    requires Does(r, SetEntry(|r.Start().hs|, x, e))
    ensures Open(r.End(), sf, root, list, q, rows[i := SetField(rows[i], e.key, e.text)], tops, all') && Extends(r.Start().hs, r.End().hs)
    ensures |r.End().hs| == Variables(|r.Start().hs|, SetEntry(|r.Start().hs|, x, e))
  {
    hide *;
    var m, row := r.Start(), SetField(rows[i], e.key, e.text);
    OpenMeans(m, sf, root, list, q, rows, tops, all);
    FilePlaces(m.doc, root, list, q, rows, tops, all);
    EntryShows(m.doc, list, q, rows, i);
    all' := EntrySet(r, x, q[i], e, tops, all, rows[i]);
    SetsMean(m, r.End(), tops, all, all', q[i], row);
    OpenSet(m, r.End(), sf, root, list, q, rows, i, row, tops, all, all');
  }

  /** The look at the status of an entry. */
  lemma StatusLooked<T>(r: Trace<T>, sf: nat, i: nat, root: T, list: T, q: seq<T>, rows: seq<Row>, tops: set<T>, all: set<T>)
    requires r.at != [] && Open(r.Start(), sf, root, list, q, rows, tops, all) && i < |q| && i < |rows| && HasField(rows[i], "status")
    requires var count := |r.Start().hs|; Does(r, [Key(sf, "domains"), Op.At(count, i), Key(count + 1, "status")])
    ensures Open(r.End(), sf, root, list, q, rows, tops, all) && Passes(r.Start(), r.End(), Stops(root, list, q)) && |r.End().hs| == |r.Start().hs| + 3
    ensures HoldsText(r.End(), |r.Start().hs| + 2, rows[i][KeyIndex(rows[i], "status")].1)
  {
    hide *;
    var count := |r.Start().hs|;
    var look, last := [Key(sf, "domains"), Op.At(count, i)], [Key(count + 1, "status")];
    assert [Key(sf, "domains"), Op.At(count, i), Key(count + 1, "status")] == look + last;
    FieldMeans(rows[i], "status");
    Cut(r, look, last);
    var r1, r2 := r.To(|look|), r.From(|look|);
    EntryLooked(r1, sf, i, root, list, q, rows, tops, all);
    DoesAt(r2, last, 0);
    LookField(r2.at[0], sf, count + 1, i, "status", r2.hows[0], r2.at[1], root, list, q, rows, tops, all);
    PassThen(r.Start(), r2.Start(), r.End(), Stops(root, list, q));
  }

  lemma FoundLooked<T>(r: Trace<T>, sf: nat, i: nat, guarded: bool, root: T, list: T, q: seq<T>, rows: seq<Row>, tops: set<T>, all: set<T>)
    requires r.at != [] && Open(r.Start(), sf, root, list, q, rows, tops, all) && i < |q| && i < |rows|
    requires Does(r, Found(|r.Start().hs|, sf, i, guarded))
    requires (forall j | 0 <= j <= i :: HasField(rows[j], "name")) && (guarded ==> HasField(rows[i], "status"))
    ensures Open(r.End(), sf, root, list, q, rows, tops, all) && Passes(r.Start(), r.End(), Stops(root, list, q))
    ensures |r.End().hs| == Variables(|r.Start().hs|, Found(|r.Start().hs|, sf, i, guarded))
  {
    hide *;
    var count := |r.Start().hs|;
    var searched := Search(count, sf, i + 1);
    var end := Variables(count, searched);
    var last := [Key(sf, "domains"), Op.At(end, i), Key(end + 1, "status")];
    FoundIs(count, sf, i, guarded);
    if guarded {
      Cut(r, searched, last);
      var r1, r2 := r.To(|searched|), r.From(|searched|);
      Searched(r1, sf, i + 1, root, list, q, rows, tops, all);
      StatusLooked(r2, sf, i, root, list, q, rows, tops, all);
      PassThen(r.Start(), r2.Start(), r.End(), Stops(root, list, q));
    } else {
      Searched(r, sf, i + 1, root, list, q, rows, tops, all);
    }
  }

  lemma FoundIs(count: nat, sf: nat, i: nat, guarded: bool)
    ensures var searched := Search(count, sf, i + 1);
      var end := Variables(count, searched);
      && (guarded ==> Found(count, sf, i, guarded) == searched + [Key(sf, "domains"), Op.At(end, i), Key(end + 1, "status")])
      && (guarded ==> Variables(count, Found(count, sf, i, guarded)) == end + 3)
      && (!guarded ==> Found(count, sf, i, guarded) == searched)
  {
    hide Variables, Search;
    var searched := Search(count, sf, i + 1);
    var end := Variables(count, searched);
    var last := [Key(sf, "domains"), Op.At(end, i), Key(end + 1, "status")];
    LookNames(sf, end, i);
    VariablesJoin(count, searched, last);
    assert searched + [] == searched;
  }

  /** Setting or clearing a pid, enabling and disabling: the fields of the entry are set, in the entry that has been
      found, and nothing else in the file is different. */
  lemma UpdateRewrites<T>(r: Trace<T>, sf: nat, i: nat, guarded: bool, es: seq<Entry>,
                          root: T, list: T, q: seq<T>, rows: seq<Row>, tops: set<T>, all: set<T>) returns (all': set<T>)
    requires r.at != [] && Open(r.Start(), sf, root, list, q, rows, tops, all) && i < |q| && i < |rows|
    requires Does(r, Update(|r.Start().hs|, sf, i, guarded, es))
    requires (forall j | 0 <= j <= i :: HasField(rows[j], "name")) && (guarded ==> HasField(rows[i], "status"))
    ensures Open(r.End(), sf, root, list, q, rows[i := SetFields(rows[i], es)], tops, all') && Extends(r.Start().hs, r.End().hs)
    ensures |r.End().hs| == Variables(|r.Start().hs|, Update(|r.Start().hs|, sf, i, guarded, es))
  {
    hide *;
    var count := |r.Start().hs|;
    var found := Found(count, sf, i, guarded);
    var more := Overwrite(Variables(count, found), sf, i, es);
    UpdateIs(count, sf, i, guarded, es);
    Cut(r, found, more);
    var r1, r2 := r.To(|found|), r.From(|found|);
    FoundLooked(r1, sf, i, guarded, root, list, q, rows, tops, all);
    all' := Overwritten(r2, sf, i, es, root, list, q, rows, tops, all);
    PassMeans(r.Start(), r2.Start(), Stops(root, list, q));
    ExtendsThen(r.Start().hs, r2.Start().hs, r.End().hs);
    VariablesJoin(count, found, more);
  }

  lemma UpdateIs(count: nat, sf: nat, i: nat, guarded: bool, es: seq<Entry>)
    ensures var found := Found(count, sf, i, guarded); Update(count, sf, i, guarded, es) == found + Overwrite(Variables(count, found), sf, i, es)
  {
    hide Variables, Found, Overwrite;
  }

  // ---- a new entry ----

  /** Every old node is as it was. */
  ghost predicate AllKept<T>(d: Doc<T>, d': Doc<T>, all: set<T>)
  {
    forall x | x in all :: NodeKept(d, d', x)
  }

  /** A fresh map, or list, with nothing in it; the old nodes share as they did. */
  ghost predicate Fresh<T>(d: Doc<T>, d': Doc<T>, t: T)
  {
    && t !in d.layout && d'.Has(t) && d'.Defined(t) && d'.face[t].0 == Null && d'.layout[t].0 == Emptied() && d'.Kin(t) == {t}
    && d'.layout.Keys == d.layout.Keys + {t}
    && forall x | x in d.layout :: NodeKept(d, d', x) && d'.Kin(x) == d.Kin(x) && t !in d'.Kin(x)
  }

  lemma NullMade<T>(m0: Moment<T>, h0: Choice<T>, m1: Moment<T>, h1: Choice<T>, m2: Moment<T>) returns (t: T)
    requires Step(m0, Op.Create, h0, m1) && Step(m1, Nullify(|m0.hs|), h1, m2)
    ensures m2.hs == m0.hs + [Some(t)] && Fresh(m0.doc, m2.doc, t)
  {
    t := CreateStep(m0, h0, m1);
    hide *;
    StepMeans(m0, Op.Create, h0, m1);
    StepMeans(m1, Nullify(|m0.hs|), h1, m2);
    HasStays(m1, Nullify(|m0.hs|), h1, m2);
    NewIsBound(m0.hs, m1.hs, t);
    NullifyWrites(m1.doc, m1.hs, |m0.hs|, h1, m2.doc, m2.hs);
    SameShapeMeans(m1.doc, m2.doc);
    MarkMarks(m1.doc.marks, t);
    forall x | x in m0.doc.layout ensures t !in m0.doc.Kin(x) { KinIsOld(m0.doc, x, t); }
    NullIsFresh(m0.doc, m1.doc, m2.doc, t);
  }

  lemma NewIsBound<T>(hs: Handles<T>, hs': Handles<T>, t: T)
    requires hs' == hs + [Some(t)]
    ensures Bound(hs', |hs|) && hs'[|hs|] == Some(t) && IsAt(hs', |hs|, t) && Extends(hs, hs')
  {
  }

  lemma NullIsFresh<T>(d0: Doc<T>, d1: Doc<T>, d2: Doc<T>, t: T)
    requires OldKept(d0, d1) && Blank(d1, t) && t !in d0.layout && d1.layout.Keys == d0.layout.Keys + {t}
    requires forall x | x in d0.layout :: d0.Has(x) && (d0.Defined(x) ==> d1.Defined(x)) && t !in d0.Kin(x)
    requires d2.layout == d1.layout && d2.ties == d1.ties && Painted(d1, d1.Kin(t), (Null, d1.face[t].1), d2)
    requires t in d2.marks.done && d1.marks.done <= d2.marks.done && forall x | d1.Has(x) :: d2.Has(x)
    ensures Fresh(d0, d2, t)
  {
    forall x | x in d0.layout ensures NodeKept(d0, d2, x) && d2.Kin(x) == d0.Kin(x) { assert KeptAt(d0, d1, x); }
  }

  /** With a tree of its own the fresh node is another top. */
  lemma FreshTidy<T>(d: Doc<T>, d': Doc<T>, t: T, tops: set<T>, all: set<T>)
    requires Fresh(d, d', t) && Tidy(d, tops, all)
    ensures Tidy(d', tops + {t}, all + {t}) && ShowsRow(d', t, []) && t !in all && AllKept(d, d', all)
  {
    hide Below, Forks;
    assert forall x | x in all :: d.Has(x);
    NothingBelow(d', t);
    forall x | x in all ensures Below(d', x) == Below(d, x) && Forks(d', x) { SameBelow(d, d', x); }
  }

  lemma FileSame<T>(d: Doc<T>, d': Doc<T>, root: T, list: T, q: seq<T>, rows: seq<Row>, tops: set<T>, all: set<T>)
    requires Tidy(d, tops, all) && root in tops && ShowsFile(d, root, list, q, rows) && AllKept(d, d', all)
    ensures ShowsFile(d', root, list, q, rows)
  {
    hide *;
    TidyTrees(d, tops, all);
    AllDefined(d, tops, all);
    FilePlaces(d, root, list, q, rows, tops, all);
    FileParts(d, root, list, q, rows);
    AllKeptMeans(d, d', all);
    KeptIsTurned(d, d', root, Map);
    KeysBelow(d, root);
    TreesMean(d, tops, all, root);
    HasMeans(d, root);
    LeadsKept(d, d', root, "domains", list);
    forall j | 0 <= j < |q| ensures ShowsRow(d', q[j], rows[j]) {
      EntryShows(d, list, q, rows, j);
      TreesMean(d, tops, all, q[j]);
      KeptIsTurned(d, d', q[j], Map);
      RowKept(d, d', q[j], rows[j]);
    }
    ListAgain(d, d', root, list, q, rows);
  }

  lemma AllDefined<T>(d: Doc<T>, tops: set<T>, all: set<T>)
    requires Tidy(d, tops, all)
    ensures forall z | z in all :: d.Defined(z)
  {
    hide Trees;
  }

  lemma FileParts<T>(d: Doc<T>, root: T, list: T, q: seq<T>, rows: seq<Row>)
    requires ShowsFile(d, root, list, q, rows)
    ensures Leads(d, root, "domains", list) && ShowsList(d, list, q, rows)
  {
    hide Leads, ShowsList;
  }

  lemma AllKeptMeans<T>(d: Doc<T>, d': Doc<T>, all: set<T>)
    requires AllKept(d, d', all)
    ensures forall x | x in all :: NodeKept(d, d', x)
  {
    hide NodeKept;
  }

  lemma ListAgain<T>(d: Doc<T>, d': Doc<T>, root: T, list: T, q: seq<T>, rows: seq<Row>)
    requires ShowsList(d, list, q, rows) && NodeKept(d, d', list) && Leads(d', root, "domains", list)
    requires forall j | 0 <= j < |q| && j < |rows| :: ShowsRow(d', q[j], rows[j])
    ensures ShowsFile(d', root, list, q, rows)
  {
    hide ShowsRow, Leads;
  }

  /** Variable `x` holds a row that is not in the file. */
  ghost predicate Beside<T>(m: Moment<T>, x: nat, c: T, row: Row, root: T, tops: set<T>)
  {
    IsAt(m.hs, x, c) && c in tops && c != root && ShowsRow(m.doc, c, row)
  }

  lemma BesideMeans<T>(m: Moment<T>, x: nat, c: T, row: Row, root: T, tops: set<T>)
    requires Beside(m, x, c, row, root, tops)
    ensures IsAt(m.hs, x, c) && c in tops && c != root && ShowsRow(m.doc, c, row)
  {
    hide ShowsRow, IsAt;
  }

  lemma BesideFrom<T>(m: Moment<T>, x: nat, c: T, row: Row, root: T, tops: set<T>)
    requires IsAt(m.hs, x, c) && c in tops && c != root && ShowsRow(m.doc, c, row)
    ensures Beside(m, x, c, row, root, tops)
  {
    hide ShowsRow, IsAt;
  }

  /** What is beside the file is not met when looking around in it. */
  lemma TreeElsewhere<T>(d: Doc<T>, root: T, list: T, q: seq<T>, rows: seq<Row>, tops: set<T>, all: set<T>, c: T)
    requires Trees(d, tops, all) && root in tops && ShowsFile(d, root, list, q, rows) && c in tops && c != root
    ensures d.Has(c) && c in all && Elsewhere(d, c, Stops(root, list, q))
    ensures forall y | y in Below(d, c) :: y in d.layout && Elsewhere(d, y, Stops(root, list, q))
  {
    FilePlaces(d, root, list, q, rows, tops, all);
    TopsMean(d, tops, all);
    TreesMean(d, tops, all, c);
    TreesMean(d, tops, all, root);
    StopsMean(root, list, q);
    AllHave(d, tops, all);
    KinMeans(d, tops, all);
    hide Below, Forks, ShowsFile, Trees, Stops;
    forall y | y == c || y in Below(d, c) ensures y in d.layout && Elsewhere(d, y, Stops(root, list, q)) {
      assert y in all && y != root && y != list;
      assert forall j | 0 <= j < |q| :: q[j] != y;
      forall x | x in Stops(root, list, q) ensures d.Has(x) && y !in d.Kin(x) {
        assert x in all;
      }
    }
  }

  lemma TopsMean<T>(d: Doc<T>, tops: set<T>, all: set<T>)
    requires Trees(d, tops, all)
    ensures tops <= all
  {
    hide Below, Forks;
  }

  lemma KinMeans<T>(d: Doc<T>, tops: set<T>, all: set<T>)
    requires Trees(d, tops, all)
    ensures forall n, m | n in all && m in all :: d.Has(n) && (m in d.Kin(n) ==> m == n)
  {
    hide Below, Forks;
  }

  lemma StopsMean<T>(root: T, list: T, q: seq<T>)
    ensures forall x | x in Stops(root, list, q) :: x == root || x == list || x in q
  {
  }

  lemma BesideStays<T>(m: Moment<T>, m': Moment<T>, sf: nat, root: T, list: T, q: seq<T>, rows: seq<Row>, tops: set<T>, all: set<T>,
                       x: nat, c: T, row: Row)
    requires Open(m, sf, root, list, q, rows, tops, all) && Beside(m, x, c, row, root, tops) && Passes(m, m', Stops(root, list, q))
    ensures Beside(m', x, c, row, root, tops)
  {
    hide *;
    OpenMeans(m, sf, root, list, q, rows, tops, all);
    BesideMeans(m, x, c, row, root, tops);
    PassMeans(m, m', Stops(root, list, q));
    TreeElsewhere(m.doc, root, list, q, rows, tops, all, c);
    HasMeans(m.doc, c);
    forall y | y == c || y in Below(m.doc, c) ensures NodeKept(m.doc, m'.doc, y) { IdleMeans(m.doc, m'.doc, Stops(root, list, q), y); }
    KeptIsTurned(m.doc, m'.doc, c, Map);
    RowKept(m.doc, m'.doc, c, row);
    AtStill(m.hs, m'.hs, x, c);
    BesideFrom(m', x, c, row, root, tops);
  }

  lemma IdleMeans<T>(d: Doc<T>, d': Doc<T>, stops: seq<T>, n: T)
    requires Idle(d, d', stops) && n in d.layout && Elsewhere(d, n, stops)
    ensures NodeKept(d, d', n) && Elsewhere(d', n, stops) && d.Has(n) && d'.Has(n) && d'.Kin(n) == d.Kin(n)
  {
    assert d.Has(n) && d'.Has(n);
    hide NodeKept, Elsewhere;
  }

  /** Setting fields of a row that is not in the file leaves the file. */
  lemma SideSet<T>(m: Moment<T>, m': Moment<T>, sf: nat, root: T, list: T, q: seq<T>, rows: seq<Row>, c: T, row: Row,
                   tops: set<T>, all: set<T>, all': set<T>)
    requires Open(m, sf, root, list, q, rows, tops, all) && c in tops && c != root && Sets(m, m', tops, all, all', c, row)
    ensures Open(m', sf, root, list, q, rows, tops, all')
  {
    hide *;
    OpenMeans(m, sf, root, list, q, rows, tops, all);
    SetsMean(m, m', tops, all, all', c, row);
    SetsOutside(m, m', tops, all, all', c, row);
    OutsideIsKept(m.doc, m'.doc, tops, all, all', c);
    FilePlaces(m.doc, root, list, q, rows, tops, all);
    AllHave(m.doc, tops, all);
    forall z | z in all ensures c !in Below(m.doc, z) { TreesMean(m.doc, tops, all, z); }
    FileAround(m.doc, m'.doc, root, list, q, rows, tops, all, c);
    ListAgain(m.doc, m'.doc, root, list, q, rows);
    AtStill(m.hs, m'.hs, sf, root);
    OpenFrom(m', sf, root, list, q, rows, tops, all');
  }

  lemma NewMapIs(count: nat, es: seq<Entry>)
    ensures NewMap(count, es) == [Op.Create, Nullify(count)] + SetEntries(count + 1, count, es)
    ensures Variables(count, NewMap(count, es)) == Variables(count + 1, SetEntries(count + 1, count, es))
  {
    VariablesJoin(count, [Op.Create, Nullify(count)], SetEntries(count + 1, count, es));
    assert [Op.Create, Nullify(count)][1..] == [Nullify(count)] && [Nullify(count)][1..] == [];
    assert Variables(count + 1, [Nullify(count)]) == count + 1;
    assert Variables(count, [Op.Create, Nullify(count)]) == count + 1;
  }

  /** A new map with its fields is made beside the file. */
  lemma MapMade<T>(r: Trace<T>, sf: nat, es: seq<Entry>, root: T, list: T, q: seq<T>, rows: seq<Row>, tops: set<T>, all: set<T>)
    returns (c: T, all': set<T>)
    requires r.at != [] && Open(r.Start(), sf, root, list, q, rows, tops, all) && Does(r, NewMap(|r.Start().hs|, es))
    ensures Open(r.End(), sf, root, list, q, rows, tops + {c}, all') && Extends(r.Start().hs, r.End().hs) && c !in tops
    ensures Beside(r.End(), |r.Start().hs|, c, SetFields([], es), root, tops + {c})
    ensures |r.End().hs| == Variables(|r.Start().hs|, NewMap(|r.Start().hs|, es))
  {
    hide *;
    var m0, count := r.Start(), |r.Start().hs|;
    var first, more := [Op.Create, Nullify(count)], SetEntries(count + 1, count, es);
    NewMapIs(count, es);
    Cut(r, first, more);
    var r1, r2 := r.To(|first|), r.From(|first|);
    DoesAt(r1, first, 0);
    DoesAt(r1, first, 1);
    c := NullMade(m0, r1.hows[0], r1.at[1], r1.hows[1], r2.Start());
    var m2 := r2.Start();
    NewIsBound(m0.hs, m2.hs, c);
    SideOpens(m0, m2, sf, root, list, q, rows, tops, all, c);
    var tops', all1 := tops + {c}, all + {c};
    all' := EntriesSet(r2, count, c, es, tops', all1, []);
    SetsMean(m2, r.End(), tops', all1, all', c, SetFields([], es));
    SideSet(m2, r.End(), sf, root, list, q, rows, c, SetFields([], es), tops', all1, all');
    AtStill(m2.hs, r.End().hs, count, c);
    BesideFrom(r.End(), count, c, SetFields([], es), root, tops');
    ExtendsThen(m0.hs, m2.hs, r.End().hs);
  }

  lemma SideOpens<T>(m0: Moment<T>, m2: Moment<T>, sf: nat, root: T, list: T, q: seq<T>, rows: seq<Row>, tops: set<T>, all: set<T>, c: T)
    requires Open(m0, sf, root, list, q, rows, tops, all) && Fresh(m0.doc, m2.doc, c) && Extends(m0.hs, m2.hs)
    ensures Open(m2, sf, root, list, q, rows, tops + {c}, all + {c}) && c !in tops && c != root && ShowsRow(m2.doc, c, [])
    ensures Tidy(m2.doc, tops + {c}, all + {c})
  {
    hide *;
    OpenMeans(m0, sf, root, list, q, rows, tops, all);
    FreshTidy(m0.doc, m2.doc, c, tops, all);
    TopsMean(m0.doc, tops, all);
    FileSame(m0.doc, m2.doc, root, list, q, rows, tops, all);
    AtStill(m0.hs, m2.hs, sf, root);
    OpenFrom(m2, sf, root, list, q, rows, tops + {c}, all + {c});
  }

  // ---- saving a definition ----

  /** The name of the entry is this. */
  predicate Named(row: Row, name: string)
  {
    HasField(row, "name") && row[KeyIndex(row, "name")].1 == name
  }

  /** Whoever shares a reference with the fresh row shows it; the rest of the document is as before. */
  ghost predicate RefTaken<T>(d: Doc<T>, d': Doc<T>, n: T, c: T)
  {
    && d.Has(n) && d.Has(c) && d'.Has(n) && d'.Defined(n) && d'.layout[n] == d.layout[c] && d'.face[n] == d.face[c]
    && (forall x | x in d.layout && x != n :: NodeKept(d, d', x))
    && (forall x | x in d.layout && x != n && x !in d.Kin(c) :: d'.Kin(x) == d.Kin(x) - {n})
    && d'.Kin(n) == d.Kin(c) + {n}
  }

  lemma RefStep<T>(m: Moment<T>, i: nat, j: nat, how: Choice<T>, m': Moment<T>, n: T, c: T)
    requires Step(m, ShareRef(i, j), how, m') && IsAt(m.hs, i, n) && IsAt(m.hs, j, c) && m.doc.Defined(c)
    ensures m'.hs == m.hs[i := Some(c)] && RefTaken(m.doc, m'.doc, n, c)
  {
    hide *;
    AtMeans(m.hs, i, n);
    AtMeans(m.hs, j, c);
    StepMeans(m, ShareRef(i, j), how, m');
    HasStays(m, ShareRef(i, j), how, m');
    HandleHas(m.doc, m.hs, i);
    HandleHas(m.doc, m.hs, j);
    FaceKeys(m.doc);
    ShareRefTakes(m.doc, m.hs, i, j, how, m'.doc, m'.hs);
    MarkMarks(m.doc.marks, n);
    TakenFrom(m.doc, m'.doc, n, c);
  }

  lemma HandleHas<T>(d: Doc<T>, hs: Handles<T>, i: nat)
    requires Handled(d, hs) && Bound(hs, i)
    ensures d.Has(hs[i].value)
  {
  }

  lemma TakenFrom<T>(d: Doc<T>, d': Doc<T>, n: T, c: T)
    requires d.Has(n) && d.Has(c) && d.ties.Keys == d.layout.Keys && d.face.Keys == d.layout.Keys && (forall x | x in d.layout :: d.Has(x))
    requires Filled(d, {n}, d.layout[c], d') && Painted(d, {n}, d.face[c], d') && d'.ties.Keys == d.ties.Keys
    requires forall x | x in d.ties && x != n && x !in d.ties[c].kin :: d'.ties[x].kin == d.ties[x].kin - {n}
    requires forall x | x in d.ties && (x == n || x in d.ties[c].kin) :: d'.ties[x].kin == d.ties[c].kin + {n}
    requires d.marks.done <= d'.marks.done && n in d'.marks.done && (forall x | d.Has(x) :: d'.Has(x))
    ensures RefTaken(d, d', n, c)
  {
  }

  /** The entry takes over the tree of the row beside the file, whose own node drops out. */
  lemma TakenTrees<T>(d: Doc<T>, d': Doc<T>, tops: set<T>, all: set<T>, n: T, c: T)
    requires Trees(d, tops, all) && RefTaken(d, d', n, c) && n in all && c in tops && n !in tops
    ensures Trees(d', tops - {c}, all - {c})
  {
    hide *;
    TopsMean(d, tops, all);
    KinMeans(d, tops, all);
    AllHave(d, tops, all);
    forall x | x in all ensures Forks(d, x) { TreesMean(d, tops, all, x); }
    BelowTaken(d, d', n, c, all);
    forall x, y | x in all - {c} && y in all - {c} && y in d'.Kin(x) ensures y == x {
      HasMeans(d, x);
      KinTaken(d, d', n, c, x, y);
    }
    MovedTrees(d, d', tops, all, n, c);
  }

  lemma KinTaken<T>(d: Doc<T>, d': Doc<T>, n: T, c: T, x: T, y: T)
    requires RefTaken(d, d', n, c) && x in d.layout && d.Has(x) && x !in d.Kin(c) && d'.Has(x) && y in d'.Kin(x)
    ensures if x == n then y == n || y in d.Kin(c) else y in d.Kin(x)
  {
  }

  lemma MovedTrees<T>(d: Doc<T>, d': Doc<T>, tops: set<T>, all: set<T>, n: T, c: T)
    requires Trees(d, tops, all) && n in all && c in tops && c in all && n !in tops && tops <= all && (forall x | x in all :: d.Has(x))
    requires forall x | x in all :: d'.Has(x) && Below(d', x) == Below(d, if x == n then c else x) && Forks(d', x)
    requires forall x, y | x in all - {c} && y in all - {c} && y in d'.Kin(x) :: y == x
    ensures Trees(d', tops - {c}, all - {c})
  {
    hide Below, Forks, Trees, Doc<T>.Has, Doc<T>.Kin;
    var all' := all - {c};
    forall x | x in all' ensures Below(d', x) <= all' && Below(d', x) !! tops {
      TreesMean(d, tops, all, if x == n then c else x);
    }
    forall x, y | x in all' && y in all' && x != y ensures Below(d', x) !! Below(d', y) {
      TreesMean(d, tops, all, if x == n then c else x);
    }
    TreesFrom(d', tops - {c}, all');
  }

  lemma TreesFrom<T>(d: Doc<T>, tops: set<T>, all: set<T>)
    requires tops <= all && forall n | n in all :: d.Has(n) && Below(d, n) <= all && Below(d, n) !! tops && Forks(d, n)
    requires forall n, m | n in all && m in all && m in d.Kin(n) :: m == n
    requires forall n, m | n in all && m in all && n != m :: Below(d, n) !! Below(d, m)
    ensures Trees(d, tops, all)
  {
    hide Below, Forks, Doc<T>.Has;
  }

  lemma BelowTaken<T>(d: Doc<T>, d': Doc<T>, n: T, c: T, all: set<T>)
    requires RefTaken(d, d', n, c) && (forall x | x in all :: d.Has(x) && Forks(d, x)) && n in all && c in all
    ensures forall x | x in all :: d'.Has(x) && Below(d', x) == Below(d, if x == n then c else x) && Forks(d', x)
  {
    forall x | x in all ensures d'.Has(x) && Below(d', x) == Below(d, if x == n then c else x) && Forks(d', x) {
      if x != n { assert NodeKept(d, d', x); SameBelow(d, d', x); }
    }
  }

  lemma TakenKeeps<T>(d: Doc<T>, d': Doc<T>, n: T, c: T, x: T)
    requires RefTaken(d, d', n, c) && x in d.layout && x != n
    ensures NodeKept(d, d', x)
  {
    hide NodeKept;
  }

  lemma TakenTidy<T>(d: Doc<T>, d': Doc<T>, tops: set<T>, all: set<T>, n: T, c: T)
    requires Tidy(d, tops, all) && RefTaken(d, d', n, c) && n in all && c in tops && n !in tops
    ensures Tidy(d', tops - {c}, all - {c})
  {
    hide *;
    TidyTrees(d, tops, all);
    AllDefined(d, tops, all);
    AllHave(d, tops, all);
    TakenTrees(d, d', tops, all, n, c);
    forall x | x in all - {c} ensures d'.Defined(x) {
      if x == n { TakenMeans(d, d', n, c); } else { HasMeans(d, x); TakenKeeps(d, d', n, c, x); KeptMeans(d, d', x); }
    }
    TidyFrom(d', tops - {c}, all - {c});
  }

  lemma TakenMeans<T>(d: Doc<T>, d': Doc<T>, n: T, c: T)
    requires RefTaken(d, d', n, c)
    ensures d.Has(n) && d.Has(c) && d'.Has(n) && d'.Defined(n) && d'.layout[n] == d.layout[c] && d'.face[n] == d.face[c]
  {
    hide NodeKept;
  }

  lemma KeptMeans<T>(d: Doc<T>, d': Doc<T>, x: T)
    requires NodeKept(d, d', x)
    ensures d.Has(x) && d'.Has(x) && (d.Defined(x) ==> d'.Defined(x)) && d'.layout[x] == d.layout[x] && d'.face[x] == d.face[x]
  {
  }

  lemma TidyFrom<T>(d: Doc<T>, tops: set<T>, all: set<T>)
    requires Trees(d, tops, all) && forall x | x in all :: d.Defined(x)
    ensures Tidy(d, tops, all)
  {
    hide Trees;
  }

  lemma RowTaken<T>(d: Doc<T>, d': Doc<T>, n: T, c: T, row: Row)
    requires RefTaken(d, d', n, c) && ShowsRow(d, c, row) && (forall y | y in Below(d, c) :: y in d.layout && y != n) && c != n
    ensures ShowsRow(d', n, row)
  {
    var pairs := d.layout[c].0.pairs;
    forall a | 0 <= a < |row| ensures ShowsText(d', pairs[a].0, row[a].0) && ShowsText(d', pairs[a].1, row[a].1) {
      RowCells(d, c, row, a);
      PairIsBelow(d, c, a);
      TakenKeeps(d, d', n, c, pairs[a].0);
      TakenKeeps(d, d', n, c, pairs[a].1);
      TextKept(d, d', pairs[a].0, row[a].0);
      TextKept(d, d', pairs[a].1, row[a].1);
    }
    hide Below, ShowsText, NodeKept;
  }

  /** The entry is replaced by the row beside the file. */
  lemma EntryReplaced<T>(m: Moment<T>, y: nat, x: nat, how: Choice<T>, m': Moment<T>, sf: nat, i: nat, c: T, row: Row,
                         root: T, list: T, q: seq<T>, rows: seq<Row>, tops: set<T>, all: set<T>)
    requires Step(m, ShareRef(y, x), how, m') && Open(m, sf, root, list, q, rows, tops, all) && Beside(m, x, c, row, root, tops)
    requires i < |q| && i < |rows| && IsAt(m.hs, y, q[i]) && sf < y
    ensures Open(m', sf, root, list, q, rows[i := row], tops - {c}, all - {c})
    ensures |m'.hs| == |m.hs| && m'.hs[..y] == m.hs[..y]
  {
    hide *;
    var n := q[i];
    OpenMeans(m, sf, root, list, q, rows, tops, all);
    BesideMeans(m, x, c, row, root, tops);
    RowSize(m.doc, c, row);
    FilePlaces(m.doc, root, list, q, rows, tops, all);
    TopsMean(m.doc, tops, all);
    AllHave(m.doc, tops, all);
    TreesMean(m.doc, tops, all, c);
    RefStep(m, y, x, how, m', n, c);
    TakenTidy(m.doc, m'.doc, tops, all, n, c);
    forall z | z in all ensures z in m.doc.layout { HasMeans(m.doc, z); }
    forall z | z in all && z != n ensures NodeKept(m.doc, m'.doc, z) { TakenKeeps(m.doc, m'.doc, n, c, z); }
    FileAround(m.doc, m'.doc, root, list, q, rows, tops, all, n);
    RowTaken(m.doc, m'.doc, n, c, row);
    ListFrom(m.doc, m'.doc, root, list, q, rows, i, row);
    AtMeans(m.hs, y, n);
    AtUpdated(m.hs, m'.hs, sf, root, y, Some(c));
    OpenFrom(m', sf, root, list, q, rows[i := row], tops - {c}, all - {c});
  }

  lemma AtUpdated<T>(hs: Handles<T>, hs': Handles<T>, sf: nat, root: T, y: nat, v: Option<T>)
    requires IsAt(hs, sf, root) && sf < y < |hs| && hs' == hs[y := v]
    ensures IsAt(hs', sf, root) && hs'[..y] == hs[..y] && |hs'| == |hs|
  {
  }

  lemma ReplaceIs(count: nat, sf: nat, dom: nat, hits: seq<bool>, i: nat)
    ensures i >= |hits| ==> Replace(count, sf, dom, hits, i) == [Key(sf, "domains")]
    ensures i >= |hits| ==> Variables(count, Replace(count, sf, dom, hits, i)) == count + 1
    ensures i < |hits| ==>
      var look, put := [Key(sf, "domains"), Key(sf, "domains"), Op.At(count + 1, i), Key(count + 2, "name")],
                       [Key(sf, "domains"), Op.At(count + 4, i)] + [ShareRef(count + 5, dom)];
      && (!hits[i] ==> Replace(count, sf, dom, hits, i) == look + Replace(count + 4, sf, dom, hits, i + 1))
      && (!hits[i] ==> Variables(count, Replace(count, sf, dom, hits, i)) == Variables(count + 4, Replace(count + 4, sf, dom, hits, i + 1)))
      && (hits[i] ==> Replace(count, sf, dom, hits, i) == look + (put + Replace(count + 6, sf, dom, hits, i + 1)))
      && (hits[i] ==> Variables(count, Replace(count, sf, dom, hits, i)) == Variables(count + 6, Replace(count + 6, sf, dom, hits, i + 1)))
  {
    hide Variables;
    if i >= |hits| {
      ThreeLooks(count, Key(sf, "domains"), Key(sf, "domains"), Key(sf, "domains"));
    } else {
      var look, put := [Key(sf, "domains"), Key(sf, "domains"), Op.At(count + 1, i), Key(count + 2, "name")],
                       [Key(sf, "domains"), Op.At(count + 4, i)] + [ShareRef(count + 5, dom)];
      LookNames(sf, count, i);
      if hits[i] {
        var more := Replace(count + 6, sf, dom, hits, i + 1);
        LookNames(sf, count + 4, i);
        ShareAdds(count + 6, count + 5, dom);
        assert put == [Key(sf, "domains"), Op.At(count + 4, i), ShareRef(count + 5, dom)];
        assert Replace(count, sf, dom, hits, i) == look + (put + more);
        hide *;
        VariablesJoin(count + 4, [Key(sf, "domains"), Op.At(count + 4, i)], [ShareRef(count + 5, dom)]);
        VariablesJoin(count + 4, put, more);
        VariablesJoin(count, look, put + more);
      } else {
        VariablesJoin(count, look, Replace(count + 4, sf, dom, hits, i + 1));
      }
    }
  }

  lemma ShareAdds(count: nat, y: nat, x: nat)
    ensures Variables(count, [ShareRef(y, x)]) == count
    ensures Variables(count, [Push(y, x)]) == count
  {
    assert [ShareRef(y, x)][1..] == [] && [Push(y, x)][1..] == [];
  }

  /** Going on through the list where no entry has the name. */
  lemma {:induction false} PassedBy<T>(r: Trace<T>, sf: nat, dom: nat, hits: seq<bool>, i: nat,
                                       root: T, list: T, q: seq<T>, rows: seq<Row>, tops: set<T>, all: set<T>)
    requires r.at != [] && Open(r.Start(), sf, root, list, q, rows, tops, all) && Does(r, Replace(|r.Start().hs|, sf, dom, hits, i))
    requires |hits| == |q| == |rows| && forall j | i <= j < |q| :: HasField(rows[j], "name") && !hits[j]
    ensures Open(r.End(), sf, root, list, q, rows, tops, all) && Passes(r.Start(), r.End(), Stops(root, list, q))
    ensures |r.End().hs| == Variables(|r.Start().hs|, Replace(|r.Start().hs|, sf, dom, hits, i))
    decreases |hits| - i
  {
    hide *;
    var count := |r.Start().hs|;
    ReplaceIs(count, sf, dom, hits, i);
    if i >= |hits| {
      DoesAt(r, [Key(sf, "domains")], 0);
      LookList(r.at[0], sf, r.hows[0], r.at[1], root, list, q, rows, tops, all);
    } else {
      var look, more := [Key(sf, "domains"), Key(sf, "domains"), Op.At(count + 1, i), Key(count + 2, "name")],
                        Replace(count + 4, sf, dom, hits, i + 1);
      Cut(r, look, more);
      var r1, r2 := r.To(|look|), r.From(|look|);
      NameLooked(r1, sf, i, root, list, q, rows, tops, all);
      PassedBy(r2, sf, dom, hits, i + 1, root, list, q, rows, tops, all);
      PassThen(r.Start(), r2.Start(), r.End(), Stops(root, list, q));
    }
  }

  /** The look at an entry and the replacement. */
  lemma EntryPut<T>(r: Trace<T>, sf: nat, x: nat, i: nat, c: T, row: Row,
                    root: T, list: T, q: seq<T>, rows: seq<Row>, tops: set<T>, all: set<T>)
    requires r.at != [] && Open(r.Start(), sf, root, list, q, rows, tops, all) && Beside(r.Start(), x, c, row, root, tops)
    requires i < |q| && i < |rows| && var count := |r.Start().hs|; Does(r, [Key(sf, "domains"), Op.At(count, i)] + [ShareRef(count + 1, x)])
    ensures Open(r.End(), sf, root, list, q, rows[i := row], tops - {c}, all - {c}) && Extends(r.Start().hs, r.End().hs)
    ensures |r.End().hs| == |r.Start().hs| + 2
  {
    hide *;
    var count := |r.Start().hs|;
    var look, put := [Key(sf, "domains"), Op.At(count, i)], [ShareRef(count + 1, x)];
    Cut(r, look, put);
    var r1, r2 := r.To(|look|), r.From(|look|);
    EntryLooked(r1, sf, i, root, list, q, rows, tops, all);
    BesideStays(r.Start(), r2.Start(), sf, root, list, q, rows, tops, all, x, c, row);
    PassMeans(r.Start(), r2.Start(), Stops(root, list, q));
    DoesAt(r2, put, 0);
    OpenMeans(r.Start(), sf, root, list, q, rows, tops, all);
    AtBelow(r.Start().hs, sf, root);
    EntryReplaced(r2.Start(), count + 1, x, r2.hows[0], r.End(), sf, i, c, row, root, list, q, rows, tops, all);
    ExtendsLess(r.Start().hs, r2.Start().hs, r.End().hs);
  }

  lemma AtBelow<T>(hs: Handles<T>, x: nat, c: T)
    requires IsAt(hs, x, c)
    ensures x < |hs|
  {
  }

  lemma ExtendsLess<T>(a: Handles<T>, b: Handles<T>, c: Handles<T>)
    requires Extends(a, b) && |c| == |b| == |a| + 2 && c[..|a| + 1] == b[..|a| + 1]
    ensures Extends(a, c)
  {
    assert c[..|a|] == c[..|a| + 1][..|a|] == b[..|a| + 1][..|a|] == b[..|a|];
  }

  /** The loop over the list when one entry has the name. */
  lemma {:induction false} Replaced<T>(r: Trace<T>, sf: nat, dom: nat, hits: seq<bool>, i: nat, h: nat, c: T, row: Row,
                                       root: T, list: T, q: seq<T>, rows: seq<Row>, tops: set<T>, all: set<T>)
    requires r.at != [] && Open(r.Start(), sf, root, list, q, rows, tops, all) && Beside(r.Start(), dom, c, row, root, tops)
    requires Does(r, Replace(|r.Start().hs|, sf, dom, hits, i))
    requires |hits| == |q| == |rows| && forall j | i <= j < |q| :: HasField(rows[j], "name") && (hits[j] <==> j == h)
    requires i <= h < |hits|
    ensures Open(r.End(), sf, root, list, q, rows[h := row], tops - {c}, all - {c}) && Extends(r.Start().hs, r.End().hs)
    ensures |r.End().hs| == Variables(|r.Start().hs|, Replace(|r.Start().hs|, sf, dom, hits, i))
    decreases |hits| - i
  {
    hide *;
    var count := |r.Start().hs|;
    ReplaceIs(count, sf, dom, hits, i);
    var look := [Key(sf, "domains"), Key(sf, "domains"), Op.At(count + 1, i), Key(count + 2, "name")];
    if i == h {
      var put, more := [Key(sf, "domains"), Op.At(count + 4, i)] + [ShareRef(count + 5, dom)], Replace(count + 6, sf, dom, hits, i + 1);
      Cut(r, look, put + more);
      var r1, r2 := r.To(|look|), r.From(|look|);
      NameLooked(r1, sf, i, root, list, q, rows, tops, all);
      BesideStays(r.Start(), r2.Start(), sf, root, list, q, rows, tops, all, dom, c, row);
      PassMeans(r.Start(), r2.Start(), Stops(root, list, q));
      Cut(r2, put, more);
      var r3, r4 := r2.To(|put|), r2.From(|put|);
      EntryPut(r3, sf, dom, i, c, row, root, list, q, rows, tops, all);
      PassedBy(r4, sf, dom, hits, i + 1, root, list, q, rows[h := row], tops - {c}, all - {c});
      PassMeans(r4.Start(), r.End(), Stops(root, list, q));
      ExtendsThen(r.Start().hs, r2.Start().hs, r4.Start().hs);
      ExtendsThen(r.Start().hs, r4.Start().hs, r.End().hs);
    } else {
      var more := Replace(count + 4, sf, dom, hits, i + 1);
      Cut(r, look, more);
      var r1, r2 := r.To(|look|), r.From(|look|);
      NameLooked(r1, sf, i, root, list, q, rows, tops, all);
      BesideStays(r.Start(), r2.Start(), sf, root, list, q, rows, tops, all, dom, c, row);
      PassMeans(r.Start(), r2.Start(), Stops(root, list, q));
      Replaced(r2, sf, dom, hits, i + 1, h, c, row, root, list, q, rows, tops, all);
      ExtendsThen(r.Start().hs, r2.Start().hs, r.End().hs);
    }
  }

  /** Only the list itself may have changed: the root still leads to it, and the entries show what they did. */
  lemma AroundList<T>(d: Doc<T>, d': Doc<T>, root: T, list: T, q: seq<T>, rows: seq<Row>, tops: set<T>, all: set<T>)
    requires Tidy(d, tops, all) && root in tops && ShowsFile(d, root, list, q, rows)
    requires forall x | x in all && x != list :: NodeKept(d, d', x)
    ensures Leads(d', root, "domains", list) && |q| == |rows| && forall j | 0 <= j < |q| :: ShowsRow(d', q[j], rows[j])
  {
    hide *;
    TidyTrees(d, tops, all);
    AllDefined(d, tops, all);
    FilePlaces(d, root, list, q, rows, tops, all);
    FileParts(d, root, list, q, rows);
    KeptIsTurned(d, d', root, Map);
    TreesMean(d, tops, all, root);
    TreesMean(d, tops, all, list);
    KeysNotList(d, root, list);
    HasMeans(d, root);
    LeadsKept(d, d', root, "domains", list);
    forall j | 0 <= j < |q| ensures ShowsRow(d', q[j], rows[j]) {
      EntryShows(d, list, q, rows, j);
      TreesMean(d, tops, all, q[j]);
      KeptIsTurned(d, d', q[j], Map);
      RowKept(d, d', q[j], rows[j]);
    }
  }

  /** The sequence of `n`, and of those who share with it, has a new last element. */
  ghost predicate SeqGrown<T>(d: Doc<T>, d': Doc<T>, n: T, c: T)
  {
    && d.Has(n) && d.Has(c) && d'.Has(n) && (d.Defined(n) ==> d'.Defined(n)) && d'.face[n] == d.face[n]
    && d'.layout[n].0 == (var s := d.layout[n].0; Store(s.sequence + [c], s.seqSize, s.pairs))
    && (forall x | x in d.layout && x !in d.Kin(n) :: NodeKept(d, d', x))
    && (forall x | x in d.layout :: d.Has(x) && d'.Has(x) && d'.Kin(x) == d.Kin(x))
  }

  lemma PushStep<T>(m: Moment<T>, i: nat, j: nat, how: Choice<T>, m': Moment<T>, n: T, c: T)
    requires Step(m, Push(i, j), how, m') && IsAt(m.hs, i, n) && IsAt(m.hs, j, c)
    ensures m'.hs == m.hs && SeqGrown(m.doc, m'.doc, n, c)
  {
    hide *;
    AtMeans(m.hs, i, n);
    AtMeans(m.hs, j, c);
    StepMeans(m, Push(i, j), how, m');
    HasStays(m, Push(i, j), how, m');
    HandleHas(m.doc, m.hs, i);
    HandleHas(m.doc, m.hs, j);
    HasMeans(m.doc, n);
    FaceKeys(m.doc);
    PushAppends(m.doc, m.hs, i, j, how, m'.doc, m'.hs);
    KinHasSelf(m.doc, n);
    GrownFrom(m.doc, m'.doc, n, c);
  }

  lemma GrownFrom<T>(d: Doc<T>, d': Doc<T>, n: T, c: T)
    requires d.Has(n) && d.Has(c) && n in d.Kin(n) && (forall x | x in d.layout :: d.Has(x)) && d'.face == d.face && d'.ties == d.ties
    requires var (s, o) := d.layout[n]; Filled(d, d.Kin(n), (Store(s.sequence + [c], s.seqSize, s.pairs), Origin(o.literals, false)), d')
    requires d.marks.done <= d'.marks.done && (forall x | d.Has(x) :: d'.Has(x))
    ensures SeqGrown(d, d', n, c)
  {
  }

  lemma GrownKeeps<T>(d: Doc<T>, d': Doc<T>, n: T, c: T, x: T)
    requires SeqGrown(d, d', n, c) && x in d.layout && d.Has(n) && x !in d.Kin(n)
    ensures NodeKept(d, d', x)
  {
    hide NodeKept;
  }

  lemma GrownBelow<T>(d: Doc<T>, d': Doc<T>, n: T, c: T)
    requires SeqGrown(d, d', n, c) && d.Has(n) && Forks(d, n) && c !in Below(d, n)
    ensures d'.Has(n) && Below(d', n) == Below(d, n) + {c} && Forks(d', n)
  {
    var s, s' := d.layout[n].0.sequence, d'.layout[n].0.sequence;
    assert forall x :: x in s' <==> x in s || x == c by { assert c in s'; }
    assert c !in s;
    assert forall a | 0 <= a < |s| :: s'[a] == s[a] && s[a] in s;
    assert d'.layout[n].0.pairs == d.layout[n].0.pairs;
    assert Below(d', n) == Below(d, n) + {c};
  }

  lemma GrownKin<T>(d: Doc<T>, d': Doc<T>, n: T, c: T, x: T)
    requires SeqGrown(d, d', n, c) && x in d.layout && d.Has(x)
    ensures d'.Has(x) && d'.Kin(x) == d.Kin(x)
  {
    hide NodeKept;
  }

  /** A tree that was on its own hangs below `n` now. */
  lemma GrownTidy<T>(d: Doc<T>, d': Doc<T>, tops: set<T>, all: set<T>, n: T, c: T)
    requires Tidy(d, tops, all) && SeqGrown(d, d', n, c) && n in all && c in tops && n != c
    ensures Tidy(d', tops - {c}, all)
  {
    hide *;
    TidyTrees(d, tops, all);
    AllDefined(d, tops, all);
    TopsMean(d, tops, all);
    KinMeans(d, tops, all);
    AllHave(d, tops, all);
    TreesMean(d, tops, all, n);
    GrownBelow(d, d', n, c);
    forall x | x in all
      ensures d'.Has(x) && d'.Kin(x) == d.Kin(x) && d'.Defined(x) && Forks(d', x) && Below(d', x) == if x == n then Below(d, n) + {c} else Below(d, x)
    {
      HasMeans(d, x);
      GrownKin(d, d', n, c, x);
      if x != n {
        TreesMean(d, tops, all, x);
        GrownKeeps(d, d', n, c, x);
        KeptMeans(d, d', x);
        SameBelow(d, d', x);
      } else {
        GrownMeans(d, d', n, c);
      }
    }
    HungTrees(d, d', tops, all, n, c);
    TidyFrom(d', tops - {c}, all);
  }

  lemma GrownMeans<T>(d: Doc<T>, d': Doc<T>, n: T, c: T)
    requires SeqGrown(d, d', n, c)
    ensures d.Has(n) && d.Has(c) && d'.Has(n) && (d.Defined(n) ==> d'.Defined(n)) && d'.face[n] == d.face[n]
    ensures d'.layout[n].0.sequence == d.layout[n].0.sequence + [c]
  {
    hide NodeKept;
  }

  lemma HungTrees<T>(d: Doc<T>, d': Doc<T>, tops: set<T>, all: set<T>, n: T, c: T)
    requires Trees(d, tops, all) && n in all && c in tops && tops <= all && (forall x | x in all :: d.Has(x))
    requires forall x | x in all :: d'.Has(x) && d'.Kin(x) == d.Kin(x) && Forks(d', x)
    requires forall x | x in all :: Below(d', x) == if x == n then Below(d, n) + {c} else Below(d, x)
    ensures Trees(d', tops - {c}, all)
  {
    hide *;
    KinMeans(d, tops, all);
    forall x | x in all ensures Below(d', x) <= all && Below(d', x) !! tops - {c} { TreesMean(d, tops, all, x); }
    forall x, y | x in all && y in all && x != y ensures Below(d', x) !! Below(d', y) { HungApart(d, d', tops, all, n, c, x, y); }
    TreesFrom(d', tops - {c}, all);
  }

  lemma HungApart<T>(d: Doc<T>, d': Doc<T>, tops: set<T>, all: set<T>, n: T, c: T, x: T, y: T)
    requires Trees(d, tops, all) && n in all && c in tops && (forall z | z in all :: d.Has(z) && d'.Has(z))
    requires forall z | z in all :: Below(d', z) == if z == n then Below(d, n) + {c} else Below(d, z)
    requires x in all && y in all && x != y
    ensures Below(d', x) !! Below(d', y)
  {
    hide *;
    TreesMean(d, tops, all, x);
    TreesMean(d, tops, all, y);
  }

  lemma ListGrows<T>(d: Doc<T>, d': Doc<T>, root: T, list: T, q: seq<T>, rows: seq<Row>, c: T, row: Row)
    requires ShowsList(d, list, q, rows) && SeqGrown(d, d', list, c) && Leads(d', root, "domains", list)
    requires |q| == |rows| && (forall j | 0 <= j < |q| :: ShowsRow(d', q[j], rows[j])) && ShowsRow(d', c, row)
    ensures ShowsFile(d', root, list, q + [c], rows + [row])
  {
    GrownMeans(d, d', list, c);
    hide ShowsRow, Leads, SeqGrown;
  }

  /** The row beside the file becomes the last entry of the list. */
  lemma EntryPushed<T>(m: Moment<T>, v: nat, x: nat, how: Choice<T>, m': Moment<T>, sf: nat, c: T, row: Row,
                       root: T, list: T, q: seq<T>, rows: seq<Row>, tops: set<T>, all: set<T>)
    requires Step(m, Push(v, x), how, m') && Open(m, sf, root, list, q, rows, tops, all) && Beside(m, x, c, row, root, tops)
    requires IsAt(m.hs, v, list)
    ensures Open(m', sf, root, list, q + [c], rows + [row], tops - {c}, all) && m'.hs == m.hs
  {
    hide *;
    OpenMeans(m, sf, root, list, q, rows, tops, all);
    BesideMeans(m, x, c, row, root, tops);
    FilePlaces(m.doc, root, list, q, rows, tops, all);
    TopsMean(m.doc, tops, all);
    AllHave(m.doc, tops, all);
    KinMeans(m.doc, tops, all);
    TreesMean(m.doc, tops, all, c);
    TreesMean(m.doc, tops, all, root);
    PushStep(m, v, x, how, m', list, c);
    GrownTidy(m.doc, m'.doc, tops, all, list, c);
    forall z | z in all && z != list ensures NodeKept(m.doc, m'.doc, z) {
      HasMeans(m.doc, z);
      GrownKeeps(m.doc, m'.doc, list, c, z);
    }
    AroundList(m.doc, m'.doc, root, list, q, rows, tops, all);
    KeptIsTurned(m.doc, m'.doc, c, Map);
    RowKept(m.doc, m'.doc, c, row);
    ListGrows(m.doc, m'.doc, root, list, q, rows, c, row);
    OpenFrom(m', sf, root, list, q + [c], rows + [row], tops - {c}, all);
  }

  /** The position of the first entry with the name, or the number of entries. */
  function FirstNamed(rows: seq<Row>, name: string): (i: nat)
    ensures i <= |rows| && (i < |rows| ==> Named(rows[i], name)) && forall j | 0 <= j < i :: !Named(rows[j], name)
  {
    if rows == [] || Named(rows[0], name) then 0 else 1 + FirstNamed(rows[1..], name)
  }

  /** The entry with the name becomes the row, or the row is added. */
  function PutRow(rows: seq<Row>, name: string, row: Row): seq<Row>
  {
    var i := FirstNamed(rows, name);
    if i < |rows| then rows[i := row] else rows + [row]
  }

  /** Every entry has a name, and the one given is there once at most. */
  predicate NamesGood(rows: seq<Row>, name: string)
  {
    && (forall j | 0 <= j < |rows| :: HasField(rows[j], "name"))
    && forall j, l | 0 <= j < l < |rows| :: !Named(rows[j], name) || !Named(rows[l], name)
  }

  /** The loop has taken the right branch for every entry. */
  predicate HitsAre(hits: seq<bool>, rows: seq<Row>, name: string)
  {
    |hits| == |rows| && forall j | 0 <= j < |rows| :: hits[j] <==> Named(rows[j], name)
  }

  lemma HitsMean(hits: seq<bool>, rows: seq<Row>, name: string)
    requires HitsAre(hits, rows, name) && NamesGood(rows, name)
    ensures var h := FirstNamed(rows, name);
      && |hits| == |rows| && (true in hits <==> h < |rows|) && (forall j | 0 <= j < |rows| :: HasField(rows[j], "name"))
      && (h < |rows| ==> forall j | 0 <= j < |rows| :: hits[j] <==> j == h)
      && (h == |rows| ==> forall j | 0 <= j < |rows| :: !hits[j])
  {
    var h := FirstNamed(rows, name);
    if h < |rows| { assert hits[h]; }
    hide Named, HasField;
  }

  lemma PutRowIs(rows: seq<Row>, name: string, row: Row)
    ensures PutRow(rows, name, row) == if FirstNamed(rows, name) < |rows| then rows[FirstNamed(rows, name) := row] else rows + [row]
  {
  }

  /** The looks at the list before the loop. */
  function ListLooks(sf: nat, has: Domains): seq<Op>
  {
    if has.Empty? then [Key(sf, "domains"), Key(sf, "domains")] else [Key(sf, "domains"), Key(sf, "domains")] + [Key(sf, "domains")]
  }

  function Loop(count: nat, sf: nat, dom: nat, has: Domains): seq<Op>
  {
    if has.Listed? then Replace(count, sf, dom, has.hits, 0) else []
  }

  lemma SaveDomainIs(count: nat, sf: nat, es: seq<Entry>, has: Domains)
    requires has.Empty? || has.Listed?
    ensures var made := NewMap(count, es);
      var c1 := Variables(count, made);
      var c2 := Variables(c1, ListLooks(sf, has));
      var loop := Loop(c2, sf, count, has);
      var c3 := Variables(c2, loop);
      && SaveDomain(count, sf, es, has) ==
           made + (ListLooks(sf, has) + (loop + if has.Listed? && true in has.hits then [] else [Key(sf, "domains"), Push(c3, count)]))
      && c2 == c1 + |ListLooks(sf, has)|
  {
    var made := NewMap(count, es);
    var c1 := Variables(count, made);
    var looks := ListLooks(sf, has);
    var look := Key(sf, "domains");
    ThreeLooks(c1, look, look, look);
    assert looks == if has.Empty? then [look, look] else [look, look, look];
    var c2 := Variables(c1, looks);
    hide NewMap, Variables, Replace;
    VariablesJoin(count, made, looks);
    var loop := Loop(c2, sf, count, has);
    VariablesJoin(count, made + looks, loop);
    var last := if has.Listed? && true in has.hits then [] else [look, Push(Variables(c2, loop), count)];
    assert SaveDomain(count, sf, es, has) == ((made + looks) + loop) + last by {
      assert made + looks + [] == made + looks;
      assert made + looks + loop + [] == made + looks + loop;
    }
    Regroup(made, looks, loop, last);
  }

  lemma Regroup(a: seq<Op>, b: seq<Op>, c: seq<Op>, d: seq<Op>)
    ensures ((a + b) + c) + d == a + (b + (c + d))
  {
  }

  lemma ListSeen<T>(r: Trace<T>, sf: nat, has: Domains, root: T, list: T, q: seq<T>, rows: seq<Row>, tops: set<T>, all: set<T>)
    requires r.at != [] && Open(r.Start(), sf, root, list, q, rows, tops, all) && Does(r, ListLooks(sf, has))
    ensures Open(r.End(), sf, root, list, q, rows, tops, all) && Passes(r.Start(), r.End(), Stops(root, list, q))
    ensures |r.End().hs| == |r.Start().hs| + |ListLooks(sf, has)|
  {
    var look := Key(sf, "domains");
    if has.Empty? {
      assert ListLooks(sf, has) == [look, look];
      hide *;
      ListLookedTwice(r, sf, root, list, q, rows, tops, all);
    } else {
      assert ListLooks(sf, has) == [look, look] + [look];
      hide *;
      Cut(r, [look, look], [look]);
      var r1, r2 := r.To(2), r.From(2);
      ListLookedTwice(r1, sf, root, list, q, rows, tops, all);
      DoesAt(r2, [look], 0);
      LookList(r2.at[0], sf, r2.hows[0], r2.at[1], root, list, q, rows, tops, all);
      PassThen(r.Start(), r2.Start(), r.End(), Stops(root, list, q));
    }
  }

  /** The loop and what follows it. */
  lemma RowPut<T>(r: Trace<T>, sf: nat, x: nat, has: Domains, c: T, row: Row, name: string,
                  root: T, list: T, q: seq<T>, rows: seq<Row>, tops: set<T>, all: set<T>) returns (all': set<T>, q': seq<T>)
    requires r.at != [] && Open(r.Start(), sf, root, list, q, rows, tops, all) && Beside(r.Start(), x, c, row, root, tops)
    requires (has.Empty? && rows == []) || (has.Listed? && HitsAre(has.hits, rows, name) && NamesGood(rows, name))
    requires var loop := Loop(|r.Start().hs|, sf, x, has);
      Does(r, loop + if has.Listed? && true in has.hits then [] else [Key(sf, "domains"), Push(Variables(|r.Start().hs|, loop), x)])
    ensures Open(r.End(), sf, root, list, q', PutRow(rows, name, row), tops - {c}, all') && Extends(r.Start().hs, r.End().hs)
  {
    hide *;
    var count := |r.Start().hs|;
    var loop := Loop(count, sf, x, has);
    LoopIs(count, sf, x, has);
    PutRowIs(rows, name, row);
    OpenMeans(r.Start(), sf, root, list, q, rows, tops, all);
    FilePlaces(r.Start().doc, root, list, q, rows, tops, all);
    if has.Listed? { HitsMean(has.hits, rows, name); }
    if has.Listed? && true in has.hits {
      assert loop + [] == loop;
      Replaced(r, sf, x, has.hits, 0, FirstNamed(rows, name), c, row, root, list, q, rows, tops, all);
      all', q' := all - {c}, q;
    } else {
      var last := [Key(sf, "domains"), Push(Variables(count, loop), x)];
      Cut(r, loop, last);
      var r1, r2 := r.To(|loop|), r.From(|loop|);
      if has.Listed? {
        PassedBy(r1, sf, x, has.hits, 0, root, list, q, rows, tops, all);
        BesideStays(r.Start(), r2.Start(), sf, root, list, q, rows, tops, all, x, c, row);
        PassMeans(r.Start(), r2.Start(), Stops(root, list, q));
      } else {
        DoesNone(r1);
        NobodyNamed(name);
      }
      LastPushed(r2, sf, x, c, row, root, list, q, rows, tops, all);
      all', q' := all, q + [c];
      ExtendsThen(r.Start().hs, r2.Start().hs, r.End().hs);
    }
  }

  lemma NobodyNamed(name: string)
    ensures FirstNamed([], name) == 0
  {
  }

  lemma LoopIs(count: nat, sf: nat, dom: nat, has: Domains)
    ensures has.Listed? ==> Loop(count, sf, dom, has) == Replace(count, sf, dom, has.hits, 0)
    ensures !has.Listed? ==> Loop(count, sf, dom, has) == [] && Variables(count, Loop(count, sf, dom, has)) == count
  {
  }

  lemma LastPushed<T>(r: Trace<T>, sf: nat, x: nat, c: T, row: Row, root: T, list: T, q: seq<T>, rows: seq<Row>, tops: set<T>, all: set<T>)
    requires r.at != [] && Open(r.Start(), sf, root, list, q, rows, tops, all) && Beside(r.Start(), x, c, row, root, tops)
    requires Does(r, [Key(sf, "domains"), Push(|r.Start().hs|, x)])
    ensures Open(r.End(), sf, root, list, q + [c], rows + [row], tops - {c}, all) && Extends(r.Start().hs, r.End().hs)
  {
    hide *;
    var count := |r.Start().hs|;
    var ops := [Key(sf, "domains"), Push(count, x)];
    DoesAt(r, ops, 0);
    DoesAt(r, ops, 1);
    LookList(r.at[0], sf, r.hows[0], r.at[1], root, list, q, rows, tops, all);
    BesideStays(r.at[0], r.at[1], sf, root, list, q, rows, tops, all, x, c, row);
    PassMeans(r.at[0], r.at[1], Stops(root, list, q));
    EntryPushed(r.at[1], count, x, r.hows[1], r.at[2], sf, c, row, root, list, q, rows, tops, all);
  }

  /** Saving a definition: the entry with the name is replaced by the new one as a whole, or the new one is added at
      the end; nothing else in the file is different. */
  lemma SaveDomainPuts<T>(r: Trace<T>, sf: nat, es: seq<Entry>, has: Domains, name: string,
                          root: T, list: T, q: seq<T>, rows: seq<Row>, tops: set<T>, all: set<T>) returns (all': set<T>, q': seq<T>)
    requires r.at != [] && Open(r.Start(), sf, root, list, q, rows, tops, all) && Does(r, SaveDomain(|r.Start().hs|, sf, es, has))
    requires (has.Empty? && rows == []) || (has.Listed? && HitsAre(has.hits, rows, name) && NamesGood(rows, name))
    ensures Open(r.End(), sf, root, list, q', PutRow(rows, name, SetFields([], es)), tops, all') && Extends(r.Start().hs, r.End().hs)
  {
    hide *;
    var count, row := |r.Start().hs|, SetFields([], es);
    var made, looks := NewMap(count, es), ListLooks(sf, has);
    var c1 := Variables(count, made);
    var c2 := Variables(c1, looks);
    var loop := Loop(c2, sf, count, has);
    var last := if has.Listed? && true in has.hits then [] else [Key(sf, "domains"), Push(Variables(c2, loop), count)];
    SaveDomainIs(count, sf, es, has);
    Cut(r, made, looks + (loop + last));
    var r1, r2 := r.To(|made|), r.From(|made|);
    var c, all1 := MapMade(r1, sf, es, root, list, q, rows, tops, all);
    var tops' := tops + {c};
    Cut(r2, looks, loop + last);
    var r3, r4 := r2.To(|looks|), r2.From(|looks|);
    ListSeen(r3, sf, has, root, list, q, rows, tops', all1);
    BesideStays(r2.Start(), r4.Start(), sf, root, list, q, rows, tops', all1, count, c, row);
    PassMeans(r2.Start(), r4.Start(), Stops(root, list, q));
    all', q' := RowPut(r4, sf, count, has, c, row, name, root, list, q, rows, tops', all1);
    assert tops' - {c} == tops;
    ExtendsThen(r.Start().hs, r2.Start().hs, r4.Start().hs);
    ExtendsThen(r.Start().hs, r4.Start().hs, r.End().hs);
  }

  // ---- undefining ----

  /** Those that are not hit, in order. */
  function Unhit<A>(s: seq<A>, hits: seq<bool>): (u: seq<A>)
    requires |s| == |hits|
  {
    if s == [] then [] else Unhit(s[..|s| - 1], hits[..|s| - 1]) + if hits[|s| - 1] then [] else [s[|s| - 1]]
  }

  /** The entries with another name, in order. */
  function WithoutRow(rows: seq<Row>, name: string): seq<Row>
  {
    if rows == [] then [] else
      var last := rows[|rows| - 1];
      WithoutRow(rows[..|rows| - 1], name) + if Named(last, name) then [] else [last]
  }

  lemma {:induction false} UnhitIsWithout(rows: seq<Row>, hits: seq<bool>, name: string)
    requires HitsAre(hits, rows, name)
    ensures Unhit(rows, hits) == WithoutRow(rows, name)
  {
    hide Named;
    if rows != [] {
      UnhitIsWithout(rows[..|rows| - 1], hits[..|rows| - 1], name);
    }
  }

  lemma {:induction false} UnhitAll<A>(s: seq<A>, hits: seq<bool>)
    requires |s| == |hits| && true !in hits
    ensures Unhit(s, hits) == s
  {
    if s != [] {
      UnhitAll(s[..|s| - 1], hits[..|s| - 1]);
      assert hits[|s| - 1] in hits;
    }
  }

  lemma {:induction false} UnhitWithin<A>(s: seq<A>, hits: seq<bool>)
    requires |s| == |hits|
    ensures forall x | x in Unhit(s, hits) :: x in s
    ensures (forall a, b | 0 <= a < b < |s| :: s[a] != s[b]) ==> forall a, b | 0 <= a < b < |Unhit(s, hits)| :: Unhit(s, hits)[a] != Unhit(s, hits)[b]
  {
    if s != [] {
      var s', l := s[..|s| - 1], s[|s| - 1];
      UnhitWithin(s', hits[..|s| - 1]);
      var u := Unhit(s', hits[..|s| - 1]);
      assert forall x | x in u :: x in s' && x in s;
      if forall a, b | 0 <= a < b < |s| :: s[a] != s[b] {
        assert l !in s';
        assert forall a | 0 <= a < |u| :: u[a] in u;
      }
    }
  }

  lemma {:induction false} UnhitShows<T>(d: Doc<T>, q: seq<T>, rows: seq<Row>, hits: seq<bool>)
    requires |q| == |rows| == |hits| && forall j | 0 <= j < |q| :: ShowsRow(d, q[j], rows[j])
    ensures |Unhit(q, hits)| == |Unhit(rows, hits)| && forall j | 0 <= j < |Unhit(q, hits)| :: ShowsRow(d, Unhit(q, hits)[j], Unhit(rows, hits)[j])
  {
    hide ShowsRow;
    if q != [] {
      UnhitShows(d, q[..|q| - 1], rows[..|q| - 1], hits[..|q| - 1]);
    }
  }

  lemma UnhitNext<A>(s: seq<A>, hits: seq<bool>, i: nat)
    requires |s| == |hits| && i < |s|
    ensures Unhit(s[..i + 1], hits[..i + 1]) == Unhit(s[..i], hits[..i]) + if hits[i] then [] else [s[i]]
  {
    assert s[..i + 1][..i] == s[..i] && hits[..i + 1][..i] == hits[..i];
  }

  /** Variable `x` holds a list that is not in the file, with these entries. */
  ghost predicate Aside<T>(m: Moment<T>, x: nat, n: T, es: seq<T>, stops: seq<T>, all: set<T>)
  {
    && IsAt(m.hs, x, n) && n !in all && n in m.doc.layout && Elsewhere(m.doc, n, stops) && m.doc.Defined(n)
    && m.doc.face[n].0 == Null && m.doc.layout[n].0.sequence == es && m.doc.layout[n].0.pairs == [] && m.doc.Kin(n) == {n}
  }

  lemma AsideMeans<T>(m: Moment<T>, x: nat, n: T, es: seq<T>, stops: seq<T>, all: set<T>)
    requires Aside(m, x, n, es, stops, all)
    ensures IsAt(m.hs, x, n) && n !in all && n in m.doc.layout && Elsewhere(m.doc, n, stops) && m.doc.Defined(n)
    ensures m.doc.Has(n) && m.doc.face[n].0 == Null && m.doc.layout[n].0.sequence == es && m.doc.layout[n].0.pairs == [] && m.doc.Kin(n) == {n}
  {
  }

  lemma AsideFrom<T>(m: Moment<T>, x: nat, n: T, es: seq<T>, stops: seq<T>, all: set<T>)
    requires IsAt(m.hs, x, n) && n !in all && n in m.doc.layout && m.doc.Has(n) && Elsewhere(m.doc, n, stops) && m.doc.Defined(n)
    requires m.doc.face[n].0 == Null && m.doc.layout[n].0.sequence == es && m.doc.layout[n].0.pairs == [] && m.doc.Kin(n) == {n}
    ensures Aside(m, x, n, es, stops, all)
  {
    hide Elsewhere;
  }

  lemma AsideStays<T>(m: Moment<T>, m': Moment<T>, x: nat, n: T, es: seq<T>, stops: seq<T>, all: set<T>)
    requires Aside(m, x, n, es, stops, all) && Passes(m, m', stops)
    ensures Aside(m', x, n, es, stops, all)
  {
    hide *;
    AsideMeans(m, x, n, es, stops, all);
    PassMeans(m, m', stops);
    IdleMeans(m.doc, m'.doc, stops, n);
    KeptMeans(m.doc, m'.doc, n);
    AtStill(m.hs, m'.hs, x, n);
    HasMeans(m'.doc, n);
    AsideFrom(m', x, n, es, stops, all);
  }

  lemma TreesWithin<T>(d: Doc<T>, d': Doc<T>, tops: set<T>, all: set<T>)
    requires Trees(d, tops, all)
    requires forall x | x in all :: d.Has(x) && d'.Has(x) && Below(d', x) <= Below(d, x) && Forks(d', x)
    requires forall x, y | x in all && y in all && y in d'.Kin(x) :: y == x
    ensures Trees(d', tops, all)
  {
    hide Below, Forks;
  }

  lemma KeptTidy<T>(d: Doc<T>, d': Doc<T>, tops: set<T>, all: set<T>)
    requires Tidy(d, tops, all) && AllKept(d, d', all) && forall x | x in all :: d.Has(x) && d'.Has(x) && d'.Kin(x) == d.Kin(x)
    ensures Tidy(d', tops, all)
  {
    hide *;
    TidyTrees(d, tops, all);
    AllDefined(d, tops, all);
    KinMeans(d, tops, all);
    AllKeptMeans(d, d', all);
    forall x | x in all ensures Below(d', x) <= Below(d, x) && Forks(d', x) && d'.Defined(x) {
      TreesMean(d, tops, all, x);
      KeptMeans(d, d', x);
      HasMeans(d, x);
      SameBelow(d, d', x);
    }
    TreesWithin(d, d', tops, all);
    TidyFrom(d', tops, all);
  }

  lemma AllKeptFrom<T>(d: Doc<T>, d': Doc<T>, all: set<T>)
    requires forall x | x in all :: NodeKept(d, d', x)
    ensures AllKept(d, d', all)
  {
    hide NodeKept;
  }

  lemma ElsewhereStays<T>(d: Doc<T>, d': Doc<T>, n: T, stops: seq<T>)
    requires Elsewhere(d, n, stops) && (forall x | x in d.layout :: d'.Has(x) && d.Has(x) && d'.Kin(x) == d.Kin(x))
    ensures Elsewhere(d', n, stops)
  {
  }

  /** An entry is added to the list beside the file. */
  lemma AsidePushed<T>(m: Moment<T>, x: nat, y: nat, how: Choice<T>, m': Moment<T>, sf: nat, n: T, es: seq<T>, e: T,
                       root: T, list: T, q: seq<T>, rows: seq<Row>, tops: set<T>, all: set<T>)
    requires Step(m, Push(x, y), how, m') && Open(m, sf, root, list, q, rows, tops, all) && Aside(m, x, n, es, Stops(root, list, q), all)
    requires IsAt(m.hs, y, e)
    ensures Open(m', sf, root, list, q, rows, tops, all) && Aside(m', x, n, es + [e], Stops(root, list, q), all) && m'.hs == m.hs
  {
    hide *;
    OpenMeans(m, sf, root, list, q, rows, tops, all);
    AsideMeans(m, x, n, es, Stops(root, list, q), all);
    PushStep(m, x, y, how, m', n, e);
    GrownMeans(m.doc, m'.doc, n, e);
    AllHave(m.doc, tops, all);
    KinSame(m.doc, m'.doc, n, e);
    forall z | z in all ensures z in m.doc.layout && NodeKept(m.doc, m'.doc, z) {
      HasMeans(m.doc, z);
      GrownKeeps(m.doc, m'.doc, n, e, z);
    }
    AllKeptFrom(m.doc, m'.doc, all);
    KeptTidy(m.doc, m'.doc, tops, all);
    FileSame(m.doc, m'.doc, root, list, q, rows, tops, all);
    ElsewhereStays(m.doc, m'.doc, n, Stops(root, list, q));
    HasMeans(m'.doc, n);
    PairsSame(m.doc, m'.doc, n, e);
    AsideFrom(m', x, n, es + [e], Stops(root, list, q), all);
    OpenFrom(m', sf, root, list, q, rows, tops, all);
  }

  lemma KinSame<T>(d: Doc<T>, d': Doc<T>, n: T, c: T)
    requires SeqGrown(d, d', n, c)
    ensures forall x | x in d.layout :: d.Has(x) && d'.Has(x) && d'.Kin(x) == d.Kin(x)
  {
    hide NodeKept;
  }

  lemma PairsSame<T>(d: Doc<T>, d': Doc<T>, n: T, c: T)
    requires SeqGrown(d, d', n, c)
    ensures d.Has(n) && d'.Has(n) && d'.layout[n].0.pairs == d.layout[n].0.pairs
  {
    hide NodeKept;
  }

  lemma CollectIs(count: nat, sf: nat, list: nat, hits: seq<bool>, i: nat)
    ensures i >= |hits| ==> Collect(count, sf, list, hits, i) == [Key(sf, "domains")]
    ensures i >= |hits| ==> Variables(count, Collect(count, sf, list, hits, i)) == count + 1
    ensures i < |hits| ==>
      var look, entry := [Key(sf, "domains"), Key(sf, "domains"), Op.At(count + 1, i), Key(count + 2, "name")], [Key(sf, "domains"), Op.At(count + 4, i)];
      var last, next := [if hits[i] then Key(count + 5, "colo_enable") else Push(list, count + 5)], if hits[i] then count + 7 else count + 6;
      && Collect(count, sf, list, hits, i) == look + (entry + (last + Collect(next, sf, list, hits, i + 1)))
      && Variables(count, Collect(count, sf, list, hits, i)) == Variables(next, Collect(next, sf, list, hits, i + 1))
  {
    hide Variables;
    if i >= |hits| {
      ThreeLooks(count, Key(sf, "domains"), Key(sf, "domains"), Key(sf, "domains"));
    } else {
      var look, entry := [Key(sf, "domains"), Key(sf, "domains"), Op.At(count + 1, i), Key(count + 2, "name")], [Key(sf, "domains"), Op.At(count + 4, i)];
      var last, next := [if hits[i] then Key(count + 5, "colo_enable") else Push(list, count + 5)], if hits[i] then count + 7 else count + 6;
      var more := Collect(next, sf, list, hits, i + 1);
      assert Collect(count, sf, list, hits, i) == ((look + entry) + last) + more by {
        assert look + entry == [Key(sf, "domains"), Key(sf, "domains"), Op.At(count + 1, i), Key(count + 2, "name"), Key(sf, "domains"), Op.At(count + 4, i)];
      }
      hide *;
      Regroup(look, entry, last, more);
      LookNames(sf, count, i);
      LookNames(sf, count + 4, i);
      ShareAdds(count + 6, list, count + 5);
      ThreeLooks(count + 6, Key(count + 5, "colo_enable"), Key(sf, "domains"), Key(sf, "domains"));
      VariablesJoin(count + 6, last, more);
      VariablesJoin(count + 4, entry, last + more);
      VariablesJoin(count, look, entry + (last + more));
    }
  }

  /** Rows that the loop of undefining can read. */
  predicate Readable(rows: seq<Row>, name: string)
  {
    forall j | 0 <= j < |rows| :: HasField(rows[j], "name") && (Named(rows[j], name) ==> HasField(rows[j], "colo_enable"))
  }

  /** One turn of the loop: the entry goes to the new list unless it has the name. */
  lemma EntryCollected<T>(r: Trace<T>, sf: nat, x: nat, y: nat, hit: bool, i: nat, n: T, es: seq<T>,
                          root: T, list: T, q: seq<T>, rows: seq<Row>, tops: set<T>, all: set<T>)
    requires r.at != [] && Open(r.Start(), sf, root, list, q, rows, tops, all) && Aside(r.Start(), x, n, es, Stops(root, list, q), all)
    requires i < |q| && i < |rows| && IsAt(r.Start().hs, y, q[i]) && (hit ==> HasField(rows[i], "colo_enable"))
    requires Does(r, [if hit then Key(y, "colo_enable") else Push(x, y)])
    ensures Open(r.End(), sf, root, list, q, rows, tops, all) && Extends(r.Start().hs, r.End().hs)
    ensures Aside(r.End(), x, n, es + if hit then [] else [q[i]], Stops(root, list, q), all)
    ensures |r.End().hs| == |r.Start().hs| + if hit then 1 else 0
  {
    hide *;
    var op := if hit then Key(y, "colo_enable") else Push(x, y);
    DoesAt(r, [op], 0);
    if hit {
      FieldMeans(rows[i], "colo_enable");
      LookField(r.at[0], sf, y, i, "colo_enable", r.hows[0], r.at[1], root, list, q, rows, tops, all);
      AsideStays(r.at[0], r.at[1], x, n, es, Stops(root, list, q), all);
      PassMeans(r.at[0], r.at[1], Stops(root, list, q));
      assert es + [] == es;
    } else {
      AsidePushed(r.at[0], x, y, r.hows[0], r.at[1], sf, n, es, q[i], root, list, q, rows, tops, all);
      ExtendsSelf(r.at[0].hs);
    }
  }

  lemma ExtendsSelf<T>(hs: Handles<T>)
    ensures Extends(hs, hs)
  {
  }

  lemma {:induction false} Collected<T>(r: Trace<T>, sf: nat, x: nat, hits: seq<bool>, i: nat, n: T,
                                        root: T, list: T, q: seq<T>, rows: seq<Row>, tops: set<T>, all: set<T>)
    requires r.at != [] && Open(r.Start(), sf, root, list, q, rows, tops, all) && Does(r, Collect(|r.Start().hs|, sf, x, hits, i))
    requires |hits| == |q| == |rows| && i <= |q| && Aside(r.Start(), x, n, Unhit(q[..i], hits[..i]), Stops(root, list, q), all)
    requires forall j | 0 <= j < |rows| :: HasField(rows[j], "name") && (hits[j] ==> HasField(rows[j], "colo_enable"))
    ensures Open(r.End(), sf, root, list, q, rows, tops, all) && Extends(r.Start().hs, r.End().hs)
    ensures Aside(r.End(), x, n, Unhit(q, hits), Stops(root, list, q), all)
    ensures |r.End().hs| == Variables(|r.Start().hs|, Collect(|r.Start().hs|, sf, x, hits, i))
    decreases |hits| - i
  {
    hide *;
    var count := |r.Start().hs|;
    CollectIs(count, sf, x, hits, i);
    var stops := Stops(root, list, q);
    if i >= |hits| {
      assert q[..i] == q && hits[..i] == hits;
      DoesAt(r, [Key(sf, "domains")], 0);
      LookList(r.at[0], sf, r.hows[0], r.at[1], root, list, q, rows, tops, all);
      AsideStays(r.at[0], r.at[1], x, n, Unhit(q, hits), stops, all);
      PassMeans(r.at[0], r.at[1], stops);
    } else {
      var look, entry := [Key(sf, "domains"), Key(sf, "domains"), Op.At(count + 1, i), Key(count + 2, "name")], [Key(sf, "domains"), Op.At(count + 4, i)];
      var last, next := [if hits[i] then Key(count + 5, "colo_enable") else Push(x, count + 5)], if hits[i] then count + 7 else count + 6;
      var more := Collect(next, sf, x, hits, i + 1);
      Cut(r, look, entry + (last + more));
      var r1, r2 := r.To(|look|), r.From(|look|);
      NameLooked(r1, sf, i, root, list, q, rows, tops, all);
      Cut(r2, entry, last + more);
      var r3, r4 := r2.To(|entry|), r2.From(|entry|);
      EntryLooked(r3, sf, i, root, list, q, rows, tops, all);
      PassThen(r.Start(), r2.Start(), r4.Start(), stops);
      AsideStays(r.Start(), r4.Start(), x, n, Unhit(q[..i], hits[..i]), stops, all);
      PassMeans(r.Start(), r4.Start(), stops);
      Cut(r4, last, more);
      var r5, r6 := r4.To(|last|), r4.From(|last|);
      EntryCollected(r5, sf, x, count + 5, hits[i], i, n, Unhit(q[..i], hits[..i]), root, list, q, rows, tops, all);
      UnhitNext(q, hits, i);
      Collected(r6, sf, x, hits, i + 1, n, root, list, q, rows, tops, all);
      ExtendsThen(r.Start().hs, r4.Start().hs, r6.Start().hs);
      ExtendsThen(r.Start().hs, r6.Start().hs, r.End().hs);
    }
  }

  /** The list of the file becomes the one beside it. */
  lemma ListTaken<T>(m: Moment<T>, v: nat, x: nat, how: Choice<T>, m': Moment<T>, sf: nat, n: T, hits: seq<bool>,
                     root: T, list: T, q: seq<T>, rows: seq<Row>, tops: set<T>, all: set<T>)
    requires Step(m, ShareRef(v, x), how, m') && Open(m, sf, root, list, q, rows, tops, all) && |hits| == |q| == |rows|
    requires IsAt(m.hs, v, list) && sf < v && Aside(m, x, n, Unhit(q, hits), Stops(root, list, q), all)
    ensures Open(m', sf, root, list, Unhit(q, hits), Unhit(rows, hits), tops, all)
    ensures |m'.hs| == |m.hs| && m'.hs[..v] == m.hs[..v]
  {
    hide *;
    OpenMeans(m, sf, root, list, q, rows, tops, all);
    AsideMeans(m, x, n, Unhit(q, hits), Stops(root, list, q), all);
    FilePlaces(m.doc, root, list, q, rows, tops, all);
    AllHave(m.doc, tops, all);
    RefStep(m, v, x, how, m', list, n);
    forall z | z in all ensures z in m.doc.layout { HasMeans(m.doc, z); }
    forall z | z in all && z != list ensures NodeKept(m.doc, m'.doc, z) { TakenKeeps(m.doc, m'.doc, list, n, z); }
    AroundList(m.doc, m'.doc, root, list, q, rows, tops, all);
    NarrowTidy(m.doc, m'.doc, tops, all, list, n, q, hits);
    TakenMeans(m.doc, m'.doc, list, n);
    UnhitShows(m'.doc, q, rows, hits);
    ListIs(m'.doc, root, list, Unhit(q, hits), Unhit(rows, hits));
    AtMeans(m.hs, v, list);
    AtUpdated(m.hs, m'.hs, sf, root, v, Some(n));
    OpenFrom(m', sf, root, list, Unhit(q, hits), Unhit(rows, hits), tops, all);
  }

  lemma ListIs<T>(d: Doc<T>, root: T, list: T, q: seq<T>, rows: seq<Row>)
    requires d.Has(list) && d.Defined(list) && d.face[list].0 == Null && d.layout[list].0.sequence == q && |q| == |rows|
    requires Leads(d, root, "domains", list) && forall j | 0 <= j < |q| :: ShowsRow(d, q[j], rows[j])
    ensures ShowsFile(d, root, list, q, rows)
  {
    hide ShowsRow, Leads;
  }

  lemma NarrowBelow<T>(d: Doc<T>, d': Doc<T>, list: T, n: T, q: seq<T>, hits: seq<bool>)
    requires RefTaken(d, d', list, n) && |hits| == |q| && d.Has(list) && d.layout[list].0.sequence == q && Forks(d, list)
    requires d.Has(n) && d.layout[n].0.sequence == Unhit(q, hits) && d.layout[n].0.pairs == []
    ensures d'.Has(list) && Below(d', list) <= Below(d, list) && Forks(d', list)
  {
    UnhitWithin(q, hits);
    hide Unhit;
  }

  lemma NarrowTidy<T>(d: Doc<T>, d': Doc<T>, tops: set<T>, all: set<T>, list: T, n: T, q: seq<T>, hits: seq<bool>)
    requires Tidy(d, tops, all) && RefTaken(d, d', list, n) && list in all && n !in all && |hits| == |q| && d.Has(list) && d.layout[list].0.sequence == q
    requires d.Has(n) && d.layout[n].0.sequence == Unhit(q, hits) && d.layout[n].0.pairs == [] && d.Kin(n) == {n}
    ensures Tidy(d', tops, all)
  {
    hide *;
    TidyTrees(d, tops, all);
    AllDefined(d, tops, all);
    KinMeans(d, tops, all);
    TakenMeans(d, d', list, n);
    TreesMean(d, tops, all, list);
    NarrowBelow(d, d', list, n, q, hits);
    forall z | z in all ensures d'.Has(z) && d'.Defined(z) && Below(d', z) <= Below(d, z) && Forks(d', z) {
      TreesMean(d, tops, all, z);
      HasMeans(d, z);
      if z != list {
        TakenKeeps(d, d', list, n, z);
        KeptMeans(d, d', z);
        SameBelow(d, d', z);
      }
    }
    forall z, y | z in all && y in all && y in d'.Kin(z) ensures y == z {
      HasMeans(d, z);
      KinTaken(d, d', list, n, z, y);
    }
    TreesWithin(d, d', tops, all);
    TidyFrom(d', tops, all);
  }

  lemma UndefineIs(count: nat, sf: nat, hits: seq<bool>)
    ensures var made, loop := [Op.Create, Nullify(count)], Collect(count + 1, sf, count, hits, 0);
      Undefine(count, sf, hits) ==
        made + (loop + if true in hits then [Key(sf, "domains"), ShareRef(Variables(count + 1, loop), count)] else [])
  {
    var made, loop := [Op.Create, Nullify(count)], Collect(count + 1, sf, count, hits, 0);
    NewMapIs(count, []);
    assert NewMap(count, []) == made by { assert made + [] == made; }
    VariablesJoin(count, made, loop);
    assert SetEntries(count + 1, count, []) == [] && Variables(count, made) == count + 1;
    hide Variables, Collect;
    var last := if true in hits then [Key(sf, "domains"), ShareRef(Variables(count + 1, loop), count)] else [];
    assert Undefine(count, sf, hits) == (made + loop) + last by { assert made + loop + [] == made + loop; }
    assert (made + loop) + last == made + (loop + last);
  }

  lemma FreshAside<T>(m0: Moment<T>, m2: Moment<T>, sf: nat, x: nat, n: T, root: T, list: T, q: seq<T>, rows: seq<Row>, tops: set<T>, all: set<T>)
    requires Open(m0, sf, root, list, q, rows, tops, all) && Fresh(m0.doc, m2.doc, n) && Extends(m0.hs, m2.hs) && IsAt(m2.hs, x, n)
    ensures Open(m2, sf, root, list, q, rows, tops, all) && Aside(m2, x, n, [], Stops(root, list, q), all)
  {
    hide *;
    OpenMeans(m0, sf, root, list, q, rows, tops, all);
    FilePlaces(m0.doc, root, list, q, rows, tops, all);
    AllHave(m0.doc, tops, all);
    FreshTidy(m0.doc, m2.doc, n, tops, all);
    FreshMeans(m0.doc, m2.doc, n);
    forall z | z in all ensures z in m0.doc.layout { HasMeans(m0.doc, z); }
    KeptTidy(m0.doc, m2.doc, tops, all);
    FileSame(m0.doc, m2.doc, root, list, q, rows, tops, all);
    StopsMean(root, list, q);
    FreshElsewhere(m0.doc, m2.doc, n, Stops(root, list, q));
    HasMeans(m2.doc, n);
    AtStill(m0.hs, m2.hs, sf, root);
    OpenFrom(m2, sf, root, list, q, rows, tops, all);
    AsideFrom(m2, x, n, [], Stops(root, list, q), all);
  }

  lemma FreshMeans<T>(d: Doc<T>, d': Doc<T>, n: T)
    requires Fresh(d, d', n)
    ensures d'.Has(n) && d'.Defined(n) && d'.face[n].0 == Null && d'.layout[n].0.sequence == [] && d'.layout[n].0.pairs == [] && d'.Kin(n) == {n}
    ensures forall x | x in d.layout :: d.Has(x) && d'.Has(x) && d'.Kin(x) == d.Kin(x)
  {
  }

  lemma FreshElsewhere<T>(d: Doc<T>, d': Doc<T>, n: T, stops: seq<T>)
    requires Fresh(d, d', n) && forall x | x in stops :: x in d.layout
    ensures Elsewhere(d', n, stops)
  {
  }

  /** Undefining: the entries with the name are gone, the others are as they were and in the order they had. */
  lemma UndefineRemoves<T>(r: Trace<T>, sf: nat, hits: seq<bool>, name: string,
                           root: T, list: T, q: seq<T>, rows: seq<Row>, tops: set<T>, all: set<T>) returns (q': seq<T>)
    requires r.at != [] && Open(r.Start(), sf, root, list, q, rows, tops, all) && Does(r, Undefine(|r.Start().hs|, sf, hits))
    requires HitsAre(hits, rows, name) && Readable(rows, name)
    ensures Open(r.End(), sf, root, list, q', WithoutRow(rows, name), tops, all) && Extends(r.Start().hs, r.End().hs)
  {
    hide *;
    var m0, count := r.Start(), |r.Start().hs|;
    var made, loop := [Op.Create, Nullify(count)], Collect(count + 1, sf, count, hits, 0);
    var end := Variables(count + 1, loop);
    var last := if true in hits then [Key(sf, "domains"), ShareRef(end, count)] else [];
    UndefineIs(count, sf, hits);
    OpenMeans(m0, sf, root, list, q, rows, tops, all);
    FilePlaces(m0.doc, root, list, q, rows, tops, all);
    AtBelow(m0.hs, sf, root);
    ReadableMeans(hits, rows, name);
    Cut(r, made, loop + last);
    var r1, r2 := r.To(2), r.From(2);
    DoesAt(r1, made, 0);
    DoesAt(r1, made, 1);
    var n := NullMade(m0, r1.hows[0], r1.at[1], r1.hows[1], r2.Start());
    NewIsBound(m0.hs, r2.Start().hs, n);
    FreshAside(m0, r2.Start(), sf, count, n, root, list, q, rows, tops, all);
    Cut(r2, loop, last);
    var r3, r4 := r2.To(|loop|), r2.From(|loop|);
    assert q[..0] == [] && hits[..0] == [];
    UnhitNone<T>();
    Collected(r3, sf, count, hits, 0, n, root, list, q, rows, tops, all);
    ExtendsThen(m0.hs, r2.Start().hs, r4.Start().hs);
    UnhitIsWithout(rows, hits, name);
    if true in hits {
      ListPut(r4, sf, count, n, hits, root, list, q, rows, tops, all);
      ExtendsThen(m0.hs, r4.Start().hs, r.End().hs);
      q' := Unhit(q, hits);
    } else {
      DoesNone(r4);
      UnhitAll(rows, hits);
      q' := q;
    }
  }

  lemma UnhitNone<A>()
    ensures Unhit<A>([], []) == []
  {
  }

  lemma ReadableMeans(hits: seq<bool>, rows: seq<Row>, name: string)
    requires HitsAre(hits, rows, name) && Readable(rows, name)
    ensures |hits| == |rows|
    ensures forall j | 0 <= j < |rows| :: HasField(rows[j], "name") && (hits[j] ==> HasField(rows[j], "colo_enable"))
  {
    hide HasField, Named;
  }

  lemma ListPut<T>(r: Trace<T>, sf: nat, x: nat, n: T, hits: seq<bool>, root: T, list: T, q: seq<T>, rows: seq<Row>, tops: set<T>, all: set<T>)
    requires r.at != [] && Open(r.Start(), sf, root, list, q, rows, tops, all) && |hits| == |q| == |rows|
    requires Aside(r.Start(), x, n, Unhit(q, hits), Stops(root, list, q), all) && Does(r, [Key(sf, "domains"), ShareRef(|r.Start().hs|, x)])
    ensures Open(r.End(), sf, root, list, Unhit(q, hits), Unhit(rows, hits), tops, all) && Extends(r.Start().hs, r.End().hs)
  {
    hide *;
    var count := |r.Start().hs|;
    var ops := [Key(sf, "domains"), ShareRef(count, x)];
    DoesAt(r, ops, 0);
    DoesAt(r, ops, 1);
    OpenMeans(r.at[0], sf, root, list, q, rows, tops, all);
    AtBelow(r.at[0].hs, sf, root);
    LookList(r.at[0], sf, r.hows[0], r.at[1], root, list, q, rows, tops, all);
    AsideStays(r.at[0], r.at[1], x, n, Unhit(q, hits), Stops(root, list, q), all);
    PassMeans(r.at[0], r.at[1], Stops(root, list, q));
    ListTaken(r.at[1], count, x, r.hows[1], r.at[2], sf, n, hits, root, list, q, rows, tops, all);
    ExtendsCut(r.at[0].hs, r.at[1].hs, r.at[2].hs);
  }

  lemma ExtendsCut<T>(a: Handles<T>, b: Handles<T>, c: Handles<T>)
    requires Extends(a, b) && |c| == |b| && c[..|a|] == b[..|a|]
    ensures Extends(a, c)
  {
  }
}
