/** Programs that lose no container whatever document they run on: a discipline that can be checked on the
    text of the program. */
module Disciplines {
  import opened Types
  import opened Definedness
  import opened Documents

  /** What is known of the variables: how many there are, which hold a new node that has not been put into a
      container and that no other variable holds, and which have been used or assigned a scalar. */
  datatype Plan = Plan(count: nat, free: set<nat>, solid: set<nat>)

  /** Each node is put into at most one container before it is defined, unless the container is, and only
      nodes that are known to be defined are shared. */
  predicate Allowed(p: Plan, op: Op)
  {
    match op
    case Push(c, m) => m in p.free || m in p.solid || c in p.solid
    case Pair(c, k, v) => (k in p.free && v in p.free) || c in p.solid || k in p.solid || v in p.solid
    case ShareRef(n, rhs) => rhs in p.solid || n == rhs
    case ShareData(n, rhs) => rhs in p.solid || n == rhs
    case _ => true
  }

  function Next(p: Plan, op: Op): Plan
  {
    match op
    case Create => Plan(p.count + 1, p.free + {p.count}, p.solid)
    case Nullify(n) => if n < p.count then p.(solid := p.solid + {n}) else p
    case Assign(n, _) => if n < p.count then p.(solid := p.solid + {n}) else p
    case ShareRef(n, rhs) =>
      if n == rhs then p else Plan(p.count, p.free - {n, rhs}, if rhs in p.solid then p.solid else p.solid - {n})
    case Push(_, m) => p.(free := p.free - {m})
    case Pair(_, k, v) => p.(free := p.free - {k, v})
    case At(_, _) => p.(count := p.count + 1)
    case Key(_, _) => p.(count := p.count + 1)
    case _ => p
  }

  predicate Disciplined(p: Plan, ops: seq<Op>)
    decreases |ops|
  {
    ops == [] || (Allowed(p, ops[0]) && Disciplined(Next(p, ops[0]), ops[1..]))
  }

  /** The node is in no container and knows of none. */
  ghost predicate Lone<T>(d: Doc<T>, u: T)
  {
    && d.Has(u) && d.marks.deps[u] == {}
    && forall c :: c in d.layout ==> u !in Holds(d.layout[c]).kids
  }

  /** The plan is right about the variables, and no other variable holds a free node. */
  ghost predicate Fits<T>(p: Plan, d: Doc<T>, hs: Handles<T>)
  {
    && Handled(d, hs) && |hs| == p.count
    && (forall i :: i in p.free ==> Bound(hs, i) && Lone(d, hs[i].value))
    && (forall i, j: nat :: i in p.free && Bound(hs, j) && j != i ==> hs[j] != hs[i])
    && (forall i :: i in p.solid ==> i < p.count && (Bound(hs, i) ==> d.Defined(hs[i].value)))
  }

  /** What the plan allows is harmless. */
  lemma AllowedIsHarmless<T>(p: Plan, d: Doc<T>, hs: Handles<T>, op: Op)
    requires Fits(p, d, hs) && Allowed(p, op)
    ensures Harmless(d, hs, op)
  {
    hide Holds;
    forall i: nat, c: nat | i in p.free && Bound(hs, c) ensures d.Records(hs[i].value, hs[c].value) {
      LoneRecords(d, hs[i].value, hs[c].value);
    }
  }

  // ---- what stays lone and what stays defined ----

  /** From one value to the next: defined nodes stay defined, known nodes stay known, and those other than
      the ones put somewhere stay lone. */
  ghost predicate Spares<T>(d: Doc<T>, put: set<T>, now: Doc<T>)
  {
    && d.marks.done <= now.marks.done
    && (forall u :: u in d.layout && d.Has(u) ==> now.Has(u))
    && (forall u :: u in d.layout && Lone(d, u) && u !in put ==> Lone(now, u))
  }

  lemma MarkSpares<T>(d: Doc<T>, n: T)
    ensures Spares(d, {}, d.Mark(n))
  {
    hide Holds;
  }

  lemma LinkSpares<T>(d: Doc<T>, m: T, c: T)
    requires d.Has(m) && d.Has(c)
    ensures Spares(d, {m}, d.Link(m, c))
  {
    hide Holds, Doc<T>.Clash;
    if d.Defined(m) {
      MarkSpares(d, c);
    }
    hide Marks.Mark;
  }

  /** A link to a container of a node that is in one already. */
  lemma FoundSpares<T>(d: Doc<T>, m: T, c: T)
    requires d.Has(m) && d.Has(c) && m in Holds(d.layout[c]).kids
    ensures Spares(d, {}, d.Link(m, c))
  {
    LinkSpares(d, m, c);
    hide Holds, Doc<T>.Link;
  }

  lemma PutSpares<T>(d: Doc<T>, xs: set<T>, h: Contents<T>, c: T, more: set<T>)
    requires c in d.layout && Holds(h).kids <= Holds(d.layout[c]).kids + more
    ensures Spares(d, more, d.Put(xs, h))
  {
    hide Holds;
  }

  lemma PaintSpares<T>(d: Doc<T>, xs: set<T>, f: Face)
    ensures Spares(d, {}, d.Paint(xs, f))
  {
    hide Holds;
  }

  lemma CreateSpares<T>(d: Doc<T>, n: T)
    requires n !in d.layout
    ensures Spares(d, {}, d.Create(n)) && d.Create(n).Has(n)
  {
    HoldsNothing<T>(true);
    hide Holds;
  }

  lemma CreatedIsLone<T>(d: Doc<T>, n: T)
    requires d.Valid() && n !in d.layout
    ensures Lone(d.Create(n), n)
  {
    HoldsNothing<T>(true);
    hide Holds, Coherent;
    forall c | c in d.layout ensures n !in Holds(d.layout[c]).kids {
      ContentsFit(d.marks, d.layout, c);
    }
  }

  lemma SparesThen<T>(d: Doc<T>, put: set<T>, next: Doc<T>, put': set<T>, now: Doc<T>, all: set<T>)
    requires Spares(d, put, next) && Spares(next, put', now) && put <= all && put' <= all
    ensures Spares(d, all, now)
  {
    hide Holds;
  }

  lemma SparesHas<T>(d: Doc<T>, put: set<T>, now: Doc<T>, u: T)
    requires Spares(d, put, now) && d.Has(u)
    ensures now.Has(u)
  {
  }

  lemma SparesNew<T>(d: Doc<T>, r: T, now: Doc<T>)
    requires Spares(d, {r}, now) && r !in d.layout
    ensures Spares(d, {}, now)
  {
    hide Lone;
  }

  // ---- the operations ----

  lemma KidsAppended<T>(c: Contents<T>, m: T, indexed: bool)
    ensures Holds((Appended(c.0, m), c.1.(indexed := indexed))).kids <= Holds(c).kids + {m}
    ensures Holds((Appended(c.0, m), c.1)).kids <= Holds(c).kids + {m}
  {
  }

  lemma KidsPaired<T>(c: Contents<T>, k: T, v: T)
    ensures Holds(PlainPaired(c, k, v)).kids <= Holds(c).kids + {k, v}
    ensures Holds(LiteralPaired(c, k, v)).kids <= Holds(c).kids + {v}
  {
  }

  lemma KidsErased<T>(c: Contents<T>, key: nat)
    ensures Holds((Erased(c.0, key), c.1)).kids <= Holds(c).kids
    ensures Holds((c.0.(seqSize := key), c.1)).kids <= Holds(c).kids
  {
  }

  lemma KidsUnpaired<T>(c: Contents<T>, at: nat)
    ensures Holds((Unpaired(c.0, at), c.1)).kids <= Holds(c).kids
  {
    assert forall p :: p in Unpaired(c.0, at).pairs ==> p in c.0.pairs;
  }

  lemma AssignSpares<T>(d: Doc<T>, n: T, text: string, xs: set<T>)
    ensures Spares(d, {}, d.Assign(n, text, xs))
  {
    MarkSpares(d, n);
    PaintSpares(d.Mark(n), xs, (Scalar, text));
    hide Spares, Doc<T>.Mark, Doc<T>.Paint;
    SparesThen(d, {}, d.Mark(n), {}, d.Assign(n, text, xs), {});
  }

  lemma NullifySpares<T>(d: Doc<T>, n: T, xs: set<T>)
    requires d.Has(n)
    ensures Spares(d, {}, d.Nullify(n, xs))
  {
    MarkSpares(d, n);
    PaintSpares(d.Mark(n), xs, (Null, d.face[n].1));
    hide Spares, Doc<T>.Mark, Doc<T>.Paint;
    SparesThen(d, {}, d.Mark(n), {}, d.Nullify(n, xs), {});
  }

  lemma TiesSpare<T>(d: Doc<T>, ties: map<T, Ties<T>>)
    requires d.ties.Keys <= ties.Keys
    ensures Spares(d, {}, d.(ties := ties))
  {
    hide Holds;
  }

  lemma TakeoverSpares<T>(d: Doc<T>, n: T, rhs: T)
    requires d.Has(n) && d.Has(rhs)
    ensures Spares(d, {}, d.ShareRef(n, rhs)) && Spares(d, {}, d.ShareData(n, rhs))
  {
    ShareSpares(d, n, rhs, {n});
    ShareSpares(d, n, rhs, d.ties[n].twins);
    TiesSpare(d.Share(n, rhs, {n}), RefJoined(d.ties, n, rhs));
    TiesSpare(d.Share(n, rhs, d.ties[n].twins), DataJoined(d.ties, n, rhs));
    hide Spares, Doc<T>.Mark, Doc<T>.Put, Doc<T>.Paint;
    SparesThen(d, {}, d.Share(n, rhs, {n}), {}, d.ShareRef(n, rhs), {});
    SparesThen(d, {}, d.Share(n, rhs, d.ties[n].twins), {}, d.ShareData(n, rhs), {});
  }

  lemma ShareSpares<T>(d: Doc<T>, n: T, rhs: T, xs: set<T>)
    requires d.Has(rhs)
    ensures Spares(d, {}, d.Share(n, rhs, xs))
  {
    var marked := d.Mark(n);
    MarkSpares(d, n);
    PutSpares(marked, xs, d.layout[rhs], rhs, {});
    PaintSpares(marked.Put(xs, d.layout[rhs]), xs, d.face[rhs]);
    hide Spares, Doc<T>.Mark, Doc<T>.Put, Doc<T>.Paint;
    SparesThen(d, {}, marked, {}, marked.Put(xs, d.layout[rhs]), {});
    SparesThen(d, {}, marked.Put(xs, d.layout[rhs]), {}, d.Share(n, rhs, xs), {});
  }

  lemma RankSpares<T>(d: Doc<T>, rank: map<T, nat>, amount: nat)
    requires d.rank.Keys <= rank.Keys
    ensures Spares(d, {}, d.(rank := rank, amount := amount))
  {
    hide Holds;
  }

  lemma PushSpares<T>(d: Doc<T>, c: T, m: T, xs: set<T>)
    requires d.Has(c) && d.Has(m)
    ensures Spares(d, {m}, d.Push(c, m, xs))
  {
    var linked, h := d.Link(m, c), (Appended(d.layout[c].0, m), d.layout[c].1.(indexed := false));
    LinkSpares(d, m, c);
    KidsAppended(d.layout[c], m, false);
    PutSpares(linked, xs, h, c, {m});
    RankSpares(linked.Put(xs, h), d.rank[c := d.amount], d.amount + 1);
    hide Spares, Doc<T>.Link, Doc<T>.Put;
    SparesThen(d, {m}, linked, {m}, linked.Put(xs, h), {m});
    SparesThen(d, {m}, linked.Put(xs, h), {}, d.Push(c, m, xs), {m});
  }

  lemma PairSpares<T>(d: Doc<T>, c: T, k: T, v: T, xs: set<T>)
    requires d.Has(c) && d.Has(k) && d.Has(v)
    ensures Spares(d, {k, v}, d.Pair(c, k, v, xs))
  {
    var linked := d.Link(k, c);
    LinkSpares(d, k, c);
    assert linked.Has(c) && linked.Has(v);
    var twice, h := linked.Link(v, c), PlainPaired(d.layout[c], k, v);
    LinkSpares(linked, v, c);
    KidsPaired(d.layout[c], k, v);
    PutSpares(twice, xs, h, c, {k, v});
    hide Spares, Doc<T>.Link, Doc<T>.Put;
    SparesThen(d, {k}, linked, {v}, twice, {k, v});
    SparesThen(d, {k, v}, twice, {k, v}, d.Pair(c, k, v, xs), {k, v});
  }

  /** A container gets new contents with one more child, which is linked to it. */
  lemma FillSpares<T>(d: Doc<T>, c: T, r: T, h: Contents<T>, f: Face, xs: set<T>)
    requires d.Has(c) && d.Has(r) && Holds(h).kids <= Holds(d.layout[c]).kids + {r}
    ensures Spares(d, {r}, d.Link(r, c).Put(xs, h).Paint(xs, f))
  {
    var linked := d.Link(r, c);
    LinkSpares(d, r, c);
    PutSpares(linked, xs, h, c, {r});
    PaintSpares(linked.Put(xs, h), xs, f);
    hide Spares, Doc<T>.Link, Doc<T>.Put, Doc<T>.Paint;
    SparesThen(d, {r}, linked, {r}, linked.Put(xs, h), {r});
    SparesThen(d, {r}, linked.Put(xs, h), {}, linked.Put(xs, h).Paint(xs, f), {r});
  }

  lemma ExtendSpares<T>(d: Doc<T>, c: T, r: T, xs: set<T>)
    requires d.Has(c) && r !in d.layout
    ensures !d.Has(r) && Spares(d, {}, d.Extend(c, r, xs)) && d.Extend(c, r, xs).Has(r)
  {
    hide Spares, Doc<T>.Create, Doc<T>.Link, Doc<T>.Put, Doc<T>.Paint, Holds, Appended;
    var made := d.Create(r);
    CreateSpares(d, r);
    CreateKeepsOthers(d, r, c);
    KidsAppended(d.layout[c], r, true);
    FillSpares(made, c, r, (Appended(d.layout[c].0, r), d.layout[c].1), (Sequence, d.face[c].1), xs);
    SparesThen(d, {}, made, {r}, d.Extend(c, r, xs), {r});
    SparesHas(made, {r}, d.Extend(c, r, xs), r);
    SparesNew(d, r, d.Extend(c, r, xs));
  }

  lemma FindSpares<T>(d: Doc<T>, c: T, r: T, kind: Kind, xs: set<T>)
    requires d.Has(c) && d.Has(r) && r in Holds(d.layout[c]).kids
    ensures Spares(d, {}, d.Find(c, r, kind, xs))
  {
    FoundSpares(d, r, c);
    PaintSpares(d.Link(r, c), xs, (kind, d.face[c].1));
    hide Spares, Doc<T>.Link, Doc<T>.Paint;
    SparesThen(d, {}, d.Link(r, c), {}, d.Find(c, r, kind, xs), {});
  }

  lemma KeyedSpares<T>(d: Doc<T>, k: T, text: string, c: T)
    requires k !in d.layout && d.Has(c)
    ensures var keyed := Keyed(d, k, text);
      Spares(d, {}, keyed) && keyed.layout.Keys == d.layout.Keys + {k} && keyed.Has(c) && keyed.layout[c] == d.layout[c]
  {
    HoldsNothing<T>(true);
    hide Holds;
  }

  lemma EnterSpares<T>(d: Doc<T>, c: T, k: T, v: T, text: string, xs: set<T>)
    requires d.Has(c) && k !in d.layout && v !in d.layout && k != v
    ensures !d.Has(k) && !d.Has(v) && Spares(d, {}, d.Enter(c, k, v, text, xs)) && d.Enter(c, k, v, text, xs).Has(v)
  {
    hide Spares, Keyed, Doc<T>.Create, Doc<T>.Link, Doc<T>.Put, Doc<T>.Paint, Holds, LiteralPaired;
    var keyed := Keyed(d, k, text);
    KeyedSpares(d, k, text, c);
    CreateSpares(keyed, v);
    CreateKeepsOthers(keyed, v, c);
    var made := keyed.Create(v);
    KidsPaired(d.layout[c], k, v);
    FillSpares(made, c, v, LiteralPaired(d.layout[c], k, v), (Map, d.face[c].1), xs);
    SparesThen(d, {}, keyed, {}, made, {});
    SparesThen(d, {}, made, {v}, d.Enter(c, k, v, text, xs), {v});
    SparesHas(made, {v}, d.Enter(c, k, v, text, xs), v);
    SparesNew(d, v, d.Enter(c, k, v, text, xs));
  }

  /** The nodes an operation puts into a container. */
  ghost function PutBy<T>(hs: Handles<T>, op: Op): set<T>
  {
    match op
    case Push(c, m) => if Bound(hs, c) && Bound(hs, m) then {hs[m].value} else {}
    case Pair(c, k, v) => if Bound(hs, c) && Bound(hs, k) && Bound(hs, v) then {hs[k].value, hs[v].value} else {}
    case _ => {}
  }

  lemma SameSpares<T>(d: Doc<T>)
    ensures Spares(d, {}, d)
  {
  }

  /** A new variable holds a node in a container, a node that has just been made, or none. */
  ghost predicate NewVariable<T>(was: Doc<T>, r: Option<T>, now: Doc<T>)
  {
    r.Some? ==> now.Has(r.value) && (r.value in was.layout ==> !Lone(was, r.value))
  }

  lemma IndexSpares<T>(was: Doc<T>, c: T, key: int, r: Option<T>, now: Doc<T>)
    requires was.Has(c) && Indexed(was, c, key, r, now)
    ensures Spares(was, {}, now) && NewVariable(was, r, now)
  {
    hide Spares, Holds, Doc<T>.Extend, Doc<T>.Find;
    SameSpares(was);
    if was.Reaches(c, key) {
      var q := was.layout[c].0.sequence;
      if key == |q| {
        ExtendSpares(was, c, r.value, was.Kin(c));
      } else {
        IsKid(was.layout[c], r.value);
        FindSpares(was, c, r.value, Sequence, was.Kin(c));
        SparesHas(was, {}, now, r.value);
      }
    }
  }

  lemma LookupSpares<T>(was: Doc<T>, c: T, text: string, at: nat, k: T, r: Option<T>, now: Doc<T>)
    requires was.Has(c) && LookedUp(was, c, text, at, k, r, now)
    ensures Spares(was, {}, now) && NewVariable(was, r, now)
  {
    hide Spares, Holds, Doc<T>.Enter, Doc<T>.Find;
    SameSpares(was);
    if r.Some? {
      var pairs := was.layout[c].0.pairs;
      if at < |pairs| {
        assert pairs[at] in pairs;
        IsKid(was.layout[c], r.value);
        FindSpares(was, c, r.value, Map, was.Kin(c));
        SparesHas(was, {}, now, r.value);
      } else {
        EnterSpares(was, c, k, r.value, text, was.Kin(c));
      }
    }
  }

  lemma ContentsSpares<T>(was: Doc<T>, hs: Handles<T>, op: Op, how: Choice<T>, now: Doc<T>, hs': Handles<T>)
    requires Handled(was, hs) && Moves(was, hs, op, how, now, hs') && (op.Erase? || op.Drop? || op.Recount?)
    ensures Spares(was, {}, now)
  {
    hide Spares, Holds, Doc<T>.Put, Doc<T>.FirstKey, Doc<T>.Countable;
    SameSpares(was);
    if Bound(hs, op.c) {
      var c := hs[op.c].value;
      var h := was.layout[c];
      match op
      case Erase(_, key) =>
        if 0 <= key < |h.0.sequence| {
          KidsErased(h, key);
          PutSpares(was, was.Kin(c), (Erased(h.0, key), h.1), c, {});
        }
      case Drop(_, _) =>
        KidsUnpaired(h, how.at);
        PutSpares(was, was.Kin(c), (Unpaired(h.0, how.at), h.1), c, {});
      case Recount(_, k) =>
        KidsErased(h, k);
        PutSpares(was, was.Kin(c), (h.0.(seqSize := k), h.1), c, {});
    }
  }

  /** Whatever an operation does, nodes it does not put anywhere are spared. */
  lemma MovesSpares<T>(was: Doc<T>, hs: Handles<T>, op: Op, how: Choice<T>, now: Doc<T>, hs': Handles<T>)
    requires Handled(was, hs) && Moves(was, hs, op, how, now, hs')
    ensures Spares(was, PutBy(hs, op), now)
    ensures op.At? || op.Key? ==> |hs'| == |hs| + 1 && NewVariable(was, hs'[|hs|], now)
  {
    hide Spares, NewVariable, Indexed, LookedUp, ErasedFrom, DroppedFrom, Recounted, Doc<T>.Create, Doc<T>.Nullify, Doc<T>.Assign,
      Doc<T>.ShareRef, Doc<T>.ShareData, Doc<T>.Push, Doc<T>.Pair, Doc<T>.Family, Doc<T>.Mark;
    SameSpares(was);
    match op
    case Create => CreateSpares(was, hs'[|hs|].value);
    case Nullify(n) => if Bound(hs, n) { NullifySpares(was, hs[n].value, was.Kin(hs[n].value)); }
    case Assign(n, text) => if Bound(hs, n) { AssignSpares(was, hs[n].value, text, was.Kin(hs[n].value)); }
    case ShareRef(n, rhs) => if Bound(hs, n) && Bound(hs, rhs) { TakeoverSpares(was, hs[n].value, hs[rhs].value); }
    case ShareData(n, rhs) => if Bound(hs, n) && Bound(hs, rhs) { TakeoverSpares(was, hs[n].value, hs[rhs].value); }
    case Push(c, m) => if Bound(hs, c) && Bound(hs, m) { PushSpares(was, hs[c].value, hs[m].value, was.Kin(hs[c].value)); }
    case Pair(c, k, v) =>
      if Bound(hs, c) && Bound(hs, k) && Bound(hs, v) { PairSpares(was, hs[c].value, hs[k].value, hs[v].value, was.Kin(hs[c].value)); }
    case At(c, key) => if Bound(hs, c) { IndexSpares(was, hs[c].value, key, hs'[|hs|], now); } else { Unbound(was, now); }
    case Key(c, text) =>
      if Bound(hs, c) {
        LookupSpares(was, hs[c].value, text, how.at, if how.key.Some? then how.key.value else hs[c].value, hs'[|hs|], now);
      } else {
        Unbound(was, now);
      }
    case _ => ContentsSpares(was, hs, op, how, now, hs');
  }

  lemma Unbound<T>(was: Doc<T>, now: Doc<T>)
    ensures NewVariable(was, None, now)
  {
  }

  // ---- runs ----

  /** The same variables, of which those that were put somewhere are no longer free. */
  lemma FitsSame<T>(p: Plan, was: Doc<T>, hs: Handles<T>, put: set<T>, now: Doc<T>, p': Plan)
    requires Fits(p, was, hs) && Spares(was, put, now)
    requires p'.count == p.count && p'.free <= p.free && p'.solid == p.solid
    requires forall i :: i in p'.free ==> Bound(hs, i) && hs[i].value !in put
    ensures Fits(p', now, hs)
  {
    hide Holds;
  }

  /** One more variable, which is not free. */
  lemma FitsMore<T>(p: Plan, was: Doc<T>, hs: Handles<T>, r: Option<T>, now: Doc<T>)
    requires Fits(p, was, hs) && Spares(was, {}, now) && NewVariable(was, r, now)
    ensures Fits(p.(count := p.count + 1), now, hs + [r])
  {
    FitsSame(p, was, hs, {}, now, p);
    hide Holds;
    var hs' := hs + [r];
    assert forall i: nat :: Bound(hs', i) && i < |hs| ==> Bound(hs, i) && hs'[i] == hs[i];
    forall i, j: nat | i in p.free && Bound(hs', j) && j != i ensures hs'[j] != hs'[i] {
      assert Lone(was, hs[i].value);
    }
  }

  /** A new variable with a new node. */
  lemma FitsCreated<T>(p: Plan, was: Doc<T>, hs: Handles<T>, n: T)
    requires was.Valid() && Fits(p, was, hs) && n !in was.layout
    ensures Fits(Plan(p.count + 1, p.free + {p.count}, p.solid), was.Create(n), hs + [Some(n)])
  {
    CreateSpares(was, n);
    CreatedIsLone(was, n);
    FitsMore(p, was, hs, Some(n), was.Create(n));
    hide Holds, Doc<T>.Valid, Doc<T>.Create, Spares, Lone;
    var hs' := hs + [Some(n)];
    forall j: nat | Bound(hs', j) && j != p.count ensures hs'[j] != hs'[p.count] {
      assert Bound(hs, j) && was.Has(hs[j].value);
    }
  }

  lemma AssignedIsDefined<T>(was: Doc<T>, n: T, text: string, xs: set<T>)
    requires was.Has(n)
    ensures was.Assign(n, text, xs).Defined(n)
  {
    MarkMarks(was.marks, n);
    hide Marks.Mark;
  }

  /** The nodes put somewhere are those of the variables that the plan no longer calls free. */
  lemma PutAreTaken<T>(p: Plan, d: Doc<T>, hs: Handles<T>, op: Op)
    requires Fits(p, d, hs)
    ensures forall i :: i in Next(p, op).free && i in p.free ==> Bound(hs, i) && hs[i].value !in PutBy(hs, op)
  {
    hide Lone, Holds;
  }

  lemma NullifiedIsDefined<T>(was: Doc<T>, n: T, xs: set<T>)
    requires was.Has(n)
    ensures was.Nullify(n, xs).Defined(n)
  {
    MarkMarks(was.marks, n);
    hide Marks.Mark;
  }

  /** Variable `n` holds a defined node now, if it holds one. */
  lemma FitsSolid<T>(p: Plan, was: Doc<T>, hs: Handles<T>, n: nat, now: Doc<T>)
    requires Fits(p, was, hs) && Spares(was, {}, now)
    requires Bound(hs, n) ==> now.Defined(hs[n].value)
    ensures n < p.count ==> Fits(p.(solid := p.solid + {n}), now, hs)
    ensures n >= p.count ==> Fits(p, now, hs)
  {
    FitsSame(p, was, hs, {}, now, p);
    hide Lone, Holds, Doc<T>.Defined;
  }

  /** Variable `n` takes over the node of `rhs`, if there is one. */
  lemma FitsRebound<T>(p: Plan, d: Doc<T>, hs: Handles<T>, n: nat, rhs: nat)
    requires Fits(p, d, hs)
    ensures Fits(Next(p, ShareRef(n, rhs)), d, Rebound(hs, n, rhs))
  {
    hide Lone, Doc<T>.Has, Doc<T>.Defined;
    var hs', p' := Rebound(hs, n, rhs), Next(p, ShareRef(n, rhs));
    forall i: nat | i != n ensures Bound(hs', i) == Bound(hs, i) && (Bound(hs, i) ==> hs'[i] == hs[i]) {
    }
    if n != rhs && n < |hs| && Bound(hs, rhs) {
      assert hs'[n] == hs[rhs];
      forall i, j: nat | i in p'.free && Bound(hs', j) && j != i ensures hs'[j] != hs'[i] {
        assert if j == n then hs'[j] == hs[rhs] && rhs != i else hs'[j] == hs[j];
      }
    } else {
      assert hs' == hs;
    }
  }

  /** What an operation does to the variables, and which nodes it defines. */
  lemma MovesVariables<T>(was: Doc<T>, hs: Handles<T>, op: Op, how: Choice<T>, now: Doc<T>, hs': Handles<T>)
    requires Handled(was, hs) && Moves(was, hs, op, how, now, hs')
    ensures match op
      case Create => |hs'| == |hs| + 1 && hs' == hs + [hs'[|hs|]] && hs'[|hs|].Some? && Created(was, hs'[|hs|].value, now)
      case At(_, _) => |hs'| == |hs| + 1 && hs' == hs + [hs'[|hs|]]
      case Key(_, _) => |hs'| == |hs| + 1 && hs' == hs + [hs'[|hs|]]
      case ShareRef(n, rhs) => hs' == Rebound(hs, n, rhs)
      case Nullify(n) => hs' == hs && (Bound(hs, n) ==> now.Defined(hs[n].value))
      case Assign(n, _) => hs' == hs && (Bound(hs, n) ==> now.Defined(hs[n].value))
      case _ => hs' == hs
  {
    hide Indexed, LookedUp, ErasedFrom, DroppedFrom, Recounted, RefShared, DataShared, Pushed, PairPut, Doc<T>.Create,
      Doc<T>.Nullify, Doc<T>.Assign;
    match op
    case Nullify(n) => if Bound(hs, n) { NullifiedIsDefined(was, hs[n].value, was.Kin(hs[n].value)); }
    case Assign(n, text) => if Bound(hs, n) { AssignedIsDefined(was, hs[n].value, text, was.Kin(hs[n].value)); }
    case _ =>
  }

  lemma FitsNext<T>(p: Plan, was: Doc<T>, hs: Handles<T>, op: Op, how: Choice<T>, now: Doc<T>, hs': Handles<T>)
    requires was.Valid() && Fits(p, was, hs) && Moves(was, hs, op, how, now, hs')
    ensures Fits(Next(p, op), now, hs')
  {
    MovesSpares(was, hs, op, how, now, hs');
    MovesVariables(was, hs, op, how, now, hs');
    PutAreTaken(p, was, hs, op);
    assert |hs| == p.count;
    hide Spares, NewVariable, Moves, Lone, Handled, Doc<T>.Create, Doc<T>.Defined, Doc<T>.Valid, Fits;
    match op
    case Create => FitsCreated(p, was, hs, hs'[|hs|].value);
    case Nullify(n) => FitsSolid(p, was, hs, n, now);
    case Assign(n, _) => FitsSolid(p, was, hs, n, now);
    case ShareRef(n, rhs) =>
      FitsSame(p, was, hs, {}, now, p);
      FitsRebound(p, now, hs, n, rhs);
    case At(_, _) => FitsMore(p, was, hs, hs'[|hs|], now);
    case Key(_, _) => FitsMore(p, was, hs, hs'[|hs|], now);
    case _ => FitsSame(p, was, hs, PutBy(hs, op), now, Next(p, op));
  }

  /** What happened: every operation so far was harmless and did what it does. */
  ghost predicate History<T>(trace: seq<Moment<T>>, hows: seq<Choice<T>>, ops: seq<Op>)
  {
    && |trace| == |hows| + 1 && |hows| <= |ops|
    && (forall i :: 0 <= i < |trace| ==> trace[i].doc.Valid() && trace[i].doc.Bonded() && Handled(trace[i].doc, trace[i].hs))
    && (forall i :: 0 <= i < |hows| ==>
          && Harmless(trace[i].doc, trace[i].hs, ops[i])
          && Moves(trace[i].doc, trace[i].hs, ops[i], hows[i], trace[i + 1].doc, trace[i + 1].hs))
  }

  function PlanAfter(p: Plan, ops: seq<Op>, i: nat): Plan
    requires i <= |ops|
  {
    if i == 0 then p else Next(PlanAfter(p, ops, i - 1), ops[i - 1])
  }

  lemma {:induction false} AllAllowed(p: Plan, ops: seq<Op>, i: nat)
    requires Disciplined(p, ops) && i < |ops|
    ensures Allowed(PlanAfter(p, ops, i), ops[i])
    decreases i
  {
    if i > 0 {
      AllAllowed(Next(p, ops[0]), ops[1..], i - 1);
      PlanShift(p, ops, i);
    }
  }

  lemma {:induction false} PlanShift(p: Plan, ops: seq<Op>, i: nat)
    requires 0 < i <= |ops|
    ensures PlanAfter(p, ops, i) == PlanAfter(Next(p, ops[0]), ops[1..], i - 1)
    decreases i
  {
    if i > 1 {
      PlanShift(p, ops, i - 1);
    }
  }

  lemma {:induction false} PlanFits<T>(p: Plan, trace: seq<Moment<T>>, hows: seq<Choice<T>>, ops: seq<Op>, i: nat)
    requires History(trace, hows, ops) && i <= |hows| && Fits(p, trace[0].doc, trace[0].hs)
    ensures Fits(PlanAfter(p, ops, i), trace[i].doc, trace[i].hs)
  {
    hide Fits, Moves, Doc<T>.Valid, Doc<T>.Bonded, Next, Harmless;
    if i > 0 {
      PlanFits(p, trace, hows, ops, i - 1);
      FitsNext(PlanAfter(p, ops, i - 1), trace[i - 1].doc, trace[i - 1].hs, ops[i - 1], hows[i - 1], trace[i].doc, trace[i].hs);
    }
  }

  /** Nothing need be known of the variables at the start. */
  lemma NothingKnownFits<T>(d: Doc<T>, hs: Handles<T>)
    requires Handled(d, hs)
    ensures Fits(Plan(|hs|, {}, {}), d, hs)
  {
  }

  /** A disciplined program never comes to a harmful operation, on whatever document it starts, with whatever
      variables it is given, and whatever its look-ups find. */
  lemma DisciplineSuffices<T>(p: Plan, trace: seq<Moment<T>>, hows: seq<Choice<T>>, ops: seq<Op>)
    requires History(trace, hows, ops) && Fits(p, trace[0].doc, trace[0].hs) && Disciplined(p, ops)
    ensures var now := trace[|hows|]; |hows| < |ops| ==> Harmless(now.doc, now.hs, ops[|hows|])
  {
    hide Fits, Harmless, Moves, Doc<T>.Valid, Doc<T>.Bonded, Disciplined, Allowed;
    if |hows| < |ops| {
      PlanFits(p, trace, hows, ops, |hows|);
      AllAllowed(p, ops, |hows|);
      AllowedIsHarmless(PlanAfter(p, ops, |hows|), trace[|hows|].doc, trace[|hows|].hs, ops[|hows|]);
    }
  }
}
