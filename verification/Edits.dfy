/** The daemon's own edits of the save file as programs over its document, and that all of them are
    disciplined. Variable `sf` holds the document; the look-ups may find anything. */
module Edits {
  import opened Types
  import opened Documents
  import opened Disciplines

  // ---- programs ----

  /** What is assigned to a key: a string at once, a number or a truth value by way of a node of its own. */
  datatype Entry = Plainly(key: string, text: string) | Encoded(key: string, text: string)

  /** `n[key] = value`, with `count` variables before it. */
  function SetEntry(count: nat, n: nat, e: Entry): seq<Op>
  {
    match e
    case Plainly(key, text) => [Key(n, key), Assign(count, text)]
    case Encoded(key, text) => [Key(n, key), Op.Create, Assign(count + 1, text), ShareData(count, count + 1)]
  }

  function SetEntries(count: nat, n: nat, es: seq<Entry>): seq<Op>
    decreases |es|
  {
    if es == [] then []
    else
      var first := SetEntry(count, n, es[0]);
      first + SetEntries(Variables(count, first), n, es[1..])
  }

  /** A new map with some entries; a variable without a value becomes null when it is first used. */
  function NewMap(count: nat, es: seq<Entry>): seq<Op>
  {
    [Op.Create, Nullify(count)] + SetEntries(count + 1, count, es)
  }

  /** `save_colo_status` */
  function SaveStatus(count: nat, sf: nat, es: seq<Entry>): seq<Op>
  {
    var made := NewMap(count, es);
    var end := Variables(count, made);
    made + [Key(sf, "save_status"), ShareRef(end, count)]
  }

  /** The loop of `save_domain_info` over the list: `hits` tells which entries have the name. */
  function Replace(count: nat, sf: nat, dom: nat, hits: seq<bool>, i: nat): seq<Op>
    decreases |hits| - i
  {
    if i >= |hits| then [Key(sf, "domains")]
    else
      [Key(sf, "domains"), Key(sf, "domains"), At(count + 1, i), Key(count + 2, "name")]
      + (if hits[i] then
           [Key(sf, "domains"), At(count + 4, i), ShareRef(count + 5, dom)] + Replace(count + 6, sf, dom, hits, i + 1)
         else Replace(count + 4, sf, dom, hits, i + 1))
  }

  /** What the file has under "domains". */
  datatype Domains = Absent | Empty | Listed(hits: seq<bool>) | Malformed

  /** `save_domain_info` */
  function SaveDomain(count: nat, sf: nat, es: seq<Entry>, has: Domains): seq<Op>
  {
    var look := Key(sf, "domains");
    var made := NewMap(count, es) + if has.Absent? then [look] else if has.Empty? then [look, look] else [look, look, look];
    var searched := made + if has.Listed? then Replace(Variables(count, made), sf, count, has.hits, 0) else [];
    if has.Malformed? || (has.Listed? && true in has.hits) then searched
    else searched + [look, Push(Variables(count, searched), count)]
  }

  /** The first entries looked up for their names. */
  function Search(count: nat, sf: nat, upTo: nat): seq<Op>
  {
    if upTo == 0 then [Key(sf, "domains"), Key(sf, "domains")]
    else
      var before := Search(count, sf, upTo - 1);
      var end := Variables(count, before);
      before + [Key(sf, "domains"), Key(sf, "domains"), At(end + 1, upTo - 1), Key(end + 2, "name")]
  }

  function Overwrite(count: nat, sf: nat, i: nat, es: seq<Entry>): seq<Op>
    decreases |es|
  {
    if es == [] then []
    else
      var first := [Key(sf, "domains"), At(count, i)] + SetEntry(count + 2, count + 1, es[0]);
      first + Overwrite(Variables(count, first), sf, i, es[1..])
  }

  /** The search for the entry with the name, and the look at its status when enabling or disabling. */
  function Found(count: nat, sf: nat, i: nat, guarded: bool): seq<Op>
  {
    var found := Search(count, sf, i + 1);
    var end := Variables(count, found);
    found + if guarded then [Key(sf, "domains"), At(end, i), Key(end + 1, "status")] else []
  }

  /** Setting and clearing a pid, enabling and disabling: entry `i` is the one with the name. */
  function Update(count: nat, sf: nat, i: nat, guarded: bool, es: seq<Entry>): seq<Op>
  {
    var found := Found(count, sf, i, guarded);
    found + Overwrite(Variables(count, found), sf, i, es)
  }

  /** The loop of `vm_undefine`: entries with another name go into the new list. */
  function Collect(count: nat, sf: nat, list: nat, hits: seq<bool>, i: nat): seq<Op>
    decreases |hits| - i
  {
    if i >= |hits| then [Key(sf, "domains")]
    else
      [Key(sf, "domains"), Key(sf, "domains"), At(count + 1, i), Key(count + 2, "name"), Key(sf, "domains"), At(count + 4, i)]
      + [if hits[i] then Key(count + 5, "colo_enable") else Push(list, count + 5)]
      + Collect(if hits[i] then count + 7 else count + 6, sf, list, hits, i + 1)
  }

  /** `vm_undefine` */
  function Undefine(count: nat, sf: nat, hits: seq<bool>): seq<Op>
  {
    var made := [Op.Create, Nullify(count)];
    var collected := made + Collect(count + 1, sf, count, hits, 0);
    if true in hits then collected + [Key(sf, "domains"), ShareRef(Variables(count, collected), count)] else collected
  }

  // ---- they are disciplined ----

  /** How many variables there are after a program. */
  function Variables(count: nat, ops: seq<Op>): nat
    decreases |ops|
  {
    if ops == [] then count
    else Variables(if ops[0].Create? || ops[0].At? || ops[0].Key? then count + 1 else count, ops[1..])
  }

  function Finish(p: Plan, ops: seq<Op>): Plan
    decreases |ops|
  {
    if ops == [] then p else Finish(Next(p, ops[0]), ops[1..])
  }

  lemma {:induction false} Chain(p: Plan, a: seq<Op>, b: seq<Op>)
    ensures Finish(p, a).count == Variables(p.count, a)
    ensures Finish(p, a + b) == Finish(Finish(p, a), b)
    ensures Disciplined(p, a) && Disciplined(Finish(p, a), b) ==> Disciplined(p, a + b)
    decreases |a|
  {
    if a == [] {
      assert a + b == b;
    } else {
      Chain(Next(p, a[0]), a[1..], b);
      assert (a + b)[0] == a[0] && (a + b)[1..] == a[1..] + b;
    }
  }

  lemma Two(p: Plan, a: Op, b: Op)
    ensures Finish(p, [a, b]) == Next(Next(p, a), b)
    ensures Disciplined(p, [a, b]) <==> Allowed(p, a) && Allowed(Next(p, a), b)
  {
    hide Next, Allowed;
    assert [a, b][1..] == [b] && [b][1..] == [];
    assert Finish(Next(p, a), [b]) == Finish(Next(Next(p, a), b), []);
    assert Disciplined(Next(p, a), [b]) <==> Allowed(Next(p, a), b) && Disciplined(Next(Next(p, a), b), []);
  }

  /** The operation is allowed whenever `made` is known to be defined. */
  predicate Simple(made: nat, op: Op)
  {
    match op
    case Push(c, m) => c == made || m == made
    case ShareRef(_, rhs) => rhs == made
    case _ => op.Create? || op.Nullify? || op.Assign? || op.At? || op.Key?
  }

  predicate AllSimple(made: nat, ops: seq<Op>)
  {
    forall i :: 0 <= i < |ops| ==> Simple(made, ops[i])
  }

  lemma {:induction false} SimpleIsDisciplined(p: Plan, made: nat, ops: seq<Op>)
    requires made in p.solid && AllSimple(made, ops)
    ensures Disciplined(p, ops) && made in Finish(p, ops).solid
    decreases |ops|
  {
    if ops != [] {
      assert Simple(made, ops[0]);
      assert forall i :: 0 <= i < |ops| - 1 ==> ops[1..][i] == ops[i + 1];
      SimpleIsDisciplined(Next(p, ops[0]), made, ops[1..]);
    }
  }

  /** Assigning an entry is disciplined whatever the map, and what is known to be defined stays so. */
  lemma EntryIsDisciplined(p: Plan, n: nat, e: Entry)
    ensures var ops := SetEntry(p.count, n, e);
      Disciplined(p, ops) && p.solid <= Finish(p, ops).solid && Finish(p, ops).count == Variables(p.count, ops)
  {
    var ops := SetEntry(p.count, n, e);
    Chain(p, ops, []);
    Two(p, ops[0], ops[1]);
    if e.Encoded? {
      var p2 := Finish(p, ops[..2]);
      assert ops[..2] == [ops[0], ops[1]] && ops == ops[..2] + [ops[2], ops[3]];
      Two(p2, ops[2], ops[3]);
      Chain(p, ops[..2], [ops[2], ops[3]]);
    } else {
      assert ops == [ops[0], ops[1]];
    }
  }

  lemma {:induction false} EntriesAreDisciplined(p: Plan, n: nat, es: seq<Entry>)
    ensures var ops := SetEntries(p.count, n, es); Disciplined(p, ops) && p.solid <= Finish(p, ops).solid
    decreases |es|
  {
    if es != [] {
      var first := SetEntry(p.count, n, es[0]);
      EntryIsDisciplined(p, n, es[0]);
      var next := Finish(p, first);
      EntriesAreDisciplined(next, n, es[1..]);
      Chain(p, first, SetEntries(next.count, n, es[1..]));
    }
  }

  lemma {:induction false} OverwriteIsDisciplined(p: Plan, sf: nat, i: nat, es: seq<Entry>)
    ensures Disciplined(p, Overwrite(p.count, sf, i, es))
    decreases |es|
  {
    if es != [] {
      var looked := [Key(sf, "domains"), At(p.count, i)];
      Two(p, looked[0], looked[1]);
      var p2 := Finish(p, looked);
      var entry := SetEntry(p.count + 2, p.count + 1, es[0]);
      EntryIsDisciplined(p2, p.count + 1, es[0]);
      Chain(p, looked, entry);
      Chain(p, looked + entry, []);
      var next := Finish(p, looked + entry);
      OverwriteIsDisciplined(next, sf, i, es[1..]);
      Chain(p, looked + entry, Overwrite(next.count, sf, i, es[1..]));
    }
  }

  lemma NewMapIsDisciplined(p: Plan, es: seq<Entry>)
    ensures var ops := NewMap(p.count, es); Disciplined(p, ops) && p.count in Finish(p, ops).solid
  {
    var made := [Op.Create, Nullify(p.count)];
    Two(p, Op.Create, Nullify(p.count));
    var p2 := Finish(p, made);
    hide Disciplined, Finish, SetEntries;
    EntriesAreDisciplined(p2, p.count, es);
    Chain(p, made, SetEntries(p.count + 1, p.count, es));
  }

  lemma SimpleThen(made: nat, a: seq<Op>, b: seq<Op>)
    requires AllSimple(made, a) && AllSimple(made, b)
    ensures AllSimple(made, a + b)
  {
    hide Simple;
  }

  lemma {:induction false} ReplaceIsSimple(count: nat, sf: nat, dom: nat, hits: seq<bool>, i: nat)
    ensures AllSimple(dom, Replace(count, sf, dom, hits, i))
    decreases |hits| - i
  {
    if i < |hits| {
      var look := [Key(sf, "domains"), Key(sf, "domains"), At(count + 1, i), Key(count + 2, "name")];
      var put := [Key(sf, "domains"), At(count + 4, i), ShareRef(count + 5, dom)];
      assert AllSimple(dom, look) && AllSimple(dom, put);
      hide AllSimple;
      if hits[i] {
        ReplaceIsSimple(count + 6, sf, dom, hits, i + 1);
        SimpleThen(dom, put, Replace(count + 6, sf, dom, hits, i + 1));
        SimpleThen(dom, look, put + Replace(count + 6, sf, dom, hits, i + 1));
      } else {
        ReplaceIsSimple(count + 4, sf, dom, hits, i + 1);
        SimpleThen(dom, look, Replace(count + 4, sf, dom, hits, i + 1));
      }
    }
  }

  lemma {:induction false} CollectIsSimple(count: nat, sf: nat, list: nat, hits: seq<bool>, i: nat)
    ensures AllSimple(list, Collect(count, sf, list, hits, i))
    decreases |hits| - i
  {
    if i < |hits| {
      CollectIsSimple(if hits[i] then count + 7 else count + 6, sf, list, hits, i + 1);
    }
  }

  predicate OnlyLooks(ops: seq<Op>)
  {
    forall i :: 0 <= i < |ops| ==> ops[i].At? || ops[i].Key?
  }

  lemma {:induction false} SearchOnlyLooks(count: nat, sf: nat, upTo: nat)
    ensures OnlyLooks(Search(count, sf, upTo))
  {
    if upTo > 0 {
      SearchOnlyLooks(count, sf, upTo - 1);
    }
  }

  lemma {:induction false} LooksAreDisciplined(p: Plan, ops: seq<Op>)
    requires OnlyLooks(ops)
    ensures Disciplined(p, ops)
    decreases |ops|
  {
    if ops != [] {
      assert forall i :: 0 <= i < |ops| - 1 ==> ops[1..][i] == ops[i + 1];
      LooksAreDisciplined(Next(p, ops[0]), ops[1..]);
    }
  }

  /** A new map is made and then put into place by operations that are simple. */
  lemma MadeThenSimple(p: Plan, made: seq<Op>, more: seq<Op>)
    requires Disciplined(p, made) && p.count in Finish(p, made).solid && AllSimple(p.count, more)
    ensures Disciplined(p, made + more) && p.count in Finish(p, made + more).solid
  {
    SimpleIsDisciplined(Finish(p, made), p.count, more);
    Chain(p, made, more);
  }

  lemma SaveDomainIsDisciplined(p: Plan, sf: nat, es: seq<Entry>, has: Domains)
    ensures Disciplined(p, SaveDomain(p.count, sf, es, has))
  {
    hide Disciplined, Finish, NewMap, Variables, Replace;
    var look := Key(sf, "domains");
    var looks := if has.Absent? then [look] else if has.Empty? then [look, look] else [look, look, look];
    var map' := NewMap(p.count, es);
    NewMapIsDisciplined(p, es);
    MadeThenSimple(p, map', looks);
    var made := map' + looks;
    var count := Variables(p.count, made);
    var loop := if has.Listed? then Replace(count, sf, p.count, has.hits, 0) else [];
    if has.Listed? { ReplaceIsSimple(count, sf, p.count, has.hits, 0); }
    MadeThenSimple(p, made, loop);
    MadeThenSimple(p, made + loop, [Key(sf, "domains"), Push(Variables(p.count, made + loop), p.count)]);
  }

  lemma SaveStatusIsDisciplined(p: Plan, sf: nat, es: seq<Entry>)
    ensures Disciplined(p, SaveStatus(p.count, sf, es))
  {
    hide Disciplined, Finish, NewMap, Variables;
    NewMapIsDisciplined(p, es);
    var made := NewMap(p.count, es);
    MadeThenSimple(p, made, [Key(sf, "save_status"), ShareRef(Variables(p.count, made), p.count)]);
  }

  lemma UndefineIsDisciplined(p: Plan, sf: nat, hits: seq<bool>)
    ensures Disciplined(p, Undefine(p.count, sf, hits))
  {
    var empty := [Op.Create, Nullify(p.count)];
    Two(p, Op.Create, Nullify(p.count));
    hide Disciplined, Finish, Variables, Collect;
    var loop := Collect(p.count + 1, sf, p.count, hits, 0);
    CollectIsSimple(p.count + 1, sf, p.count, hits, 0);
    MadeThenSimple(p, empty, loop);
    MadeThenSimple(p, empty + loop, [Key(sf, "domains"), ShareRef(Variables(p.count, empty + loop), p.count)]);
  }

  /** All of the daemon's edits are disciplined: whatever they find in the file and whatever they write, no
      container is lost. */
  lemma EditsAreDisciplined(p: Plan, sf: nat, es: seq<Entry>, has: Domains, i: nat, guarded: bool, hits: seq<bool>)
    ensures Disciplined(p, SaveStatus(p.count, sf, es))
    ensures Disciplined(p, SaveDomain(p.count, sf, es, has))
    ensures Disciplined(p, Update(p.count, sf, i, guarded, es))
    ensures Disciplined(p, Undefine(p.count, sf, hits))
  {
    SaveDomainIsDisciplined(p, sf, es, has);
    SaveStatusIsDisciplined(p, sf, es);
    UndefineIsDisciplined(p, sf, hits);
    var found := Found(p.count, sf, i, guarded);
    SearchOnlyLooks(p.count, sf, i + 1);
    LooksAreDisciplined(p, found);
    Chain(p, found, []);
    OverwriteIsDisciplined(Finish(p, found), sf, i, es);
    Chain(p, found, Overwrite(Variables(p.count, found), sf, i, es));
  }
}
