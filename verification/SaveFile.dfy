/** The domains of the save file: a list of records that is searched and rewritten in place, and the map
    it stands for. A list that never held a domain and one that lost its last are both empty. */
module SaveFiles {
  import opened Types
  import opened Protocol

  datatype Entry = Entry(name: Text, rec: Record)

  predicate Unique(s: seq<Entry>)
  {
    forall i, j :: 0 <= i < j < |s| ==> s[i].name != s[j].name
  }

  function AsMap(s: seq<Entry>): map<Text, Record>
  {
    if s == [] then map[] else AsMap(s[..|s| - 1])[s[|s| - 1].name := s[|s| - 1].rec]
  }

  /** The position of the first record with a name, or the length of the list. */
  function First(s: seq<Entry>, name: Text): (i: nat)
    ensures i <= |s| && (i < |s| ==> s[i].name == name)
    ensures forall j :: 0 <= j < i ==> s[j].name != name
  {
    if s == [] then 0
    else if s[0].name == name then 0
    else 1 + First(s[1..], name)
  }

  lemma {:induction false} MapOfList(s: seq<Entry>)
    requires Unique(s)
    ensures forall i :: 0 <= i < |s| ==> s[i].name in AsMap(s) && AsMap(s)[s[i].name] == s[i].rec
    ensures forall n :: n in AsMap(s) ==> First(s, n) < |s|
  {
    if s != [] {
      var front := s[..|s| - 1];
      MapOfList(front);
      forall i | 0 <= i < |s|
        ensures s[i].name in AsMap(s) && AsMap(s)[s[i].name] == s[i].rec
      {
        if i < |s| - 1 { assert front[i] == s[i]; }
      }
      forall n | n in AsMap(s)
        ensures First(s, n) < |s|
      {
        if n != s[|s| - 1].name { assert front[First(front, n)] == s[First(front, n)]; }
      }
    }
  }

  lemma MapAt(s: seq<Entry>, name: Text)
    requires Unique(s)
    ensures name in AsMap(s) <==> First(s, name) < |s|
    ensures First(s, name) < |s| ==> AsMap(s)[name] == s[First(s, name)].rec
  {
    MapOfList(s);
  }

  lemma {:induction false} FirstOfUpdate(s: seq<Entry>, i: nat, rec: Record, name: Text)
    requires i < |s|
    ensures First(s[i := Entry(s[i].name, rec)], name) == First(s, name)
    decreases |s|
  {
    var s' := s[i := Entry(s[i].name, rec)];
    if i == 0 {
      assert s'[1..] == s[1..];
    } else {
      assert s'[1..] == s[1..][i - 1 := Entry(s[i].name, rec)];
      FirstOfUpdate(s[1..], i - 1, rec, name);
    }
  }

  /** Rewriting one record in place is one update of the map. */
  lemma MapUpdate(s: seq<Entry>, i: nat, rec: Record)
    requires Unique(s) && i < |s|
    ensures Unique(s[i := Entry(s[i].name, rec)])
    ensures AsMap(s[i := Entry(s[i].name, rec)]) == AsMap(s)[s[i].name := rec]
  {
    var s' := s[i := Entry(s[i].name, rec)];
    var m, m' := AsMap(s)[s[i].name := rec], AsMap(s');
    assert Unique(s');
    assert First(s, s[i].name) == i;
    hide AsMap, First, Unique;
    MapAt(s, s[i].name);
    forall n
      ensures n in m' <==> n in m
      ensures n in m' ==> m'[n] == m[n]
    {
      MapAt(s, n);
      MapAt(s', n);
      FirstOfUpdate(s, i, rec, n);
    }
  }

  lemma MapAppend(s: seq<Entry>, e: Entry)
    requires Unique(s) && First(s, e.name) == |s|
    ensures Unique(s + [e]) && AsMap(s + [e]) == AsMap(s)[e.name := e.rec]
  {
    AppendMap(s, e);
  }

  // ---- what the operations make of the list ----

  /** The first record with the name becomes this one, or it is added at the end. */
  function Saved(s: seq<Entry>, e: Entry): seq<Entry>
  {
    var i := First(s, e.name);
    if i < |s| then s[i := e] else s + [e]
  }

  function PidSaved(s: seq<Entry>, name: Text, pid: int): seq<Entry>
  {
    var i := First(s, name);
    if i < |s| then s[i := Entry(name, s[i].rec.(pid := pid, running := true))] else s
  }

  function PidRemoved(s: seq<Entry>, name: Text): seq<Entry>
  {
    var i := First(s, name);
    if i < |s| then s[i := Entry(name, s[i].rec.(pid := NO_PID, running := false))] else s
  }

  /** Nothing changes when the record is running. */
  function Enabled(s: seq<Entry>, name: Text, role: ColoRole): seq<Entry>
  {
    var i := First(s, name);
    if i < |s| && !s[i].rec.running then s[i := Entry(name, s[i].rec.(coloEnable := true, coloStatus := role))] else s
  }

  function Disabled(s: seq<Entry>, name: Text): seq<Entry>
  {
    var i := First(s, name);
    if i < |s| && !s[i].rec.running then s[i := Entry(name, s[i].rec.(coloEnable := false))] else s
  }

  /** The records with another name, in order. */
  function Without(s: seq<Entry>, name: Text): seq<Entry>
  {
    if s == [] then []
    else Without(s[..|s| - 1], name) + (if s[|s| - 1].name == name then [] else [s[|s| - 1]])
  }

  lemma {:induction false} WithoutKeepsOthers(s: seq<Entry>, name: Text)
    ensures forall e :: e in Without(s, name) ==> e in s && e.name != name
  {
    if s != [] { WithoutKeepsOthers(s[..|s| - 1], name); }
  }

  lemma {:induction false} WithoutNone(s: seq<Entry>, name: Text)
    ensures First(s, name) == |s| ==> Without(s, name) == s
  {
    if s != [] && First(s, name) == |s| {
      var front := s[..|s| - 1];
      assert forall j | 0 <= j < |s| :: s[j].name != name;
      assert First(front, name) == |front| by { assert forall j | 0 <= j < |front| :: front[j] == s[j]; }
      WithoutNone(front, name);
      assert front + [s[|s| - 1]] == s;
    }
  }

  lemma {:induction false} WithoutIsUnique(s: seq<Entry>, name: Text)
    requires Unique(s)
    ensures Unique(Without(s, name))
  {
    if s != [] {
      WithoutIsUnique(s[..|s| - 1], name);
      WithoutKeepsOthers(s[..|s| - 1], name);
    }
  }

  lemma AppendMap(w: seq<Entry>, e: Entry)
    ensures AsMap(w + [e]) == AsMap(w)[e.name := e.rec]
  {
    assert (w + [e])[..|w|] == w;
  }

  lemma RemoveAfterPut<K, V>(m: map<K, V>, k: K, v: V, n: K)
    ensures m[k := v] - {n} == if k == n then m - {n} else (m - {n})[k := v]
  {
  }

  /** Rebuilding the list without a name is removing it from the map. */
  lemma {:induction false} MapWithout(s: seq<Entry>, name: Text)
    ensures AsMap(Without(s, name)) == AsMap(s) - {name}
  {
    if s != [] {
      var front, last := s[..|s| - 1], s[|s| - 1];
      var w, m := Without(front, name), AsMap(front);
      assert AsMap(s) == m[last.name := last.rec];
      assert Without(s, name) == if last.name == name then w else w + [last] by { assert w + [] == w; }
      hide *;
      MapWithout(front, name);
      AppendMap(w, last);
      RemoveAfterPut(m, last.name, last.rec, name);
    }
  }

  class SaveFile {
    var domains: seq<Entry>
    /** Whether the entry of the domains is a list, or missing. */
    var isList: bool

    constructor ()
      ensures domains == [] && isList
    {
      domains, isList := [], true;
    }

    /** `save_domain_info`: overwrites what is there, or appends; refuses an entry that is not a list. */
    method SaveDomainInfo(ds: DomainStatus) returns (code: int)
      requires Unique(domains)
      modifies `domains
      ensures code == (if isList then OK else FAIL) && Unique(domains)
      ensures if isList then AsMap(domains) == SaveInfo(old(AsMap(domains)), ds) else domains == old(domains)
      ensures isList ==> domains == Saved(old(domains), Entry(ds.name, Record(ds.path, NO_PID, false, false, RoleNone)))
    {
      if !isList {
        return FAIL;
      }
      var dom := Entry(ds.name, Record(ds.path, NO_PID, false, false, RoleNone));
      ghost var was := domains;
      var redefined := false;
      var i := 0;
      while i < |domains|
        invariant i <= |domains| == |was|
        invariant redefined <==> First(was, ds.name) < i
        invariant domains == if redefined then was[First(was, ds.name) := dom] else was
      {
        if domains[i].name == ds.name {
          domains := domains[i := dom];
          redefined := true;
        }
        i := i + 1;
      }
      if redefined {
        MapUpdate(was, First(was, ds.name), dom.rec);
      } else {
        MapAppend(was, dom);
        domains := domains + [dom];
      }
      code := OK;
    }

    /** The first record with a name gets another content; the loops of the file all find it this way. */
    method Find(name: Text) returns (i: nat)
      ensures i == First(domains, name)
    {
      i := 0;
      while i < |domains| && domains[i].name != name
        invariant i <= |domains|
        invariant forall j :: 0 <= j < i ==> domains[j].name != name
      {
        i := i + 1;
      }
    }

    method SaveDomainPid(name: Text, pid: int)
      requires Unique(domains)
      modifies `domains
      ensures Unique(domains) && AsMap(domains) == SavePid(old(AsMap(domains)), name, pid)
      ensures domains == PidSaved(old(domains), name, pid)
    {
      MapAt(domains, name);
      var i := Find(name);
      if i < |domains| {
        MapUpdate(domains, i, domains[i].rec.(pid := pid, running := true));
        domains := domains[i := Entry(name, domains[i].rec.(pid := pid, running := true))];
      }
    }

    /** Fails on a file without domains only. */
    method RemoveDomainPid(name: Text) returns (code: int)
      requires Unique(domains)
      modifies `domains
      ensures Unique(domains) && AsMap(domains) == RemovePid(old(AsMap(domains)), name)
      ensures domains == PidRemoved(old(domains), name)
      ensures code == if old(domains) == [] then FAIL else OK
    {
      if domains == [] {
        return FAIL;
      }
      MapAt(domains, name);
      var i := Find(name);
      if i < |domains| {
        MapUpdate(domains, i, domains[i].rec.(pid := NO_PID, running := false));
        domains := domains[i := Entry(name, domains[i].rec.(pid := NO_PID, running := false))];
      }
      code := OK;
    }

    method SetColoEnable(name: Text, role: ColoRole) returns (code: int)
      requires Unique(domains)
      modifies `domains
      ensures Unique(domains)
      ensures match EnableSaved(old(AsMap(domains)), name, role)
        case None => code == FAIL && domains == old(domains)
        case Some(saved) => code == OK && AsMap(domains) == saved
      ensures domains == Enabled(old(domains), name, role)
    {
      MapAt(domains, name);
      var i := Find(name);
      if i < |domains| {
        if domains[i].rec.running {
          return FAIL;
        }
        MapUpdate(domains, i, domains[i].rec.(coloEnable := true, coloStatus := role));
        domains := domains[i := Entry(name, domains[i].rec.(coloEnable := true, coloStatus := role))];
      }
      code := OK;
    }

    method SetColoDisable(name: Text) returns (code: int)
      requires Unique(domains)
      modifies `domains
      ensures Unique(domains)
      ensures var was := old(AsMap(domains));
        if name in was && was[name].running then code == FAIL && domains == old(domains)
        else code == OK && AsMap(domains) == if name in was then was[name := was[name].(coloEnable := false)] else was
      ensures domains == Disabled(old(domains), name)
    {
      MapAt(domains, name);
      var i := Find(name);
      if i < |domains| {
        if domains[i].rec.running {
          return FAIL;
        }
        MapUpdate(domains, i, domains[i].rec.(coloEnable := false));
        domains := domains[i := Entry(name, domains[i].rec.(coloEnable := false))];
      }
      code := OK;
    }

    /** `vm_undefine` rebuilds the list; it succeeds for an unknown name as well. */
    method Undefine(name: Text) returns (code: int)
      requires Unique(domains)
      modifies `domains
      ensures Unique(domains) && AsMap(domains) == old(AsMap(domains)) - {name} && code == OK
      ensures domains == Without(old(domains), name)
    {
      hide Unique, AsMap;
      var rest: seq<Entry> := [];
      var rm := false;
      var i := 0;
      while i < |domains|
        invariant i <= |domains| && domains == old(domains)
        invariant rest == Without(domains[..i], name)
        invariant rm <==> First(domains, name) < i
      {
        assert domains[..i + 1][..i] == domains[..i];
        if domains[i].name == name {
          rm := true;
        } else {
          rest := rest + [domains[i]];
        }
        i := i + 1;
      }
      assert domains[..i] == domains;
      MapWithout(domains, name);
      WithoutIsUnique(domains, name);
      WithoutNone(domains, name);
      MapAt(domains, name);
      if rm {
        domains := rest;
      }
      code := OK;
    }

    /** `get_domain_pid`: the first record decides. */
    method GetDomainPid(name: Text) returns (code: int, pid: int)
      requires Unique(domains)
      ensures var m := AsMap(domains);
        if name in m && m[name].pid != NO_PID then code == OK && pid == m[name].pid else code == FAIL
    {
      MapAt(domains, name);
      var i := Find(name);
      pid := NO_PID;
      if i == |domains| || domains[i].rec.pid == NO_PID {
        return FAIL, pid;
      }
      return OK, domains[i].rec.pid;
    }

    /** `get_domain`: the last record decides, and each one found is read on the way. */
    method GetDomain(name: Text, load: Text -> Option<Config>) returns (code: int, conf: Option<Config>)
      requires Unique(domains)
      ensures var m := AsMap(domains);
        if name in m && load(m[name].path).Some? then code == OK && conf == load(m[name].path) else code == FAIL
    {
      MapAt(domains, name);
      conf := None;
      var find := false;
      var i := 0;
      while i < |domains|
        invariant i <= |domains|
        invariant find <==> First(domains, name) < i
        invariant find ==> conf == load(domains[First(domains, name)].rec.path) && conf.Some?
      {
        if domains[i].name == name {
          find := true;
          conf := load(domains[i].rec.path);
          if conf.None? {
            return FAIL, None;
          }
        }
        i := i + 1;
      }
      code := if find then OK else FAIL;
    }
  }
}
