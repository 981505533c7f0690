/** The edits of the save file and the list of records it stands for: a program run on a document that shows a
    list leaves one that shows the list the operation of `SaveFiles` makes of it. */
module Rewrites {
  import opened Codec
  import opened Types
  import P = Protocol
  import opened Definedness
  import opened Documents
  import opened Disciplines
  import opened Edits
  import opened Sheets
  import Files = SaveFiles

  // ---- reading a field ----

  /** The text under a key. */
  function Field(row: Row, key: string): Option<string>
  {
    var a := KeyIndex(row, key);
    if a < |row| then Some(row[a].1) else None
  }

  /** What is last written under a key. */
  function Last(es: seq<Edits.Entry>, key: string): Option<string>
  {
    if es == [] then None
    else if es[|es| - 1].key == key then Some(es[|es| - 1].text)
    else Last(es[..|es| - 1], key)
  }

  lemma {:induction false} FirstKey(row: Row, key: string, a: nat)
    requires a <= |row| && (forall b | 0 <= b < a :: row[b].0 != key) && (a < |row| ==> row[a].0 == key)
    ensures KeyIndex(row, key) == a
  {
  }

  lemma FieldSet(row: Row, k: string, text: string, key: string)
    ensures Field(SetField(row, k, text), key) == if k == key then Some(text) else Field(row, key)
  {
    var row', a, i := SetField(row, k, text), KeyIndex(row, k), KeyIndex(row, key);
    if k == key {
      FirstKey(row', key, a);
    } else if i < |row| {
      FirstKey(row', key, i);
    } else {
      FirstKey(row', key, |row'|);
    }
  }

  /** Setting fields in turn gives each key the text that is written to it last, and leaves the other keys. */
  lemma {:induction false} FieldsGive(row: Row, es: seq<Edits.Entry>, key: string)
    ensures Field(SetFields(row, es), key) == if Last(es, key).Some? then Last(es, key) else Field(row, key)
    decreases |es|
  {
    if es != [] {
      var row1, rest := SetField(row, es[0].key, es[0].text), es[1..];
      FieldSet(row, es[0].key, es[0].text, key);
      FieldsGive(row1, rest, key);
      LastOfRest(es, key);
    }
  }

  lemma {:induction false} LastOfRest(es: seq<Edits.Entry>, key: string)
    requires es != []
    ensures Last(es, key) == if Last(es[1..], key).Some? then Last(es[1..], key) else if es[0].key == key then Some(es[0].text) else None
    decreases |es|
  {
    if |es| > 1 && es[|es| - 1].key != key {
      var front := es[..|es| - 1];
      assert front[1..] == es[1..][..|es| - 2];
      LastOfRest(front, key);
    } else if |es| == 1 {
      assert es[..0] == [] && es[1..] == [];
    }
  }

  /** Looking a field of an entry up. */
  function Read(count: nat, sf: nat, j: nat, key: string): seq<Op>
  {
    [Key(sf, "domains"), Op.At(count, j)] + [Key(count + 1, key)]
  }

  lemma FieldRead<T>(r: Trace<T>, sf: nat, j: nat, key: string, root: T, list: T, q: seq<T>, rows: seq<Row>, tops: set<T>, all: set<T>)
    requires r.at != [] && Open(r.Start(), sf, root, list, q, rows, tops, all) && j < |q| && j < |rows| && Field(rows[j], key).Some?
    requires Does(r, Read(|r.Start().hs|, sf, j, key))
    ensures HoldsText(r.End(), |r.Start().hs| + 2, Field(rows[j], key).value)
  {
    hide *;
    var count := |r.Start().hs|;
    var look, last := [Key(sf, "domains"), Op.At(count, j)], [Key(count + 1, key)];
    ReadIs(count, sf, j, key);
    FieldIs(rows[j], key);
    Cut(r, look, last);
    var r1, r2 := r.To(|look|), r.From(|look|);
    EntryLooked(r1, sf, j, root, list, q, rows, tops, all);
    DoesAt(r2, last, 0);
    LookField(r2.at[0], sf, count + 1, j, key, r2.hows[0], r2.at[1], root, list, q, rows, tops, all);
  }

  lemma ReadIs(count: nat, sf: nat, j: nat, key: string)
    ensures Read(count, sf, j, key) == [Key(sf, "domains"), Op.At(count, j)] + [Key(count + 1, key)]
  {
  }

  lemma FieldIs(row: Row, key: string)
    ensures Field(row, key).Some? <==> KeyIndex(row, key) < |row|
    ensures Field(row, key).Some? ==> Field(row, key).value == row[KeyIndex(row, key)].1
  {
  }

  /** After an edit, looking a key up in the entry gives the text the edit wrote to it; keys it did not write, and
      all keys of the other entries, give what they gave before. */
  lemma UpdateIsRead<T>(r: Trace<T>, sf: nat, i: nat, guarded: bool, es: seq<Edits.Entry>, j: nat, key: string, end: nat,
                        root: T, list: T, q: seq<T>, rows: seq<Row>, tops: set<T>, all: set<T>)
    requires r.at != [] && Open(r.Start(), sf, root, list, q, rows, tops, all) && i < |q| && j < |q| == |rows|
    requires (forall l | 0 <= l <= i :: HasField(rows[l], "name")) && (guarded ==> HasField(rows[i], "status"))
    requires var edit := Update(|r.Start().hs|, sf, i, guarded, es);
      end == Variables(|r.Start().hs|, edit) && Does(r, edit + Read(end, sf, j, key))
    ensures j == i && Last(es, key).Some? ==> HoldsText(r.End(), end + 2, Last(es, key).value)
    ensures (j != i || Last(es, key).None?) && Field(rows[j], key).Some? ==> HoldsText(r.End(), end + 2, Field(rows[j], key).value)
  {
    hide *;
    var count := |r.Start().hs|;
    var edit := Update(count, sf, i, guarded, es);
    var more, rows' := Read(end, sf, j, key), rows[i := SetFields(rows[i], es)];
    Cut(r, edit, more);
    var r1, r2 := r.To(|edit|), r.From(|edit|);
    var all' := UpdateRewrites(r1, sf, i, guarded, es, root, list, q, rows, tops, all);
    FieldsGive(rows[i], es, key);
    if Field(rows'[j], key).Some? {
      FieldRead(r2, sf, j, key, root, list, q, rows', tops, all');
    }
  }

  // ---- records as entries ----

  function AsString(t: Text): (s: string)
    ensures |s| == |t|
  {
    seq(|t|, i requires 0 <= i < |t| => t[i] as int as char)
  }

  lemma StringIsName(a: Text, b: Text)
    ensures AsString(a) == AsString(b) <==> a == b
  {
    if AsString(a) == AsString(b) {
      forall i | 0 <= i < |a| ensures a[i] == b[i] { assert AsString(a)[i] == AsString(b)[i]; }
    }
  }

  function Digits(n: nat): string
  {
    (if n < 10 then [] else Digits(n / 10)) + [(n % 10 + 48) as char]
  }

  function Decimal(n: int): string
  {
    if n < 0 then "-" + Digits(-n) else Digits(n)
  }

  function StatusText(running: bool): string
  {
    if running then "running" else "shutoff"
  }

  function BoolText(b: bool): string
  {
    if b then "true" else "false"
  }

  function RoleText(role: ColoRole): string
  {
    match role
    case RoleNone => "none"
    case RolePrimary => "primary"
    case RoleSecondary => "secondary"
    case RoleFailover => "failover"
    case RoleDegrade => "degrade"
    case RoleDead => "dead"
  }

  /** How a record stands in the file. */
  function RowOf(e: Files.Entry): Row
  {
    var r := e.rec;
    [("name", AsString(e.name)), ("path", AsString(r.path)), ("pid", Decimal(r.pid)), ("status", StatusText(r.running)),
     ("colo_enable", BoolText(r.coloEnable)), ("colo_status", RoleText(r.coloStatus))]
  }

  function RowsOf(s: seq<Files.Entry>): (rows: seq<Row>)
    ensures |rows| == |s| && forall i | 0 <= i < |s| :: rows[i] == RowOf(s[i])
  {
    seq(|s|, i requires 0 <= i < |s| => RowOf(s[i]))
  }

  /** The six keys are all different. */
  lemma KeysDiffer()
    ensures "name" != "path" && "name" != "pid" && "path" != "pid" && "name" != "status" && "path" != "status" && "pid" != "status"
    ensures "name" != "colo_enable" && "path" != "colo_enable" && "pid" != "colo_enable" && "status" != "colo_enable"
    ensures "name" != "colo_status" && "path" != "colo_status" && "pid" != "colo_status" && "status" != "colo_status" && "colo_enable" != "colo_status"
  {
    assert "name"[0] != "path"[0] && "colo_enable"[5] != "colo_status"[5];
  }

  lemma KeysAre(e: Files.Entry)
    ensures KeyIndex(RowOf(e), "name") == 0 && KeyIndex(RowOf(e), "pid") == 2 && KeyIndex(RowOf(e), "status") == 3
    ensures KeyIndex(RowOf(e), "colo_enable") == 4 && KeyIndex(RowOf(e), "colo_status") == 5
  {
    KeysDiffer();
    var row := RowOf(e);
    assert row[0].0 == "name" && row[1].0 == "path" && row[2].0 == "pid" && row[3].0 == "status" && row[4].0 == "colo_enable" && row[5].0 == "colo_status";
    hide RowOf;
    FirstKey(row, "name", 0);
    FirstKey(row, "pid", 2);
    FirstKey(row, "status", 3);
    FirstKey(row, "colo_enable", 4);
    FirstKey(row, "colo_status", 5);
  }

  lemma NameIs(e: Files.Entry, name: Text)
    ensures HasField(RowOf(e), "name") && HasField(RowOf(e), "status") && HasField(RowOf(e), "colo_enable")
    ensures Named(RowOf(e), AsString(name)) <==> e.name == name
  {
    KeysAre(e);
    StringIsName(e.name, name);
    hide KeyIndex, AsString;
  }

  lemma NamesAre(s: seq<Files.Entry>, name: Text)
    ensures forall j | 0 <= j < |s| :: HasField(RowsOf(s)[j], "name") && HasField(RowsOf(s)[j], "status") && HasField(RowsOf(s)[j], "colo_enable")
    ensures forall j | 0 <= j < |s| :: Named(RowsOf(s)[j], AsString(name)) <==> s[j].name == name
    ensures Readable(RowsOf(s), AsString(name))
    ensures Files.Unique(s) ==> NamesGood(RowsOf(s), AsString(name))
  {
    forall j | 0 <= j < |s|
      ensures HasField(RowsOf(s)[j], "name") && HasField(RowsOf(s)[j], "status") && HasField(RowsOf(s)[j], "colo_enable")
      ensures Named(RowsOf(s)[j], AsString(name)) <==> s[j].name == name
    {
      NameIs(s[j], name);
    }
    hide RowsOf, HasField, Named, AsString;
  }

  lemma FirstIsFirst(s: seq<Files.Entry>, name: Text)
    ensures FirstNamed(RowsOf(s), AsString(name)) == Files.First(s, name)
  {
    NamesAre(s, name);
    var i, j := FirstNamed(RowsOf(s), AsString(name)), Files.First(s, name);
    hide RowsOf, Named, AsString, FirstNamed, Files.First, Readable, NamesGood;
    assert i < |s| ==> s[i].name == name;
    assert j < |s| ==> Named(RowsOf(s)[j], AsString(name));
  }

  lemma RowsUpdate(s: seq<Files.Entry>, i: nat, e: Files.Entry)
    requires i < |s|
    ensures RowsOf(s[i := e]) == RowsOf(s)[i := RowOf(e)]
  {
    hide RowOf;
  }

  lemma RowsAppend(s: seq<Files.Entry>, e: Files.Entry)
    ensures RowsOf(s + [e]) == RowsOf(s) + [RowOf(e)]
  {
    hide RowOf;
  }

  lemma {:induction false} RowsWithout(s: seq<Files.Entry>, name: Text)
    ensures WithoutRow(RowsOf(s), AsString(name)) == RowsOf(Files.Without(s, name))
  {
    if s == [] {
      assert RowsOf(s) == [];
    } else {
      var front, last := s[..|s| - 1], s[|s| - 1];
      RowsWithout(front, name);
      NameIs(last, name);
      assert RowsOf(s)[..|s| - 1] == RowsOf(front);
      RowsAppend(Files.Without(front, name), last);
      hide RowOf, Named, AsString, HasField;
    }
  }

  // ---- the edits of the daemon ----

  function NewFields(name: Text, path: Text): seq<Edits.Entry>
  {
    [Plainly("name", AsString(name)), Plainly("path", AsString(path)), Encoded("pid", Decimal(P.NO_PID)), Plainly("status", StatusText(false)),
     Encoded("colo_enable", BoolText(false)), Plainly("colo_status", RoleText(RoleNone))]
  }

  function NewEntry(name: Text, path: Text): Files.Entry
  {
    Files.Entry(name, P.Record(path, P.NO_PID, false, false, RoleNone))
  }

  function PidFields(pid: int, running: bool): seq<Edits.Entry>
  {
    [Encoded("pid", Decimal(pid)), Plainly("status", StatusText(running))]
  }

  function EnableFields(role: ColoRole): seq<Edits.Entry>
  {
    [Encoded("colo_enable", BoolText(true)), Plainly("colo_status", RoleText(role))]
  }

  const DISABLE_FIELDS: seq<Edits.Entry> := [Encoded("colo_enable", BoolText(false))]

  lemma FieldsTwo(row: Row, a: Edits.Entry, b: Edits.Entry)
    ensures SetFields(row, [a]) == SetField(row, a.key, a.text)
    ensures SetFields(row, [a, b]) == SetField(SetField(row, a.key, a.text), b.key, b.text)
  {
    assert [a][1..] == [] && [a, b][1..] == [b] && [b][1..] == [];
    assert SetFields(SetField(row, a.key, a.text), [b]) == SetFields(SetField(SetField(row, a.key, a.text), b.key, b.text), []);
  }

  lemma PidRow(e: Files.Entry, pid: int, running: bool)
    ensures SetFields(RowOf(e), PidFields(pid, running)) == RowOf(Files.Entry(e.name, e.rec.(pid := pid, running := running)))
  {
    var e1, e2 := Files.Entry(e.name, e.rec.(pid := pid)), Files.Entry(e.name, e.rec.(pid := pid, running := running));
    KeysAre(e);
    KeysAre(e1);
    FieldsTwo(RowOf(e), PidFields(pid, running)[0], PidFields(pid, running)[1]);
    hide KeyIndex, SetFields, Decimal, StatusText, AsString, BoolText, RoleText;
    assert SetField(RowOf(e), "pid", Decimal(pid)) == RowOf(e1);
    assert SetField(RowOf(e1), "status", StatusText(running)) == RowOf(e2);
  }

  lemma EnableRow(e: Files.Entry, role: ColoRole)
    ensures SetFields(RowOf(e), EnableFields(role)) == RowOf(Files.Entry(e.name, e.rec.(coloEnable := true, coloStatus := role)))
  {
    var e1, e2 := Files.Entry(e.name, e.rec.(coloEnable := true)), Files.Entry(e.name, e.rec.(coloEnable := true, coloStatus := role));
    KeysAre(e);
    KeysAre(e1);
    FieldsTwo(RowOf(e), EnableFields(role)[0], EnableFields(role)[1]);
    hide KeyIndex, SetFields, Decimal, StatusText, AsString, BoolText, RoleText;
    assert SetField(RowOf(e), "colo_enable", BoolText(true)) == RowOf(e1);
    assert SetField(RowOf(e1), "colo_status", RoleText(role)) == RowOf(e2);
  }

  lemma DisableRow(e: Files.Entry)
    ensures SetFields(RowOf(e), DISABLE_FIELDS) == RowOf(Files.Entry(e.name, e.rec.(coloEnable := false)))
  {
    KeysAre(e);
    FieldsTwo(RowOf(e), DISABLE_FIELDS[0], DISABLE_FIELDS[0]);
    hide KeyIndex, SetFields, Decimal, StatusText, AsString, BoolText, RoleText;
  }

  lemma {:induction false} NewField(row: Row, e: Edits.Entry, es: seq<Edits.Entry>)
    requires forall a | 0 <= a < |row| :: row[a].0 != e.key
    ensures SetFields(row, [e] + es) == SetFields(row + [(e.key, e.text)], es)
  {
    FirstKey(row, e.key, |row|);
    assert ([e] + es)[1..] == es;
  }

  lemma NewRow(name: Text, path: Text)
    ensures SetFields([], NewFields(name, path)) == RowOf(NewEntry(name, path))
  {
    var es, row := NewFields(name, path), RowOf(NewEntry(name, path));
    KeysDiffer();
    assert forall a | 0 <= a < 6 :: row[a] == (es[a].key, es[a].text);
    assert forall a, b | 0 <= a < b < 6 :: es[a].key != es[b].key;
    assert |es| == |row| == 6;
    hide NewFields, RowOf;
    OneByOne(es, row, 0);
  }

  lemma {:induction false} OneByOne(es: seq<Edits.Entry>, row: Row, i: nat)
    requires |es| == |row| && i <= |es| && forall a | 0 <= a < |es| :: row[a] == (es[a].key, es[a].text)
    requires forall a, b | 0 <= a < b < |es| :: es[a].key != es[b].key
    ensures SetFields(row[..i], es[i..]) == row
    decreases |es| - i
  {
    if i == |es| {
      assert row[..i] == row && es[i..] == [];
    } else {
      assert es[i..] == [es[i]] + es[i + 1..];
      assert row[..i + 1] == row[..i] + [row[i]];
      NewField(row[..i], es[i], es[i + 1..]);
      OneByOne(es, row, i + 1);
    }
  }

  /** What the daemon does to the file. */
  datatype Change =
    | SaveInfo(path: Text) | SavePid(pid: int) | RemovePid | Enable(role: ColoRole) | Disable | Undefine

  function Hits(s: seq<Files.Entry>, name: Text): (hits: seq<bool>)
    ensures |hits| == |s| && forall i | 0 <= i < |s| :: hits[i] <==> s[i].name == name
  {
    seq(|s|, i requires 0 <= i < |s| => s[i].name == name)
  }

  /** The loop that looks for an entry, when there is none. */
  function Missed(count: nat, sf: nat, n: nat): seq<Op>
  {
    Search(count, sf, n) + [Key(sf, "domains")]
  }

  /** The program for a change on a file that has these records. */
  function Program(count: nat, sf: nat, s: seq<Files.Entry>, name: Text, c: Change): seq<Op>
  {
    var i := Files.First(s, name);
    match c
    case SaveInfo(path) => SaveDomain(count, sf, NewFields(name, path), if s == [] then Empty else Listed(Hits(s, name)))
    case SavePid(pid) => if i == |s| then Missed(count, sf, |s|) else Update(count, sf, i, false, PidFields(pid, true))
    case RemovePid => if i == |s| then Missed(count, sf, |s|) else Update(count, sf, i, false, PidFields(P.NO_PID, false))
    case Enable(role) =>
      if i == |s| then Missed(count, sf, |s|)
      else if s[i].rec.running then Found(count, sf, i, true) else Update(count, sf, i, true, EnableFields(role))
    case Disable =>
      if i == |s| then Missed(count, sf, |s|)
      else if s[i].rec.running then Found(count, sf, i, true) else Update(count, sf, i, true, DISABLE_FIELDS)
    case Undefine => Edits.Undefine(count, sf, Hits(s, name))
  }

  /** What the operation of the list makes of the records. */
  function Changed(s: seq<Files.Entry>, name: Text, c: Change): seq<Files.Entry>
  {
    match c
    case SaveInfo(path) => Files.Saved(s, NewEntry(name, path))
    case SavePid(pid) => Files.PidSaved(s, name, pid)
    case RemovePid => Files.PidRemoved(s, name)
    case Enable(role) => Files.Enabled(s, name, role)
    case Disable => Files.Disabled(s, name)
    case Undefine => Files.Without(s, name)
  }

  /** The document in variable `sf` shows these records. */
  ghost predicate Shows<T>(m: Moment<T>, sf: nat, root: T, list: T, q: seq<T>, s: seq<Files.Entry>, tops: set<T>, all: set<T>)
  {
    Open(m, sf, root, list, q, RowsOf(s), tops, all)
  }

  lemma ShownSize<T>(m: Moment<T>, sf: nat, root: T, list: T, q: seq<T>, s: seq<Files.Entry>, tops: set<T>, all: set<T>)
    requires Shows(m, sf, root, list, q, s, tops, all)
    ensures Open(m, sf, root, list, q, RowsOf(s), tops, all) && |q| == |s| == |RowsOf(s)|
  {
    OpenMeans(m, sf, root, list, q, RowsOf(s), tops, all);
    hide Open, Trees, ShowsRow, RowsOf, Leads;
  }

  lemma MissedShows<T>(r: Trace<T>, sf: nat, root: T, list: T, q: seq<T>, rows: seq<Row>, tops: set<T>, all: set<T>)
    requires r.at != [] && Open(r.Start(), sf, root, list, q, rows, tops, all) && |q| == |rows| && forall j | 0 <= j < |rows| :: HasField(rows[j], "name")
    requires Does(r, Missed(|r.Start().hs|, sf, |rows|))
    ensures Open(r.End(), sf, root, list, q, rows, tops, all)
  {
    hide *;
    var count := |r.Start().hs|;
    var search, last := Search(count, sf, |rows|), [Key(sf, "domains")];
    MissedIs(count, sf, |rows|);
    Cut(r, search, last);
    var r1, r2 := r.To(|search|), r.From(|search|);
    Searched(r1, sf, |rows|, root, list, q, rows, tops, all);
    DoesAt(r2, last, 0);
    LookList(r2.at[0], sf, r2.hows[0], r2.at[1], root, list, q, rows, tops, all);
  }

  lemma MissedIs(count: nat, sf: nat, n: nat)
    ensures Missed(count, sf, n) == Search(count, sf, n) + [Key(sf, "domains")]
  {
  }

  /** An update of the entry that has been found. */
  lemma UpdateShows<T>(r: Trace<T>, sf: nat, i: nat, guarded: bool, es: seq<Edits.Entry>, e: Files.Entry,
                       root: T, list: T, q: seq<T>, s: seq<Files.Entry>, tops: set<T>, all: set<T>) returns (all': set<T>)
    requires r.at != [] && Shows(r.Start(), sf, root, list, q, s, tops, all) && i < |s| && SetFields(RowOf(s[i]), es) == RowOf(e)
    requires Does(r, Update(|r.Start().hs|, sf, i, guarded, es))
    ensures Shows(r.End(), sf, root, list, q, s[i := e], tops, all')
  {
    hide *;
    ShownSize(r.Start(), sf, root, list, q, s, tops, all);
    NamesAre(s, s[i].name);
    all' := UpdateRewrites(r, sf, i, guarded, es, root, list, q, RowsOf(s), tops, all);
    RowsUpdate(s, i, e);
    ShowsFrom(r.End(), sf, root, list, q, s[i := e], tops, all');
  }

  lemma ShowsFrom<T>(m: Moment<T>, sf: nat, root: T, list: T, q: seq<T>, s: seq<Files.Entry>, tops: set<T>, all: set<T>)
    requires Open(m, sf, root, list, q, RowsOf(s), tops, all)
    ensures Shows(m, sf, root, list, q, s, tops, all)
  {
    hide Open, RowsOf;
  }

  lemma SaveShows<T>(r: Trace<T>, sf: nat, path: Text, name: Text,
                     root: T, list: T, q: seq<T>, s: seq<Files.Entry>, tops: set<T>, all: set<T>) returns (all': set<T>, q': seq<T>)
    requires r.at != [] && Shows(r.Start(), sf, root, list, q, s, tops, all) && Files.Unique(s)
    requires Does(r, SaveDomain(|r.Start().hs|, sf, NewFields(name, path), if s == [] then Empty else Listed(Hits(s, name))))
    ensures Shows(r.End(), sf, root, list, q', Files.Saved(s, NewEntry(name, path)), tops, all')
  {
    hide *;
    var rows := RowsOf(s);
    ShownSize(r.Start(), sf, root, list, q, s, tops, all);
    NamesAre(s, name);
    HitsFit(s, name);
    all', q' := SaveDomainPuts(r, sf, NewFields(name, path), if s == [] then Empty else Listed(Hits(s, name)), AsString(name), root, list, q, rows, tops, all);
    NewRow(name, path);
    SavedRows(s, name, path);
    ShowsFrom(r.End(), sf, root, list, q', Files.Saved(s, NewEntry(name, path)), tops, all');
  }

  lemma HitsFit(s: seq<Files.Entry>, name: Text)
    ensures HitsAre(Hits(s, name), RowsOf(s), AsString(name))
  {
    NamesAre(s, name);
    hide RowsOf, Named, AsString, Hits, Readable, NamesGood;
  }

  lemma SavedRows(s: seq<Files.Entry>, name: Text, path: Text)
    ensures PutRow(RowsOf(s), AsString(name), RowOf(NewEntry(name, path))) == RowsOf(Files.Saved(s, NewEntry(name, path)))
  {
    var e := NewEntry(name, path);
    FirstIsFirst(s, name);
    RowsAppend(s, e);
    var i := Files.First(s, name);
    if i < |s| { RowsUpdate(s, i, e); }
    hide RowsOf, RowOf, AsString, FirstNamed, Files.First;
  }

  lemma UndefineShows<T>(r: Trace<T>, sf: nat, name: Text,
                         root: T, list: T, q: seq<T>, s: seq<Files.Entry>, tops: set<T>, all: set<T>) returns (q': seq<T>)
    requires r.at != [] && Shows(r.Start(), sf, root, list, q, s, tops, all) && Does(r, Edits.Undefine(|r.Start().hs|, sf, Hits(s, name)))
    ensures Shows(r.End(), sf, root, list, q', Files.Without(s, name), tops, all)
  {
    hide *;
    ShownSize(r.Start(), sf, root, list, q, s, tops, all);
    NamesAre(s, name);
    HitsFit(s, name);
    q' := UndefineRemoves(r, sf, Hits(s, name), AsString(name), root, list, q, RowsOf(s), tops, all);
    RowsWithout(s, name);
    ShowsFrom(r.End(), sf, root, list, q', Files.Without(s, name), tops, all);
  }

  /** One of the three edits that set fields of the first record with the name. */
  lemma FieldsShow<T>(r: Trace<T>, sf: nat, name: Text, c: Change,
                      root: T, list: T, q: seq<T>, s: seq<Files.Entry>, tops: set<T>, all: set<T>) returns (all': set<T>)
    requires r.at != [] && Shows(r.Start(), sf, root, list, q, s, tops, all) && !c.SaveInfo? && !c.Undefine?
    requires Does(r, Program(|r.Start().hs|, sf, s, name, c))
    ensures Shows(r.End(), sf, root, list, q, Changed(s, name, c), tops, all')
  {
    hide *;
    var count, i := |r.Start().hs|, Files.First(s, name);
    ShownSize(r.Start(), sf, root, list, q, s, tops, all);
    NamesAre(s, name);
    ProgramIs(count, sf, s, name, c);
    ChangedIs(s, name, c);
    if i == |s| {
      MissedShows(r, sf, root, list, q, RowsOf(s), tops, all);
      all' := all;
      ShowsFrom(r.End(), sf, root, list, q, s, tops, all);
    } else if s[i].rec.running && (c.Enable? || c.Disable?) {
      FoundLooked(r, sf, i, true, root, list, q, RowsOf(s), tops, all);
      all' := all;
      ShowsFrom(r.End(), sf, root, list, q, s, tops, all);
    } else {
      FieldsRow(s[i], c);
      all' := UpdateShows(r, sf, i, c.Enable? || c.Disable?, FieldsOf(c), EntryAfter(s[i], c), root, list, q, s, tops, all);
    }
  }

  function FieldsOf(c: Change): seq<Edits.Entry>
    requires !c.SaveInfo? && !c.Undefine?
  {
    match c
    case SavePid(pid) => PidFields(pid, true)
    case RemovePid => PidFields(P.NO_PID, false)
    case Enable(role) => EnableFields(role)
    case Disable => DISABLE_FIELDS
  }

  function EntryAfter(e: Files.Entry, c: Change): Files.Entry
    requires !c.SaveInfo? && !c.Undefine?
  {
    match c
    case SavePid(pid) => Files.Entry(e.name, e.rec.(pid := pid, running := true))
    case RemovePid => Files.Entry(e.name, e.rec.(pid := P.NO_PID, running := false))
    case Enable(role) => Files.Entry(e.name, e.rec.(coloEnable := true, coloStatus := role))
    case Disable => Files.Entry(e.name, e.rec.(coloEnable := false))
  }

  lemma FieldsRow(e: Files.Entry, c: Change)
    requires !c.SaveInfo? && !c.Undefine?
    ensures SetFields(RowOf(e), FieldsOf(c)) == RowOf(EntryAfter(e, c))
  {
    hide SetFields, RowOf, PidFields, EnableFields, DISABLE_FIELDS;
    match c
    case SavePid(pid) => PidRow(e, pid, true);
    case RemovePid => PidRow(e, P.NO_PID, false);
    case Enable(role) => EnableRow(e, role);
    case Disable => DisableRow(e);
  }

  lemma ProgramIs(count: nat, sf: nat, s: seq<Files.Entry>, name: Text, c: Change)
    requires !c.SaveInfo? && !c.Undefine?
    ensures var i := Files.First(s, name);
      Program(count, sf, s, name, c) ==
        if i == |s| then Missed(count, sf, |s|)
        else if s[i].rec.running && (c.Enable? || c.Disable?) then Found(count, sf, i, true)
        else Update(count, sf, i, c.Enable? || c.Disable?, FieldsOf(c))
  {
    hide Files.First, Missed, Found, Update, PidFields, EnableFields, DISABLE_FIELDS;
  }

  lemma ChangedIs(s: seq<Files.Entry>, name: Text, c: Change)
    requires !c.SaveInfo? && !c.Undefine?
    ensures var i := Files.First(s, name);
      Changed(s, name, c) ==
        if i == |s| || (s[i].rec.running && (c.Enable? || c.Disable?)) then s else s[i := EntryAfter(s[i], c)]
  {
    hide Files.First;
  }

  lemma WholeIs(count: nat, sf: nat, s: seq<Files.Entry>, name: Text, path: Text)
    ensures Program(count, sf, s, name, SaveInfo(path)) == SaveDomain(count, sf, NewFields(name, path), if s == [] then Empty else Listed(Hits(s, name)))
    ensures Program(count, sf, s, name, Change.Undefine) == Edits.Undefine(count, sf, Hits(s, name))
    ensures Changed(s, name, SaveInfo(path)) == Files.Saved(s, NewEntry(name, path)) && Changed(s, name, Change.Undefine) == Files.Without(s, name)
  {
    hide SaveDomain, NewFields, NewEntry, Hits, Edits.Undefine, Files.Saved, Files.Without, Files.First;
  }

  lemma EditShows<T>(r: Trace<T>, sf: nat, name: Text, c: Change,
                           root: T, list: T, q: seq<T>, s: seq<Files.Entry>, tops: set<T>, all: set<T>) returns (all': set<T>, q': seq<T>)
    requires r.at != [] && Shows(r.Start(), sf, root, list, q, s, tops, all) && Files.Unique(s)
    requires Does(r, Program(|r.Start().hs|, sf, s, name, c))
    ensures Shows(r.End(), sf, root, list, q', Changed(s, name, c), tops, all')
  {
    hide *;
    var count := |r.Start().hs|;
    match c
    case SaveInfo(path) =>
      WholeIs(count, sf, s, name, path);
      all', q' := SaveShows(r, sf, path, name, root, list, q, s, tops, all);
    case Undefine =>
      WholeIs(count, sf, s, name, []);
      q' := UndefineShows(r, sf, name, root, list, q, s, tops, all);
      all' := all;
    case _ =>
      all' := FieldsShow(r, sf, name, c, root, list, q, s, tops, all);
      q' := q;
  }

  /** Whatever the daemon does to the file, its program over the nodes of the document does what the operation does
      to the list of records: a document that shows the records shows the changed records afterwards. */
  lemma EditsRefineList<T>(trace: seq<Moment<T>>, hows: seq<Choice<T>>, sf: nat, name: Text, c: Change,
                           root: T, list: T, q: seq<T>, s: seq<Files.Entry>, tops: set<T>, all: set<T>) returns (all': set<T>, q': seq<T>)
    requires trace != [] && Shows(trace[0], sf, root, list, q, s, tops, all) && Files.Unique(s)
    requires var ops := Program(|trace[0].hs|, sf, s, name, c); History(trace, hows, ops) && |hows| == |ops|
    ensures Shows(trace[|trace| - 1], sf, root, list, q', Changed(s, name, c), tops, all')
  {
    var r := Trace(trace, hows);
    assert r.Start() == trace[0] && r.End() == trace[|trace| - 1];
    hide History, Shows, Program, Changed, Files.Unique;
    HistoryDoes(trace, hows, Program(|trace[0].hs|, sf, s, name, c));
    hide Does;
    all', q' := EditShows(r, sf, name, c, root, list, q, s, tops, all);
  }

  // ---- such documents exist ----

  /** A document as it comes from a file: every node is defined and shares with none. */
  ghost predicate Loaded<T>(d: Doc<T>)
  {
    && d.face.Keys == d.layout.Keys && d.rank.Keys == d.layout.Keys && d.ties.Keys == d.layout.Keys && d.marks.deps.Keys == d.layout.Keys
    && d.marks.done == d.layout.Keys
    && (forall n | n in d.layout :: d.marks.deps[n] == {} && d.ties[n] == Ties({n}, {n}) && Holds(d.layout[n]).Fits(d.layout.Keys, d.layout.Keys))
  }

  lemma LoadedIsCoherent<T>(d: Doc<T>)
    requires Loaded(d)
    ensures Coherent(d.marks, d.layout)
  {
    hide Holds, Shaped, Marks.Tracks;
    var held := Held(d.layout);
    assert held.Keys == d.layout.Keys && forall c | c in held :: held[c].Fits(held.Keys, d.marks.done);
    assert d.marks.Sound();
    DoneTracks(d.marks, Kids(held));
    AllFit(d.marks, held);
  }

  lemma DoneTracks<T>(marks: Marks<T>, kids: map<T, set<T>>)
    requires kids.Keys <= marks.done
    ensures marks.Tracks(kids)
  {
  }

  lemma AllFit<T>(marks: Marks<T>, held: map<T, Holding<T>>)
    requires marks.Sound() && held.Keys == marks.deps.Keys && forall c | c in held :: held[c].Fits(held.Keys, marks.done)
    ensures Shaped(marks, held)
  {
  }

  lemma LoadedIsBonded<T>(d: Doc<T>)
    requires Loaded(d)
    ensures d.Bonded()
  {
    hide Holds, Holding.Fits;
    forall n | n in d.ties ensures d.ties.Keys == d.layout.Keys && d.Bond(n) {}
  }

  lemma LoadedIsGood<T>(d: Doc<T>, hs: Handles<T>)
    requires Loaded(d) && Handled(d, hs)
    ensures Good(Moment(d, hs))
  {
    LoadedIsCoherent(d);
    LoadedIsBonded(d);
    assert d.face.Keys == d.layout.Keys && d.rank.Keys == d.layout.Keys && d.ties.Keys == d.layout.Keys;
    hide Loaded, Doc<T>.Bonded, Coherent, Handled;
  }

  /** The nodes of a file with a list. */
  datatype Place = Root | ListKey | ListNode | EntryNode(i: nat) | KeyNode(i: nat, a: nat) | ValueNode(i: nat, a: nat)

  function Parent(p: Place): Place
  {
    match p
    case EntryNode(_) => ListNode
    case KeyNode(i, _) => EntryNode(i)
    case ValueNode(i, _) => EntryNode(i)
    case _ => Root
  }

  predicate Within(p: Place, n: nat)
  {
    match p
    case EntryNode(i) => i < n
    case KeyNode(i, a) => i < n && a < 6
    case ValueNode(i, a) => i < n && a < 6
    case _ => true
  }

  function EntryPlaces(i: nat): set<Place>
  {
    {EntryNode(i)} + (set a: nat | a < 6 :: KeyNode(i, a)) + (set a: nat | a < 6 :: ValueNode(i, a))
  }

  function Places(n: nat): (ps: set<Place>)
    ensures forall p :: p in ps <==> Within(p, n)
  {
    if n == 0 then {Root, ListKey, ListNode}
    else
      Places(n - 1) + EntryPlaces(n - 1)
  }

  function StoreAt(n: nat, p: Place): Store<Place>
  {
    match p
    case Root => Store([], 0, [(ListKey, ListNode)])
    case ListNode => Store(seq(n, i requires 0 <= i < n => EntryNode(i)), 0, [])
    case EntryNode(i) => Store([], 0, seq(6, a requires 0 <= a < 6 => (KeyNode(i, a), ValueNode(i, a))))
    case _ => Emptied()
  }

  function FaceAt(rows: seq<Row>, p: Place): Face
    requires Within(p, |rows|) && forall i | 0 <= i < |rows| :: |rows[i]| == 6
  {
    match p
    case Root => (Map, "")
    case ListKey => (Scalar, "domains")
    case ListNode => (Sequence, "")
    case EntryNode(_) => (Map, "")
    case KeyNode(i, a) => (Scalar, rows[i][a].0)
    case ValueNode(i, a) => (Scalar, rows[i][a].1)
  }

  /** A file with these entries, as it is loaded. */
  ghost function FileOf(rows: seq<Row>): Doc<Place>
    requires forall i | 0 <= i < |rows| :: |rows[i]| == 6
  {
    var ps := Places(|rows|);
    Doc(Marks(map p | p in ps :: {}, ps), map p | p in ps :: (StoreAt(|rows|, p), Origin({}, false)), map p | p in ps :: FaceAt(rows, p),
        map p | p in ps :: 0, map p | p in ps :: Ties({p}, {p}), 0)
  }

  /** What one node of the file is. */
  lemma FileAt(rows: seq<Row>, p: Place)
    requires (forall i | 0 <= i < |rows| :: |rows[i]| == 6) && Within(p, |rows|)
    ensures var d := FileOf(rows);
      && d.Has(p) && d.Defined(p) && d.layout[p] == (StoreAt(|rows|, p), Origin({}, false)) && d.face[p] == FaceAt(rows, p) && d.Kin(p) == {p}
      && d.marks.deps[p] == {} && d.ties[p] == Ties({p}, {p})
  {
  }

  lemma ChildrenAt(n: nat, p: Place)
    requires Within(p, n)
    ensures var s := StoreAt(n, p);
      && (forall x | x in s.sequence :: Within(x, n) && x != Root && Parent(x) == p)
      && (forall x | x in s.pairs :: Within(x.0, n) && x.0 != Root && Parent(x.0) == p && Within(x.1, n) && x.1 != Root && Parent(x.1) == p)
  {
  }

  lemma FileBelow(rows: seq<Row>, p: Place)
    requires (forall i | 0 <= i < |rows| :: |rows[i]| == 6) && Within(p, |rows|)
    ensures FileOf(rows).Has(p) && Forks(FileOf(rows), p)
    ensures forall x | x in Below(FileOf(rows), p) :: Within(x, |rows|) && x != Root && Parent(x) == p
  {
    FileAt(rows, p);
    ChildrenAt(|rows|, p);
    StoreForks(|rows|, p);
    BelowMembers(FileOf(rows), p);
    hide FileOf, Within, Parent, StoreAt, FaceAt, Below;
  }

  lemma BelowMembers<T>(d: Doc<T>, m: T)
    requires d.Has(m)
    ensures var s := d.layout[m].0; forall x | x in Below(d, m) :: x in s.sequence || exists p | p in s.pairs :: p.0 == x || p.1 == x
  {
  }

  lemma StoreForks(n: nat, p: Place)
    ensures var s := StoreAt(n, p);
      && (forall a, b | 0 <= a < b < |s.sequence| :: s.sequence[a] != s.sequence[b])
      && (forall a, b | 0 <= a < b < |s.pairs| :: s.pairs[a].1 != s.pairs[b].1)
      && (forall a, b | 0 <= a < |s.pairs| && 0 <= b < |s.pairs| :: s.pairs[a].0 != s.pairs[b].1)
  {
  }

  lemma FileIsTidy(rows: seq<Row>)
    requires forall i | 0 <= i < |rows| :: |rows[i]| == 6
    ensures Tidy(FileOf(rows), {Root}, Places(|rows|))
  {
    var d, all := FileOf(rows), Places(|rows|);
    forall p | p in all
      ensures d.Has(p) && d.Defined(p) && d.Kin(p) == {p} && Below(d, p) <= all && Below(d, p) !! {Root} && Forks(d, p)
      ensures forall x | x in Below(d, p) :: Parent(x) == p
    {
      FileAt(rows, p);
      FileBelow(rows, p);
    }
    assert Root in all;
    hide FileOf, Below, Forks, Places, Parent, Doc<Place>.Has, Doc<Place>.Kin, Doc<Place>.Defined;
    forall p, p' | p in all && p' in all && p != p' ensures Below(d, p) !! Below(d, p') {}
    TreesFrom(d, {Root}, all);
    TidyFrom(d, {Root}, all);
  }

  lemma FileHolds(rows: seq<Row>, p: Place)
    requires (forall i | 0 <= i < |rows| :: |rows[i]| == 6) && Within(p, |rows|)
    ensures Holds((StoreAt(|rows|, p), Origin({}, false))).Fits(Places(|rows|), Places(|rows|))
  {
    ChildrenAt(|rows|, p);
    hide Within, Parent;
  }

  lemma FileIsLoaded(rows: seq<Row>)
    requires forall i | 0 <= i < |rows| :: |rows[i]| == 6
    ensures Loaded(FileOf(rows))
  {
    var d := FileOf(rows);
    assert d.face.Keys == d.layout.Keys == d.rank.Keys == d.ties.Keys == d.marks.deps.Keys == d.marks.done == Places(|rows|);
    forall n | n in d.layout
      ensures d.marks.deps[n] == {} && d.ties[n] == Ties({n}, {n}) && Holds(d.layout[n]).Fits(d.layout.Keys, d.layout.Keys)
    {
      FileAt(rows, n);
      FileHolds(rows, n);
    }
    hide FileOf, Holds, Places;
  }

  lemma FileShowsEntry(rows: seq<Row>, i: nat)
    requires (forall j | 0 <= j < |rows| :: |rows[j]| == 6) && i < |rows|
    ensures ShowsRow(FileOf(rows), EntryNode(i), rows[i])
  {
    var d := FileOf(rows);
    FileAt(rows, EntryNode(i));
    forall a | 0 <= a < 6 ensures ShowsText(d, KeyNode(i, a), rows[i][a].0) && ShowsText(d, ValueNode(i, a), rows[i][a].1) {
      FileAt(rows, KeyNode(i, a));
      FileAt(rows, ValueNode(i, a));
    }
    hide FileOf, ShowsText;
  }

  lemma FileShowsList(rows: seq<Row>)
    requires forall j | 0 <= j < |rows| :: |rows[j]| == 6
    ensures ShowsFile(FileOf(rows), Root, ListNode, StoreAt(|rows|, ListNode).sequence, rows)
  {
    var d := FileOf(rows);
    FileAt(rows, Root);
    FileAt(rows, ListKey);
    FileAt(rows, ListNode);
    forall i | 0 <= i < |rows| ensures ShowsRow(d, EntryNode(i), rows[i]) { FileShowsEntry(rows, i); }
    hide FileOf, ShowsRow;
    assert d.FirstKey(Root, "domains", 0);
    assert Leads(d, Root, "domains", ListNode);
  }

  /** For every list of records there is a document, as it is loaded from a file, that shows it. */
  lemma EveryListIsShown(s: seq<Files.Entry>) returns (m: Moment<Place>, q: seq<Place>, all: set<Place>)
    ensures Good(m) && Shows(m, 0, Root, ListNode, q, s, {Root}, all)
  {
    hide *;
    var rows := RowsOf(s);
    RowsAreWhole(s);
    m, q, all := Moment(FileOf(rows), [Some(Root)]), StoreAt(|rows|, ListNode).sequence, Places(|rows|);
    FileIsTidy(rows);
    FileIsLoaded(rows);
    FileShowsList(rows);
    RootIsHeld(rows, m);
    LoadedIsGood(m.doc, m.hs);
    AtNew(m.hs, 0, Root);
    OpenFrom(m, 0, Root, ListNode, q, rows, {Root}, all);
    ShowsFrom(m, 0, Root, ListNode, q, s, {Root}, all);
  }

  lemma RowsAreWhole(s: seq<Files.Entry>)
    ensures forall j | 0 <= j < |RowsOf(s)| :: |RowsOf(s)[j]| == 6
  {
  }

  lemma RootIsHeld(rows: seq<Row>, m: Moment<Place>)
    requires (forall i | 0 <= i < |rows| :: |rows[i]| == 6) && m == Moment(FileOf(rows), [Some(Root)])
    ensures Handled(m.doc, m.hs)
  {
    FileAt(rows, Root);
    hide FileOf;
  }
}
