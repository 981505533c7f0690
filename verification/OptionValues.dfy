/** What a parse leaves in the options: which are set, and to which value. */
module OptionValues {
  import opened Types
  import opened CommandLine

  // ---- one argument ----

  /** `name` is set now, to `value`, and nothing else is different. */
  predicate Gains(s: State, name: string, value: string, after: State)
  {
    && after.errors == s.errors && after.others == s.others && after.has == s.has + {name}
    && name in after.actual && after.actual[name] == value
    && after.actual.Keys == s.actual.Keys + {name}
    && (forall n | n in s.actual && n != name :: after.actual[n] == s.actual[n])
  }

  /** One complaint, and nothing else. */
  predicate Refuses(s: State, e: Error, after: State)
  {
    after.errors == s.errors + [e] && after.others == s.others && after.has == s.has && after.actual == s.actual
  }

  predicate Takes(t: Table, name: string, value: string)
  {
    name in t && t[name].hasValue && t[name].accepts(value)
  }

  lemma ValueIsKept(t: Table, s: State, name: string, value: string)
    ensures if Takes(t, name, value) then Gains(s, name, value, SetValue(t, s, name, value))
            else Refuses(s, if name !in t then Undefined(name) else Invalid(name, value), SetValue(t, s, name, value))
  {
  }

  /** `--n=v` */
  lemma JoinedIsRead(t: Table, shorts: Shorts, s: State, name: string, value: string, next: Option<string>)
    requires EQUALS !in name
    ensures var (after, used) := Argument(t, shorts, s, [DASH, DASH] + name + [EQUALS] + value, next);
      && !used
      && if Takes(t, name, value) then Gains(s, name, value, after)
         else Refuses(s, if name !in t then Undefined(name) else Invalid(name, value), after)
  {
    SettingIsRead(t, shorts, s, name, value, next);
    ValueIsKept(t, s, name, value);
  }

  /** `--n v` */
  lemma ApartIsRead(t: Table, shorts: Shorts, s: State, name: string, value: string)
    requires EQUALS !in name && name in t && t[name].hasValue
    ensures var (after, used) := Argument(t, shorts, s, [DASH, DASH] + name, Some(value));
      used && if Takes(t, name, value) then Gains(s, name, value, after) else Refuses(s, Invalid(name, value), after)
  {
    assert ([DASH, DASH] + name)[2..] == name;
    ValueIsKept(t, s, name, value);
  }

  /** A letter stands for a flag. */
  predicate IsFlag(t: Table, shorts: Shorts, c: char)
  {
    c in shorts && shorts[c] != "" && shorts[c] in t && !t[shorts[c]].hasValue
  }

  function FlagNames(shorts: Shorts, cs: string): set<string>
  {
    set c | c in cs && c in shorts :: shorts[c]
  }

  lemma {:induction false} FlagsAreSet(t: Table, shorts: Shorts, s: State, cs: string)
    requires forall c | c in cs :: IsFlag(t, shorts, c)
    ensures Letters(t, shorts, s, cs) == s.(has := s.has + FlagNames(shorts, cs))
    decreases |cs|
  {
    if cs == "" {
      assert s.has + FlagNames(shorts, cs) == s.has;
    } else {
      assert IsFlag(t, shorts, cs[0]);
      var first := Letter(t, shorts, s, cs[0]);
      FlagsAreSet(t, shorts, first, cs[1..]);
      assert forall c :: c in cs <==> c == cs[0] || c in cs[1..];
      assert first.has + FlagNames(shorts, cs[1..]) == s.has + FlagNames(shorts, cs);
    }
  }

  lemma ClusterText(flags: string, last: char)
    requires (flags + [last])[0] != DASH
    ensures var arg, cs := [DASH] + flags + [last], flags + [last];
      && arg[1..] == cs && cs[..|cs| - 1] == flags && cs[|cs| - 1] == last
      && |arg| > 1 && !IsLong(arg) && IsShort(arg)
  {
    assert ([DASH] + flags + [last])[1] == (flags + [last])[0];
  }

  /** `-x v` and `-abx v`: the letters in front are flags, the last takes the value. */
  lemma LettersAreRead(t: Table, shorts: Shorts, s: State, flags: string, last: char, value: string)
    requires forall c | c in flags :: IsFlag(t, shorts, c)
    requires (flags + [last])[0] != DASH
    requires last in shorts && shorts[last] != "" && Takes(t, shorts[last], value)
    ensures var (after, used) := Argument(t, shorts, s, [DASH] + flags + [last], Some(value));
      used && Gains(s.(has := s.has + FlagNames(shorts, flags)), shorts[last], value, after)
  {
    var arg, cs := [DASH] + flags + [last], flags + [last];
    ClusterText(flags, last);
    FlagsAreSet(t, shorts, s, flags);
    ValueIsKept(t, s.(has := s.has + FlagNames(shorts, flags)), shorts[last], value);
    hide Letters, Letter, SetValue, Gains, FlagNames, IsFlag, IsLong, IsShort, Long;
  }

  /** `--n` without a value: a flag is set; a name that is not declared, or needs a value when there is no next
      argument, is complained about. */
  lemma FlagIsRead(t: Table, shorts: Shorts, s: State, name: string, next: Option<string>)
    requires EQUALS !in name && (name in t && t[name].hasValue ==> next.None?)
    ensures var (after, used) := Argument(t, shorts, s, [DASH, DASH] + name, next);
      && !used
      && if name !in t then Refuses(s, Undefined(name), after)
         else if t[name].hasValue then Refuses(s, NeedsValue(name), after)
         else after == s.(has := s.has + {name})
  {
    assert ([DASH, DASH] + name)[2..] == name;
  }

  /** Letters are read without complaint exactly if all of them stand for flags. */
  lemma {:induction false} FlagsComplain(t: Table, shorts: Shorts, s: State, cs: string)
    ensures var after := Letters(t, shorts, s, cs);
      s.errors <= after.errors && (after.errors == s.errors <==> forall c | c in cs :: IsFlag(t, shorts, c))
    decreases |cs|
  {
    if cs != "" {
      FlagsComplain(t, shorts, Letter(t, shorts, s, cs[0]), cs[1..]);
      assert forall c :: c in cs <==> c == cs[0] || c in cs[1..];
      LetterComplains(t, shorts, s, cs[0]);
      hide Letter, IsFlag;
    }
  }

  lemma LetterComplains(t: Table, shorts: Shorts, s: State, c: char)
    ensures var after := Letter(t, shorts, s, c);
      s.errors <= after.errors && (after.errors == s.errors <==> IsFlag(t, shorts, c))
  {
  }

  /** A cluster is read without complaint exactly if the letters in front stand for flags and the last one for a
      flag, or for an option that takes the next argument as its value. */
  lemma ClusterComplains(t: Table, shorts: Shorts, s: State, flags: string, last: char, next: Option<string>)
    requires (flags + [last])[0] != DASH
    ensures Argument(t, shorts, s, [DASH] + flags + [last], next).0.errors == s.errors <==>
      && (forall c | c in flags :: IsFlag(t, shorts, c))
      && (IsFlag(t, shorts, last) || (next.Some? && last in shorts && shorts[last] != "" && Takes(t, shorts[last], next.value)))
  {
    ClusterText(flags, last);
    FlagsComplain(t, shorts, s, flags);
    var before := Letters(t, shorts, s, flags);
    LetterComplains(t, shorts, before, last);
    if next.Some? && last in shorts { ValueIsKept(t, before, shorts[last], next.value); }
    hide Letters, Letter, SetValue, IsLong, IsShort, Long;
  }

  /** Anything else is an operand; a dash alone is skipped. */
  lemma OperandIsRead(t: Table, shorts: Shorts, s: State, arg: string, next: Option<string>)
    requires arg == "" || arg[0] != DASH || arg == [DASH]
    ensures Argument(t, shorts, s, arg, next) == (if arg == [DASH] then s else s.(others := s.others + [arg]), false)
  {
  }

  // ---- a normal form ----

  /** The value an argument `--name=value` carries. */
  function Carried(arg: string, name: string): Option<string>
  {
    var head := [DASH, DASH] + name + [EQUALS];
    if head <= arg then Some(arg[|head|..]) else None
  }

  /** The value that the last of such arguments carries. */
  function Last(args: seq<string>, name: string): Option<string>
  {
    if args == [] then None
    else if Last(args[1..], name).Some? then Last(args[1..], name)
    else Carried(args[0], name)
  }

  predicate Mentions(args: seq<string>, name: string)
  {
    exists i :: 0 <= i < |args| && (args[i] == [DASH, DASH] + name || Carried(args[i], name).Some?)
  }

  /** What is said of one option after reading `args`: it has the last value it was given, or the one it had. */
  ghost predicate Told(s: State, args: seq<string>, name: string, after: State)
  {
    && (name in after.has <==> name in s.has || Mentions(args, name))
    && (Last(args, name).Some? ==> name in after.actual && after.actual[name] == Last(args, name).value)
    && (Last(args, name).None? ==>
          (name in after.actual <==> name in s.actual) && (name in s.actual ==> after.actual[name] == s.actual[name]))
  }

  lemma CarriedIs(name: string, value: string, other: string)
    requires EQUALS !in name && EQUALS !in other
    ensures Carried([DASH, DASH] + name + [EQUALS] + value, other) == if other == name then Some(value) else None
  {
    var arg, head := [DASH, DASH] + name + [EQUALS] + value, [DASH, DASH] + other + [EQUALS];
    if other == name {
      assert arg == head + value;
    } else if head <= arg {
      assert arg == head + arg[|head|..];
      HeadsMeet(name, value, other, arg[|head|..]);
      assert false;
    }
  }

  lemma HeadsMeet(name: string, value: string, other: string, rest: string)
    requires EQUALS !in name && EQUALS !in other
    requires [DASH, DASH] + name + [EQUALS] + value == [DASH, DASH] + other + [EQUALS] + rest
    ensures other == name && rest == value
  {
    var body := ([DASH, DASH] + name + [EQUALS] + value)[2..];
    assert body == name + [EQUALS] + value && body == other + [EQUALS] + rest;
    SplitAtEquals(name, value);
    SplitAtEquals(other, rest);
    assert body[..|name|] == name && body[..|other|] == other;
    assert body[|name| + 1..] == value && body[|other| + 1..] == rest;
  }

  lemma CarriedMeans(arg: string, name: string)
    requires Carried(arg, name).Some?
    ensures IsLong(arg) && EQUALS in arg[2..]
  {
    var head := [DASH, DASH] + name + [EQUALS];
    assert arg == head + arg[|head|..];
    assert arg[2..][|name|] == EQUALS;
  }

  lemma LongName(name: string)
    ensures IsLong([DASH, DASH] + name) && ([DASH, DASH] + name)[2..] == name
  {
  }

  /** What one argument tells of an option. */
  lemma OneTells(s: State, arg: string, name: string, after: State)
    ensures Told(s, [arg], name, after) <==>
      && (name in after.has <==> name in s.has || arg == [DASH, DASH] + name || Carried(arg, name).Some?)
      && match Carried(arg, name)
         case Some(value) => name in after.actual && after.actual[name] == value
         case None => (name in after.actual <==> name in s.actual) && (name in s.actual ==> after.actual[name] == s.actual[name])
  {
    hide Carried;
    assert [arg][1..] == [] && [arg][0] == arg;
    assert Last([arg], name) == Carried(arg, name);
    assert Mentions([arg], name) <==> arg == [DASH, DASH] + name || Carried(arg, name).Some?;
  }

  lemma SplitLong(arg: string) returns (n: string, v: string)
    requires IsLong(arg) && EQUALS in arg[2..]
    ensures EQUALS !in n && arg == [DASH, DASH] + n + [EQUALS] + v
  {
    var p := IndexOf(arg[2..], EQUALS);
    assert arg[2..] == arg[2..][..p] + arg[2..][p..];
    n, v := arg[2..2 + p], arg[p + 3..];
    assert n == arg[2..][..p] && arg[2 + p] == arg[2..][p];
    Rejoined(arg, p);
  }

  lemma Rejoined(arg: string, p: nat)
    requires p + 2 < |arg| && arg[0] == DASH && arg[1] == DASH && arg[2 + p] == EQUALS
    ensures arg == [DASH, DASH] + arg[2..2 + p] + [EQUALS] + arg[p + 3..]
  {
  }

  lemma JoinedTells(t: Table, shorts: Shorts, s: State, arg: string, next: Option<string>, name: string)
    requires IsLong(arg) && EQUALS in arg[2..] && EQUALS !in name && Argument(t, shorts, s, arg, next).0.errors == s.errors
    ensures !Argument(t, shorts, s, arg, next).1 && Told(s, [arg], name, Argument(t, shorts, s, arg, next).0)
  {
    var n, v := SplitLong(arg);
    LongName(name);
    hide Argument, Told, Carried, IsLong;
    JoinedIsRead(t, shorts, s, n, v, next);
    CarriedIs(n, v, name);
    OneTells(s, arg, name, Argument(t, shorts, s, arg, next).0);
  }

  lemma FlagTells(t: Table, shorts: Shorts, s: State, arg: string, next: Option<string>, name: string)
    requires IsLong(arg) && EQUALS !in arg[2..] && Settled(t, arg) && Argument(t, shorts, s, arg, next).0.errors == s.errors
    ensures !Argument(t, shorts, s, arg, next).1 && Told(s, [arg], name, Argument(t, shorts, s, arg, next).0)
  {
    var body := arg[2..];
    assert arg == [DASH, DASH] + body;
    LongName(name);
    assert Carried(arg, name) == None by { if Carried(arg, name).Some? { CarriedMeans(arg, name); } }
    OneTells(s, arg, name, Argument(t, shorts, s, arg, next).0);
    hide Carried, Told;
  }

  lemma OperandTells(t: Table, shorts: Shorts, s: State, arg: string, next: Option<string>, name: string)
    requires !IsLong(arg) && !IsShort(arg)
    ensures !Argument(t, shorts, s, arg, next).1 && Told(s, [arg], name, Argument(t, shorts, s, arg, next).0)
  {
    LongName(name);
    assert Carried(arg, name) == None by { if Carried(arg, name).Some? { CarriedMeans(arg, name); } }
    OneTells(s, arg, name, Argument(t, shorts, s, arg, next).0);
    hide Carried, Told;
  }

  /** One settled argument, read without complaint. */
  lemma SettledTells(t: Table, shorts: Shorts, s: State, arg: string, next: Option<string>, name: string)
    requires Settled(t, arg) && EQUALS !in name && Argument(t, shorts, s, arg, next).0.errors == s.errors
    ensures !Argument(t, shorts, s, arg, next).1 && Told(s, [arg], name, Argument(t, shorts, s, arg, next).0)
  {
    hide Argument, Told;
    if !IsLong(arg) {
      OperandTells(t, shorts, s, arg, next, name);
    } else if EQUALS in arg[2..] {
      JoinedTells(t, shorts, s, arg, next, name);
    } else {
      FlagTells(t, shorts, s, arg, next, name);
    }
  }

  lemma LastSplits(args: seq<string>, name: string)
    requires args != []
    ensures Mentions(args, name) <==> Mentions([args[0]], name) || Mentions(args[1..], name)
    ensures Last([args[0]], name) == Carried(args[0], name)
  {
    assert [args[0]][1..] == [];
    if Mentions(args, name) {
      var i :| 0 <= i < |args| && (args[i] == [DASH, DASH] + name || Carried(args[i], name).Some?);
      if i == 0 { assert [args[0]][0] == args[0]; } else { assert args[1..][i - 1] == args[i]; }
    }
    if Mentions(args[1..], name) {
      var i :| 0 <= i < |args[1..]| && (args[1..][i] == [DASH, DASH] + name || Carried(args[1..][i], name).Some?);
      assert args[i + 1] == args[1..][i];
    }
  }

  /** A normal form read without complaint: every option has the last value it is given. */
  lemma {:induction false} NormalFormTells(t: Table, shorts: Shorts, s: State, args: seq<string>, name: string)
    requires AllSettled(t, args) && EQUALS !in name && Go(t, shorts, s, args).errors == s.errors
    ensures Told(s, args, name, Go(t, shorts, s, args))
    decreases |args|
  {
    if args != [] {
      var (next, used) := Argument(t, shorts, s, args[0], Next(args));
      ArgumentKeepsErrors(t, shorts, s, args[0], Next(args));
      GoKeepsErrors(t, shorts, next, Rest(args, used));
      assert Settled(t, args[0]);
      hide Settled, Argument, Carried, Mentions;
      SettledTells(t, shorts, s, args[0], Next(args), name);
      NormalFormTells(t, shorts, next, args[1..], name);
      LastSplits(args, name);
    }
  }

  // ---- a whole parse ----

  lemma {:induction false} MissedIs(t: Table, names: seq<string>, has: set<string>)
    requires forall n | n in names :: n in t
    ensures forall e :: e in Missed(t, names, has) <==> e.Missing? && e.name in names && t[e.name].hasValue && t[e.name].need && e.name !in has
    decreases |names|
  {
    if names != [] {
      MissedIs(t, names[1..], has);
      assert forall n :: n in names <==> n == names[0] || n in names[1..];
    }
  }

  /** After a whole parse without complaint every option has the value of the last argument of the normal form
      that gives it one, or the one it had; it is set exactly if it was or is mentioned; what is neither an
      option nor a value is an operand; and every needed option is set. */
  lemma ParseTells(t: Table, names: seq<string>, s: State, argv: seq<string>, name: string)
    requires forall n | n in names :: n in t
    requires Distinct(names) && argv != [] && EQUALS !in name
    requires ShortsOf(t, names, map[]).Shorts? ==> Plain(t, ShortsOf(t, names, map[]).shorts)
    requires Parse(t, names, s, argv).errors == []
    ensures ShortsOf(t, names, map[]).Shorts?
    ensures var norm, after := Normalise(t, ShortsOf(t, names, map[]).shorts, argv[1..]), Parse(t, names, s, argv);
      && Told(s, norm, name, after) && after.others == Operands(norm)
      && (forall n | n in names && t[n].hasValue && t[n].need :: n in after.has)
  {
    hide Go, Normalise, Operands, Options, ShortsOf, Missed, AllSettled, Told, Plain;
    ParseNormalForm(t, names, s, argv);
    var shorts := ShortsOf(t, names, map[]).shorts;
    var norm := Normalise(t, shorts, argv[1..]);
    assert ([argv[0]] + norm)[1..] == norm;
    var read := Go(t, shorts, Started(s), norm);
    NormalFormTells(t, shorts, Started(s), norm, name);
    ToldStarted(s, norm, name, read, Parse(t, names, s, argv));
    NoneMissed(t, names, read.has);
  }

  lemma NoneMissed(t: Table, names: seq<string>, has: set<string>)
    requires forall n | n in names :: n in t
    requires Missed(t, names, has) == []
    ensures forall n | n in names && t[n].hasValue && t[n].need :: n in has
  {
    MissedIs(t, names, has);
    forall n | n in names && t[n].hasValue && t[n].need ensures n in has {
      assert Missing(n) in Missed(t, names, has) <==> n !in has;
    }
  }

  lemma ToldStarted(s: State, args: seq<string>, name: string, read: State, after: State)
    requires Told(Started(s), args, name, read) && after.has == read.has && after.actual == read.actual
    ensures Told(s, args, name, after)
  {
    hide Last, Mentions;
  }
}
