/** Reading an argument vector against a table of options, and rewriting it to a normal form. */
module CommandLine {
  import opened Types

  const DASH := '-'
  const EQUALS := '='
  const NO_SHORT := '\0'

  /** One declared option; `accepts` says which texts its reader takes as a value. */
  datatype Spec = Spec(short: char, hasValue: bool, need: bool, accepts: string -> bool)

  type Table = map<string, Spec>
  type Shorts = map<char, string>

  datatype Error =
    | TooFewArguments
    | AmbiguousShort(short: char)
    | AmbiguousUse(short: char)
    | UndefinedShort(short: char)
    | Undefined(name: string)
    | NeedsValue(name: string)
    | Invalid(name: string, value: string)
    | Missing(name: string)
    | UnclosedQuote
    | TrailingBackslash

  /** The options seen, the last value text each option took, the operands and the complaints. */
  datatype State = State(has: set<string>, actual: map<string, string>, others: seq<string>, errors: seq<Error>)

  function Complain(s: State, e: Error): State
  {
    s.(errors := s.errors + [e])
  }

  function SetFlag(t: Table, s: State, name: string): State
  {
    if name !in t then Complain(s, Undefined(name))
    else if t[name].hasValue then Complain(s, NeedsValue(name))
    else s.(has := s.has + {name})
  }

  function SetValue(t: Table, s: State, name: string, value: string): State
  {
    if name !in t then Complain(s, Undefined(name))
    else if !t[name].hasValue || !t[name].accepts(value) then Complain(s, Invalid(name, value))
    else s.(has := s.has + {name}, actual := s.actual[name := value])
  }

  /** The first place of `c` in `s`, or the length of `s`. */
  function IndexOf(s: string, c: char): (i: nat)
    ensures i <= |s| && c !in s[..i]
    ensures i < |s| ==> s[i] == c
  {
    if s == "" || s[0] == c then 0
    else
      var i := 1 + IndexOf(s[1..], c);
      assert s[..i] == [s[0]] + s[1..][..i - 1];
      i
  }

  predicate IsLong(arg: string)
  {
    |arg| >= 2 && arg[0] == DASH && arg[1] == DASH
  }

  predicate IsShort(arg: string)
  {
    |arg| >= 1 && arg[0] == DASH && !IsLong(arg)
  }

  function Long(t: Table, s: State, body: string, next: Option<string>): (State, bool)
  {
    var p := IndexOf(body, EQUALS);
    if p < |body| then (SetValue(t, s, body[..p], body[p + 1..]), false)
    else if body !in t then (Complain(s, Undefined(body)), false)
    else if t[body].hasValue then
      match next
      case None => (Complain(s, NeedsValue(body)), false)
      case Some(value) => (SetValue(t, s, body, value), true)
    else (SetFlag(t, s, body), false)
  }

  function Letter(t: Table, shorts: Shorts, s: State, c: char): State
  {
    if c !in shorts then Complain(s, UndefinedShort(c))
    else if shorts[c] == "" then Complain(s, AmbiguousUse(c))
    else SetFlag(t, s, shorts[c])
  }

  function Letters(t: Table, shorts: Shorts, s: State, cs: string): State
    decreases |cs|
  {
    if cs == "" then s else Letters(t, shorts, Letter(t, shorts, s, cs[0]), cs[1..])
  }

  /** Whether the last letter of a cluster takes the next argument as its value. */
  predicate LastTakesValue(t: Table, shorts: Shorts, c: char)
  {
    c in shorts && shorts[c] != "" && shorts[c] in t && t[shorts[c]].hasValue
  }

  function Cluster(t: Table, shorts: Shorts, s: State, cs: string, next: Option<string>): (State, bool)
    requires cs != ""
  {
    var before := Letters(t, shorts, s, cs[..|cs| - 1]);
    var last := cs[|cs| - 1];
    if next.Some? && LastTakesValue(t, shorts, last) then (SetValue(t, before, shorts[last], next.value), true)
    else (Letter(t, shorts, before, last), false)
  }

  /** One turn of the loop over the arguments; the flag says whether it used up the next argument too. */
  function Argument(t: Table, shorts: Shorts, s: State, arg: string, next: Option<string>): (State, bool)
  {
    if IsLong(arg) then Long(t, s, arg[2..], next)
    else if IsShort(arg) then
      if |arg| == 1 then (s, false) else Cluster(t, shorts, s, arg[1..], next)
    else (s.(others := s.others + [arg]), false)
  }

  function Next(args: seq<string>): Option<string>
  {
    if |args| > 1 then Some(args[1]) else None
  }

  function Rest(args: seq<string>, used: bool): (rest: seq<string>)
    requires args != []
    ensures |rest| < |args|
  {
    if used && |args| > 1 then args[2..] else args[1..]
  }

  function Go(t: Table, shorts: Shorts, s: State, args: seq<string>): State
    decreases |args|
  {
    if args == [] then s
    else
      var r := Argument(t, shorts, s, args[0], Next(args));
      Go(t, shorts, r.0, Rest(args, r.1))
  }

  datatype ShortTable = Shorts(shorts: Shorts) | Clash(short: char)

  /** The table of short options, in the order of the option names. */
  function ShortsOf(t: Table, names: seq<string>, shorts: Shorts): ShortTable
    requires forall n | n in names :: n in t
  {
    if names == [] then Shorts(shorts)
    else
      var c := t[names[0]].short;
      if names[0] == "" || c == NO_SHORT then ShortsOf(t, names[1..], shorts)
      else if c in shorts then Clash(c)
      else ShortsOf(t, names[1..], shorts[c := names[0]])
  }

  function Missed(t: Table, names: seq<string>, has: set<string>): seq<Error>
    requires forall n | n in names :: n in t
  {
    if names == [] then []
    else
      (if t[names[0]].hasValue && t[names[0]].need && names[0] !in has then [Missing(names[0])] else [])
      + Missed(t, names[1..], has)
  }

  function Started(s: State): State
  {
    s.(others := [], errors := [])
  }

  /** A whole parse, of an argument vector that starts with the program name. */
  function Parse(t: Table, names: seq<string>, s: State, argv: seq<string>): State
    requires forall n | n in names :: n in t
  {
    if argv == [] then Complain(Started(s), TooFewArguments)
    else
      match ShortsOf(t, names, map[])
      case Clash(c) => Complain(Started(s), AmbiguousShort(c))
      case Shorts(shorts) =>
        var read := Go(t, shorts, Started(s), argv[1..]);
        read.(errors := read.errors + Missed(t, names, read.has))
  }

  // ---- the table of short options ----

  /** Every short option stands for the only non-empty declared name that has it. */
  ghost predicate Indexes(t: Table, names: seq<string>, shorts: Shorts)
    requires forall n | n in names :: n in t
  {
    && (forall c | c in shorts :: shorts[c] != "" && shorts[c] in names && t[shorts[c]].short == c && c != NO_SHORT)
    && (forall n | n in names && n != "" && t[n].short != NO_SHORT :: t[n].short in shorts && shorts[t[n].short] == n)
  }

  ghost predicate Distinct(names: seq<string>)
  {
    forall i, j | 0 <= i < j < |names| :: names[i] != names[j]
  }

  ghost predicate Shared(t: Table, names: seq<string>, c: char)
    requires forall n | n in names :: n in t
  {
    exists i, j :: 0 <= i < j < |names| && names[i] != "" && names[j] != ""
      && t[names[i]].short == c == t[names[j]].short && c != NO_SHORT
  }

  lemma {:induction false} ShortsIndex(t: Table, done: seq<string>, names: seq<string>, shorts: Shorts)
    requires forall n | n in done + names :: n in t
    requires Distinct(done + names)
    requires Indexes(t, done, shorts)
    ensures match ShortsOf(t, names, shorts)
      case Shorts(all) => Indexes(t, done + names, all)
      case Clash(c) => Shared(t, done + names, c)
    decreases |names|
  {
    if names == [] {
      assert done + names == done;
    } else {
      var c := t[names[0]].short;
      assert done + names == (done + [names[0]]) + names[1..];
      assert (done + names)[|done|] == names[0];
      forall n | n in done ensures n != names[0] {
        var i :| 0 <= i < |done| && done[i] == n;
        assert (done + names)[i] == n;
      }
      if names[0] == "" || c == NO_SHORT {
        ShortsIndex(t, done + [names[0]], names[1..], shorts);
      } else if c in shorts {
        var i :| 0 <= i < |done| && done[i] == shorts[c];
        assert (done + names)[i] == shorts[c];
      } else {
        ShortsIndex(t, done + [names[0]], names[1..], shorts[c := names[0]]);
      }
    }
  }

  // ---- complaints pile up ----

  lemma {:induction false} LettersKeepErrors(t: Table, shorts: Shorts, s: State, cs: string)
    ensures s.errors <= Letters(t, shorts, s, cs).errors
    decreases |cs|
  {
    if cs != "" {
      LettersKeepErrors(t, shorts, Letter(t, shorts, s, cs[0]), cs[1..]);
    }
  }

  lemma ArgumentKeepsErrors(t: Table, shorts: Shorts, s: State, arg: string, next: Option<string>)
    ensures s.errors <= Argument(t, shorts, s, arg, next).0.errors
    ensures Argument(t, shorts, s, arg, next).1 ==> next.Some?
  {
    if IsShort(arg) && |arg| > 1 {
      LettersKeepErrors(t, shorts, s, arg[1..][..|arg| - 2]);
    }
  }

  lemma {:induction false} GoKeepsErrors(t: Table, shorts: Shorts, s: State, args: seq<string>)
    ensures s.errors <= Go(t, shorts, s, args).errors
    decreases |args|
  {
    if args != [] {
      var r := Argument(t, shorts, s, args[0], Next(args));
      ArgumentKeepsErrors(t, shorts, s, args[0], Next(args));
      GoKeepsErrors(t, shorts, r.0, Rest(args, r.1));
    }
  }

  // ---- the normal form ----

  function Flag(name: string): string
  {
    [DASH, DASH] + name
  }

  function Setting(name: string, value: string): string
  {
    [DASH, DASH] + name + [EQUALS] + value
  }

  function Flags(shorts: Shorts, cs: string): seq<string>
    requires forall c | c in cs :: c in shorts
  {
    if cs == "" then [] else [Flag(shorts[cs[0]])] + Flags(shorts, cs[1..])
  }

  predicate Known(shorts: Shorts, cs: string)
  {
    forall c | c in cs :: c in shorts
  }

  /** One argument, with the value it takes if any, as self-contained long options. */
  function Rewrite(t: Table, shorts: Shorts, arg: string, next: Option<string>): (seq<string>, bool)
  {
    if IsLong(arg) then
      var body := arg[2..];
      if EQUALS !in body && body in t && t[body].hasValue && next.Some? then ([Setting(body, next.value)], true)
      else ([arg], false)
    else if IsShort(arg) then
      if |arg| == 1 then ([], false)
      else if !Known(shorts, arg[1..]) then ([arg], false)
      else
        var before := Flags(shorts, arg[1..|arg| - 1]);
        var last := arg[|arg| - 1];
        if next.Some? && LastTakesValue(t, shorts, last) then (before + [Setting(shorts[last], next.value)], true)
        else (before + [Flag(shorts[last])], false)
    else ([arg], false)
  }

  /** Every `--n v`, `-x v` and cluster as `--n=v` and `--flag`, and lone dashes dropped. */
  function Normalise(t: Table, shorts: Shorts, args: seq<string>): seq<string>
    decreases |args|
  {
    if args == [] then []
    else
      var r := Rewrite(t, shorts, args[0], Next(args));
      r.0 + Normalise(t, shorts, Rest(args, r.1))
  }

  ghost predicate Names(t: Table, shorts: Shorts)
  {
    forall c | c in shorts :: shorts[c] != "" && shorts[c] in t
  }

  /** Some argument list sets the option. */
  ghost predicate Settable(spec: Spec)
  {
    !spec.hasValue || exists v :: spec.accepts(v)
  }

  /** Some argument uses the letter: a dash can only stand behind another letter, that of a flag. */
  ghost predicate Usable(t: Table, shorts: Shorts, c: char)
  {
    && c in shorts && shorts[c] in t && Settable(t[shorts[c]])
    && (c != DASH || exists a :: a in shorts && a != DASH && shorts[a] in t && !t[shorts[a]].hasValue)
  }

  /** No option a letter can set has a name with the character that ends the name in `--n=v`. */
  ghost predicate Plain(t: Table, shorts: Shorts)
  {
    forall c | Usable(t, shorts, c) :: EQUALS !in shorts[c]
  }

  /** The same of the letters of one cluster. */
  ghost predicate PlainLetters(t: Table, shorts: Shorts, cs: string)
    requires Names(t, shorts)
  {
    forall c | c in cs && c in shorts && Settable(t[shorts[c]]) :: EQUALS !in shorts[c]
  }

  lemma FlagIsRead(t: Table, shorts: Shorts, s: State, name: string, next: Option<string>)
    requires EQUALS !in name && name in t && !t[name].hasValue
    ensures Argument(t, shorts, s, Flag(name), next) == (SetFlag(t, s, name), false)
  {
    assert Flag(name)[2..] == name;
  }

  lemma {:induction false} SplitAtEquals(name: string, value: string)
    requires EQUALS !in name
    ensures IndexOf(name + [EQUALS] + value, EQUALS) == |name|
    decreases |name|
  {
    if name != "" {
      SplitAtEquals(name[1..], value);
      assert (name + [EQUALS] + value)[1..] == name[1..] + [EQUALS] + value;
    }
  }

  lemma SettingIsRead(t: Table, shorts: Shorts, s: State, name: string, value: string, next: Option<string>)
    requires EQUALS !in name
    ensures Argument(t, shorts, s, Setting(name, value), next) == (SetValue(t, s, name, value), false)
  {
    var body := name + [EQUALS] + value;
    assert Setting(name, value)[2..] == body;
    SplitAtEquals(name, value);
    assert body[..|name|] == name && body[|name| + 1..] == value;
  }

  lemma GoStep(t: Table, shorts: Shorts, s: State, arg: string, rest: seq<string>)
    ensures var next := if rest == [] then None else Some(rest[0]);
      !Argument(t, shorts, s, arg, next).1 ==>
        Go(t, shorts, s, [arg] + rest) == Go(t, shorts, Argument(t, shorts, s, arg, next).0, rest)
  {
    assert ([arg] + rest)[1..] == rest;
  }

  lemma {:induction false} FlagsAreRead(t: Table, shorts: Shorts, s: State, cs: string, rest: seq<string>)
    requires Names(t, shorts) && PlainLetters(t, shorts, cs) && Known(shorts, cs)
    requires Letters(t, shorts, s, cs).errors == []
    ensures Go(t, shorts, s, Flags(shorts, cs) + rest) == Go(t, shorts, Letters(t, shorts, s, cs), rest)
    decreases |cs|
  {
    if cs == "" {
      assert Flags(shorts, cs) + rest == rest;
    } else {
      var name := shorts[cs[0]];
      var more := Flags(shorts, cs[1..]) + rest;
      LettersKeepErrors(t, shorts, Letter(t, shorts, s, cs[0]), cs[1..]);
      assert !t[name].hasValue;
      assert Flags(shorts, cs) + rest == [Flag(name)] + more;
      FlagIsRead(t, shorts, s, name, if more == [] then None else Some(more[0]));
      GoStep(t, shorts, s, Flag(name), more);
      FlagsAreRead(t, shorts, Letter(t, shorts, s, cs[0]), cs[1..], rest);
    }
  }

  lemma {:induction false} LettersKnown(t: Table, shorts: Shorts, s: State, cs: string)
    requires Letters(t, shorts, s, cs).errors == []
    ensures Known(shorts, cs)
    decreases |cs|
  {
    if cs != "" {
      LettersKeepErrors(t, shorts, Letter(t, shorts, s, cs[0]), cs[1..]);
      LettersKnown(t, shorts, Letter(t, shorts, s, cs[0]), cs[1..]);
    }
  }

  /** The last argument a cluster is rewritten to is read like the last letter. */
  lemma LastIsRead(t: Table, shorts: Shorts, s: State, last: char, next: Option<string>, rest: seq<string>)
    requires Names(t, shorts) && PlainLetters(t, shorts, [last])
    requires Cluster(t, shorts, s, [last], next).0.errors == []
    ensures var r := Cluster(t, shorts, s, [last], next);
      && last in shorts
      && r.1 == (next.Some? && LastTakesValue(t, shorts, last))
      && Go(t, shorts, s, [if r.1 then Setting(shorts[last], next.value) else Flag(shorts[last])] + rest) == Go(t, shorts, r.0, rest)
  {
    var r := Cluster(t, shorts, s, [last], next);
    var name := shorts[last];
    var follows := if rest == [] then None else Some(rest[0]);
    assert [last][..0] == "";
    hide Argument, Go, Setting, Flag;
    if r.1 {
      SettingIsRead(t, shorts, s, name, next.value, follows);
      GoStep(t, shorts, s, Setting(name, next.value), rest);
    } else {
      FlagIsRead(t, shorts, s, name, follows);
      GoStep(t, shorts, s, Flag(name), rest);
    }
  }

  lemma ClusterSplits(t: Table, shorts: Shorts, s: State, cs: string, next: Option<string>)
    requires cs != ""
    ensures Cluster(t, shorts, s, cs, next) == Cluster(t, shorts, Letters(t, shorts, s, cs[..|cs| - 1]), [cs[|cs| - 1]], next)
    ensures Letters(t, shorts, s, cs[..|cs| - 1]).errors <= Cluster(t, shorts, s, cs, next).0.errors
  {
    assert [cs[|cs| - 1]][..0] == "";
  }

  lemma FirstLetterIsFlag(t: Table, shorts: Shorts, s: State, cs: string)
    requires Names(t, shorts) && cs != "" && Letters(t, shorts, s, cs).errors == []
    ensures cs[0] in shorts && !t[shorts[cs[0]]].hasValue
  {
    LettersKeepErrors(t, shorts, Letter(t, shorts, s, cs[0]), cs[1..]);
  }

  /** The letters of a cluster read without complaint are usable. */
  lemma ClusterIsPlain(t: Table, shorts: Shorts, s: State, arg: string, next: Option<string>)
    requires Names(t, shorts) && Plain(t, shorts) && IsShort(arg) && |arg| > 1
    requires Argument(t, shorts, s, arg, next).0.errors == []
    ensures PlainLetters(t, shorts, arg[1..|arg| - 1]) && PlainLetters(t, shorts, [arg[|arg| - 1]])
  {
    var cs := arg[1..];
    var front := cs[..|cs| - 1];
    assert front == arg[1..|arg| - 1];
    ClusterSplits(t, shorts, s, cs, next);
    if front != "" {
      FirstLetterIsFlag(t, shorts, s, front);
      assert front[0] == arg[1] != DASH;
    }
    hide Argument, Letters, Cluster;
    forall c | c in arg[1..] && c in shorts && Settable(t[shorts[c]]) ensures EQUALS !in shorts[c] {
      assert Usable(t, shorts, c);
    }
  }

  lemma ClusterIsRead(t: Table, shorts: Shorts, s: State, arg: string, next: Option<string>, rest: seq<string>)
    requires Names(t, shorts) && Plain(t, shorts) && IsShort(arg) && |arg| > 1
    requires Argument(t, shorts, s, arg, next).0.errors == []
    ensures var r := Argument(t, shorts, s, arg, next);
      var w := Rewrite(t, shorts, arg, next);
      w.1 == r.1 && Go(t, shorts, s, w.0 + rest) == Go(t, shorts, r.0, rest)
  {
    hide Go, Letters, Cluster, Letter, Setting, Flag, Flags, Plain, Names;
    var cs := arg[1..];
    var front := cs[..|cs| - 1];
    var last := cs[|cs| - 1];
    assert front == arg[1..|arg| - 1] && cs == front + [last] && last == arg[|arg| - 1];
    var before := Letters(t, shorts, s, front);
    ClusterSplits(t, shorts, s, cs, next);
    LettersKnown(t, shorts, s, front);
    ClusterIsPlain(t, shorts, s, arg, next);
    LastIsRead(t, shorts, before, last, next, rest);
    var item := if Argument(t, shorts, s, arg, next).1 then Setting(shorts[last], next.value) else Flag(shorts[last]);
    assert Rewrite(t, shorts, arg, next).0 == Flags(shorts, front) + [item];
    FlagsAreRead(t, shorts, s, front, [item] + rest);
    assert Flags(shorts, front) + ([item] + rest) == Flags(shorts, front) + [item] + rest;
  }

  lemma RewriteIsRead(t: Table, shorts: Shorts, s: State, arg: string, next: Option<string>, rest: seq<string>)
    requires Names(t, shorts) && Plain(t, shorts)
    requires Argument(t, shorts, s, arg, next).0.errors == []
    ensures var r := Argument(t, shorts, s, arg, next);
      var w := Rewrite(t, shorts, arg, next);
      w.1 == r.1 && Go(t, shorts, s, w.0 + rest) == Go(t, shorts, r.0, rest)
  {
    var follows := if rest == [] then None else Some(rest[0]);
    var w := Rewrite(t, shorts, arg, next);
    if IsLong(arg) {
      var body := arg[2..];
      var p := IndexOf(body, EQUALS);
      if p < |body| {
        assert body[p] == EQUALS;
        GoStep(t, shorts, s, arg, rest);
      } else {
        assert body == body[..p];
        if t[body].hasValue {
          SettingIsRead(t, shorts, s, body, next.value, follows);
          GoStep(t, shorts, s, Setting(body, next.value), rest);
        } else {
          GoStep(t, shorts, s, arg, rest);
        }
      }
    } else if IsShort(arg) {
      if |arg| == 1 {
        assert w.0 + rest == rest;
      } else {
        ClusterIsRead(t, shorts, s, arg, next, rest);
      }
    } else {
      GoStep(t, shorts, s, arg, rest);
    }
  }

  /** An argument list read without complaint means the same as its normal form. */
  lemma {:induction false} NormaliseKeepsMeaning(t: Table, shorts: Shorts, s: State, args: seq<string>)
    requires Names(t, shorts) && Plain(t, shorts)
    requires Go(t, shorts, s, args).errors == []
    ensures Go(t, shorts, s, Normalise(t, shorts, args)) == Go(t, shorts, s, args)
    decreases |args|
  {
    hide Argument, Rewrite;
    if args != [] {
      var r := Argument(t, shorts, s, args[0], Next(args));
      var rest := Rest(args, r.1);
      GoKeepsErrors(t, shorts, r.0, rest);
      RewriteIsRead(t, shorts, s, args[0], Next(args), Normalise(t, shorts, rest));
      NormaliseKeepsMeaning(t, shorts, r.0, rest);
    }
  }

  // ---- what the normal form looks like ----

  /** An operand, or a long option that does not reach for the next argument. */
  predicate Settled(t: Table, arg: string)
  {
    !IsShort(arg) && (IsLong(arg) && arg[2..] in t && t[arg[2..]].hasValue ==> EQUALS in arg[2..])
  }

  ghost predicate AllSettled(t: Table, args: seq<string>)
  {
    forall a | a in args :: Settled(t, a)
  }

  lemma {:induction false} FlagsSettled(t: Table, shorts: Shorts, s: State, cs: string)
    requires Names(t, shorts) && Known(shorts, cs)
    requires Letters(t, shorts, s, cs).errors == []
    ensures AllSettled(t, Flags(shorts, cs))
    decreases |cs|
  {
    if cs != "" {
      LettersKeepErrors(t, shorts, Letter(t, shorts, s, cs[0]), cs[1..]);
      FlagsSettled(t, shorts, Letter(t, shorts, s, cs[0]), cs[1..]);
      assert Flag(shorts[cs[0]])[2..] == shorts[cs[0]];
    }
  }

  lemma SettingSettled(t: Table, name: string, value: string)
    ensures Settled(t, Setting(name, value))
  {
    assert Setting(name, value)[2..] == name + [EQUALS] + value;
    assert (name + [EQUALS] + value)[|name|] == EQUALS;
  }

  lemma FlagSettled(t: Table, name: string)
    ensures Settled(t, Flag(name)) <==> (name in t && t[name].hasValue ==> EQUALS in name)
  {
    assert Flag(name)[2..] == name;
  }

  lemma LongSettles(t: Table, shorts: Shorts, s: State, arg: string, next: Option<string>)
    requires IsLong(arg)
    requires Argument(t, shorts, s, arg, next).0.errors == []
    ensures AllSettled(t, Rewrite(t, shorts, arg, next).0)
    ensures Rewrite(t, shorts, arg, next).1 == Argument(t, shorts, s, arg, next).1
  {
    var body := arg[2..];
    var p := IndexOf(body, EQUALS);
    assert p < |body| ==> body[p] == EQUALS;
    assert p == |body| ==> body == body[..p];
    if next.Some? {
      SettingSettled(t, body, next.value);
    }
  }

  lemma ClusterSettles(t: Table, shorts: Shorts, s: State, arg: string, next: Option<string>)
    requires Names(t, shorts) && IsShort(arg) && |arg| > 1
    requires Argument(t, shorts, s, arg, next).0.errors == []
    ensures AllSettled(t, Rewrite(t, shorts, arg, next).0)
    ensures Rewrite(t, shorts, arg, next).1 == Argument(t, shorts, s, arg, next).1
  {
    hide Letters, Settled, Setting, Flag, Flags, SetValue;
    var cs := arg[1..];
    var front := cs[..|cs| - 1];
    var last := cs[|cs| - 1];
    assert front == arg[1..|arg| - 1] && cs == front + [last] && last == arg[|arg| - 1];
    ClusterSplits(t, shorts, s, cs, next);
    LettersKnown(t, shorts, s, front);
    FlagsSettled(t, shorts, s, front);
    FlagSettled(t, shorts[last]);
    if next.Some? {
      SettingSettled(t, shorts[last], next.value);
    }
  }

  lemma RewriteSettles(t: Table, shorts: Shorts, s: State, arg: string, next: Option<string>)
    requires Names(t, shorts)
    requires Argument(t, shorts, s, arg, next).0.errors == []
    ensures AllSettled(t, Rewrite(t, shorts, arg, next).0)
    ensures Rewrite(t, shorts, arg, next).1 == Argument(t, shorts, s, arg, next).1
  {
    if IsLong(arg) {
      LongSettles(t, shorts, s, arg, next);
    } else if IsShort(arg) && |arg| > 1 {
      ClusterSettles(t, shorts, s, arg, next);
    }
  }

  /** Nothing in a normal form depends on the argument after it. */
  lemma {:induction false} NormaliseSettles(t: Table, shorts: Shorts, s: State, args: seq<string>)
    requires Names(t, shorts)
    requires Go(t, shorts, s, args).errors == []
    ensures AllSettled(t, Normalise(t, shorts, args))
    decreases |args|
  {
    hide Argument, Rewrite, Settled;
    if args != [] {
      var r := Argument(t, shorts, s, args[0], Next(args));
      GoKeepsErrors(t, shorts, r.0, Rest(args, r.1));
      RewriteSettles(t, shorts, s, args[0], Next(args));
      NormaliseSettles(t, shorts, r.0, Rest(args, r.1));
    }
  }

  /** Normal forms are exactly what normalising leaves alone, so normalising twice is normalising once. */
  lemma {:induction false} SettledIsNormal(t: Table, shorts: Shorts, args: seq<string>)
    requires AllSettled(t, args)
    ensures Normalise(t, shorts, args) == args
    decreases |args|
  {
    if args != [] {
      assert Settled(t, args[0]);
      SettledIsNormal(t, shorts, args[1..]);
      assert args == [args[0]] + args[1..];
    }
  }

  // ---- operands last ----

  predicate IsOperand(arg: string)
  {
    arg == "" || arg[0] != DASH
  }

  function Operands(args: seq<string>): seq<string>
  {
    if args == [] then []
    else (if IsOperand(args[0]) then [args[0]] else []) + Operands(args[1..])
  }

  function Options(args: seq<string>): seq<string>
  {
    if args == [] then []
    else (if IsOperand(args[0]) then [] else [args[0]]) + Options(args[1..])
  }

  /** A settled option neither looks at the operands nor at the next argument. */
  lemma SettledReads(t: Table, shorts: Shorts, s: State, arg: string, next: Option<string>, others: seq<string>)
    requires Settled(t, arg) && !IsOperand(arg)
    ensures var r := Argument(t, shorts, s, arg, next);
      !r.1 && r.0.others == s.others && Argument(t, shorts, s.(others := others), arg, None) == (r.0.(others := others), false)
  {
    assert IsLong(arg);
    var body := arg[2..];
    var p := IndexOf(body, EQUALS);
    assert EQUALS in body ==> p < |body| by {
      assert p == |body| ==> body[..p] == body;
    }
  }

  /** Reading settled options does not look at the operands seen so far. */
  lemma {:induction false} OptionsIgnoreOperands(t: Table, shorts: Shorts, s: State, args: seq<string>, others: seq<string>)
    requires AllSettled(t, args)
    ensures Go(t, shorts, s.(others := others), Options(args)) == Go(t, shorts, s, Options(args)).(others := others)
    ensures Go(t, shorts, s, Options(args)).others == s.others
    decreases |args|
  {
    hide Argument, Settled;
    if args != [] {
      var opts := Options(args[1..]);
      if IsOperand(args[0]) {
        assert Options(args) == Options(args[1..]);
        OptionsIgnoreOperands(t, shorts, s, args[1..], others);
      } else {
        var next := Next([args[0]] + opts);
        assert Options(args)[1..] == opts;
        SettledReads(t, shorts, s, args[0], next, others);
        SettledReads(t, shorts, s.(others := others), args[0], next, others);
        OptionsIgnoreOperands(t, shorts, Argument(t, shorts, s, args[0], next).0, args[1..], others);
      }
    }
  }

  lemma {:induction false} OperandsAreRead(t: Table, shorts: Shorts, s: State, args: seq<string>)
    requires forall a | a in args :: IsOperand(a)
    ensures Go(t, shorts, s, args) == s.(others := s.others + args)
    decreases |args|
  {
    if args != [] {
      assert IsOperand(args[0]);
      OperandsAreRead(t, shorts, s.(others := s.others + [args[0]]), args[1..]);
      assert s.others + [args[0]] + args[1..] == s.others + args;
    } else {
      assert s.others + [] == s.others;
    }
  }

  lemma {:induction false} OperandsOfOperands(args: seq<string>)
    ensures forall a | a in Operands(args) :: IsOperand(a)
    decreases |args|
  {
    if args != [] {
      OperandsOfOperands(args[1..]);
    }
  }

  lemma OperandIsPut(t: Table, shorts: Shorts, s: State, args: seq<string>)
    requires args != [] && IsOperand(args[0])
    ensures Go(t, shorts, s, args) == Go(t, shorts, s.(others := s.others + [args[0]]), args[1..])
    ensures Options(args) == Options(args[1..])
    ensures s.others + [args[0]] + Operands(args[1..]) == s.others + Operands(args)
  {
    hide Long, Cluster;
    assert s.others + [args[0]] + Operands(args[1..]) == s.others + ([args[0]] + Operands(args[1..]));
  }

  lemma OptionIsRead(t: Table, shorts: Shorts, s: State, args: seq<string>)
    requires args != [] && Settled(t, args[0]) && !IsOperand(args[0])
    ensures var r := Argument(t, shorts, s, args[0], None).0;
      && Go(t, shorts, s, args) == Go(t, shorts, r, args[1..])
      && Go(t, shorts, s, Options(args)) == Go(t, shorts, r, Options(args[1..]))
      && r.others == s.others
    ensures Operands(args) == Operands(args[1..])
  {
    hide Argument, Settled;
    assert Options(args)[1..] == Options(args[1..]);
    SettledReads(t, shorts, s, args[0], Next(args), s.others);
    SettledReads(t, shorts, s, args[0], Next(Options(args)), s.others);
  }

  /** Reading a normal form reads its options; the operands come out in order. */
  lemma {:induction false} SettledSplits(t: Table, shorts: Shorts, s: State, args: seq<string>)
    requires AllSettled(t, args)
    ensures Go(t, shorts, s, args) == Go(t, shorts, s, Options(args)).(others := s.others + Operands(args))
    decreases |args|
  {
    hide Argument, Settled;
    if args == [] {
      assert s.others + [] == s.others;
    } else if IsOperand(args[0]) {
      hide Go, Options, Operands;
      var s' := s.(others := s.others + [args[0]]);
      OperandIsPut(t, shorts, s, args);
      SettledSplits(t, shorts, s', args[1..]);
      OptionsIgnoreOperands(t, shorts, s, args[1..], s'.others);
    } else {
      hide Go, Options, Operands;
      OptionIsRead(t, shorts, s, args);
      SettledSplits(t, shorts, Argument(t, shorts, s, args[0], None).0, args[1..]);
    }
  }

  lemma {:induction false} GoAppend(t: Table, shorts: Shorts, s: State, args: seq<string>, tail: seq<string>)
    requires AllSettled(t, args)
    ensures Go(t, shorts, s, Options(args) + tail) == Go(t, shorts, Go(t, shorts, s, Options(args)), tail)
    decreases |args|
  {
    hide Argument, Settled;
    if args == [] {
      assert Options(args) + tail == tail;
    } else if IsOperand(args[0]) {
      assert Options(args) == Options(args[1..]);
      GoAppend(t, shorts, s, args[1..], tail);
    } else {
      var opts := Options(args[1..]);
      assert Options(args)[1..] == opts && (Options(args) + tail)[1..] == opts + tail;
      SettledReads(t, shorts, s, args[0], Next(Options(args)), s.others);
      SettledReads(t, shorts, s, args[0], Next(Options(args) + tail), s.others);
      GoAppend(t, shorts, Argument(t, shorts, s, args[0], Next(Options(args))).0, args[1..], tail);
    }
  }

  /** Moving the operands of a normal form behind its options changes nothing. */
  lemma OperandsLast(t: Table, shorts: Shorts, s: State, args: seq<string>)
    requires AllSettled(t, args)
    ensures Go(t, shorts, s, Options(args) + Operands(args)) == Go(t, shorts, s, args)
    ensures Go(t, shorts, s, args).others == s.others + Operands(args)
  {
    SettledSplits(t, shorts, s, args);
    GoAppend(t, shorts, s, args, Operands(args));
    OptionsIgnoreOperands(t, shorts, s, args, s.others);
    OperandsOfOperands(args);
    OperandsAreRead(t, shorts, Go(t, shorts, s, Options(args)), Operands(args));
  }

  // ---- when normalising changes the meaning ----

  /** A settled argument never sets an option whose name contains the separator. */
  lemma SettledSpares(t: Table, shorts: Shorts, s: State, arg: string, next: Option<string>, name: string)
    requires Settled(t, arg) && EQUALS in name && name !in s.has
    ensures name !in Argument(t, shorts, s, arg, next).0.has
    ensures !Argument(t, shorts, s, arg, next).1
  {
    if IsLong(arg) {
      var body := arg[2..];
      var p := IndexOf(body, EQUALS);
      assert p == |body| ==> body[..p] == body;
    }
  }

  lemma {:induction false} NormalFormSpares(t: Table, shorts: Shorts, s: State, args: seq<string>, name: string)
    requires AllSettled(t, args) && EQUALS in name && name !in s.has
    ensures name !in Go(t, shorts, s, args).has
    decreases |args|
  {
    hide Argument, Settled;
    if args != [] {
      SettledSpares(t, shorts, s, args[0], Next(args), name);
      NormalFormSpares(t, shorts, Argument(t, shorts, s, args[0], Next(args)).0, args[1..], name);
    }
  }

  /** A letter with the value its option takes, behind the letter of a flag if it is the dash. */
  function Asking(t: Table, shorts: Shorts, c: char, flag: char, value: string): seq<string>
    requires c in shorts && shorts[c] in t
  {
    var arg := if c == DASH then [DASH, flag, c] else [DASH, c];
    if t[shorts[c]].hasValue then [arg, value] else [arg]
  }

  lemma LetterSets(t: Table, shorts: Shorts, s: State, c: char, flag: char, value: string)
    requires Names(t, shorts) && c in shorts && s.errors == []
    requires c == DASH ==> flag in shorts && flag != DASH && !t[shorts[flag]].hasValue
    requires t[shorts[c]].hasValue ==> t[shorts[c]].accepts(value)
    ensures var args := Asking(t, shorts, c, flag, value);
      shorts[c] in Go(t, shorts, s, args).has && Go(t, shorts, s, args).errors == []
  {
    var args := Asking(t, shorts, c, flag, value);
    var cs := args[0][1..];
    var before := Letters(t, shorts, s, cs[..|cs| - 1]);
    assert before == if c == DASH then SetFlag(t, s, shorts[flag]) else s by {
      if c == DASH {
        assert cs == [flag, c] && cs[..|cs| - 1] == [flag] && [flag][1..] == "";
        assert Letters(t, shorts, s, [flag]) == Letters(t, shorts, Letter(t, shorts, s, flag), "");
      } else {
        assert cs == [c] && cs[..|cs| - 1] == "";
      }
    }
    assert cs[|cs| - 1] == c;
    assert !IsLong(args[0]) && IsShort(args[0]);
    hide Letters;
    if t[shorts[c]].hasValue {
      assert Rest(args, true) == [];
    } else {
      assert Rest(args, false) == [];
    }
  }

  ghost predicate KeepsMeaning(t: Table, shorts: Shorts)
  {
    forall s, args | Go(t, shorts, s, args).errors == [] :: Go(t, shorts, s, Normalise(t, shorts, args)) == Go(t, shorts, s, args)
  }

  /** Normalising keeps the meaning of every list read without complaint exactly when no such name has a letter. */
  lemma NormaliseIsExact(t: Table, shorts: Shorts)
    requires Names(t, shorts)
    ensures KeepsMeaning(t, shorts) <==> Plain(t, shorts)
  {
    hide Go, Normalise, AllSettled;
    if Plain(t, shorts) {
      forall s, args | Go(t, shorts, s, args).errors == []
        ensures Go(t, shorts, s, Normalise(t, shorts, args)) == Go(t, shorts, s, args)
      {
        NormaliseKeepsMeaning(t, shorts, s, args);
      }
    } else {
      var c :| Usable(t, shorts, c) && EQUALS in shorts[c];
      var spec := t[shorts[c]];
      var value: string :| spec.hasValue ==> spec.accepts(value);
      var flag: char :| c == DASH ==> flag in shorts && flag != DASH && !t[shorts[flag]].hasValue;
      var s := State({}, map[], [], []);
      var args := Asking(t, shorts, c, flag, value);
      LetterSets(t, shorts, s, c, flag, value);
      NormaliseSettles(t, shorts, s, args);
      NormalFormSpares(t, shorts, s, Normalise(t, shorts, args), shorts[c]);
    }
  }

  /** The whole parse of an argument vector without complaint, its normal form, and its normal form with operands last.
      What it asks of the table is the exact condition above. */
  lemma ParseNormalForm(t: Table, names: seq<string>, s: State, argv: seq<string>)
    requires forall n | n in names :: n in t
    requires Distinct(names) && argv != []
    requires ShortsOf(t, names, map[]).Shorts? ==> Plain(t, ShortsOf(t, names, map[]).shorts)
    requires Parse(t, names, s, argv).errors == []
    ensures ShortsOf(t, names, map[]).Shorts?
    ensures var norm := Normalise(t, ShortsOf(t, names, map[]).shorts, argv[1..]);
      && AllSettled(t, norm)
      && Normalise(t, ShortsOf(t, names, map[]).shorts, norm) == norm
      && Parse(t, names, s, [argv[0]] + norm) == Parse(t, names, s, argv)
      && Parse(t, names, s, [argv[0]] + (Options(norm) + Operands(norm))) == Parse(t, names, s, argv)
      && Parse(t, names, s, argv).others == Operands(norm)
  {
    hide Go, Normalise, Options, Operands, ShortsOf, Missed, AllSettled;
    ShortsIndex(t, [], names, map[]);
    assert [] + names == names;
    var shorts := ShortsOf(t, names, map[]).shorts;
    NormaliseKeepsMeaning(t, shorts, Started(s), argv[1..]);
    NormaliseSettles(t, shorts, Started(s), argv[1..]);
    var norm := Normalise(t, shorts, argv[1..]);
    SettledIsNormal(t, shorts, norm);
    OperandsLast(t, shorts, Started(s), norm);
    assert ([argv[0]] + norm)[1..] == norm;
    assert ([argv[0]] + (Options(norm) + Operands(norm)))[1..] == Options(norm) + Operands(norm);
    assert [] + Operands(norm) == Operands(norm);
  }
}
