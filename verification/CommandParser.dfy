/** The parser object: option objects that are set in place while the loops run over the arguments. */
module CommandParsers {
  import opened Types
  import opened CommandLine
  import opened OptionValues
  import T = Tokenizer

  class CommandOption {
    const name: string
    const spec: Spec
    var has: bool
    var actual: Option<string>

    constructor (name: string, spec: Spec)
      ensures this.name == name && this.spec == spec && !has && actual == None
    {
      this.name, this.spec, has, actual := name, spec, false, None;
    }

    method Set() returns (ok: bool)
      modifies `has
      ensures ok == !spec.hasValue
      ensures has == (ok || old(has))
    {
      if !spec.hasValue {
        has := true;
      }
      ok := !spec.hasValue;
    }

    method SetTo(value: string) returns (ok: bool)
      modifies `has, `actual
      ensures ok == (spec.hasValue && spec.accepts(value))
      ensures has == (ok || old(has))
      ensures actual == if ok then Some(value) else old(actual)
    {
      ok := spec.hasValue && spec.accepts(value);
      if ok {
        actual := Some(value);
        has := true;
      }
    }

    predicate IsValid()
      reads `has
    {
      !spec.hasValue || !spec.need || has
    }
  }

  lemma ToldMeans(s: State, args: seq<string>, n: string, after: State)
    requires Told(s, args, n, after)
    ensures n in after.has <==> n in s.has || Mentions(args, n)
    ensures match Last(args, n)
      case Some(v) => n in after.actual && after.actual[n] == v
      case None => (n in after.actual <==> n in s.actual) && (n in s.actual ==> after.actual[n] == s.actual[n])
  {
  }

  /** The order of the keys of an ordered map. */
  predicate Before(a: string, b: string)
  {
    if a == "" then b != ""
    else b != "" && (a[0] < b[0] || (a[0] == b[0] && Before(a[1..], b[1..])))
  }

  function Inserted(keys: seq<string>, name: string): (r: seq<string>)
    ensures forall n :: n in r <==> n in keys || n == name
    ensures Distinct(keys) && name !in keys ==> Distinct(r)
  {
    if keys == [] || Before(name, keys[0]) then [name] + keys
    else
      var r := Inserted(keys[1..], name);
      assert Distinct(keys) ==> keys[0] !in keys[1..];
      assert Distinct(keys) && name !in keys ==> keys[0] !in r;
      [keys[0]] + r
  }

  lemma MissedStep(t: Table, names: seq<string>, has: set<string>, errors: seq<Error>)
    requires forall n | n in names :: n in t
    requires names != []
    ensures var more := if t[names[0]].hasValue && t[names[0]].need && names[0] !in has then errors + [Missing(names[0])] else errors;
      more + Missed(t, names[1..], has) == errors + Missed(t, names, has)
  {
  }

  class Parser {
    var options: map<string, CommandOption>
    /** The keys of `options` in the order of the map. */
    var keys: seq<string>
    var progName: string
    var others: seq<string>
    var errors: seq<Error>

    ghost predicate Valid()
      reads `options, `keys
    {
      && Distinct(keys)
      && (forall n :: n in keys <==> n in options)
      && (forall n | n in options :: options[n].name == n)
    }

    ghost function Specs(): Table
      reads `options
    {
      map n | n in options :: options[n].spec
    }

    ghost function Has(): set<string>
      reads `options, options.Values`has
    {
      set n | n in options && options[n].has
    }

    ghost function Actual(): map<string, string>
      reads `options, options.Values`actual
    {
      map n | n in options && options[n].actual.Some? :: options[n].actual.value
    }

    ghost function Seen(): State
      reads `options, `others, `errors, options.Values`has, options.Values`actual
    {
      State(Has(), Actual(), others, errors)
    }

    constructor ()
      ensures Valid() && options == map[] && others == [] && errors == [] && progName == ""
    {
      options, keys, progName, others, errors := map[], [], "", [], [];
    }

    /** Declares an option; a second declaration of one name is refused. */
    method Add(name: string, spec: Spec) returns (ok: bool)
      requires Valid()
      modifies `options, `keys
      ensures Valid()
      ensures ok == (name !in old(Specs()))
      ensures Specs() == if ok then old(Specs())[name := spec] else old(Specs())
      ensures keys == if ok then Inserted(old(keys), name) else old(keys)
      ensures Seen() == old(Seen())
    {
      hide Distinct, Inserted;
      ok := name !in options;
      if ok {
        var o := new CommandOption(name, spec);
        keys := Inserted(keys, name);
        options := options[name := o];
        assert forall n | n in old(options) :: options[n] == old(options[n]);
        assert Specs() == old(Specs())[name := spec];
        assert Has() == old(Has()) && Actual() == old(Actual());
      }
    }

    method SetOption(name: string)
      requires Valid()
      modifies `errors, options.Values`has
      ensures Seen() == SetFlag(Specs(), old(Seen()), name)
      ensures name in options && !options[name].spec.hasValue ==> options[name].has && errors == old(errors)
      ensures name !in options ==> errors == old(errors) + [Undefined(name)]
      ensures name in options && options[name].spec.hasValue ==>
        options[name].has == old(options[name].has) && errors == old(errors) + [NeedsValue(name)]
      ensures forall n | n in options && n != name :: options[n].has == old(options[n].has)
    {
      if name !in options {
        errors := errors + [Undefined(name)];
        return;
      }
      var ok := options[name].Set();
      assert forall n | n in options && n != name :: options[n].has == old(options[n].has);
      assert Has() == if ok then old(Has()) + {name} else old(Has());
      if !ok {
        errors := errors + [NeedsValue(name)];
      }
    }

    method SetOptionTo(name: string, value: string)
      requires Valid()
      modifies `errors, options.Values`has, options.Values`actual
      ensures Seen() == SetValue(Specs(), old(Seen()), name, value)
      ensures Takes(Specs(), name, value) ==> options[name].has && options[name].actual == Some(value) && errors == old(errors)
      ensures !Takes(Specs(), name, value) ==>
        && errors == old(errors) + [if name !in options then Undefined(name) else Invalid(name, value)]
        && (name in options ==> options[name].has == old(options[name].has) && options[name].actual == old(options[name].actual))
      ensures forall n | n in options && n != name ::
        options[n].has == old(options[n].has) && options[n].actual == old(options[n].actual)
    {
      hide Distinct;
      if name !in options {
        errors := errors + [Undefined(name)];
        return;
      }
      var ok := options[name].SetTo(value);
      assert forall n | n in options && n != name ::
        options[n].has == old(options[n].has) && options[n].actual == old(options[n].actual);
      assert Has() == if ok then old(Has()) + {name} else old(Has());
      assert Actual() == if ok then old(Actual())[name := value] else old(Actual());
      if !ok {
        errors := errors + [Invalid(name, value)];
      }
    }

    method SetLetter(shorts: Shorts, c: char)
      requires Valid()
      modifies `errors, options.Values`has
      ensures Seen() == Letter(Specs(), shorts, old(Seen()), c)
    {
      if c !in shorts {
        errors := errors + [UndefinedShort(c)];
      } else if shorts[c] == "" {
        errors := errors + [AmbiguousUse(c)];
      } else {
        SetOption(shorts[c]);
      }
    }

    /** The first character `c` at or after place 2 of an argument that starts with two dashes. */
    method FindEquals(arg: string) returns (p: nat)
      requires |arg| >= 2
      ensures p == 2 + IndexOf(arg[2..], EQUALS)
    {
      p := 2;
      while p < |arg| && arg[p] != EQUALS
        invariant 2 <= p <= |arg|
        invariant 2 + IndexOf(arg[2..], EQUALS) == p + IndexOf(arg[p..], EQUALS)
      {
        assert arg[p..][1..] == arg[p + 1..];
        p := p + 1;
      }
    }

    method ReadLong(arg: string, next: Option<string>) returns (used: bool)
      requires Valid() && IsLong(arg)
      modifies `errors, options.Values`has, options.Values`actual
      ensures (Seen(), used) == Long(Specs(), old(Seen()), arg[2..], next)
    {
      used := false;
      var p := FindEquals(arg);
      var name := arg[2..];
      if p < |arg| {
        assert arg[2..p] == name[..p - 2] && arg[p + 1..] == name[p - 1..];
        SetOptionTo(arg[2..p], arg[p + 1..]);
      } else if name !in options {
        errors := errors + [Undefined(name)];
      } else if options[name].spec.hasValue {
        match next
        case None =>
          errors := errors + [NeedsValue(name)];
        case Some(value) =>
          used := true;
          SetOptionTo(name, value);
      } else {
        SetOption(name);
      }
    }

    method ReadCluster(shorts: Shorts, arg: string, next: Option<string>) returns (used: bool)
      requires Valid() && |arg| > 1
      modifies `errors, options.Values`has, options.Values`actual
      ensures (Seen(), used) == Cluster(Specs(), shorts, old(Seen()), arg[1..], next)
    {
      used := false;
      var last := arg[1];
      var j := 2;
      ghost var front := arg[1..][..|arg| - 2];
      ghost var before := Seen();
      while j < |arg|
        invariant 2 <= j <= |arg| && last == arg[j - 1]
        invariant Letters(Specs(), shorts, Seen(), front[j - 2..]) == Letters(Specs(), shorts, before, front)
      {
        last := arg[j];
        assert front[j - 2..][1..] == front[j - 1..];
        SetLetter(shorts, arg[j - 1]);
        j := j + 1;
      }
      if next.Some? && last in shorts && shorts[last] != "" && shorts[last] in options && options[shorts[last]].spec.hasValue {
        SetOptionTo(shorts[last], next.value);
        used := true;
      } else {
        SetLetter(shorts, last);
      }
    }

    method ReadArgument(shorts: Shorts, arg: string, next: Option<string>) returns (used: bool)
      requires Valid()
      modifies `errors, `others, options.Values`has, options.Values`actual
      ensures (Seen(), used) == Argument(Specs(), shorts, old(Seen()), arg, next)
    {
      used := false;
      if IsLong(arg) {
        used := ReadLong(arg, next);
      } else if |arg| >= 1 && arg[0] == DASH {
        if |arg| > 1 {
          used := ReadCluster(shorts, arg, next);
        }
      } else {
        others := others + [arg];
      }
    }

    method BuildShorts() returns (found: ShortTable)
      requires Valid()
      ensures found == ShortsOf(Specs(), keys, map[])
    {
      var shorts: Shorts := map[];
      var k := 0;
      while k < |keys|
        invariant k <= |keys|
        invariant ShortsOf(Specs(), keys, map[]) == ShortsOf(Specs(), keys[k..], shorts)
      {
        assert keys[k] in options && keys[k..][1..] == keys[k + 1..];
        if keys[k] != "" {
          var initial := options[keys[k]].spec.short;
          if initial != NO_SHORT {
            if initial in shorts {
              return Clash(initial);
            }
            shorts := shorts[initial := keys[k]];
          }
        }
        k := k + 1;
      }
      found := Shorts(shorts);
    }

    method CheckMissing()
      requires Valid()
      modifies `errors
      ensures errors == old(errors) + Missed(Specs(), keys, Has())
    {
      hide Distinct;
      var k := 0;
      ghost var t, has, all := Specs(), Has(), Missed(Specs(), keys, Has());
      while k < |keys|
        invariant k <= |keys|
        invariant errors + Missed(t, keys[k..], has) == old(errors) + all
      {
        ghost var rest, was := keys[k..], errors;
        assert keys[k] in options && rest[1..] == keys[k + 1..] && rest[0] == keys[k];
        if !options[keys[k]].IsValid() {
          errors := errors + [Missing(keys[k])];
        }
        MissedStep(t, rest, has, was);
        k := k + 1;
      }
    }

    method ReadArguments(shorts: Shorts, argv: seq<string>)
      requires Valid() && argv != []
      modifies `errors, `others, options.Values`has, options.Values`actual
      ensures Seen() == Go(Specs(), shorts, old(Seen()), argv[1..])
    {
      hide Distinct, Argument;
      var i := 1;
      ghost var t, end := Specs(), Go(Specs(), shorts, Seen(), argv[1..]);
      while i < |argv|
        invariant 1 <= i <= |argv|
        invariant Go(t, shorts, Seen(), argv[i..]) == end
      {
        var next := if i + 1 < |argv| then Some(argv[i + 1]) else None;
        ghost var rest, before := argv[i..], Seen();
        assert rest[0] == argv[i] && next == Next(rest);
        var used := ReadArgument(shorts, argv[i], next);
        ArgumentKeepsErrors(t, shorts, before, argv[i], next);
        i := if used then i + 2 else i + 1;
        assert Rest(rest, used) == argv[i..];
      }
    }

    /** The arguments after the program name, then the options that are needed. */
    method ReadAndCheck(shorts: Shorts, argv: seq<string>)
      requires Valid() && argv != []
      modifies `errors, `others, options.Values`has, options.Values`actual
      ensures var read := Go(Specs(), shorts, old(Seen()), argv[1..]);
        Seen() == read.(errors := read.errors + Missed(Specs(), keys, read.has))
    {
      hide Distinct, Go, Missed;
      ghost var read := Go(Specs(), shorts, Seen(), argv[1..]);
      ReadArguments(shorts, argv);
      assert Seen() == read;
      CheckMissing();
    }

    /** The arguments after the program name, when the short options do not clash. */
    method ReadAll(argv: seq<string>)
      requires Valid() && argv != []
      modifies `errors, `others, options.Values`has, options.Values`actual
      ensures Seen() == Parse(Specs(), keys, old(Seen()), argv)
    {
      hide Distinct, Go, Missed, ShortsOf, Specs, Has, Actual, Valid;
      ghost var before, t := Seen(), Specs();
      errors, others := [], [];
      assert Seen() == Started(before);
      var found := BuildShorts();
      match found
      case Clash(c) =>
        errors := [AmbiguousShort(c)];
        assert Seen() == Complain(Started(before), AmbiguousShort(c));
      case Shorts(shorts) =>
        ReadAndCheck(shorts, argv);
    }

    /** No option that a letter can set has a name with the separator, if the letters do not clash. */
    ghost predicate IsPlain()
      requires Valid()
      reads `options, `keys, options.Values
    {
      ShortsOf(Specs(), keys, map[]).Shorts? ==> Plain(Specs(), ShortsOf(Specs(), keys, map[]).shorts)
    }

    /** The normal form of what follows the program name. */
    ghost function Normal(argv: seq<string>): seq<string>
      requires Valid()
      reads `options, `keys, options.Values
    {
      if argv != [] && ShortsOf(Specs(), keys, map[]).Shorts? then Normalise(Specs(), ShortsOf(Specs(), keys, map[]).shorts, argv[1..]) else []
    }

    lemma ReadsBack(n: string)
      requires n in options
      ensures n in Seen().has <==> options[n].has
      ensures n in Seen().actual <==> options[n].actual.Some?
      ensures n in Seen().actual ==> options[n].actual == Some(Seen().actual[n])
    {
    }

    /** The whole parse. Without complaint every option object has the value of the last argument of the normal
        form that gives it one, and is set exactly if it was or is mentioned. */
    method ParseArguments(argv: seq<string>) returns (ok: bool)
      requires Valid()
      modifies `errors, `others, `progName, options.Values`has, options.Values`actual
      ensures Seen() == Parse(Specs(), keys, old(Seen()), argv)
      ensures ok == (errors == [])
      ensures progName == if old(progName) == "" && argv != [] then argv[0] else old(progName)
      ensures ok && IsPlain() ==>
        && others == Operands(Normal(argv))
        && (forall n | n in options && options[n].spec.hasValue && options[n].spec.need :: options[n].has)
        && (forall n | n in options && EQUALS !in n ::
              && options[n].has == (old(options[n].has) || Mentions(Normal(argv), n))
              && options[n].actual == if Last(Normal(argv), n).Some? then Last(Normal(argv), n) else old(options[n].actual))
    {
      hide Distinct, Go, Missed, ShortsOf, Specs, Has, Actual, Plain, Told, Last, Mentions, Normalise, Operands, Parse;
      ghost var before := Seen();
      forall n | n in options
        ensures n in before.has <==> options[n].has
        ensures n in before.actual <==> options[n].actual.Some?
        ensures n in before.actual ==> options[n].actual == Some(before.actual[n])
      {
        ReadsBack(n);
      }
      ok := ParseAll(argv);
      KeysKnown();
      if ok && IsPlain() {
        forall n | n in options && EQUALS !in n
          ensures options[n].has == (old(options[n].has) || Mentions(Normal(argv), n))
          ensures options[n].actual == if Last(Normal(argv), n).Some? then Last(Normal(argv), n) else old(options[n].actual)
        {
          ParseTells(Specs(), keys, before, argv, n);
          ReadsBack(n);
          ToldMeans(before, Normal(argv), n, Seen());
        }
        NeededAreSet(argv, before);
      }
    }

    lemma KeysKnown()
      requires Valid()
      ensures Distinct(keys) && forall n | n in keys :: n in Specs()
    {
    }

    lemma NeededAreSet(argv: seq<string>, before: State)
      requires Valid() && argv != [] && IsPlain() && Seen() == Parse(Specs(), keys, before, argv) && errors == []
      ensures others == Operands(Normal(argv))
      ensures forall n | n in options && options[n].spec.hasValue && options[n].spec.need :: options[n].has
    {
      hide Go, Missed, ShortsOf, Plain, Told, Normalise, Operands, Parse;
      ParseTells(Specs(), keys, before, argv, "");
    }

    method ParseAll(argv: seq<string>) returns (ok: bool)
      requires Valid()
      modifies `errors, `others, `progName, options.Values`has, options.Values`actual
      ensures Seen() == Parse(Specs(), keys, old(Seen()), argv)
      ensures ok == (errors == []) && (argv == [] ==> !ok)
      ensures progName == if old(progName) == "" && argv != [] then argv[0] else old(progName)
    {
      hide Distinct, Go, Missed, ShortsOf, Specs, Has, Actual;
      if argv == [] {
        errors, others := [TooFewArguments], [];
      } else {
        if progName == "" {
          progName := argv[0];
        }
        ReadAll(argv);
      }
      ok := errors == [];
    }

    /** One string, split into tokens first; a string that does not split leaves everything but the complaints. */
    method ParseText(arg: string) returns (split: T.Tokens, ok: bool)
      requires Valid()
      modifies `errors, `others, `progName, options.Values`has, options.Values`actual
      ensures split == T.Scan(arg, [], "", false)
      ensures split.Tokens? ==> Seen() == Parse(Specs(), keys, old(Seen()), split.args) && ok == (errors == [])
      ensures !split.Tokens? ==> !ok && Seen() == old(Seen()).(errors := errors) && progName == old(progName)
      ensures !split.Tokens? ==> errors == old(errors) + [if split.OpenQuote? then UnclosedQuote else TrailingBackslash]
    {
      split := T.Tokenize(arg);
      match split
      case Tokens(args) =>
        ok := ParseArguments(args);
      case OpenQuote =>
        errors := errors + [UnclosedQuote];
        ok := false;
      case DanglingBackslash =>
        errors := errors + [TrailingBackslash];
        ok := false;
    }
  }

  /** Spelling out the normal form of an argument vector gives one string that is parsed to the same result. */
  lemma TextOfNormalForm(t: Table, names: seq<string>, s: State, argv: seq<string>, styles: seq<T.Style>)
    requires forall n | n in names :: n in t
    requires Distinct(names) && argv != []
    requires ShortsOf(t, names, map[]).Shorts? ==> Plain(t, ShortsOf(t, names, map[]).shorts)
    requires Parse(t, names, s, argv).errors == []
    requires ShortsOf(t, names, map[]).Shorts? ==>
      |styles| == 1 + |Normalise(t, ShortsOf(t, names, map[]).shorts, argv[1..])|
    ensures ShortsOf(t, names, map[]).Shorts?
    ensures var tokens := [argv[0]] + Normalise(t, ShortsOf(t, names, map[]).shorts, argv[1..]);
      tokens[|tokens| - 1] != "" ==>
        && T.Scan(T.Join(tokens, styles), [], "", false) == T.Tokens(tokens)
        && Parse(t, names, s, tokens) == Parse(t, names, s, argv)
  {
    ParseNormalForm(t, names, s, argv);
    var tokens := [argv[0]] + Normalise(t, ShortsOf(t, names, map[]).shorts, argv[1..]);
    T.TokenizeInvertsJoin(tokens, styles);
  }
}
