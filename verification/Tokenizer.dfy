/** Splitting a command line into tokens, and spelling tokens so that they are split back. */
module Tokenizer {

  const QUOTE := '\"'
  const BACKSLASH := '\\'
  const SPACE := ' '

  datatype Tokens = Tokens(args: seq<string>) | DanglingBackslash | OpenQuote

  /** The rest of a scan: the finished tokens, the one being read, and whether a quote is open. */
  function Scan(s: string, args: seq<string>, buf: string, inQuote: bool): Tokens
  {
    if s == "" then
      if inQuote then OpenQuote
      else Tokens(if buf == "" then args else args + [buf])
    else if s[0] == QUOTE then Scan(s[1..], args, buf, !inQuote)
    else if s[0] == SPACE && !inQuote then Scan(s[1..], args + [buf], "", inQuote)
    else if s[0] == BACKSLASH then
      if |s| == 1 then DanglingBackslash else Scan(s[2..], args, buf + [s[1]], inQuote)
    else Scan(s[1..], args, buf + [s[0]], inQuote)
  }

  /** The loop over the characters, which skips ahead at a backslash. */
  method Tokenize(arg: string) returns (result: Tokens)
    ensures result == Scan(arg, [], "", false)
  {
    var args: seq<string>, buf: string, inQuote := [], "", false;
    var i := 0;
    while i < |arg|
      invariant i <= |arg|
      invariant Scan(arg[i..], args, buf, inQuote) == Scan(arg, [], "", false)
    {
      ghost var rest := arg[i..];
      assert rest[1..] == arg[i + 1..];
      if arg[i] == QUOTE {
        inQuote := !inQuote;
      } else if arg[i] == SPACE && !inQuote {
        args := args + [buf];
        buf := "";
      } else {
        if arg[i] == BACKSLASH {
          i := i + 1;
          if i >= |arg| {
            return DanglingBackslash;
          }
          assert rest[2..] == arg[i + 1..];
        }
        buf := buf + [arg[i]];
      }
      i := i + 1;
    }
    if inQuote {
      return OpenQuote;
    }
    if |buf| > 0 {
      args := args + [buf];
    }
    return Tokens(args);
  }

  // ---- when it fails ----

  /** The last character is a backslash that no other backslash escapes. */
  predicate Dangles(s: string)
  {
    s != "" && if s[0] == BACKSLASH then |s| == 1 || Dangles(s[2..]) else Dangles(s[1..])
  }

  /** The number of quotes that no backslash escapes. */
  function Quotes(s: string): nat
  {
    if s == "" then 0
    else if s[0] == BACKSLASH then (if |s| == 1 then 0 else Quotes(s[2..]))
    else (if s[0] == QUOTE then 1 else 0) + Quotes(s[1..])
  }

  lemma {:induction false} ScanFails(s: string, args: seq<string>, buf: string, inQuote: bool)
    ensures Scan(s, args, buf, inQuote).DanglingBackslash? <==> Dangles(s)
    ensures Scan(s, args, buf, inQuote).OpenQuote? <==> !Dangles(s) && (Quotes(s) % 2 == 1) != inQuote
    decreases |s|
  {
    if s != "" {
      if s[0] == QUOTE {
        ScanFails(s[1..], args, buf, !inQuote);
      } else if s[0] == SPACE && !inQuote {
        ScanFails(s[1..], args + [buf], "", inQuote);
      } else if s[0] == BACKSLASH {
        if |s| > 1 { ScanFails(s[2..], args, buf + [s[1]], inQuote); }
      } else {
        ScanFails(s[1..], args, buf + [s[0]], inQuote);
      }
    }
  }

  /** A command line is refused exactly for a dangling backslash or an odd number of unescaped quotes. */
  lemma TokenizeFailsExactly(s: string)
    ensures !Scan(s, [], "", false).Tokens? <==> Dangles(s) || Quotes(s) % 2 == 1
    ensures Scan(s, [], "", false).DanglingBackslash? <==> Dangles(s)
  {
    ScanFails(s, [], "", false);
  }

  // ---- spelling tokens ----

  /** A backslash before every character, the whole in quotes, or a backslash only where one is needed. */
  datatype Style = Backslashes | Quoted | Bare

  predicate NeedsBackslash(c: char, style: Style)
  {
    style == Backslashes || c == QUOTE || c == BACKSLASH || (style == Bare && c == SPACE)
  }

  function Escape(token: string, style: Style): string
  {
    if token == "" then ""
    else if NeedsBackslash(token[0], style) then [BACKSLASH, token[0]] + Escape(token[1..], style)
    else [token[0]] + Escape(token[1..], style)
  }

  function Spell(token: string, style: Style): string
  {
    if style == Quoted then [QUOTE] + Escape(token, style) + [QUOTE] else Escape(token, style)
  }

  /** The spellings, with a space between one and the next. */
  function Join(tokens: seq<string>, styles: seq<Style>): string
    requires |styles| == |tokens|
  {
    if tokens == [] then ""
    else if |tokens| == 1 then Spell(tokens[0], styles[0])
    else Spell(tokens[0], styles[0]) + [SPACE] + Join(tokens[1..], styles[1..])
  }

  lemma {:induction false} ScanEscaped(token: string, style: Style, rest: string, args: seq<string>, buf: string)
    ensures Scan(Escape(token, style) + rest, args, buf, style == Quoted) == Scan(rest, args, buf + token, style == Quoted)
    decreases |token|
  {
    var s := Escape(token, style) + rest;
    if token == "" {
      assert s == rest && buf + token == buf;
    } else {
      var tail := Escape(token[1..], style) + rest;
      ScanEscaped(token[1..], style, rest, args, buf + [token[0]]);
      assert buf + [token[0]] + token[1..] == buf + token;
      if NeedsBackslash(token[0], style) {
        assert s == [BACKSLASH, token[0]] + tail;
        assert s[2..] == tail;
      } else {
        assert s == [token[0]] + tail;
        assert s[1..] == tail;
      }
    }
  }

  lemma ScanSpelled(token: string, style: Style, rest: string, args: seq<string>, buf: string)
    ensures Scan(Spell(token, style) + rest, args, buf, false) == Scan(rest, args, buf + token, false)
  {
    if style == Quoted {
      var inner := Escape(token, style) + ([QUOTE] + rest);
      assert Spell(token, style) + rest == [QUOTE] + inner;
      assert ([QUOTE] + inner)[1..] == inner;
      ScanEscaped(token, style, [QUOTE] + rest, args, buf);
      assert ([QUOTE] + rest)[1..] == rest;
    } else {
      ScanEscaped(token, style, rest, args, buf);
    }
  }

  /** What splitting keeps of a token list: an empty last token gets lost. */
  function Kept(tokens: seq<string>): seq<string>
  {
    if tokens != [] && tokens[|tokens| - 1] == "" then tokens[..|tokens| - 1] else tokens
  }

  lemma ScanSpelledFirst(token: string, style: Style, rest: string, args: seq<string>)
    ensures Scan(Spell(token, style) + ([SPACE] + rest), args, "", false) == Scan(rest, args + [token], "", false)
  {
    hide Spell;
    ScanSpelled(token, style, [SPACE] + rest, args, "");
    assert "" + token == token && ([SPACE] + rest)[1..] == rest;
  }

  lemma ScanSpelledLast(token: string, style: Style, args: seq<string>)
    ensures Scan(Spell(token, style), args, "", false) == Tokens(if token == "" then args else args + [token])
  {
    hide Spell;
    assert Spell(token, style) + "" == Spell(token, style);
    ScanSpelled(token, style, "", args, "");
    assert "" + token == token;
  }

  lemma {:induction false} ScanJoined(tokens: seq<string>, styles: seq<Style>, args: seq<string>)
    requires |styles| == |tokens| > 0
    ensures Scan(Join(tokens, styles), args, "", false) == Tokens(args + Kept(tokens))
    decreases |tokens|
  {
    hide Spell, Scan;
    if |tokens| == 1 {
      ScanSpelledLast(tokens[0], styles[0], args);
      assert tokens == [tokens[0]];
      assert args + [] == args;
    } else {
      var rest := Join(tokens[1..], styles[1..]);
      assert Join(tokens, styles) == Spell(tokens[0], styles[0]) + ([SPACE] + rest);
      ScanSpelledFirst(tokens[0], styles[0], rest, args);
      ScanJoined(tokens[1..], styles[1..], args + [tokens[0]]);
      assert Kept(tokens) == [tokens[0]] + Kept(tokens[1..]);
      assert args + [tokens[0]] + Kept(tokens[1..]) == args + Kept(tokens);
    }
  }

  /** Spelled tokens are split back, however each is spelled; only an empty last token gets lost. */
  lemma TokenizeInvertsJoin(tokens: seq<string>, styles: seq<Style>)
    requires |styles| == |tokens|
    ensures Scan(Join(tokens, styles), [], "", false) == Tokens(Kept(tokens))
    ensures Kept(tokens) == tokens <==> tokens == [] || tokens[|tokens| - 1] != ""
  {
    if tokens != [] {
      ScanJoined(tokens, styles, []);
      assert [] + Kept(tokens) == Kept(tokens);
    }
  }

  // ---- plain text ----

  predicate PlainText(s: string)
  {
    QUOTE !in s && BACKSLASH !in s
  }

  /** Every token with a space behind it. */
  function Spaced(tokens: seq<string>): string
  {
    if tokens == [] then "" else Spaced(tokens[..|tokens| - 1]) + tokens[|tokens| - 1] + [SPACE]
  }

  predicate NoSpaces(tokens: seq<string>)
  {
    forall i :: 0 <= i < |tokens| ==> SPACE !in tokens[i]
  }

  lemma {:induction false} ScanPlain(s: string, args: seq<string>, buf: string)
    requires PlainText(s) && NoSpaces(args) && SPACE !in buf
    ensures var r := Scan(s, args, buf, false);
      && r.Tokens? && NoSpaces(r.args)
      && var text := Spaced(args) + buf + s;
         Spaced(r.args) == if text == "" || text[|text| - 1] == SPACE then text else text + [SPACE]
    decreases |s|
  {
    var text := Spaced(args) + buf + s;
    if s == "" {
      assert text == Spaced(args) + buf;
      if buf == "" {
        assert text == Spaced(args);
      } else {
        assert (args + [buf])[..|args|] == args;
        assert text[|text| - 1] == buf[|buf| - 1];
      }
    } else if s[0] == SPACE {
      assert (args + [buf])[..|args|] == args;
      assert Spaced(args + [buf]) + "" + s[1..] == text;
      ScanPlain(s[1..], args + [buf], "");
    } else {
      assert s[0] != QUOTE && s[0] != BACKSLASH;
      assert Spaced(args) + (buf + [s[0]]) + s[1..] == text;
      ScanPlain(s[1..], args, buf + [s[0]]);
    }
  }

  /** Text without quote and backslash is split at its spaces and nowhere else: no token has one, and the
      tokens, each followed by a space, give the text back, which need not end in one. */
  lemma PlainTextIsSplit(s: string)
    requires PlainText(s)
    ensures var r := Scan(s, [], "", false);
      && r.Tokens? && NoSpaces(r.args)
      && Spaced(r.args) == if s == "" || s[|s| - 1] == SPACE then s else s + [SPACE]
  {
    ScanPlain(s, [], "");
    assert Spaced([]) + "" + s == s;
  }

  lemma OneToken(s: string)
    requires PlainText(s) && SPACE !in s && s != ""
    ensures Scan(s, [], "", false) == Tokens([s])
  {
    BareIsItself(s);
    assert Join([s], [Bare]) == s;
    TokenizeInvertsJoin([s], [Bare]);
  }

  lemma {:induction false} BareIsItself(s: string)
    requires PlainText(s) && SPACE !in s
    ensures Escape(s, Bare) == s
    decreases |s|
  {
    if s != "" {
      BareIsItself(s[1..]);
      assert s == [s[0]] + s[1..];
    }
  }
}
