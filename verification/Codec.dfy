/** The wire format on values: numbers of a fixed width, strings with a 16-bit length, and records that
    are the concatenation of their fields. Decoding works on targets, as the operators do: a number is
    overwritten, a string receives the characters in front of what it holds. */
module Codec {

  newtype byte = x: int | 0 <= x < 256

  type Bytes = seq<byte>

  /** What a read past the end of a buffer, or a copy past the end of a string, finds. */
  type Beyond = nat -> byte

  datatype ByteOrder = BigEndian | LittleEndian

  datatype Value =
    | Num(width: nat, n: nat)
    | Str(s: Bytes)
    | Rec(fields: seq<Value>)

  const MARK := 2           // the width of a string's length
  const STRING_LIMIT := 0x1_0000

  // ---- numbers ----

  function Pow256(w: nat): (p: nat)
    ensures p > 0
  {
    if w == 0 then 1 else 256 * Pow256(w - 1)
  }

  /** The object representation of a number on the host. */
  function LeBytes(n: nat, w: nat): (b: Bytes)
    ensures |b| == w
  {
    if w == 0 then [] else [(n % 256) as byte] + LeBytes(n / 256, w - 1)
  }

  function FromLe(b: Bytes): nat
  {
    if b == [] then 0 else b[0] as nat + 256 * FromLe(b[1..])
  }

  lemma {:induction false} LeRoundTrip(n: nat, w: nat)
    requires n < Pow256(w)
    ensures FromLe(LeBytes(n, w)) == n
  {
    if w > 0 {
      LeRoundTrip(n / 256, w - 1);
      assert LeBytes(n, w)[1..] == LeBytes(n / 256, w - 1);
    }
  }

  function Reverse(b: Bytes): (r: Bytes)
    ensures |r| == |b|
    ensures forall i :: 0 <= i < |b| ==> r[i] == b[|b| - 1 - i]
  {
    if b == [] then [] else Reverse(b[1..]) + [b[0]]
  }

  lemma ReverseTwice(b: Bytes)
    ensures Reverse(Reverse(b)) == b
  {
  }

  function Ordered(order: ByteOrder, b: Bytes): (r: Bytes)
    ensures |r| == |b|
  {
    if order == BigEndian then Reverse(b) else b
  }

  lemma OrderedTwice(order: ByteOrder, b: Bytes)
    ensures Ordered(order, Ordered(order, b)) == b
  {
    ReverseTwice(b);
  }

  // ---- strings ----

  function StringLength(s: Bytes): (len: nat)
    ensures len <= |s| && len < STRING_LIMIT
  {
    |s| % STRING_LIMIT
  }

  /** The number of characters that are copied: in big-endian order the length has been reversed in
      place by then. */
  function CopyLength(order: ByteOrder, s: Bytes): nat
  {
    FromLe(Ordered(order, LeBytes(StringLength(s), MARK)))
  }

  /** The first `len` bytes at a string, past its end where `len` is larger. */
  function Copied(s: Bytes, beyond: Beyond, len: nat): (b: Bytes)
    ensures |b| == len
  {
    seq(len, i requires 0 <= i < len => if i < |s| then s[i] else beyond(i))
  }

  function EncodeString(order: ByteOrder, s: Bytes, beyond: Beyond): Bytes
  {
    Ordered(order, LeBytes(StringLength(s), MARK)) + Copied(s, beyond, CopyLength(order, s))
  }

  /** A length that reads the same in both byte orders. */
  predicate Symmetric(s: Bytes)
  {
    StringLength(s) % 256 == StringLength(s) / 256
  }

  lemma CopyLengths(s: Bytes)
    ensures CopyLength(LittleEndian, s) == StringLength(s)
    ensures CopyLength(BigEndian, s) == StringLength(s) % 256 * 256 + StringLength(s) / 256
  {
    var len := StringLength(s);
    LeRoundTrip(len, 2) by { assert Pow256(2) == 0x1_0000 by { assert Pow256(1) == 256; } }
    var lo, hi := (len % 256) as byte, (len / 256 % 256) as byte;
    assert LeBytes(len / 256, 1) == [hi] + LeBytes(len / 256 / 256, 0);
    assert LeBytes(len, 2) == [lo] + LeBytes(len / 256, 1) == [lo, hi];
    assert Reverse([lo, hi]) == [hi, lo];
    assert FromLe([hi, lo]) == hi as nat + 256 * FromLe([lo]) by { assert [hi, lo][1..] == [lo]; }
    assert FromLe([lo]) == lo as nat;
  }

  // ---- values ----

  function Encode(order: ByteOrder, v: Value, beyond: Beyond): Bytes
  {
    match v
    case Num(w, n) => Ordered(order, LeBytes(n, w))
    case Str(s) => EncodeString(order, s, beyond)
    case Rec(fields) => EncodeAll(order, fields, beyond)
  }

  function EncodeAll(order: ByteOrder, fields: seq<Value>, beyond: Beyond): Bytes
  {
    if fields == [] then [] else Encode(order, fields[0], beyond) + EncodeAll(order, fields[1..], beyond)
  }

  // ---- what the bytes are ----

  /** Digit `i` of a number to base 256. */
  function Digit(n: nat, i: nat): (d: nat)
    ensures d < 256
    ensures i == 0 ==> d == n % 256
    ensures i == 1 ==> d == n / 0x100 % 256
    ensures i == 2 ==> d == n / 0x1_0000 % 256
    ensures i == 3 ==> d == n / 0x100_0000 % 256
  {
    if i == 0 then n % 256 else Digit(n / 256, i - 1)
  }

  /** A number is written as its digits to base 256, the lowest first in little-endian order and last in
      big-endian order. */
  lemma {:induction false} NumberLayout(order: ByteOrder, w: nat, n: nat, i: nat, beyond: Beyond)
    requires i < w
    ensures var b := Encode(order, Num(w, n), beyond);
      |b| == w && b[if order == LittleEndian then i else w - 1 - i] as nat == Digit(n, i)
    decreases i
  {
    if i > 0 {
      NumberLayout(order, w - 1, n / 256, i - 1, beyond);
      assert LeBytes(n, w)[i] == LeBytes(n / 256, w - 1)[i - 1];
    }
  }

  /** A string is written as two bytes for its length, the lower one first, and then its characters; of a string
      that is too long, only as many as the length says. */
  lemma StringLayout(s: Bytes, beyond: Beyond)
    ensures var len := |s| % 0x1_0000;
      Encode(LittleEndian, Str(s), beyond) == [(len % 256) as byte, (len / 256) as byte] + s[..len]
  {
    var len := |s| % 0x1_0000;
    CopyLengths(s);
    assert LeBytes(len, 2) == [(len % 256) as byte] + LeBytes(len / 256, 1);
    assert LeBytes(len / 256, 1) == [(len / 256 % 256) as byte] + LeBytes(len / 256 / 256, 0);
    assert LeBytes(len, 2) == [(len % 256) as byte, (len / 256) as byte];
    assert Copied(s, beyond, len) == s[..len];
  }

  /** A record is written as its fields in order, with nothing in between. */
  lemma {:induction false} RecordLayout(order: ByteOrder, a: seq<Value>, b: seq<Value>, v: Value, beyond: Beyond)
    ensures Encode(order, Rec([]), beyond) == [] && Encode(order, Rec([v]), beyond) == Encode(order, v, beyond)
    ensures Encode(order, Rec(a + b), beyond) == Encode(order, Rec(a), beyond) + Encode(order, Rec(b), beyond)
    decreases |a|
  {
    assert EncodeAll(order, [v], beyond) == Encode(order, v, beyond) + EncodeAll(order, [v][1..], beyond);
    if a == [] {
      assert a + b == b;
    } else {
      assert (a + b)[1..] == a[1..] + b;
      RecordLayout(order, a[1..], b, v, beyond);
    }
  }

  /** The `len` bytes at a position of a buffer. */
  function Peek(buf: Bytes, beyond: Beyond, pos: nat, len: nat): (b: Bytes)
    ensures |b| == len
  {
    seq(len, i requires 0 <= i < len => if pos + i < |buf| then buf[pos + i] else beyond(pos + i))
  }

  /** What a target holds after reading from a position, and the position after it. A number at the end
      of the buffer is left alone; a string is read without looking for the end. */
  function DecodeInto(order: ByteOrder, target: Value, buf: Bytes, beyond: Beyond, pos: nat): (Value, nat)
  {
    match target
    case Num(w, n) =>
      if pos >= |buf| then (target, pos)
      else (Num(w, FromLe(Ordered(order, Peek(buf, beyond, pos, w)))), pos + w)
    case Str(s) =>
      var len := FromLe(Ordered(order, Peek(buf, beyond, pos, MARK)));
      (Str(Peek(buf, beyond, pos + MARK, len) + s), pos + MARK + len)
    case Rec(fields) =>
      var (fields', pos') := DecodeAllInto(order, fields, buf, beyond, pos);
      (Rec(fields'), pos')
  }

  function DecodeAllInto(order: ByteOrder, targets: seq<Value>, buf: Bytes, beyond: Beyond, pos: nat): (seq<Value>, nat)
  {
    if targets == [] then ([], pos)
    else
      var (v, next) := DecodeInto(order, targets[0], buf, beyond, pos);
      var (rest, last) := DecodeAllInto(order, targets[1..], buf, beyond, next);
      ([v] + rest, last)
  }

  /** A target of the shape of a value whose numbers are in range. */
  predicate Accepts(target: Value, v: Value)
  {
    match (target, v)
    case (Num(w, _), Num(w', n)) => w == w' && 0 < w && n < Pow256(w)
    case (Str(_), Str(_)) => true
    case (Rec(ts), Rec(vs)) => AcceptsAll(ts, vs)
    case _ => false
  }

  predicate AcceptsAll(targets: seq<Value>, vs: seq<Value>)
  {
    |targets| == |vs| && (targets != [] ==> Accepts(targets[0], vs[0]) && AcceptsAll(targets[1..], vs[1..]))
  }

  /** Every string survives the byte order. */
  predicate Portable(order: ByteOrder, v: Value)
  {
    match v
    case Num(_, _) => true
    case Str(s) => order == LittleEndian || Symmetric(s)
    case Rec(fields) => PortableAll(order, fields)
  }

  predicate PortableAll(order: ByteOrder, fields: seq<Value>)
  {
    fields == [] || (Portable(order, fields[0]) && PortableAll(order, fields[1..]))
  }

  /** What reading the encoding of `v` makes of a target: a string contributes its first
      |s| mod 65536 characters, in front of those the target holds. */
  function Received(target: Value, v: Value): Value
    requires Accepts(target, v)
  {
    match v
    case Num(_, _) => v
    case Str(s) => Str(s[..StringLength(s)] + target.s)
    case Rec(vs) => Rec(ReceivedAll(target.fields, vs))
  }

  function ReceivedAll(targets: seq<Value>, vs: seq<Value>): seq<Value>
    requires AcceptsAll(targets, vs)
  {
    if vs == [] then [] else [Received(targets[0], vs[0])] + ReceivedAll(targets[1..], vs[1..])
  }

  lemma PeekMiddle(prefix: Bytes, x: Bytes, suffix: Bytes, beyond: Beyond)
    ensures Peek(prefix + x + suffix, beyond, |prefix|, |x|) == x
  {
  }

  lemma CopyOfSymmetric(order: ByteOrder, s: Bytes, beyond: Beyond)
    requires order == LittleEndian || Symmetric(s)
    ensures CopyLength(order, s) == StringLength(s)
    ensures Copied(s, beyond, StringLength(s)) == s[..StringLength(s)]
  {
    CopyLengths(s);
  }

  /** The prefix of an encoded string reads back as the length, whatever follows. */
  lemma MarkReadsBack(order: ByteOrder, s: Bytes, prefix: Bytes, rest: Bytes, beyond: Beyond)
    ensures var buf := prefix + Ordered(order, LeBytes(StringLength(s), MARK)) + rest;
            FromLe(Ordered(order, Peek(buf, beyond, |prefix|, MARK))) == StringLength(s)
  {
    var mark := Ordered(order, LeBytes(StringLength(s), MARK));
    PeekMiddle(prefix, mark, rest, beyond);
    OrderedTwice(order, LeBytes(StringLength(s), MARK));
    LeRoundTrip(StringLength(s), MARK) by { assert Pow256(2) == 256 * Pow256(1); }
  }

  lemma StringReadsBack(order: ByteOrder, held: Bytes, s: Bytes, prefix: Bytes, suffix: Bytes, out: Beyond, inn: Beyond)
    requires order == LittleEndian || Symmetric(s)
    ensures var code := EncodeString(order, s, out);
            DecodeInto(order, Str(held), prefix + code + suffix, inn, |prefix|) == (Str(s[..StringLength(s)] + held), |prefix| + |code|)
  {
    var mark, text := Ordered(order, LeBytes(StringLength(s), MARK)), s[..StringLength(s)];
    CopyOfSymmetric(order, s, out);
    assert prefix + EncodeString(order, s, out) + suffix == prefix + mark + (text + suffix);
    MarkReadsBack(order, s, prefix, text + suffix, inn);
    assert prefix + mark + (text + suffix) == (prefix + mark) + text + suffix;
    PeekMiddle(prefix + mark, text, suffix, inn);
  }

  lemma NumReadsBack(order: ByteOrder, held: nat, w: nat, n: nat, prefix: Bytes, suffix: Bytes, inn: Beyond)
    requires 0 < w && n < Pow256(w)
    ensures var code := Ordered(order, LeBytes(n, w));
            DecodeInto(order, Num(w, held), prefix + code + suffix, inn, |prefix|) == (Num(w, n), |prefix| + |code|)
  {
    PeekMiddle(prefix, Ordered(order, LeBytes(n, w)), suffix, inn);
    OrderedTwice(order, LeBytes(n, w));
    LeRoundTrip(n, w);
  }

  /** Reading an encoding gives the value back and stops right after it, in front of any suffix and
      behind any prefix. */
  lemma {:induction false} ReadsBack(order: ByteOrder, target: Value, v: Value, prefix: Bytes, suffix: Bytes, out: Beyond, inn: Beyond)
    requires Accepts(target, v) && Portable(order, v)
    ensures var code := Encode(order, v, out);
            DecodeInto(order, target, prefix + code + suffix, inn, |prefix|) == (Received(target, v), |prefix| + |code|)
    decreases v
  {
    hide EncodeAll, DecodeAllInto, ReceivedAll, AcceptsAll, PortableAll, EncodeString;
    match v
    case Num(w, n) =>
      NumReadsBack(order, target.n, w, n, prefix, suffix, inn);
    case Str(s) =>
      StringReadsBack(order, target.s, s, prefix, suffix, out, inn);
    case Rec(fields) =>
      ReadsAllBack(order, target.fields, fields, prefix, suffix, out, inn);
  }

  lemma {:induction false} ReadsAllBack(order: ByteOrder, targets: seq<Value>, vs: seq<Value>, prefix: Bytes, suffix: Bytes, out: Beyond, inn: Beyond)
    requires AcceptsAll(targets, vs) && PortableAll(order, vs)
    ensures var code := EncodeAll(order, vs, out);
            DecodeAllInto(order, targets, prefix + code + suffix, inn, |prefix|) == (ReceivedAll(targets, vs), |prefix| + |code|)
    decreases vs
  {
    hide Encode, DecodeInto, Accepts, Portable, Received;
    if vs != [] {
      var first, rest := Encode(order, vs[0], out), EncodeAll(order, vs[1..], out);
      var buf := prefix + (first + rest) + suffix;
      assert buf == prefix + first + (rest + suffix);
      ReadsBack(order, targets[0], vs[0], prefix, rest + suffix, out, inn);
      assert buf == (prefix + first) + rest + suffix;
      ReadsAllBack(order, targets[1..], vs[1..], prefix + first, suffix, out, inn);
    }
  }

  // ---- what the round trip amounts to ----

  /** A target whose strings are empty. */
  predicate Fresh(target: Value)
  {
    match target
    case Num(_, _) => true
    case Str(s) => s == []
    case Rec(fields) => FreshAll(fields)
  }

  predicate FreshAll(targets: seq<Value>)
  {
    targets == [] || (Fresh(targets[0]) && FreshAll(targets[1..]))
  }

  /** A value whose strings fit their 16-bit length. */
  predicate Whole(v: Value)
  {
    match v
    case Num(_, _) => true
    case Str(s) => |s| < STRING_LIMIT
    case Rec(fields) => WholeAll(fields)
  }

  predicate WholeAll(vs: seq<Value>)
  {
    vs == [] || (Whole(vs[0]) && WholeAll(vs[1..]))
  }

  /** A fresh target receives a whole value unchanged. */
  lemma {:induction false} ReceivedWhole(target: Value, v: Value)
    requires Accepts(target, v) && Fresh(target) && Whole(v)
    ensures Received(target, v) == v
    decreases v
  {
    match v
    case Num(_, _) =>
    case Str(s) =>
    case Rec(fields) => ReceivedAllWhole(target.fields, fields);
  }

  lemma {:induction false} ReceivedAllWhole(targets: seq<Value>, vs: seq<Value>)
    requires AcceptsAll(targets, vs) && FreshAll(targets) && WholeAll(vs)
    ensures ReceivedAll(targets, vs) == vs
    decreases vs
  {
    if vs != [] {
      ReceivedWhole(targets[0], vs[0]);
      ReceivedAllWhole(targets[1..], vs[1..]);
    }
  }

  /** Encodings of one shape are prefix-free: neither can be continued into the other. */
  lemma PrefixFree(order: ByteOrder, target: Value, v: Value, w: Value, x: Bytes, y: Bytes, beyond: Beyond)
    requires Accepts(target, v) && Accepts(target, w) && Portable(order, v) && Portable(order, w)
    requires Encode(order, v, beyond) + x == Encode(order, w, beyond) + y
    ensures Encode(order, v, beyond) == Encode(order, w, beyond) && x == y
    ensures Received(target, v) == Received(target, w)
    ensures Fresh(target) && Whole(v) && Whole(w) ==> v == w
  {
    hide Encode, DecodeInto, Received, Accepts, Portable, Fresh, Whole;
    var cv, cw := Encode(order, v, beyond), Encode(order, w, beyond);
    ReadsBack(order, target, v, [], x, beyond, beyond);
    ReadsBack(order, target, w, [], y, beyond, beyond);
    assert [] + cv + x == cv + x && [] + cw + y == cw + y;
    assert cv == (cv + x)[..|cv|] && cw == (cw + y)[..|cw|];
    assert x == (cv + x)[|cv|..] && y == (cw + y)[|cw|..];
    if Fresh(target) && Whole(v) && Whole(w) {
      ReceivedWhole(target, v);
      ReceivedWhole(target, w);
    }
  }

  // ---- strings in big-endian order ----

  /** A string written in big-endian order is followed by the next field in the right place exactly when
      its length reads the same both ways. */
  lemma BigEndianCursor(s: Bytes, prefix: Bytes, suffix: Bytes, out: Beyond, inn: Beyond)
    ensures var code := EncodeString(BigEndian, s, out);
            DecodeInto(BigEndian, Str([]), prefix + code + suffix, inn, |prefix|).1 == |prefix| + |code| <==> Symmetric(s)
  {
    var mark := Ordered(BigEndian, LeBytes(StringLength(s), MARK));
    var text := Copied(s, out, CopyLength(BigEndian, s));
    assert prefix + EncodeString(BigEndian, s, out) + suffix == prefix + mark + (text + suffix);
    MarkReadsBack(BigEndian, s, prefix, text + suffix, inn);
    CopyLengths(s);
  }

  /** What a big-endian read finds: the characters that were copied, then whatever follows them. */
  lemma BigEndianRead(s: Bytes, suffix: Bytes, out: Beyond, inn: Beyond)
    ensures var code := EncodeString(BigEndian, s, out);
            var text := Copied(s, out, CopyLength(BigEndian, s)) + suffix;
            && code + suffix == Ordered(BigEndian, LeBytes(StringLength(s), MARK)) + text
            && DecodeInto(BigEndian, Str([]), code + suffix, inn, 0)
               == (Str(Peek(code + suffix, inn, MARK, StringLength(s))), MARK + StringLength(s))
  {
    var mark := Ordered(BigEndian, LeBytes(StringLength(s), MARK));
    var text := Copied(s, out, CopyLength(BigEndian, s)) + suffix;
    assert EncodeString(BigEndian, s, out) + suffix == [] + mark + text;
    MarkReadsBack(BigEndian, s, [], text, inn);
    var got := Peek(EncodeString(BigEndian, s, out) + suffix, inn, MARK, StringLength(s));
    assert got + [] == got;
  }

  /** The string itself comes back, whatever follows, exactly when no fewer characters are copied than
      the length announces. */
  lemma BigEndianText(s: Bytes, out: Beyond, inn: Beyond)
    ensures (forall suffix: Bytes :: DecodeInto(BigEndian, Str([]), EncodeString(BigEndian, s, out) + suffix, inn, 0).0 == Str(s[..StringLength(s)]))
       <==> StringLength(s) <= CopyLength(BigEndian, s)
  {
    var len, copied := StringLength(s), CopyLength(BigEndian, s);
    var code := EncodeString(BigEndian, s, out);
    hide DecodeInto, EncodeString;
    if copied < len {
      var suffix: Bytes := [if s[copied] == 0 then 1 else 0];
      BigEndianRead(s, suffix, out, inn);
      assert Peek(code + suffix, inn, MARK, len)[copied] == suffix[0];
      assert s[..len][copied] != suffix[0];
    } else {
      forall suffix: Bytes
        ensures DecodeInto(BigEndian, Str([]), code + suffix, inn, 0).0 == Str(s[..len])
      {
        BigEndianRead(s, suffix, out, inn);
        assert Peek(code + suffix, inn, MARK, len) == s[..len];
      }
    }
  }

  /** The string "a" occupies 258 bytes in big-endian order and 3 are read back. */
  lemma BigEndianLetter(out: Beyond, inn: Beyond)
    ensures var code := EncodeString(BigEndian, [97], out);
            |code| == 258 && DecodeInto(BigEndian, Str([]), code, inn, 0) == (Str([97]), 3)
  {
    var s: Bytes := [97];
    var code := EncodeString(BigEndian, s, out);
    CopyLengths(s);
    BigEndianRead(s, [], out, inn);
    assert code + [] == code;
    assert Peek(code, inn, MARK, 1) == [97];
  }
}
