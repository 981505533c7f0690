/** The cursor over a growing byte buffer, with its operators proved against the codec on values. */
module Serializers {
  import opened Codec

  class Serializer {
    const order: ByteOrder
    var buffer: Bytes
    var curpos: nat

    constructor (order: ByteOrder := LittleEndian)
      ensures this.order == order && buffer == [] && curpos == 0
    {
      this.order, buffer, curpos := order, [], 0;
    }

    constructor FromBytes(bytes: Bytes, order: ByteOrder := LittleEndian)
      ensures this.order == order && buffer == bytes && curpos == 0
    {
      this.order, buffer, curpos := order, bytes, 0;
    }

    method Reset()
      modifies `curpos
      ensures curpos == 0
    {
      curpos := 0;
    }

    method Clear()
      modifies `buffer, `curpos
      ensures buffer == [] && curpos == 0
    {
      buffer := [];
      Reset();
    }

    /** Reverses the bytes in place when the order asks for it. */
    method ByteOrderer(d: array<byte>)
      modifies d
      ensures d[..] == Ordered(order, old(d[..]))
    {
      if order == BigEndian {
        ghost var was := d[..];
        var i, j := 0, d.Length;
        while i + 1 < j
          invariant 0 <= i <= j <= d.Length && i + j == d.Length
          invariant forall k :: 0 <= k < i || j <= k < d.Length ==> d[k] == was[d.Length - 1 - k]
          invariant forall k :: i <= k < j ==> d[k] == was[k]
        {
          j := j - 1;
          d[i], d[j] := d[j], d[i];
          i := i + 1;
        }
        assert d[..] == Reverse(was);
      }
    }

    /** `memcpy` from the current position, which may run past the end of the buffer. */
    method Copy(len: nat, beyond: Beyond) returns (d: array<byte>)
      ensures fresh(d) && d[..] == Peek(buffer, beyond, curpos, len)
    {
      d := new byte[len];
      var i := 0;
      while i < len
        invariant 0 <= i <= len
        invariant forall k :: 0 <= k < i ==> d[k] == Peek(buffer, beyond, curpos, len)[k]
      {
        d[i] := if curpos + i < |buffer| then buffer[curpos + i] else beyond(curpos + i);
        i := i + 1;
      }
    }

    /** The bytes of a number on the host, lowest first. */
    method HostBytes(n: nat, w: nat) returns (d: array<byte>)
      ensures fresh(d) && d[..] == LeBytes(n, w)
    {
      d := new byte[w];
      var i, rest := 0, n;
      while i < w
        invariant 0 <= i <= w
        invariant d[..i] + LeBytes(rest, w - i) == LeBytes(n, w)
      {
        ghost var done := d[..i];
        d[i] := (rest % 256) as byte;
        assert d[..i + 1] == done + [(rest % 256) as byte];
        rest := rest / 256;
        i := i + 1;
      }
      assert d[..] == d[..i];
    }

    method HostNumber(d: array<byte>) returns (n: nat)
      ensures n == FromLe(d[..])
    {
      n := 0;
      var i := d.Length;
      assert d[i..] == [];
      while i > 0
        invariant 0 <= i <= d.Length
        invariant n == FromLe(d[i..])
      {
        i := i - 1;
        assert d[i..] == [d[i]] + d[i + 1..];
        n := d[i] as nat + 256 * n;
      }
      assert d[..] == d[0..];
    }

    method WriteNum(n: nat, w: nat)
      modifies `buffer
      ensures buffer == old(buffer) + Ordered(order, LeBytes(n, w))
    {
      var d := HostBytes(n, w);
      ByteOrderer(d);
      buffer := buffer + d[..];
    }

    /** The length is reversed in place before it is used as the number of characters to copy. */
    method WriteString(s: Bytes, beyond: Beyond)
      modifies `buffer
      ensures buffer == old(buffer) + EncodeString(order, s, beyond)
    {
      var p := HostBytes(|s| % STRING_LIMIT, MARK);
      ByteOrderer(p);
      var len := HostNumber(p);
      buffer := buffer + p[..];
      if len == 0 {
        return;
      }
      buffer := buffer + Copied(s, beyond, len);
    }

    /** Leaves the target alone at the end of the buffer. */
    method ReadNum(target: nat, w: nat, beyond: Beyond) returns (n: nat)
      modifies `curpos
      ensures (Num(w, n), curpos) == DecodeInto(order, Num(w, target), buffer, beyond, old(curpos))
    {
      n := target;
      if curpos < |buffer| {
        var d := Copy(w, beyond);
        ByteOrderer(d);
        n := HostNumber(d);
        curpos := curpos + w;
      }
    }

    /** Inserts the characters in front of those the target holds. */
    method ReadString(target: Bytes, beyond: Beyond) returns (s: Bytes)
      modifies `curpos
      ensures (Str(s), curpos) == DecodeInto(order, Str(target), buffer, beyond, old(curpos))
    {
      var d := Copy(MARK, beyond);
      ByteOrderer(d);
      var len := HostNumber(d);
      curpos := curpos + MARK;
      s := target;
      if len == 0 {
        assert Peek(buffer, beyond, curpos, 0) + s == s;
        return;
      }
      s := Peek(buffer, beyond, curpos, len) + s;
      curpos := curpos + len;
    }

    /** `operator <<`: a record is written field by field. */
    method Write(v: Value, beyond: Beyond)
      modifies `buffer
      ensures buffer == old(buffer) + Encode(order, v, beyond)
      decreases v
    {
      match v
      case Num(w, n) => WriteNum(n, w);
      case Str(s) => WriteString(s, beyond);
      case Rec(fields) => WriteAll(fields, beyond);
    }

    /** `package_params`, and the chained operators of the structs. */
    method WriteAll(vs: seq<Value>, beyond: Beyond)
      modifies `buffer
      ensures buffer == old(buffer) + EncodeAll(order, vs, beyond)
      decreases vs
    {
      if vs != [] {
        Write(vs[0], beyond);
        WriteAll(vs[1..], beyond);
      }
    }

    /** `operator >>`: a record is read field by field. */
    method Read(target: Value, beyond: Beyond) returns (v: Value)
      modifies `curpos
      ensures (v, curpos) == DecodeInto(order, target, buffer, beyond, old(curpos))
      decreases target
    {
      match target
      case Num(w, n) =>
        var m := ReadNum(n, w, beyond);
        v := Num(w, m);
      case Str(s) =>
        var t := ReadString(s, beyond);
        v := Str(t);
      case Rec(fields) =>
        var vs := ReadAll(fields, beyond);
        v := Rec(vs);
    }

    /** `get_tuple`, and the chained operators of the structs. */
    method ReadAll(targets: seq<Value>, beyond: Beyond) returns (vs: seq<Value>)
      modifies `curpos
      ensures (vs, curpos) == DecodeAllInto(order, targets, buffer, beyond, old(curpos))
      decreases targets
    {
      vs := [];
      if targets != [] {
        var v := Read(targets[0], beyond);
        var rest := ReadAll(targets[1..], beyond);
        vs := [v] + rest;
      }
    }
  }

  /** A value written to a serializer and read back from it in the same byte order. */
  method Transfer(order: ByteOrder, v: Value, target: Value, junk: Bytes, out: Beyond, inn: Beyond) returns (got: Value, cursor: nat)
    requires Accepts(target, v) && Portable(order, v)
    ensures got == Received(target, v) && cursor == |Encode(order, v, out)|
    ensures Fresh(target) && Whole(v) ==> got == v
  {
    var ds := new Serializer(order);
    ds.Write(v, out);
    var wire := ds.buffer + junk;
    var back := new Serializer.FromBytes(wire, order);
    got := back.Read(target, inn);
    cursor := back.curpos;
    assert [] + Encode(order, v, out) + junk == wire;
    ReadsBack(order, target, v, [], junk, out, inn);
    if Fresh(target) && Whole(v) {
      ReceivedWhole(target, v);
    }
  }
}
