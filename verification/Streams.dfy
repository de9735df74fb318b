/** Property streams: little-endian numbers and length-prefixed strings, written and read back. */
module Streams {
  import opened Options
  import opened Words

  const MAX_STRING := 0xFFFF

  // ---------- bytes found at a place ----------

  predicate Found(b: seq<Byte>, i: nat, s: seq<Byte>) {
    i + |s| <= |b| && b[i..i + |s|] == s
  }

  lemma FoundSplit(b: seq<Byte>, i: nat, whole: seq<Byte>, s: seq<Byte>, t: seq<Byte>, j: nat)
    requires Found(b, i, whole) && whole == s + t && j == i + |s|
    ensures Found(b, i, s) && Found(b, j, t)
  {
    assert b[i..i + |whole|][..|s|] == s && b[i..i + |whole|][|s|..] == t;
  }

  lemma FoundOne(b: seq<Byte>, i: nat, whole: seq<Byte>, x: Byte, s: seq<Byte>, j: nat)
    requires Found(b, i, whole) && whole == [x] + s && j == i + 1
    ensures i < |b| && b[i] == x && Found(b, j, s)
  {
    FoundSplit(b, i, whole, [x], s, j);
    assert b[i] == b[i..j][0];
  }

  lemma Reassociate<T>(s: seq<T>, t: seq<T>, u: seq<T>)
    ensures (s + t) + u == s + (t + u)
  {
  }

  // ---------- numbers ----------

  function Pow256(w: nat): (r: nat)
    ensures r > 0
  {
    if w == 0 then 1 else 256 * Pow256(w - 1)
  }

  /** The low w bytes of a number, in two's complement when it is negative, lowest first. */
  function Bytes(v: int, w: nat): (s: seq<Byte>)
    ensures |s| == w
    decreases 2 * w
  {
    if w == 0 then [] else [(v % 256) as Byte] + Bytes(v / 256, w - 1)
  }

  function Value(s: seq<Byte>): nat {
    if s == [] then 0 else s[0] as int + 256 * Value(s[1..])
  }

  lemma ModStep(v: int, m: int)
    requires m > 0
    ensures v % (256 * m) == v % 256 + 256 * (v / 256 % m)
  {
    var q, r := v / 256, v % 256;
    var k, l := q / m, q % m;
    assert v == 256 * (k * m + l) + r;
    assert 256 * (k * m) == k * (256 * m);
    assert 0 <= 256 * l + r < 256 * m;
    Remainder(v, 256 * m, k, 256 * l + r);
  }

  lemma Remainder(v: int, m: int, k: int, r: int)
    requires m > 0 && v == k * m + r && 0 <= r < m
    ensures v % m == r && v / m == k
  {
    var q := v / m;
    assert v == q * m + v % m;
    if q > k {
      MulStrict(q, k, m);
    } else if q < k {
      MulStrict(k, q, m);
    }
  }

  lemma MulStrict(x: int, y: int, m: int)
    requires x > y && m > 0
    ensures x * m >= y * m + m
  {
    assert x * m == y * m + m + (x - y - 1) * m;
    assert (x - y - 1) * m >= 0;
  }

  /** Reading w bytes back gives the number modulo 256^w. */
  lemma {:induction false} ValueOfBytes(v: int, w: nat)
    ensures Value(Bytes(v, w)) == v % Pow256(w)
    decreases w
  {
    if w > 0 {
      ValueOfBytes(v / 256, w - 1);
      assert Bytes(v, w)[1..] == Bytes(v / 256, w - 1);
      ModStep(v, Pow256(w - 1));
    }
  }

  lemma {:induction false} BytesOfValue(s: seq<Byte>)
    ensures Bytes(Value(s), |s|) == s
  {
    if s != [] {
      BytesOfValue(s[1..]);
      assert Value(s) / 256 == Value(s[1..]) && Value(s) % 256 == s[0] as int;
    }
  }

  lemma OneByte(c: Byte)
    ensures Bytes(c as int, 1) == [c] && Value([c]) == c as int
  {
    assert Bytes(c as int, 1) == [c] + Bytes(c as int / 256, 0);
    assert Value([c]) == c as int + 256 * Value([c][1..]);
  }

  lemma Powers()
    ensures Pow256(1) == 0x100 && Pow256(2) == 0x1_0000 && Pow256(4) == 0x1_0000_0000
    ensures Pow256(8) == 0x1_0000_0000_0000_0000
  {
    assert Pow256(3) == 0x100_0000;
    assert Pow256(6) == 256 * Pow256(5) && Pow256(5) == 256 * Pow256(4);
    assert Pow256(8) == 256 * Pow256(7) && Pow256(7) == 256 * Pow256(6);
  }

  function ReadInt(b: seq<Byte>, p: nat, w: nat): Option<nat> {
    if p + w <= |b| then Some(Value(b[p..p + w])) else None
  }

  /** The widths of the numbers in the streams. */
  predicate IsWidth(w: nat) { w == 1 || w == 2 || w == 4 || w == 8 }

  /** A number cut down to w bytes. */
  function Low(v: int, w: nat): nat
    requires IsWidth(w)
  {
    if w == 1 then v % 0x100
    else if w == 2 then v % 0x1_0000
    else if w == 4 then v % 0x1_0000_0000
    else v % 0x1_0000_0000_0000_0000
  }

  lemma LowIsRemainder(v: int, w: nat)
    requires IsWidth(w)
    ensures Low(v, w) == v % Pow256(w)
  {
    Powers();
  }

  lemma ReadWritten(b: seq<Byte>, p: nat, v: int, w: nat, r: nat)
    requires IsWidth(w) && Found(b, p, Bytes(v, w)) && r == Low(v, w)
    ensures ReadInt(b, p, w) == Some(r)
  {
    ValueOfBytes(v, w);
    LowIsRemainder(v, w);
  }

  // ---------- strings ----------

  /** A string of more than 65535 bytes is written as an empty one. */
  function Short(s: seq<Byte>): seq<Byte> { if |s| > MAX_STRING then [] else s }

  function StringBytes(s: seq<Byte>): seq<Byte> { Bytes(|Short(s)|, 2) + Short(s) }

  function ReadString(b: seq<Byte>, p: nat): Option<seq<Byte>> {
    var n := ReadInt(b, p, 2);
    if n.Some? && p + 2 + n.value <= |b| then Some(b[p + 2..p + 2 + n.value]) else None
  }

  lemma ReadWrittenString(b: seq<Byte>, p: nat, s: seq<Byte>, r: seq<Byte>)
    requires Found(b, p, StringBytes(s)) && r == Short(s)
    ensures ReadString(b, p) == Some(r) && |StringBytes(s)| == 2 + |r|
  {
    FoundSplit(b, p, StringBytes(s), Bytes(|r|, 2), r, p + 2);
    ReadWritten(b, p, |r|, 2, |r|);
  }

  // ---------- the streams ----------

  class PropStream {
    const data: seq<Byte>
    var p: nat

    ghost predicate Valid()
      reads this
    {
      p <= |data|
    }

    constructor (bytes: seq<Byte>)
      ensures Valid() && data == bytes && p == 0
    {
      data, p := bytes, 0;
    }

    method Read(w: nat) returns (ok: bool, v: nat)
      requires Valid()
      modifies this`p
      ensures Valid() && ok == ReadInt(data, old(p), w).Some?
      ensures ok ==> ReadInt(data, old(p), w) == Some(v)
      ensures p == if ok then old(p) + w else old(p)
    {
      if |data| - p < w {
        return false, 0;
      }
      v := Value(data[p..p + w]);
      p := p + w;
      ok := true;
    }

    /** `read<uint8_t>`. */
    method ReadByte() returns (ok: bool, c: Byte)
      requires Valid()
      modifies this`p
      ensures Valid() && ok == (old(p) < |data|)
      ensures ok ==> c == data[old(p)] && p == old(p) + 1
      ensures !ok ==> p == old(p)
    {
      if p == |data| {
        return false, 0;
      }
      c := data[p];
      p := p + 1;
      ok := true;
    }

    method ReadStr() returns (ok: bool, s: seq<Byte>)
      requires Valid()
      modifies this`p
      ensures Valid() && old(p) <= p && ok == ReadString(data, old(p)).Some?
      ensures ok ==> ReadString(data, old(p)) == Some(s) && p == old(p) + 2 + |s|
    {
      s := [];
      var strLen;
      ok, strLen := Read(2);
      if !ok || |data| - p < strLen {
        return false, [];
      }
      s := data[p..p + strLen];
      p := p + strLen;
    }

    method Skip(n: nat) returns (ok: bool)
      requires Valid()
      modifies this`p
      ensures Valid() && ok == (old(p) + n <= |data|)
      ensures p == if ok then old(p) + n else old(p)
    {
      ok := |data| - p >= n;
      if ok {
        p := p + n;
      }
    }
  }

  class PropWriteStream {
    var buffer: seq<Byte>

    constructor ()
      ensures buffer == []
    {
      buffer := [];
    }

    method Write(v: int, w: nat)
      modifies this
      ensures buffer == old(buffer) + Bytes(v, w)
    {
      buffer := buffer + Bytes(v, w);
    }

    /** `write<uint8_t>`. */
    method WriteByte(c: Byte)
      modifies this
      ensures buffer == old(buffer) + [c]
    {
      OneByte(c);
      Write(c as int, 1);
    }

    method WriteStr(s: seq<Byte>)
      modifies this
      ensures buffer == old(buffer) + StringBytes(s)
    {
      if |s| > MAX_STRING {
        Write(0, 2);
        return;
      }
      Write(|s|, 2);
      buffer := buffer + s;
    }
  }
}
