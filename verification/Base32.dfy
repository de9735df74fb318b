/** Reading a secret: base32 as in section 6 of RFC 4648, without padding. */
module Base32 {
  import opened Options
  import opened Streams
  import opened Words

  /** The powers of two up to 2^12. */
  function P(k: nat): nat
    requires k <= 12
  {
    if k == 0 then 1 else if k == 1 then 2 else if k == 2 then 4 else if k == 3 then 8 else if k == 4 then 16
    else if k == 5 then 32 else if k == 6 then 64 else if k == 7 then 128 else if k == 8 then 256
    else if k == 9 then 512 else if k == 10 then 1024 else if k == 11 then 2048 else 4096
  }

  // ---------- the alphabet ----------

  /** The character of a group of five bits. */
  function CharOf(v: nat): char
    requires v < 32
  {
    if v < 26 then 'A' + v as char else '2' + (v - 26) as char
  }

  function ValueOf(ch: char): Option<nat> {
    if 'A' <= ch <= 'Z' then Some(ch as int % 0x20 - 1)
    else if '2' <= ch <= '7' then Some(ch as int - 24)
    else None
  }

  /** The alphabet has 32 characters, one for each group. */
  lemma Alphabet(v: nat, ch: char)
    ensures v < 32 ==> ValueOf(CharOf(v)) == Some(v)
    ensures ValueOf(ch).Some? ==> ValueOf(ch).value < 32 && CharOf(ValueOf(ch).value) == ch
  {
  }

  // ---------- decoding ----------

  /** The bytes in groups of five bits, behind `left` bits of value `rest` that are not yet a byte. */
  function Decode(groups: seq<nat>, left: nat, rest: nat): seq<nat>
    requires left < 8
  {
    if groups == [] then []
    else
      var w, bits := rest * 32 + groups[0], left + 5;
      if bits < 8 then Decode(groups[1..], bits, w)
      else [w / P(bits - 8)] + Decode(groups[1..], bits - 8, w % P(bits - 8))
  }

  function Values(s: string): Option<seq<nat>> {
    if s == "" then Some([])
    else
      var v, rest := ValueOf(s[0]), Values(s[1..]);
      if v.None? || rest.None? then None else Some([v.value] + rest.value)
  }

  /** The meaning of a secret: nothing for a broken one. */
  function Key(secret: string): seq<nat> {
    var groups := Values(secret);
    if groups.None? then [] else Decode(groups.value, 0, 0)
  }

  /** The buffer loses whole multiples of 2^32, which are multiples of any smaller power of two. */
  lemma ShiftModulo(buffer: nat, p: nat, more: nat, rest: nat, v: nat, m: nat)
    requires p > 0 && m == 32 * p && m * more == TWO32 && v < 32 && buffer % p == rest
    ensures (U32(buffer * 32) + v) % m == rest * 32 + v
  {
    var q, k := buffer / p, buffer * 32 / TWO32;
    assert buffer == q * p + rest && U32(buffer * 32) == buffer * 32 - k * TWO32;
    assert buffer * 32 == q * m + rest * 32;
    assert k * TWO32 == k * more * m;
    assert U32(buffer * 32) + v == (q - k * more) * m + (rest * 32 + v);
    Remainder(U32(buffer * 32) + v, m, q - k * more, rest * 32 + v);
  }

  /** The 32-bit buffer loses high bits, but never any of those that are still to be read. */
  lemma BufferStep(buffer: nat, left: nat, rest: nat, v: nat)
    requires left < 8 && v < 32 && buffer % P(left) == rest
    ensures (U32(buffer * 32) + v) % P(left + 5) == rest * 32 + v
  {
    var more := if left == 0 then 0x800_0000 else if left == 1 then 0x400_0000 else if left == 2 then 0x200_0000
                else if left == 3 then 0x100_0000 else if left == 4 then 0x80_0000 else if left == 5 then 0x40_0000
                else if left == 6 then 0x20_0000 else 0x10_0000;
    ShiftModulo(buffer, P(left), more, rest, v, P(left + 5));
  }

  /** The byte on top of the bits that stay, and those bits. */
  lemma TopByte(buffer: nat, left: nat, w: nat)
    requires left <= 4 && buffer % P(left + 8) == w
    ensures buffer / P(left) % 256 == w / P(left) && buffer % P(left) == w % P(left)
  {
    var p, m := P(left), P(left + 8);
    assert p > 0 && m == 256 * p;
    Quotients(buffer, p, m, w, buffer / m, w / p, w % p);
  }

  lemma Quotients(buffer: nat, p: nat, m: nat, w: nat, q: nat, b: nat, r: nat)
    requires p > 0 && m == 256 * p && q == buffer / m && w == buffer % m && b == w / p && r == w % p
    ensures buffer / p == q * 256 + b && buffer % p == r && buffer / p % 256 == b
  {
    Divided(buffer, m, q, w);
    Divided(w, p, b, r);
    ByteBelow(b, p, r, m, w);
    var f := q * 256 + b;
    Together(buffer, p, m, w, q, b, r, f);
    Remainder(buffer, p, f, r);
    Remainder(f, 256, q, b);
  }

  lemma Together(buffer: nat, p: nat, m: nat, w: nat, q: nat, b: nat, r: nat, f: nat)
    requires m == 256 * p && buffer == q * m + w && w == b * p + r && f == q * 256 + b
    ensures buffer == f * p + r
  {
    Distribute(q, b, p, m, f);
  }

  lemma Divided(x: nat, m: nat, q: nat, r: nat)
    requires m > 0 && q == x / m && r == x % m
    ensures x == q * m + r && r < m
  {
  }

  lemma ByteBelow(b: nat, p: nat, r: nat, m: nat, w: nat)
    requires p > 0 && m == 256 * p && w == b * p + r && w < m
    ensures b < 256
  {
    if b >= 256 {
      MulStrict(b + 1, 256, p);
    }
  }

  lemma Distribute(q: int, b: int, p: int, m: int, f: int)
    requires m == 256 * p && f == q * 256 + b
    ensures f * p == q * m + b * p
  {
  }

  lemma DecodeMore(groups: seq<nat>, left: nat, rest: nat, w: nat)
    requires groups != [] && left < 3 && w == rest * 32 + groups[0]
    ensures Decode(groups, left, rest) == Decode(groups[1..], left + 5, w)
  {
  }

  lemma DecodeByte(groups: seq<nat>, left: nat, rest: nat, w: nat, b: nat, r: nat)
    requires groups != [] && 3 <= left < 8 && w == rest * 32 + groups[0] && b == w / P(left - 3) && r == w % P(left - 3)
    ensures Decode(groups, left, rest) == [b] + Decode(groups[1..], left - 3, r)
  {
  }

  /** One group enters the buffer, and a byte leaves it when there are enough bits. */
  method Feed(buffer0: nat, left0: nat, v: nat, ghost rest0: nat, ghost groups: seq<nat>)
    returns (buffer: nat, left: nat, out: seq<nat>, ghost rest: nat)
    requires left0 < 8 && buffer0 % P(left0) == rest0 && v < 32 && groups != [] && groups[0] == v
    ensures left < 8 && buffer % P(left) == rest && buffer < TWO32
    ensures Decode(groups, left0, rest0) == out + Decode(groups[1..], left, rest)
  {
    buffer := U32(buffer0 * 32);
    BufferStep(buffer0, left0, rest0, v);
    ghost var w := rest0 * 32 + v;
    RoomBelow(buffer0, v);
    buffer := buffer + v;
    left := left0 + 5;
    if left >= 8 {
      left := left - 8;
      TopByte(buffer, left, w);
      var b := buffer / P(left) % 256;
      out, rest := [b], w % P(left);
      DecodeByte(groups, left0, rest0, w, b, rest);
    } else {
      out, rest := [], w;
      DecodeMore(groups, left0, rest0, w);
    }
  }

  /** The low five bits of the shifted buffer are free. */
  lemma RoomBelow(buffer: nat, v: nat)
    requires v < 32
    ensures U32(buffer * 32) % 32 == 0 && U32(buffer * 32) + v < TWO32
  {
    var k := buffer * 32 / TWO32;
    assert U32(buffer * 32) == 32 * (buffer - k * 0x800_0000);
  }

  /** `decodeSecret`. */
  method DecodeSecret(secret: string) returns (key: seq<nat>)
    ensures key == Key(secret)
  {
    key := [];
    var buffer: nat, left: nat := 0, 0;
    ghost var rest: nat, all := 0, Values(secret);
    var i := 0;
    assert secret[0..] == secret;
    while i < |secret|
      invariant 0 <= i <= |secret| && left < 8 && buffer % P(left) == rest
      invariant all.None? <==> Values(secret[i..]).None?
      invariant all.Some? ==> Decode(all.value, 0, 0) == key + Decode(Values(secret[i..]).value, left, rest)
    {
      var ch := secret[i];
      assert secret[i..][0] == ch && secret[i..][1..] == secret[i + 1..];
      var v := ValueOf(ch);
      if v.None? {
        return [];
      }
      Alphabet(0, ch);
      ghost var groups := if all.Some? then Values(secret[i..]).value else [v.value];
      var out;
      buffer, left, out, rest := Feed(buffer, left, v.value, rest, groups);
      key := key + out;
      i := i + 1;
    }
  }

  // ---------- encoding ----------

  /** The number of open bits after one more byte. */
  function Next(n: nat): nat
    requires n <= 4
  {
    if n < 2 then n + 3 else n - 2
  }

  /** The groups that are complete when n open bits and a byte have the value w. */
  function FirstGroups(n: nat, w: nat): seq<nat>
    requires n <= 4
  {
    if n == 0 then [w / 8] else if n == 1 then [w / 16] else if n == 2 then [w / 32, w % 32]
    else if n == 3 then [w / 64, w / 2 % 32] else [w / 128, w / 4 % 32]
  }

  /** The groups of five bits of the bytes, behind n bits of value r; the last group is filled with zeros. */
  function Encode(bytes: seq<nat>, n: nat, r: nat): seq<nat>
    requires n <= 4
  {
    if bytes == [] then if n == 0 then [] else [r * P(5 - n)]
    else
      var w := r * 256 + bytes[0];
      FirstGroups(n, w) + Encode(bytes[1..], Next(n), w % P(Next(n)))
  }

  /** What the decoder has left when n bits of byte b are still to be encoded. */
  function LeftOf(n: nat): nat
    requires n <= 4
  {
    if n == 0 then 0 else 8 - n
  }

  function RestOf(n: nat, b: nat): nat
    requires n <= 4
  {
    if n == 0 then 0 else b / P(n)
  }

  /** The byte the decoder is about to complete. */
  function Open(n: nat, b: nat): seq<nat> { if n == 0 then [] else [b] }

  /** The end: the last group completes the open byte. */
  lemma LastGroup(n: nat, b: nat)
    requires 1 <= n <= 4 && b < 256
    ensures Decode([b % P(n) * P(5 - n)], LeftOf(n), RestOf(n, b)) == [b]
  {
    var g := b % P(n) * P(5 - n);
    var w := b / P(n) * 32 + g;
    if n == 1 {
      assert w / 16 == b;
    } else if n == 2 {
      assert w / 8 == b;
    } else if n == 3 {
      assert w / 4 == b;
    } else {
      assert w / 2 == b;
    }
    DecodeByte([g], LeftOf(n), RestOf(n, b), w, b, w % P(5 - n));
    assert [g][1..] == [];
  }

  /** With no open bits, the first five bits of c stay with the decoder. */
  lemma Feed0(c: nat, tail: seq<nat>)
    requires c < 256
    ensures Decode([c / 8] + tail, 0, 0) == Decode(tail, 5, c / 8)
  {
    DecodeMore([c / 8] + tail, 0, 0, c / 8);
    assert ([c / 8] + tail)[1..] == tail;
  }

  lemma Feed1(b: nat, c: nat, w: nat, tail: seq<nat>)
    requires b < 256 && c < 256 && w == b % 2 * 256 + c
    ensures Decode([w / 16] + tail, 7, b / 2) == [b] + Decode(tail, 4, c / 16) && w % 16 == c % 16
  {
    var x := b / 2 * 32 + w / 16;
    assert x / 16 == b && x % 16 == c / 16;
    DecodeByte([w / 16] + tail, 7, b / 2, x, b, c / 16);
    assert ([w / 16] + tail)[1..] == tail;
  }

  /** Two groups: the first completes byte b, the second leaves the rest of c. */
  lemma FeedTwo(g: nat, h: nat, left: nat, rest: nat, b: nat, r: nat, tail: seq<nat>)
    requires 4 <= left <= 6 && (rest * 32 + g) / P(left - 3) == b && (rest * 32 + g) % P(left - 3) == r
    ensures Decode([g, h] + tail, left, rest) == [b] + Decode([h] + tail, left - 3, r)
  {
    DecodeByte([g, h] + tail, left, rest, rest * 32 + g, b, r);
    assert ([g, h] + tail)[1..] == [h] + tail;
  }

  lemma Feed2(b: nat, c: nat, w: nat, tail: seq<nat>)
    requires b < 256 && c < 256 && w == b % 4 * 256 + c
    ensures Decode([w / 32, w % 32] + tail, 6, b / 4) == [b, c] + Decode(tail, 0, 0)
  {
    var x := b / 4 * 32 + w / 32;
    assert x / 8 == b && x % 8 == c / 32;
    FeedTwo(w / 32, w % 32, 6, b / 4, b, c / 32, tail);
    assert c / 32 * 32 + w % 32 == c;
    DecodeByte([w % 32] + tail, 3, c / 32, c, c, 0);
    assert ([w % 32] + tail)[1..] == tail;
    assert [b] + ([c] + Decode(tail, 0, 0)) == [b, c] + Decode(tail, 0, 0);
  }

  lemma Feed3(b: nat, c: nat, w: nat, tail: seq<nat>)
    requires b < 256 && c < 256 && w == b % 8 * 256 + c
    ensures Decode([w / 64, w / 2 % 32] + tail, 5, b / 8) == [b] + Decode(tail, 7, c / 2) && w % 2 == c % 2
  {
    var a, e, c1, c2 := b / 8, b % 8, c / 64, c % 64;
    Remainder(w, 64, e * 4 + c1, c2);
    Remainder(a * 32 + w / 64, 4, b, c1);
    FeedTwo(w / 64, w / 2 % 32, 5, a, b, c1, tail);
    var d, f := c / 2, c % 2;
    Remainder(w, 2, e * 128 + d, f);
    var h := d - c1 * 32;
    Remainder(w / 2, 32, e * 4 + c1, h);
    assert c1 * 32 + h == d;
    DecodeMore([w / 2 % 32] + tail, 2, c / 64, c / 2);
    assert ([w / 2 % 32] + tail)[1..] == tail;
  }

  lemma Feed4(b: nat, c: nat, w: nat, tail: seq<nat>)
    requires b < 256 && c < 256 && w == b % 16 * 256 + c
    ensures Decode([w / 128, w / 4 % 32] + tail, 4, b / 16) == [b] + Decode(tail, 6, c / 4) && w % 4 == c % 4
  {
    var a, e, c1, c2 := b / 16, b % 16, c / 128, c % 128;
    Remainder(w, 128, e * 2 + c1, c2);
    Remainder(a * 32 + w / 128, 2, b, c1);
    FeedTwo(w / 128, w / 4 % 32, 4, a, b, c1, tail);
    var d, f := c / 4, c % 4;
    Remainder(w, 4, e * 64 + d, f);
    var h := d - c1 * 32;
    Remainder(w / 4, 32, e * 2 + c1, h);
    assert c1 * 32 + h == d;
    DecodeMore([w / 4 % 32] + tail, 1, c / 128, c / 4);
    assert ([w / 4 % 32] + tail)[1..] == tail;
  }

  /** The bits that stay open are the low bits of the last byte. */
  lemma OpenBits(n: nat, b: nat, c: nat, w: nat)
    requires n <= 4 && c < 256 && w == b % P(n) * 256 + c
    ensures w % P(Next(n)) == c % P(Next(n))
  {
    var r := b % P(n);
    if n == 0 {
      Remainder(w, 8, r * 32 + c / 8, c % 8);
    } else if n == 1 {
      Remainder(w, 16, r * 16 + c / 16, c % 16);
    } else if n == 3 {
      Remainder(w, 2, r * 128 + c / 2, c % 2);
    } else if n == 4 {
      Remainder(w, 4, r * 64 + c / 4, c % 4);
    }
  }

  lemma FeedAll(n: nat, b: nat, c: nat, w: nat, tail: seq<nat>)
    requires n <= 4 && b < 256 && c < 256 && w == b % P(n) * 256 + c
    ensures Decode(FirstGroups(n, w) + tail, LeftOf(n), RestOf(n, b)) ==
      (if n == 2 then [b, c] else Open(n, b)) + Decode(tail, LeftOf(Next(n)), RestOf(Next(n), c))
  {
    if n == 0 {
      Feed0(c, tail);
    } else if n == 1 {
      Feed1(b, c, w, tail);
    } else if n == 2 {
      Feed2(b, c, w, tail);
    } else if n == 3 {
      Feed3(b, c, w, tail);
    } else {
      Feed4(b, c, w, tail);
    }
  }

  lemma Joined(n: nat, b: nat, c: nat, rest: seq<nat>, bytes: seq<nat>)
    requires n <= 4 && bytes == [c] + rest
    ensures (if n == 2 then [b, c] else Open(n, b)) + (Open(Next(n), c) + rest) == Open(n, b) + bytes
  {
  }

  /** Decoding what is encoded behind n open bits of byte b gives that byte and the bytes. */
  lemma {:induction false} DecodeEncode(bytes: seq<nat>, n: nat, b: nat, r: nat)
    requires n <= 4 && b < 256 && r == b % P(n) && forall i :: 0 <= i < |bytes| ==> bytes[i] < 256
    ensures Decode(Encode(bytes, n, r), LeftOf(n), RestOf(n, b)) == Open(n, b) + bytes
    decreases |bytes|
  {
    if bytes == [] {
      if n > 0 {
        LastGroup(n, b);
      }
    } else {
      var c, rest, w := bytes[0], bytes[1..], r * 256 + bytes[0];
      var m := Next(n);
      OpenBits(n, b, c, w);
      DecodeEncode(rest, m, c, c % P(m));
      FeedAll(n, b, c, w, Encode(rest, m, c % P(m)));
      Joined(n, b, c, rest, bytes);
    }
  }

  /** The text of a byte string. */
  function Text(groups: seq<nat>): string
    requires forall i :: 0 <= i < |groups| ==> groups[i] < 32
  {
    if groups == [] then "" else [CharOf(groups[0])] + Text(groups[1..])
  }

  lemma {:induction false} TextValues(groups: seq<nat>)
    requires forall i :: 0 <= i < |groups| ==> groups[i] < 32
    ensures Values(Text(groups)) == Some(groups)
  {
    if groups != [] {
      Alphabet(groups[0], 'A');
      TextValues(groups[1..]);
      assert Text(groups)[0] == CharOf(groups[0]) && Text(groups)[1..] == Text(groups[1..]);
      assert [groups[0]] + groups[1..] == groups;
    }
  }

  lemma {:induction false} GroupsSmall(bytes: seq<nat>, n: nat, r: nat)
    requires n <= 4 && r < P(n) && forall i :: 0 <= i < |bytes| ==> bytes[i] < 256
    ensures forall i :: 0 <= i < |Encode(bytes, n, r)| ==> Encode(bytes, n, r)[i] < 32
    decreases |bytes|
  {
    if bytes != [] {
      var w := r * 256 + bytes[0];
      if n == 0 {
        GroupsSmall(bytes[1..], 3, w % 8);
      } else if n == 1 {
        GroupsSmall(bytes[1..], 4, w % 16);
      } else if n == 2 {
        GroupsSmall(bytes[1..], 0, w % 1);
      } else if n == 3 {
        GroupsSmall(bytes[1..], 1, w % 2);
      } else {
        GroupsSmall(bytes[1..], 2, w % 4);
      }
    } else if n == 1 {
    } else if n == 2 {
    } else if n == 3 {
    }
  }

  /** Decoding the base32 text of any byte string gives the bytes. */
  method ReadBack(bytes: seq<nat>) returns (key: seq<nat>)
    requires forall i :: 0 <= i < |bytes| ==> bytes[i] < 256
    ensures key == bytes
  {
    GroupsSmall(bytes, 0, 0);
    var groups := Encode(bytes, 0, 0);
    TextValues(groups);
    DecodeEncode(bytes, 0, 0, 0);
    key := DecodeSecret(Text(groups));
  }
}
