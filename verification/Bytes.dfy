/** Fixed-width big-endian integers, as the put and get helpers of the wire formats write and read them. */
module Bytes {

  type Byte = b: int | 0 <= b < 256

  const U32_MAX := 0xFFFF_FFFF
  const U64_MAX := 0xFFFF_FFFF_FFFF_FFFF

  type U32 = x: int | 0 <= x <= U32_MAX
  type U64 = x: int | 0 <= x <= U64_MAX

  ghost function Pow256(width: nat): (p: nat)
    ensures p > 0
  {
    if width == 0 then 1 else 256 * Pow256(width - 1)
  }

  /** The low `width` bytes of `value`, most significant first. */
  function Put(value: nat, width: nat): (out: seq<Byte>)
    ensures |out| == width
  {
    if width == 0 then [] else Put(value / 256, width - 1) + [value % 256]
  }

  function Get(data: seq<Byte>): (value: nat)
  {
    if data == [] then 0 else Get(data[..|data| - 1]) * 256 + data[|data| - 1]
  }

  lemma {:induction false} GetBound(data: seq<Byte>)
    ensures Get(data) < Pow256(|data|)
  {
    if data != [] {
      GetBound(data[..|data| - 1]);
    }
  }

  lemma {:induction false} GetPut(value: nat, width: nat)
    requires value < Pow256(width)
    ensures Get(Put(value, width)) == value
  {
    if width != 0 {
      GetPut(value / 256, width - 1);
      assert Put(value, width)[..width - 1] == Put(value / 256, width - 1);
    }
  }

  lemma {:induction false} PutGet(data: seq<Byte>)
    ensures Put(Get(data), |data|) == data
  {
    if data != [] {
      PutGet(data[..|data| - 1]);
      assert data == data[..|data| - 1] + [data[|data| - 1]];
    }
  }

  lemma Widths()
    ensures Pow256(2) == 0x1_0000
    ensures Pow256(4) == U32_MAX + 1
    ensures Pow256(8) == U64_MAX + 1
  {
    assert Pow256(1) == 256;
    assert Pow256(3) == 256 * Pow256(2);
    assert Pow256(5) == 256 * Pow256(4);
    assert Pow256(6) == 256 * Pow256(5);
    assert Pow256(7) == 256 * Pow256(6);
  }

  lemma {:induction false} Quotients(v: nat, p: nat)
    requires p > 0
    ensures v / 256 / p == v / (256 * p)
  {
    var a, r := v / 256, v % 256;
    var q, t := a / p, a % p;
    assert v == 256 * (q * p + t) + r && 256 * (q * p) == q * (256 * p);
    assert 0 <= 256 * t + r < 256 * p;
    UniqueQuotient(v, 256 * p, q, 256 * t + r);
  }

  lemma UniqueQuotient(v: nat, n: nat, q: nat, r: nat)
    requires n > 0 && v == q * n + r && r < n
    ensures v / n == q
  {
    var q', r' := v / n, v % n;
    assert v == q' * n + r' by { assert v == n * q' + r'; }
    if q > q' {
      OneMore(q', q, n);
    } else if q < q' {
      OneMore(q, q', n);
    }
  }

  lemma {:induction false} OneMore(a: nat, b: nat, n: nat)
    requires a < b
    ensures b * n >= a * n + n
  {
    if b > a + 1 { OneMore(a, b - 1, n); }
  }

  /** Which byte of a number goes where: the most significant first. */
  lemma {:induction false} PutAt(value: nat, width: nat, i: nat)
    requires i < width
    ensures Put(value, width)[i] == value / Pow256(width - 1 - i) % 256
  {
    if i == width - 1 {
      assert Pow256(0) == 1;
    } else {
      PutAt(value / 256, width - 1, i);
      assert Pow256(width - 1 - i) == 256 * Pow256(width - 2 - i);
      Quotients(value, Pow256(width - 2 - i));
    }
  }

  /** The bytes of a 16-bit, a 32-bit and a 64-bit number. */
  lemma PutBytes(value: nat)
    ensures Put(value, 2) == [value / 0x100 % 256, value % 256]
    ensures Put(value, 4) == [value / 0x100_0000 % 256, value / 0x1_0000 % 256, value / 0x100 % 256, value % 256]
    ensures forall i :: 0 <= i < 8 ==> Put(value, 8)[i] == value / Pow256(7 - i) % 256
  {
    Widths();
    assert Pow256(0) == 1 && Pow256(1) == 0x100 && Pow256(3) == 256 * Pow256(2) == 0x100_0000;
    forall i | 0 <= i < 2 { PutAt(value, 2, i); }
    forall i | 0 <= i < 4 { PutAt(value, 4, i); }
    forall i | 0 <= i < 8 { PutAt(value, 8, i); }
  }

  function GetU32(data: seq<Byte>): (value: U32)
    requires |data| == 4
  {
    GetBound(data); Widths();
    Get(data)
  }

  function GetU64(data: seq<Byte>): (value: U64)
    requires |data| == 8
  {
    GetBound(data); Widths();
    Get(data)
  }

  /** `part` between `before` and `after`, however the three are bracketed. */
  lemma Part<T>(before: seq<T>, part: seq<T>, after: seq<T>)
    ensures before + part + after == before + (part + after)
    ensures (before + part + after)[|before|..|before| + |part|] == part
  {
  }

  lemma Join<T>(s: seq<T>, from: nat, mid: nat, to: nat)
    requires from <= mid <= to <= |s|
    ensures s[from..mid] + s[mid..to] == s[from..to]
  {
  }

  lemma SliceOfPrefix<T>(s: seq<T>, k: nat, from: nat, to: nat)
    requires from <= to <= k <= |s|
    ensures s[..k][from..to] == s[from..to]
  {
  }

  lemma Beyond<T>(s: seq<T>, t: seq<T>, k: nat)
    requires k <= |s|
    ensures (s + t)[..k] == s[..k] && (s + t)[k..] == s[k..] + t
  {
  }
}
