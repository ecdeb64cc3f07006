/** Length-prefixed big-endian encodings: an appending buffer and a bounds-checked reader. */
module ByteCodec {
  import opened Tree

  type Octet = x: int | 0 <= x < 256
  type Bytes = seq<Octet>

  /* ---------- what the primitives mean ---------- */

  function Pow(k: nat): (r: nat)
    ensures r > 0
  {
    if k == 0 then 1 else 256 * Pow(k - 1)
  }

  /** The `k` octets of `v`, most significant first. */
  function Big(v: nat, k: nat): (r: Bytes)
    requires v < Pow(k)
    ensures |r| == k
  {
    if k == 0 then [] else Big(v / 256, k - 1) + [v % 256]
  }

  function Num(s: Bytes): (v: nat)
    ensures v < Pow(|s|)
  {
    if s == [] then 0 else 256 * Num(s[..|s| - 1]) + s[|s| - 1]
  }

  lemma {:induction false} NumBig(v: nat, k: nat)
    requires v < Pow(k)
    ensures Num(Big(v, k)) == v
    decreases k
  {
    if k == 0 {
    } else {
      var s := Big(v, k);
      assert s[..k - 1] == Big(v / 256, k - 1);
      NumBig(v / 256, k - 1);
    }
  }

  lemma {:induction false} BigNum(s: Bytes)
    ensures Big(Num(s), |s|) == s
    decreases |s|
  {
    if s != [] {
      BigNum(s[..|s| - 1]);
      assert s == s[..|s| - 1] + [s[|s| - 1]];
    }
  }

  /** The octet a shift and a mask pick. */
  lemma {:induction false} BigAt(v: nat, k: nat, i: nat)
    requires v < Pow(k) && i < k
    ensures Big(v, k)[i] == (v / Pow(k - 1 - i)) % 256
    decreases k
  {
    if i < k - 1 {
      BigAt(v / 256, k - 1, i);
      DivPow(v, k - 1 - i);
    } else {
      assert Pow(0) == 1;
    }
  }

  lemma DivPow(v: nat, j: nat)
    requires j > 0
    ensures v / Pow(j) == (v / 256) / Pow(j - 1)
  {
    var b, x, y := Pow(j - 1), v / 256, v % 256;
    var q, z := x / b, x % b;
    assert x == b * q + z;
    assert 256 * (b * q) == (256 * b) * q;
    assert v == Pow(j) * q + (256 * z + y);
    DivUnique(v, Pow(j), q, 256 * z + y);
  }

  lemma DivUnique(v: int, d: nat, q: int, r: int)
    requires 0 <= r < d && v == d * q + r
    ensures v / d == q
  {
    var e := v / d - q;
    assert v == d * (v / d) + v % d;
    assert d * e == d * (v / d) - d * q;
    assert d * e == -(d * -e);
    if e >= 1 {
      Gap(d, e);
    } else if e <= -1 {
      Gap(d, -e);
    }
  }

  lemma Gap(d: nat, k: nat)
    requires k >= 1
    ensures d * k >= d
  {
  }

  const MAX64: nat := 0x1_0000_0000_0000_0000
  const LIMIT63: int := 0x8000_0000_0000_0000
  const MAX32: nat := 0x1_0000_0000

  lemma Widths()
    ensures Pow(1) == 256 && Pow(2) == 65536 && Pow(4) == MAX32 && Pow(8) == MAX64
  {
    assert Pow(3) == 16777216 && Pow(5) == 1099511627776;
    assert Pow(6) == 281474976710656 && Pow(7) == 72057594037927936;
  }

  /** Sign and magnitude; the minimum has the magnitude one past the maximum. */
  function Signed(v: int): (r: Bytes)
    requires -LIMIT63 <= v < LIMIT63
    ensures |r| == 9
  {
    Widths();
    [if v < 0 then 1 else 0] + Big(if v < 0 then -v else v, 8)
  }

  /* ---------- reading ---------- */

  datatype Failure = ReadFailed | RecordInvalid | BindingMismatch

  /** A value and the bytes after it. */
  datatype Parse<+T> = Bad(error: Failure) | Got(value: T, rest: Bytes) {
    predicate IsFailure() { Bad? }
    function PropagateFailure<U>(): Parse<U> requires IsFailure() { Parse<U>.Bad(error) }
    function Extract(): (T, Bytes) requires !IsFailure() { (value, rest) }
  }

  function GetRaw(s: Bytes, n: nat): Parse<Bytes> {
    if n > |s| then Bad(RecordInvalid) else Got(s[..n], s[n..])
  }

  function GetNum(s: Bytes, k: nat): (r: Parse<nat>)
    ensures r.Got? ==> r.value < Pow(k)
  {
    if k > |s| then Bad(RecordInvalid) else Got(Num(s[..k]), s[k..])
  }

  function GetText(s: Bytes): Parse<Bytes> {
    var n :- GetNum(s, 4);
    GetRaw(n.1, n.0)
  }

  function Negated(n: nat): int { 0 - n }

  function GetSigned(s: Bytes): (r: Parse<int>)
    ensures r.Got? ==> -LIMIT63 <= r.value < LIMIT63
  {
    var sign :- GetNum(s, 1);
    if sign.0 > 1 then Bad(RecordInvalid)
    else
      var magnitude :- GetNum(sign.1, 8);
      if sign.0 == 0 then
        if magnitude.0 >= LIMIT63 then Bad(RecordInvalid) else Got(magnitude.0, magnitude.1)
      else if magnitude.0 > LIMIT63 then Bad(RecordInvalid)
      else Got(Negated(magnitude.0), magnitude.1)
  }

  function Text(t: Bytes): Bytes
    requires |t| < MAX32
  {
    Widths();
    Big(|t|, 4) + t
  }

  lemma NumRoundTrip(v: nat, k: nat, rest: Bytes)
    requires v < Pow(k)
    ensures GetNum(Big(v, k) + rest, k) == Got(v, rest)
  {
    NumBig(v, k);
    var s := Big(v, k) + rest;
    assert s[..k] == Big(v, k) && s[k..] == rest;
  }

  lemma NumCanonical(s: Bytes, k: nat)
    ensures GetNum(s, k).Got? ==> s == Big(GetNum(s, k).value, k) + GetNum(s, k).rest
  {
    if k <= |s| {
      BigNum(s[..k]);
      assert s == s[..k] + s[k..];
    }
  }

  lemma TextRoundTrip(t: Bytes, rest: Bytes)
    requires |t| < MAX32
    ensures GetText(Text(t) + rest) == Got(t, rest)
  {
    hide Big, Num;
    Widths();
    assert Text(t) + rest == Big(|t|, 4) + (t + rest);
    NumRoundTrip(|t|, 4, t + rest);
    assert (t + rest)[..|t|] == t && (t + rest)[|t|..] == rest;
  }

  lemma TextCanonical(s: Bytes)
    ensures GetText(s).Got? ==> |GetText(s).value| < MAX32 && s == Text(GetText(s).value) + GetText(s).rest
  {
    hide Big, Num;
    Widths();
    NumCanonical(s, 4);
    if GetText(s).Got? {
      var n := GetNum(s, 4);
      var t := n.rest[..n.value];
      assert n.rest == t + n.rest[n.value..];
      assert Big(n.value, 4) + n.rest == Text(t) + n.rest[n.value..];
    }
  }

  /** The other accepted spelling of zero: a negative sign on a zero magnitude. */
  function Spelled(v: int, negativeZero: bool): (r: Bytes)
    requires -LIMIT63 <= v < LIMIT63
  {
    Widths();
    if negativeZero && v == 0 then [1] + Big(0, 8) else Signed(v)
  }

  lemma SignedRoundTrip(v: int, negativeZero: bool, rest: Bytes)
    requires -LIMIT63 <= v < LIMIT63
    ensures GetSigned(Spelled(v, negativeZero) + rest) == Got(v, rest)
  {
    Widths();
    var sign := if v < 0 || (negativeZero && v == 0) then 1 else 0;
    var magnitude := if v < 0 then -v else v;
    var s := Spelled(v, negativeZero) + rest;
    assert Big(sign, 1) == [sign] by { assert Big(sign / 256, 0) == []; }
    assert s == Big(sign, 1) + (Big(magnitude, 8) + rest);
    NumRoundTrip(sign, 1, Big(magnitude, 8) + rest);
    NumRoundTrip(magnitude, 8, rest);
  }

  lemma SignedCanonical(s: Bytes)
    ensures GetSigned(s).Got? ==>
      || s == Signed(GetSigned(s).value) + GetSigned(s).rest
      || (GetSigned(s).value == 0 && s == Spelled(0, true) + GetSigned(s).rest)
  {
    Widths();
    if GetSigned(s).Got? {
      NumCanonical(s, 1);
      var sign := GetNum(s, 1);
      assert Big(sign.value, 1) == [sign.value] by { assert Big(sign.value / 256, 0) == []; }
      NumCanonical(sign.rest, 8);
      var m := GetNum(sign.rest, 8);
      assert s == [sign.value] + (Big(m.value, 8) + m.rest) == [sign.value] + Big(m.value, 8) + m.rest;
    }
  }

  /* ---------- the buffer and the reader ---------- */

  class Buffer {
    var bytes: Bytes

    constructor ()
      ensures bytes == []
    {
      bytes := [];
    }

    method AppendU8(v: Octet)
      modifies this
      ensures bytes == old(bytes) + [v]
    {
      bytes := bytes + [v];
    }

    /** `append_u16`, `append_u32` and `append_u64` for a width of two, four and eight octets. */
    method AppendBig(v: nat, k: nat)
      requires v < Pow(k)
      modifies this
      ensures bytes == old(bytes) + Big(v, k)
    {
      for i := 0 to k
        invariant bytes == old(bytes) + Big(v, k)[..i]
      {
        BigAt(v, k, i);
        AppendU8((v / Pow(k - 1 - i)) % 256);
      }
    }

    method AppendI64(v: int)
      requires -LIMIT63 <= v < LIMIT63
      modifies this
      ensures bytes == old(bytes) + Signed(v)
    {
      Widths();
      var negative := v < 0;
      var magnitude := if negative then -(v + 1) + 1 else v;
      AppendU8(if negative then 1 else 0);
      AppendBig(magnitude, 8);
    }

    /** A string of four gibibytes or more is refused. */
    method AppendString(t: Bytes) returns (ok: bool)
      modifies this
      ensures ok == (|t| < MAX32)
      ensures bytes == if ok then old(bytes) + Text(t) else old(bytes)
    {
      hide Big, Num;
      Widths();
      if |t| >= MAX32 {
        return false;
      }
      AppendBig(|t|, 4);
      bytes := bytes + t;
      return true;
    }
  }

  class ByteReader {
    const bytes: Bytes
    var offset: nat

    ghost predicate Valid()
      reads this
    {
      offset <= |bytes|
    }

    ghost function Rest(): Bytes
      reads this
      requires Valid()
    {
      bytes[offset..]
    }

    constructor (s: Bytes)
      ensures Valid() && bytes == s && Rest() == s
    {
      bytes, offset := s, 0;
    }

    method U8() returns (r: Option<Octet>)
      requires Valid()
      modifies this`offset
      ensures Valid()
      ensures if old(Rest()) == [] then r == None && offset == old(offset) else r == Some(old(Rest())[0]) && Rest() == old(Rest())[1..]
    {
      if 1 > |bytes| - offset {
        return None;
      }
      r := Some(bytes[offset]);
      offset := offset + 1;
    }

    /** `u16`, `u32` and `u64`: the value so far is shifted by one octet for each octet read. */
    method UBig(k: nat) returns (r: Option<nat>)
      requires Valid()
      modifies this`offset
      ensures Valid()
      ensures GetNum(old(Rest()), k).Got? <==> r.Some?
      ensures r.Some? ==> GetNum(old(Rest()), k) == Got(r.value, Rest())
    {
      ghost var s := Rest();
      var value: nat := 0;
      for i := 0 to k
        invariant Valid() && i <= |s| && Rest() == s[i..] && value == Num(s[..i])
      {
        var octet := U8();
        if octet.None? {
          return None;
        }
        assert s[..i + 1][..i] == s[..i];
        value := value * 256 + octet.value;
      }
      return Some(value);
    }

    method I64() returns (r: Option<int>)
      requires Valid()
      modifies this`offset
      ensures Valid()
      ensures GetSigned(old(Rest())).Got? <==> r.Some?
      ensures r.Some? ==> GetSigned(old(Rest())) == Got(r.value, Rest())
    {
      var sign := UBig(1);
      if sign.None? || sign.value > 1 {
        return None;
      }
      var magnitude := UBig(8);
      if magnitude.None? {
        return None;
      }
      if sign.value == 0 {
        return if magnitude.value >= LIMIT63 then None else Some(magnitude.value);
      }
      if magnitude.value > LIMIT63 {
        return None;
      }
      return if magnitude.value == LIMIT63 then Some(-LIMIT63) else Some(Negated(magnitude.value));
    }

    method Raw(n: nat) returns (r: Option<Bytes>)
      requires Valid()
      modifies this`offset
      ensures Valid()
      ensures r.Some? <==> n <= |old(Rest())|
      ensures r.Some? ==> GetRaw(old(Rest()), n) == Got(r.value, Rest())
      ensures r.None? ==> offset == old(offset)
    {
      if n > |bytes| - offset {
        return None;
      }
      r := Some(bytes[offset..offset + n]);
      assert bytes[offset..][..n] == bytes[offset..offset + n];
      assert bytes[offset..][n..] == bytes[offset + n..];
      offset := offset + n;
    }

    method String() returns (r: Option<Bytes>)
      requires Valid()
      modifies this`offset
      ensures Valid()
      ensures GetText(old(Rest())).Got? <==> r.Some?
      ensures r.Some? ==> GetText(old(Rest())) == Got(r.value, Rest())
    {
      var size := UBig(4);
      if size.None? {
        return None;
      }
      r := Raw(size.value);
    }
  }
}
