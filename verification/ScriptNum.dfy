/** Numbers as Bitcoin scripts write them: little endian, sign in the top bit, no longer than needed. */
module ScriptNum {
  import opened Bytes

  /** The largest magnitude a five-byte script number can hold is one less than this. */
  const FIVE_BYTES: int := 0x80_0000_0000

  function LE(v: Bytes): nat {
    if v == [] then 0 else v[0] + 256 * LE(v[1..])
  }

  /** The bytes of a magnitude, least significant first. */
  function Mag(n: nat): Bytes {
    if n == 0 then [] else [n % 256] + Mag(n / 256)
  }

  function Last(v: Bytes): Byte
    requires v != []
  {
    v[|v| - 1]
  }

  function SetLast(v: Bytes, b: Byte): (r: Bytes)
    requires v != []
    ensures |r| == |v|
  {
    v[..|v| - 1] + [b]
  }

  function Abs(n: int): nat {
    if n < 0 then -n else n
  }

  function WithSign(m: Bytes, negative: bool): Bytes {
    if m == [] then []
    else if Last(m) >= 128 then m + [if negative then 128 else 0]
    else if negative then SetLast(m, Last(m) + 128)
    else m
  }

  function Encode(n: int): Bytes {
    WithSign(Mag(Abs(n)), n < 0)
  }

  /** The number that bytes stand for, minimal or not. */
  function Value(v: Bytes): int {
    if v == [] then 0
    else if Last(v) >= 128 then 0 - LE(SetLast(v, Last(v) - 128))
    else LE(v)
  }

  predicate IsMinimal(v: Bytes) {
    v == [] || Last(v) % 128 != 0 || (|v| > 1 && v[|v| - 2] >= 128)
  }

  /** Reading bytes as a number of at most maxLen bytes. */
  function Decode(v: Bytes, minimal: bool, maxLen: nat): Option<int> {
    if |v| > maxLen || (minimal && !IsMinimal(v)) then None else Some(Value(v))
  }

  /** The bytes of a number, least significant first. */
  method Magnitude(n: nat) returns (result: Bytes)
    ensures result == Mag(n)
  {
    var rest := n;
    result := [];
    while rest > 0
      invariant result + Mag(rest) == Mag(n)
    {
      Assoc(result, [rest % 256], Mag(rest / 256));
      result := result + [rest % 256];
      rest := rest / 256;
    }
    assert result + [] == result;
  }

  method EncodeNum(n: int) returns (result: Bytes)
    ensures result == Encode(n)
  {
    if n == 0 { return []; }
    hide Mag;
    MagTop(Abs(n));
    var isNegative := n < 0;
    var rest := n;
    if isNegative { rest := -n; }
    result := Magnitude(rest);
    if Last(result) >= 128 {
      var extraByte := 0;
      if isNegative { extraByte := 128; }
      result := result + [extraByte];
    } else if isNegative {
      result := SetLast(result, Last(result) + 128);
    }
  }

  // ---- Round trips ----

  function Pow256(n: nat): (p: nat)
    ensures p > 0
  {
    if n == 0 then 1 else 256 * Pow256(n - 1)
  }

  lemma {:induction false} MagTop(n: nat)
    ensures LE(Mag(n)) == n
    ensures n > 0 ==> Mag(n) != [] && Last(Mag(n)) != 0
  {
    if n > 0 {
      MagTop(n / 256);
      assert Mag(n)[1..] == Mag(n / 256);
    }
  }

  lemma {:induction false} MagOfLE(v: Bytes)
    requires v == [] || Last(v) != 0
    ensures Mag(LE(v)) == v
    ensures v != [] ==> LE(v) > 0
  {
    if v != [] {
      var rest := v[1..];
      MagOfLE(rest);
      assert v == [v[0]] + rest;
      assert LE(v) % 256 == v[0] && LE(v) / 256 == LE(rest);
    }
  }

  lemma {:induction false} LETop(v: Bytes, b: Byte)
    ensures LE(v + [b]) == LE(v) + b * Pow256(|v|)
  {
    if v == [] {
      assert v + [b] == [b];
    } else {
      LETop(v[1..], b);
      assert (v + [b])[1..] == v[1..] + [b];
      Scale256(b, Pow256(|v| - 1));
    }
  }

  /** The sign leaves the magnitude as it was, in its own top byte or in an extra one. */
  lemma {:induction false} ValueWithSign(m: Bytes, negative: bool)
    requires m != [] && Last(m) != 0
    ensures Value(WithSign(m, negative)) == (if negative then 0 - LE(m) else LE(m)) && IsMinimal(WithSign(m, negative))
  {
    hide LE, Pow256;
    var v := WithSign(m, negative);
    if Last(m) >= 128 {
      LETop(m, 0);
      assert SetLast(v, 0) == m + [0];
    } else if negative {
      assert SetLast(v, Last(m)) == m;
    }
  }

  /** Decoding undoes encoding. */
  lemma {:induction false} ValueOfEncode(n: int)
    ensures Value(Encode(n)) == n && IsMinimal(Encode(n))
  {
    hide LE, WithSign, IsMinimal, Value;
    MagTop(Abs(n));
    if n != 0 {
      ValueWithSign(Mag(Abs(n)), n < 0);
    } else {
      ValueOfNothing();
    }
  }

  lemma ValueOfNothing()
    ensures Value(WithSign([], false)) == 0 && IsMinimal(WithSign([], false))
  {
  }

  lemma {:induction false} EncodeOwnTop(v: Bytes)
    requires v != [] && Last(v) % 128 != 0
    ensures Encode(Value(v)) == v
  {
    hide Mag, LE;
    var s := SetLast(v, Last(v) % 128);
    MagOfLE(s);
    assert SetLast(s, Last(v)) == v && SetLast(v, Last(v)) == v;
  }

  lemma {:induction false} EncodeExtraTop(low: Bytes, top: Byte)
    requires low != [] && Last(low) >= 128 && top % 128 == 0
    ensures Encode(Value(low + [top])) == low + [top]
  {
    hide Mag, LE, Pow256;
    LETop(low, 0);
    MagOfLE(low);
    assert SetLast(low + [top], 0) == low + [0];
  }

  /** Encoding undoes decoding: minimal bytes are the encoding of the number they stand for. */
  lemma {:induction false} EncodeOfValue(v: Bytes)
    requires IsMinimal(v)
    ensures Encode(Value(v)) == v
  {
    if v != [] {
      hide Mag, LE;
      var low := v[..|v| - 1];
      assert v == low + [Last(v)];
      if Last(v) % 128 != 0 { EncodeOwnTop(v); } else { EncodeExtraTop(low, Last(v)); }
    }
  }

  lemma Scale256(t: int, p: int)
    ensures t * (256 * p) == 256 * (t * p)
  {
  }

  lemma {:induction false} Bounds(v: Bytes)
    requires v != []
    ensures Last(v) * Pow256(|v| - 1) <= LE(v) < (Last(v) + 1) * Pow256(|v| - 1)
  {
    if |v| > 1 {
      Bounds(v[1..]);
      Scale256(Last(v), Pow256(|v| - 2));
      Scale256(Last(v) + 1, Pow256(|v| - 2));
    }
  }

  lemma {:induction false} PowMonotone(a: nat, b: nat)
    requires a <= b
    ensures Pow256(a) <= Pow256(b)
  {
    if a < b { PowMonotone(a, b - 1); }
  }

  lemma TopScales(t: int, p: int, q: int)
    requires 0 < t && 0 <= p
    ensures p <= t * p
    ensures t < q ==> (t + 1) * p <= q * p
  {
    if t < q { assert (t + 1) * p + (q - t - 1) * p == q * p; }
  }

  lemma {:induction false} SizeCases(v: Bytes)
    requires v != [] && Last(v) != 0
    ensures |v| <= 4 ==> LE(v) < 0x1_0000_0000
    ensures |v| == 5 ==> (LE(v) < FIVE_BYTES <==> Last(v) < 128)
    ensures |v| >= 6 ==> LE(v) >= FIVE_BYTES
  {
    Bounds(v);
    TopScales(Last(v), Pow256(|v| - 1), 256);
    if |v| >= 6 {
      PowMonotone(5, |v| - 1);
    } else if |v| <= 4 {
      PowMonotone(|v|, 4);
    }
  }

  /** How long the encoding is, at the five-byte limit of the lock time opcode. */
  lemma {:induction false} FitsFive(n: int)
    ensures |Encode(n)| <= 5 <==> -FIVE_BYTES < n < FIVE_BYTES
  {
    MagTop(Abs(n));
    if n != 0 { SizeCases(Mag(Abs(n))); }
  }

  lemma {:induction false} MagSize(n: nat, w: nat)
    requires n < Pow256(w)
    ensures |Mag(n)| <= w
  {
    if n > 0 { MagSize(n / 256, w - 1); }
  }

  /** Every 64-bit integer but the lowest, whose negation overflows. */
  predicate IsInt64(n: int) { -0x8000_0000_0000_0000 < n < 0x8000_0000_0000_0000 }

  lemma Int64Size(n: int)
    requires IsInt64(n)
    ensures |Encode(n)| <= 9
  {
    assert Pow256(8) == 0x1_0000_0000_0000_0000;
    MagSize(Abs(n), 8);
  }

  /** The lock time opcode reads back exactly the numbers that fit five bytes. */
  lemma DecodeEncode(n: int)
    ensures Decode(Encode(n), true, 5) == if -FIVE_BYTES < n < FIVE_BYTES then Some(n) else None
  {
    ValueOfEncode(n);
    FitsFive(n);
  }
}
