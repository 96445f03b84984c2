/** Ether amounts: the decimal text a user types and the wei the contract counts. */
module EthAmount {
  import opened Bytes

  const WEI_PRECISION: nat := 18

  // ---- Digit strings ----

  predicate IsDigit(c: char) { '0' <= c <= '9' }

  predicate AllDigits(s: string) { forall i :: 0 <= i < |s| ==> IsDigit(s[i]) }

  predicate AllZeros(s: string) { forall i :: 0 <= i < |s| ==> s[i] == '0' }

  function Pow10(n: nat): (p: nat)
    ensures p > 0
  {
    if n == 0 then 1 else 10 * Pow10(n - 1)
  }

  /** The number a string of digits denotes. */
  function Val(s: string): nat
    requires AllDigits(s)
  {
    if s == [] then 0 else 10 * Val(s[..|s| - 1]) + (s[|s| - 1] - '0') as nat
  }

  function Zeros(n: nat): (s: string)
    ensures |s| == n && AllZeros(s) && AllDigits(s)
  {
    if n == 0 then [] else Zeros(n - 1) + ['0']
  }

  /** The decimal digits of a positive number, no leading zero; empty for 0. */
  function Digits(n: nat): (s: string)
    ensures AllDigits(s) && Val(s) == n
    ensures n > 0 ==> s != [] && s[0] != '0'
  {
    if n == 0 then []
    else
      var front, last := Digits(n / 10), (n % 10) as char + '0';
      assert (front + [last])[..|front|] == front;
      front + [last]
  }

  function TrimRight(s: string, c: char): string {
    if s != [] && s[|s| - 1] == c then TrimRight(s[..|s| - 1], c) else s
  }

  /** The position of the first dot, or the length when there is none. */
  function DotAt(s: string): (k: nat)
    ensures k <= |s| && '.' !in s[..k] && (k < |s| ==> s[k] == '.')
  {
    if s == [] || s[0] == '.' then 0 else 1 + DotAt(s[1..])
  }

  /** Reading a whole string as an integer in base ten, with an optional sign. */
  function SetString(s: string): Option<int> {
    var signed := s != [] && (s[0] == '-' || s[0] == '+');
    var body := if signed then s[1..] else s;
    if body == [] || !AllDigits(body) then None
    else if signed && s[0] == '-' then Some(-(Val(body) as int))
    else Some(Val(body))
  }

  // ---- Parsing ----

  function Scale(amount: Option<int>, places: nat): Option<nat> {
    match amount
    case None => None
    case Some(i) => if i <= 0 then None else Some(i * Pow10(places))
  }

  /** A whole part and decimals, of which at most `precision` may matter. */
  function ParseParts(whole: string, dac: string, precision: nat): Option<nat> {
    var sn := if |dac| < precision then |dac| else precision;
    if AllZeros(dac[sn..]) then Scale(SetString(whole + dac[..sn]), precision - sn) else None
  }

  function Fraction(s: string): string {
    var k := DotAt(s);
    if k < |s| then s[k + 1..] else []
  }

  function Parse(str: string): Option<nat> {
    ParseParts(str[..DotAt(str)], Fraction(str), WEI_PRECISION)
  }

  method OnlyZeros(dac: string) returns (ok: bool)
    ensures ok <==> AllZeros(dac)
  {
    for i := 0 to |dac|
      invariant forall j :: 0 <= j < i ==> dac[j] == '0'
    {
      if dac[i] != '0' { return false; }
    }
    return true;
  }

  method ParseEthAsWei(str: string) returns (r: Option<nat>)
    ensures r == Parse(str)
  {
    hide SetString, Pow10;
    var k := DotAt(str);
    if k == |str| {
      assert str[..k] + []  == str;
      var n := SetString(str);
      if n.None? || n.value <= 0 { return None; }
      var i: nat := n.value;
      return Some(i * Pow10(WEI_PRECISION));
    }
    var whole, dac := str[..k], str[k + 1..];
    var sn := WEI_PRECISION;
    if |dac| < sn { sn := |dac|; }
    whole := whole + dac[..sn];
    dac := dac[sn..];
    var exact := OnlyZeros(dac);
    if !exact { return None; }
    var n := SetString(whole);
    if n.None? || n.value <= 0 { return None; }
    var i: nat := n.value;
    return Some(i * Pow10(WEI_PRECISION - sn));
  }

  // ---- Printing ----

  /** The digits with a point before the last `precision` of them. */
  function Dotted(str: string, precision: nat): string {
    if |str| > precision then str[..|str| - precision] + "." + str[|str| - precision..]
    else "0." + Zeros(precision - |str|) + str
  }

  function Format(w: nat): string {
    if w == 0 then "0" else TrimRight(TrimRight(Dotted(Digits(w), WEI_PRECISION), '0'), '.')
  }

  method FormatWeiAsEthString(w: nat) returns (str: string)
    ensures str == Format(w) && (w == 0 ==> str == "0")
  {
    if w == 0 { return "0"; }
    str := Digits(w);
    ghost var dotted := Dotted(str, WEI_PRECISION);
    var l := |str|;
    if l > WEI_PRECISION {
      var idx := l - WEI_PRECISION;
      str := str[..idx] + "." + str[idx..];
      assert str == dotted;
      str := TrimRight(str, '0');
      str := TrimRight(str, '.');
      return;
    }
    str := "0." + Zeros(WEI_PRECISION - l) + str;
    assert str == dotted;
    str := TrimRight(str, '0');
    str := TrimRight(str, '.');
  }

  // ---- What a decimal numeral means ----

  /** Digits with at most one dot and at least one digit. */
  predicate IsNumeral(s: string) {
    var k := DotAt(s);
    AllDigits(s[..k]) && AllDigits(Fraction(s)) && s[..k] + Fraction(s) != []
  }

  /** The value of a numeral, in units of its last fractional digit. */
  function Units(s: string): nat
    requires IsNumeral(s)
  {
    Val(s[..DotAt(s)]) * Pow10(|Fraction(s)|) + Val(Fraction(s))
  }

  /** No needless leading zero and no trailing fractional zero. */
  predicate Canonical(s: string) {
    var whole, fraction := s[..DotAt(s)], Fraction(s);
    && IsNumeral(s)
    && whole != [] && (whole[0] == '0' ==> whole == "0")
    && |fraction| <= WEI_PRECISION
    && (DotAt(s) < |s| ==> fraction != [] && fraction[|fraction| - 1] != '0')
  }

  // ---- Lemmas on digits ----

  lemma {:induction false} PowAdd(a: nat, b: nat)
    ensures Pow10(a + b) == Pow10(a) * Pow10(b)
  {
    if a > 0 {
      PowAdd(a - 1, b);
      Associate(10, Pow10(a - 1), Pow10(b));
    }
  }

  lemma {:induction false} PowMonotone(a: nat, b: nat)
    requires a <= b
    ensures Pow10(a) <= Pow10(b)
  {
    if a < b { PowMonotone(a, b - 1); }
  }

  lemma TenTimes(a: nat, p: nat, b: nat, d: nat)
    ensures 10 * (a * p + b) + d == a * (10 * p) + (10 * b + d)
  {
  }

  lemma {:induction false} ValAppend(a: string, b: string)
    requires AllDigits(a) && AllDigits(b)
    ensures AllDigits(a + b) && Val(a + b) == Val(a) * Pow10(|b|) + Val(b)
  {
    if b == [] {
      assert a + b == a;
    } else {
      var n := |b| - 1;
      ValAppend(a, b[..n]);
      assert (a + b)[..|a| + n] == a + b[..n];
      TenTimes(Val(a), Pow10(n), Val(b[..n]), (b[n] - '0') as nat);
    }
  }

  lemma ValZeros(s: string)
    requires AllZeros(s)
    ensures AllDigits(s) && Val(s) == 0
  {
  }

  lemma ValBound(s: string)
    requires AllDigits(s)
    ensures Val(s) < Pow10(|s|)
  {
  }

  /** Equal length and equal value make two digit strings equal. */
  lemma {:induction false} SameDigits(a: string, b: string)
    requires AllDigits(a) && AllDigits(b) && |a| == |b| && Val(a) == Val(b)
    ensures a == b
  {
    if a != [] {
      var n := |a| - 1;
      SameDigits(a[..n], b[..n]);
      assert a == a[..n] + [a[n]] && b == b[..n] + [b[n]];
    }
  }

  lemma {:induction false} LeadingDigit(s: string)
    requires AllDigits(s) && s != [] && s[0] != '0'
    ensures Val(s) >= Pow10(|s| - 1)
  {
    if |s| > 1 { LeadingDigit(s[..|s| - 1]); }
  }

  lemma {:induction false} DigitsShortest(s: string)
    requires AllDigits(s)
    ensures |Digits(Val(s))| <= |s|
  {
    var d := Digits(Val(s));
    if |d| > |s| {
      LeadingDigit(d);
      PowMonotone(|s|, |d| - 1);
      ValBound(s);
    }
  }

  /** A digit string is its number, padded with zeros to the same length. */
  lemma {:induction false} Padded(s: string)
    requires AllDigits(s)
    ensures |Digits(Val(s))| <= |s|
    ensures s == Zeros(|s| - |Digits(Val(s))|) + Digits(Val(s))
  {
    DigitsShortest(s);
    var d := Digits(Val(s));
    var z := Zeros(|s| - |d|);
    ValZeros(z);
    ValAppend(z, d);
    SameDigits(s, z + d);
  }

  // ---- The parser computes the value ----

  /** An empty string is no amount, as zero is none. */
  lemma ScaleDigits(s: string, places: nat)
    requires AllDigits(s)
    ensures Scale(SetString(s), places) == Scale(Some(Val(s)), places)
  {
  }

  lemma Distribute(w: nat, t: nat, pk: nat, pr: nat)
    ensures w * (pk * pr) + t * pr == (w * pk + t) * pr
  {
  }

  /** Moving the decimal point: `kept` of the fractional digits are taken, the rest are zeros. */
  lemma {:induction false} Shift(whole: string, fraction: string, kept: nat)
    requires AllDigits(whole) && AllDigits(fraction) && kept <= |fraction| && AllZeros(fraction[kept..])
    ensures Val(whole) * Pow10(|fraction|) + Val(fraction) == Val(whole + fraction[..kept]) * Pow10(|fraction| - kept)
  {
    hide Pow10, Val;
    var taken, rest := fraction[..kept], fraction[kept..];
    assert fraction == taken + rest;
    ValZeros(rest);
    ValAppend(taken, rest);
    ValAppend(whole, taken);
    PowAdd(kept, |rest|);
    Distribute(Val(whole), Val(taken), Pow10(kept), Pow10(|rest|));
  }

  predicate ZerosFrom(fraction: string, places: nat) {
    forall i :: places <= i < |fraction| ==> fraction[i] == '0'
  }

  /** An amount in units of 10^-f is accepted if positive, and comes out in units of 10^-precision. */
  predicate Denotes(r: Option<nat>, units: nat, f: nat, exact: bool, precision: nat) {
    && (r.Some? <==> units > 0 && exact)
    && (r.Some? ==> r.value * Pow10(f) == units * Pow10(precision))
  }

  lemma {:induction false} ScaleDenotes(n: nat, f: nat, sn: nat, precision: nat)
    requires sn <= f && sn <= precision
    ensures Denotes(Scale(Some(n), precision - sn), n * Pow10(f - sn), f, true, precision)
  {
    hide Pow10;
    Rescale(n, f, sn, precision);
  }

  lemma {:induction false} PartsDenote(whole: string, dac: string, precision: nat)
    requires AllDigits(whole) && AllDigits(dac)
    ensures Denotes(ParseParts(whole, dac, precision), Val(whole) * Pow10(|dac|) + Val(dac), |dac|,
                    ZerosFrom(dac, precision), precision)
  {
    hide Pow10, Val, Scale, SetString, Denotes;
    var sn := if |dac| < precision then |dac| else precision;
    var rest := dac[sn..];
    forall i | precision <= i < |dac| ensures dac[i] == rest[i - sn] {}
    if AllZeros(rest) {
      Shift(whole, dac, sn);
      ScaleDigits(whole + dac[..sn], precision - sn);
      ScaleDenotes(Val(whole + dac[..sn]), |dac|, sn, precision);
    } else {
      NothingDenotes(Val(whole) * Pow10(|dac|) + Val(dac), |dac|, precision);
    }
  }

  lemma NothingDenotes(units: nat, f: nat, precision: nat)
    ensures Denotes(None, units, f, false, precision)
  {
  }

  /**
   * The parser's meaning on every decimal numeral: it accepts exactly the positive ones without
   * a nonzero digit past the 18th decimal, and then returns the value times 10^18.
   */
  lemma {:induction false} ParseDenotes(s: string)
    requires IsNumeral(s)
    ensures Denotes(Parse(s), Units(s), |Fraction(s)|, ZerosFrom(Fraction(s), WEI_PRECISION), WEI_PRECISION)
  {
    hide Pow10, Val, ParseParts, Denotes;
    PartsDenote(s[..DotAt(s)], Fraction(s), WEI_PRECISION);
  }

  lemma Associate(n: nat, a: nat, b: nat)
    ensures n * (a * b) == n * a * b
  {
  }

  lemma Positive(n: nat, a: nat)
    requires n > 0 && a > 0
    ensures n * a > 0
  {
  }

  lemma Regroup(n: nat, a: nat, b: nat, c: nat, d: nat)
    requires a * b == c * d
    ensures n * a * b == n * c * d
  {
    Associate(n, a, b);
    Associate(n, c, d);
  }

  lemma {:induction false} Rescale(n: nat, f: nat, sn: nat, precision: nat)
    requires sn <= f && sn <= precision
    ensures n * Pow10(precision - sn) * Pow10(f) == n * Pow10(f - sn) * Pow10(precision)
    ensures n > 0 <==> n * Pow10(f - sn) > 0
  {
    hide Pow10;
    PowAdd(precision - sn, f);
    PowAdd(f - sn, precision);
    Regroup(n, Pow10(precision - sn), Pow10(f), Pow10(f - sn), Pow10(precision));
  }

  // ---- The printer is the parser's inverse ----

  lemma TrimAppend(a: string, b: string, c: char)
    ensures TrimRight(a + b, c) == if TrimRight(b, c) == [] then TrimRight(a, c) else a + TrimRight(b, c)
  {
    if b == [] {
      assert a + b == a;
    } else {
      assert (a + b)[..|a + b| - 1] == a + b[..|b| - 1];
    }
  }

  lemma TrimZeros(s: string)
    ensures |TrimRight(s, '0')| <= |s|
    ensures s == TrimRight(s, '0') + Zeros(|s| - |TrimRight(s, '0')|)
    ensures TrimRight(s, '0') != [] ==> TrimRight(s, '0')[|TrimRight(s, '0')| - 1] != '0'
  {
    if s != [] && s[|s| - 1] == '0' {
      assert s == s[..|s| - 1] + ['0'];
    }
  }

  function WithDot(whole: string, fraction: string): string {
    if fraction == [] then whole else whole + "." + fraction
  }

  lemma TrimDotted(whole: string, fraction: string)
    requires AllDigits(whole) && AllDigits(fraction)
    ensures TrimRight(TrimRight(whole + "." + fraction, '0'), '.') == WithDot(whole, TrimRight(fraction, '0'))
  {
    var f := TrimRight(fraction, '0');
    TrimZeros(fraction);
    TrimAppend(whole + ".", fraction, '0');
    if f == [] {
      assert (whole + ".")[..|whole|] == whole;
    } else {
      assert IsDigit(f[|f| - 1]) by { assert f[|f| - 1] == fraction[|f| - 1]; }
    }
  }

  /** The digits of w with at least one before the point and `precision` after it. */
  function Full(w: nat, precision: nat): (s: string)
    ensures AllDigits(s) && |s| > precision
  {
    var d := Digits(w);
    if |d| > precision then d else Zeros(precision + 1 - |d|) + d
  }

  lemma ZerosFront(n: nat)
    ensures Zeros(n + 1) == "0" + Zeros(n)
  {
  }

  lemma PointAfterFirst(first: string, rest: string)
    requires |first| == 1
    ensures first + "." + rest == (first + rest)[..1] + "." + (first + rest)[1..]
  {
    assert (first + rest)[..1] == first && (first + rest)[1..] == rest;
  }

  lemma {:induction false} SmallShapes(d: string, k: nat)
    ensures Zeros(k + 1) + d == "0" + (Zeros(k) + d)
    ensures "0." + Zeros(k) + d == "0" + "." + (Zeros(k) + d)
  {
    ZerosFront(k);
  }

  lemma {:induction false} DottedFull(w: nat, precision: nat)
    ensures var n := |Full(w, precision)| - precision;
            Dotted(Digits(w), precision) == Full(w, precision)[..n] + "." + Full(w, precision)[n..]
  {
    hide Digits, Zeros;
    var d := Digits(w);
    if |d| <= precision {
      var k := precision - |d|;
      SmallShapes(d, k);
      PointAfterFirst("0", Zeros(k) + d);
      assert Full(w, precision) == "0" + (Zeros(k) + d);
      assert |Full(w, precision)| - precision == 1;
    }
  }

  lemma {:induction false} FormatShape(w: nat)
    requires w > 0
    ensures var full := Full(w, WEI_PRECISION);
            var n := |full| - WEI_PRECISION;
            Format(w) == WithDot(full[..n], TrimRight(full[n..], '0'))
  {
    var full := Full(w, WEI_PRECISION);
    var n := |full| - WEI_PRECISION;
    DottedFull(w, WEI_PRECISION);
    TrimDotted(full[..n], full[n..]);
  }

  lemma {:induction false} FullVal(w: nat, precision: nat)
    ensures Val(Full(w, precision)) == w
    ensures w > 0 && Full(w, precision)[0] == '0' ==> |Full(w, precision)| == precision + 1
  {
    var d := Digits(w);
    if |d| <= precision {
      ValZeros(Zeros(precision + 1 - |d|));
      ValAppend(Zeros(precision + 1 - |d|), d);
    }
  }

  lemma {:induction false} FullIs(s: string, precision: nat)
    requires AllDigits(s) && |s| > precision
    requires s[0] == '0' ==> |s| == precision + 1
    ensures Full(Val(s), precision) == s
  {
    Padded(s);
    var d := Digits(Val(s));
    if |d| < |s| { assert s[0] == Zeros(|s| - |d|)[0]; }
  }

  lemma {:induction false} DotAtIs(a: string, b: string)
    requires '.' !in a
    ensures DotAt(a + b) == |a| + DotAt(b)
    decreases |a|
  {
    if a == [] {
      assert a + b == b;
    } else {
      assert (a + b)[1..] == a[1..] + b;
      DotAtIs(a[1..], b);
    }
  }

  /** Where the point of a printed amount is. */
  lemma {:induction false} WithDotParts(whole: string, fraction: string)
    requires AllDigits(whole) && AllDigits(fraction) && whole != []
    ensures var s := WithDot(whole, fraction);
            s[..DotAt(s)] == whole && Fraction(s) == fraction && IsNumeral(s) && (DotAt(s) < |s| <==> fraction != [])
  {
    if fraction == [] {
      DotAtIs(whole, []);
      assert whole + [] == whole;
    } else {
      DotAtIs(whole, "." + fraction);
      assert whole + ("." + fraction) == whole + "." + fraction;
    }
  }

  lemma {:induction false} CanonicalParts(whole: string, fraction: string)
    requires AllDigits(whole) && AllDigits(fraction) && whole != [] && (whole[0] == '0' ==> |whole| == 1)
    requires |fraction| <= WEI_PRECISION && (fraction != [] ==> fraction[|fraction| - 1] != '0')
    ensures Canonical(WithDot(whole, fraction))
  {
    WithDotParts(whole, fraction);
  }

  lemma Cancel(a: nat, b: nat, p: nat)
    requires p > 0 && a * p == b * p
    ensures a == b
  {
  }

  lemma Vanishes(units: nat, q: nat)
    ensures units == 0 ==> units * q == 0
  {
  }

  lemma {:induction false} Solve(v: Option<nat>, w: nat, units: nat, f: nat, precision: nat)
    requires w > 0 && units * Pow10(precision) == w * Pow10(f)
    requires Denotes(v, units, f, true, precision)
    ensures v == Some(w)
  {
    hide Pow10;
    Positive(w, Pow10(f));
    Vanishes(units, Pow10(precision));
    Cancel(v.value, w, Pow10(f));
  }

  lemma {:induction false} UnitsOfParts(whole: string, decimals: string, kept: nat)
    requires AllDigits(whole) && AllDigits(decimals)
    requires kept <= |decimals| && AllZeros(decimals[kept..])
    ensures (Val(whole) * Pow10(kept) + Val(decimals[..kept])) * Pow10(|decimals|) ==
            Val(whole + decimals) * Pow10(kept)
  {
    hide Pow10, Val;
    ValAppend(whole, decimals);
    ValAppend(whole, decimals[..kept]);
    Shift(whole, decimals, kept);
    PowAdd(|decimals| - kept, kept);
    Associate(Val(whole + decimals[..kept]), Pow10(|decimals| - kept), Pow10(kept));
  }

  /** Parsing the parts of a padded digit string gives its number. */
  lemma {:induction false} PartsBack(whole: string, decimals: string, kept: nat)
    requires AllDigits(whole) && AllDigits(decimals)
    requires kept <= |decimals| && AllZeros(decimals[kept..])
    requires Val(whole + decimals) > 0
    ensures ParseParts(whole, decimals[..kept], |decimals|) == Some(Val(whole + decimals))
  {
    hide Pow10, Val, ParseParts, Denotes;
    PartsDenote(whole, decimals[..kept], |decimals|);
    UnitsOfParts(whole, decimals, kept);
    Solve(ParseParts(whole, decimals[..kept], |decimals|), Val(whole + decimals),
          Val(whole) * Pow10(kept) + Val(decimals[..kept]), kept, |decimals|);
  }

  lemma {:induction false} Kept(s: string) returns (k: nat)
    ensures k <= |s| && s[..k] == TrimRight(s, '0')
    ensures AllZeros(s[k..]) && (k > 0 ==> s[k - 1] != '0')
  {
    TrimZeros(s);
    k := |TrimRight(s, '0')|;
    assert s[k..] == Zeros(|s| - k);
  }

  /** What the printer prints: a whole part and decimals without trailing zeros. */
  lemma {:induction false} FormatParts(w: nat) returns (whole: string, decimals: string, kept: nat)
    requires w > 0
    ensures AllDigits(whole) && AllDigits(decimals) && |decimals| == WEI_PRECISION && whole != []
    ensures kept <= |decimals| && AllZeros(decimals[kept..]) && (kept > 0 ==> decimals[kept - 1] != '0')
    ensures whole[0] == '0' ==> |whole| == 1
    ensures Val(whole + decimals) == w && Format(w) == WithDot(whole, decimals[..kept])
  {
    hide Val, Format, WithDot, TrimRight, Full;
    var full := Full(w, WEI_PRECISION);
    var n := |full| - WEI_PRECISION;
    whole, decimals := full[..n], full[n..];
    FormatShape(w);
    FullVal(w, WEI_PRECISION);
    kept := Kept(decimals);
    assert full == whole + decimals;
  }

  /** Every printed amount is canonical, and parsing it gives back the amount. */
  lemma {:induction false} RoundTrip(w: nat)
    requires w > 0
    ensures Canonical(Format(w)) && Parse(Format(w)) == Some(w)
  {
    hide Val, ParseParts, Format, WithDot, Canonical;
    var whole, decimals, kept := FormatParts(w);
    WithDotParts(whole, decimals[..kept]);
    CanonicalParts(whole, decimals[..kept]);
    PartsBack(whole, decimals, kept);
  }

  lemma {:induction false} TrimPadded(fraction: string, n: nat)
    requires fraction != [] ==> fraction[|fraction| - 1] != '0'
    ensures TrimRight(fraction + Zeros(n), '0') == fraction
  {
    TrimAppend(fraction, Zeros(n), '0');
    TrimAllZeros(Zeros(n));
  }

  lemma TrimAllZeros(s: string)
    requires AllZeros(s)
    ensures TrimRight(s, '0') == []
  {
  }

  lemma {:induction false} FormatOfParts(whole: string, fraction: string, zeros: string)
    requires AllDigits(whole) && AllDigits(fraction)
    requires |fraction| <= WEI_PRECISION && zeros == Zeros(WEI_PRECISION - |fraction|)
    requires whole != [] && (whole[0] == '0' ==> |whole| == 1)
    requires fraction != [] ==> fraction[|fraction| - 1] != '0'
    requires Val(whole + (fraction + zeros)) > 0
    ensures Format(Val(whole + (fraction + zeros))) == WithDot(whole, fraction)
  {
    hide Val, Format, Full, Zeros, TrimRight;
    var decimals := fraction + zeros;
    var full := whole + decimals;
    FullIs(full, WEI_PRECISION);
    FormatShape(Val(full));
    assert full[..|whole|] == whole && full[|whole|..] == decimals;
    TrimPadded(fraction, WEI_PRECISION - |fraction|);
  }

  /** Printing a parsed canonical numeral gives back the text: the two are inverse both ways. */
  lemma {:induction false} RoundTripText(s: string)
    requires Canonical(s) && Parse(s).Some?
    ensures Format(Parse(s).value) == s
  {
    hide Val, ParseParts, Format, Zeros;
    var whole, fraction := s[..DotAt(s)], Fraction(s);
    var zeros := Zeros(WEI_PRECISION - |fraction|);
    var decimals := fraction + zeros;
    assert s == WithDot(whole, fraction);
    assert decimals[..|fraction|] == fraction && decimals[|fraction|..] == zeros;
    PositiveParts(whole, fraction, zeros);
    PartsBack(whole, decimals, |fraction|);
    FormatOfParts(whole, fraction, zeros);
  }

  lemma {:induction false} PositiveParts(whole: string, fraction: string, zeros: string)
    requires AllDigits(whole) && AllDigits(fraction) && AllZeros(zeros) && whole != []
    requires ParseParts(whole, fraction, |fraction| + |zeros|).Some?
    ensures Val(whole + (fraction + zeros)) > 0
  {
    hide Val, Pow10, ParseParts;
    PartsDenote(whole, fraction, |fraction| + |zeros|);
    ValZeros(zeros);
    ValAppend(whole, fraction);
    ValAppend(whole + fraction, zeros);
    Positive(Val(whole + fraction), Pow10(|zeros|));
    assert whole + (fraction + zeros) == (whole + fraction) + zeros;
  }

  lemma {:induction false} ParsePositive(s: string)
    requires Parse(s).Some?
    ensures Parse(s).value > 0
  {
    var dac := Fraction(s);
    var sn := if |dac| < WEI_PRECISION then |dac| else WEI_PRECISION;
    Positive(SetString(s[..DotAt(s)] + dac[..sn]).value, Pow10(WEI_PRECISION - sn));
  }

  // ---- Every text the parser accepts ----

  /** A numeral, one with a plus in front, or digits after a point and a plus. */
  datatype Shape = Plain(numeral: string) | Plus(numeral: string) | PointPlus(digits: string) | Malformed

  function ShapeOf(s: string): (shape: Shape)
    ensures shape.Plain? || shape.Plus? ==> IsNumeral(shape.numeral)
    ensures shape.PointPlus? ==> AllDigits(shape.digits)
  {
    if IsNumeral(s) then Plain(s)
    else if s != [] && s[0] == '+' && IsNumeral(s[1..]) then Plus(s[1..])
    else if |s| >= 3 && s[0] == '.' && s[1] == '+' && AllDigits(s[2..]) then PointPlus(s[2..])
    else Malformed
  }

  lemma {:induction false} PlusInFront(whole: string, dac: string, precision: nat)
    requires AllDigits(whole) && AllDigits(dac)
    ensures ParseParts(['+'] + whole, dac, precision) == ParseParts(whole, dac, precision)
  {
    var sn := if |dac| < precision then |dac| else precision;
    assert (['+'] + whole) + dac[..sn] == ['+'] + (whole + dac[..sn]);
    SetStringPlus(whole + dac[..sn], precision - sn);
  }

  lemma SetStringPlus(digits: string, places: nat)
    requires AllDigits(digits)
    ensures Scale(SetString(['+'] + digits), places) == Scale(SetString(digits), places)
  {
    assert (['+'] + digits)[1..] == digits;
  }

  /** A plus after the point takes up a decimal place. */
  lemma {:induction false} PlusInDecimals(digits: string, precision: nat)
    requires AllDigits(digits) && precision > 0
    ensures ParseParts("", ['+'] + digits, precision) == ParseParts("", digits, precision - 1)
  {
    var dac := ['+'] + digits;
    var sn := if |dac| < precision then |dac| else precision;
    assert "" + dac[..sn] == ['+'] + digits[..sn - 1];
    assert "" + digits[..sn - 1] == digits[..sn - 1];
    assert dac[sn..] == digits[sn - 1..];
    SetStringPlus(digits[..sn - 1], precision - sn);
  }

  lemma {:induction false} PlusDot(s: string)
    requires s != [] && s[0] == '+'
    ensures s[..DotAt(s)] == ['+'] + s[1..][..DotAt(s[1..])] && Fraction(s) == Fraction(s[1..])
  {
  }

  /** What gets past the integer reader with a positive value. */
  lemma SetStringPositive(s: string)
    ensures SetString(s).Some? && SetString(s).value > 0 ==>
              (s != [] && AllDigits(s)) || (s != [] && s[0] == '+' && s[1..] != [] && AllDigits(s[1..]))
  {
  }

  lemma {:induction false} DigitsApart(whole: string, dac: string, sn: nat)
    requires sn <= |dac| && AllDigits(whole + dac[..sn]) && AllZeros(dac[sn..])
    ensures AllDigits(whole) && AllDigits(dac)
  {
    var body := whole + dac[..sn];
    forall i | 0 <= i < |whole| ensures IsDigit(whole[i]) { assert whole[i] == body[i]; }
    forall i | 0 <= i < |dac| ensures IsDigit(dac[i]) {
      if i < sn {
        assert dac[i] == body[|whole| + i];
      } else {
        assert dac[i] == dac[sn..][i - sn];
      }
    }
  }

  lemma {:induction false} AcceptedParts(whole: string, dac: string, precision: nat)
    requires ParseParts(whole, dac, precision).Some? && precision > 0
    ensures || (AllDigits(whole) && AllDigits(dac))
            || (whole != [] && whole[0] == '+' && AllDigits(whole[1..]) && AllDigits(dac) && whole[1..] + dac != [])
            || (whole == [] && |dac| > 1 && dac[0] == '+' && AllDigits(dac[1..]))
    ensures whole + dac != []
  {
    hide AllDigits, AllZeros;
    var sn := if |dac| < precision then |dac| else precision;
    var body := whole + dac[..sn];
    SetStringPositive(body);
    if AllDigits(body) {
      DigitsApart(whole, dac, sn);
    } else if whole != [] {
      assert body[1..] == whole[1..] + dac[..sn];
      DigitsApart(whole[1..], dac, sn);
    } else {
      assert body[1..] == [] + dac[1..][..sn - 1] && dac[1..][sn - 1..] == dac[sn..];
      DigitsApart([], dac[1..], sn - 1);
    }
  }

  lemma {:induction false} NothingElse(s: string)
    requires Parse(s).Some?
    ensures !ShapeOf(s).Malformed?
  {
    hide ParseParts;
    var whole, dac := s[..DotAt(s)], Fraction(s);
    AcceptedParts(whole, dac, WEI_PRECISION);
    if whole != [] && whole[0] == '+' {
      PlusDot(s);
      assert s[1..][..DotAt(s[1..])] == whole[1..];
    } else if whole == [] {
      assert s[1..] == dac && s[2..] == dac[1..];
    }
  }

  /**
   * The parser on every text. It takes a numeral, with or without a plus in front, for its value;
   * it takes a plus after a leading point for a decimal place, so that the digits behind it count
   * a tenth; and it takes nothing else.
   */
  lemma {:induction false} ParseExact(s: string)
    ensures match ShapeOf(s)
            case Plain(t) =>
              Denotes(Parse(s), Units(t), |Fraction(t)|, ZerosFrom(Fraction(t), WEI_PRECISION), WEI_PRECISION)
            case Plus(t) =>
              Denotes(Parse(s), Units(t), |Fraction(t)|, ZerosFrom(Fraction(t), WEI_PRECISION), WEI_PRECISION)
            case PointPlus(d) =>
              Denotes(Parse(s), Val(d), |d|, ZerosFrom(d, WEI_PRECISION - 1), WEI_PRECISION - 1)
            case Malformed => Parse(s).None?
  {
    hide Pow10, Val, ParseParts, Denotes, ZerosFrom, Units;
    match ShapeOf(s) {
      case Plain(t) => ParseDenotes(s);
      case Plus(t) =>
        PlusDot(s);
        PlusInFront(t[..DotAt(t)], Fraction(t), WEI_PRECISION);
        ParseDenotes(t);
      case PointPlus(d) =>
        assert s[..DotAt(s)] == "" && Fraction(s) == ['+'] + d;
        PlusInDecimals(d, WEI_PRECISION);
        PartsDenote("", d, WEI_PRECISION - 1);
        ValEmpty(Pow10(|d|));
      case Malformed => if Parse(s).Some? { NothingElse(s); }
    }
  }

  lemma ValEmpty(p: nat)
    ensures Val("") * p == 0
  {
  }

  /** A text that is no numeral and is accepted all the same, for what it would be without the sign. */
  lemma {:induction false} LeadingPlus(digit: char)
    requires IsDigit(digit) && digit != '0'
    ensures !IsNumeral(['+', digit])
    ensures Parse(['+', digit]) == Some((digit - '0') as nat * Pow10(18))
  {
    hide Pow10;
    var s := ['+', digit];
    assert s[1..] == [digit] && [digit][1..] == [];
    assert DotAt(s) == 1 + DotAt([digit]) && DotAt([digit]) == 1 + DotAt([]);
    assert s[..2] == ['+'] + [digit] && Fraction(s) == [];
    PlusInFront([digit], [], 18);
    assert [digit] + [][..0] == [digit];
    assert !IsDigit(s[..2][0]);
    OneDigit(digit);
  }

  /** And one accepted for a tenth of what it would be without the sign. */
  lemma {:induction false} PlusAfterPoint(digit: char)
    requires IsDigit(digit) && digit != '0'
    ensures !IsNumeral(['.', '+', digit])
    ensures Parse(['.', '+', digit]) == Some((digit - '0') as nat * Pow10(16))
  {
    hide Pow10;
    var dac := ['+', digit];
    assert Fraction(['.', '+', digit]) == dac;
    assert "" + dac[..2] == dac && dac[1..] == [digit] && !IsDigit(dac[0]);
    OneDigit(digit);
  }

  lemma OneDigit(digit: char)
    requires IsDigit(digit)
    ensures Val([digit]) == (digit - '0') as nat
  {
    assert [digit][..0] == [];
  }
}
