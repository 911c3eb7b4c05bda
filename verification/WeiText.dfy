/** Text form of Wei amounts (core/assets/wei.go).

    The decimal library is taken by its documented behaviour: a decimal is a value
    and an exponent of ten, its text form is plain notation without trailing
    zeros in the fraction, and it is parsed from plain or scientific notation. */
module WeiText {
  import opened Options

  // ------------------------------------------------------------------- digits

  function Pow10(k: nat): (r: nat)
    ensures r > 0
  {
    if k == 0 then 1 else 10 * Pow10(k - 1)
  }

  lemma {:induction false} Powers(j: nat, k: nat)
    ensures Pow10(j + k) == Pow10(j) * Pow10(k)
    decreases k
  {
    if k > 0 {
      Powers(j, k - 1);
      assert Pow10(j) * (10 * Pow10(k - 1)) == 10 * (Pow10(j) * Pow10(k - 1));
    }
  }

  predicate IsDigit(c: char) { '0' <= c <= '9' }

  predicate AllDigits(s: string) { forall i :: 0 <= i < |s| ==> IsDigit(s[i]) }

  /** The number a string of digits stands for. */
  function Num(s: string): nat
    requires AllDigits(s)
  {
    if s == [] then 0 else Num(s[..|s| - 1]) * 10 + (s[|s| - 1] as int - '0' as int)
  }

  function DigitChar(d: nat): (c: char)
    requires d < 10
    ensures IsDigit(c) && c as int - '0' as int == d
  {
    ('0' as int + d) as char
  }

  function Digits(n: nat): (s: string)
    ensures |s| > 0 && AllDigits(s) && Num(s) == n
  {
    if n < 10 then [DigitChar(n)]
    else
      var s := Digits(n / 10) + [DigitChar(n % 10)];
      assert s[..|s| - 1] == Digits(n / 10);
      s
  }

  function ZeroString(k: nat): (s: string)
    ensures |s| == k && AllDigits(s) && forall i :: 0 <= i < k ==> s[i] == '0'
  {
    seq(k, _ => '0')
  }

  lemma {:induction false} LeadingZeros(k: nat, s: string)
    requires AllDigits(s)
    ensures Num(ZeroString(k) + s) == Num(s)
    decreases k + |s|
  {
    var all := ZeroString(k) + s;
    if s != [] {
      assert all[..|all| - 1] == ZeroString(k) + s[..|s| - 1];
      LeadingZeros(k, s[..|s| - 1]);
    } else if k > 0 {
      assert all[..|all| - 1] == ZeroString(k - 1) + [];
      LeadingZeros(k - 1, []);
    }
  }

  lemma {:induction false} TrailingZeros(s: string, k: nat)
    requires AllDigits(s)
    ensures Num(s + ZeroString(k)) == Num(s) * Pow10(k)
    decreases k
  {
    var all := s + ZeroString(k);
    if k == 0 {
      assert all == s;
    } else {
      assert all[..|all| - 1] == s + ZeroString(k - 1);
      TrailingZeros(s, k - 1);
      TimesTen(Num(s), Pow10(k - 1));
    }
  }

  lemma TimesTen(a: nat, b: nat)
    ensures a * (10 * b) == (a * b) * 10
  {
  }

  // ----------------------------------------------------------------- decimals

  datatype Decimal = Decimal(value: int, exp: int)

  /** decimal.NewFromBigInt(w, -places) */
  function Scaled(w: int, places: nat): Decimal { Decimal(w, -(places as int)) }

  function Abs(x: int): nat { if x < 0 then -x else x }

  /** Division that truncates toward zero, as big.Int.Quo does. */
  function Quo(x: int, y: nat): int
    requires y > 0
  {
    if x < 0 then -(-x / y) else x / y
  }

  predicate IsInteger(d: Decimal) { d.exp >= 0 || Abs(d.value) % Pow10(-d.exp) == 0 }

  /** The integer part. */
  function BigInt(d: Decimal): int {
    if d.exp >= 0 then d.value * Pow10(d.exp) else Quo(d.value, Pow10(-d.exp))
  }

  function Mul(d: Decimal, e: Decimal): Decimal { Decimal(d.value * e.value, d.exp + e.exp) }

  function TrimZeros(s: string): (r: string)
    requires AllDigits(s)
    ensures |r| <= |s| && AllDigits(r)
  {
    if s != [] && s[|s| - 1] == '0' then TrimZeros(s[..|s| - 1]) else s
  }

  lemma {:induction false} OnlyZerosTrimmed(s: string)
    requires AllDigits(s)
    ensures s == TrimZeros(s) + ZeroString(|s| - |TrimZeros(s)|)
    decreases |s|
  {
    if s != [] && s[|s| - 1] == '0' {
      OnlyZerosTrimmed(s[..|s| - 1]);
      assert s == s[..|s| - 1] + ['0'];
    }
  }

  /** The digits before the point, and the `places` digits behind it. */
  function IntPart(str: string, places: nat): string { if |str| > places then str[..|str| - places] else "0" }

  function Fraction(str: string, places: nat): string {
    if |str| > places then str[|str| - places..] else ZeroString(places - |str|) + str
  }

  lemma PartsOfNumber(str: string, places: nat)
    requires AllDigits(str)
    ensures AllDigits(IntPart(str, places)) && AllDigits(Fraction(str, places))
    ensures IntPart(str, places) != [] && |Fraction(str, places)| == places
    ensures Num(IntPart(str, places) + Fraction(str, places)) == Num(str)
  {
    if |str| > places {
      assert IntPart(str, places) + Fraction(str, places) == str;
    } else {
      var k := places - |str| + 1;
      assert "0" + (ZeroString(k - 1) + str) == ZeroString(k) + str;
      LeadingZeros(k, str);
    }
  }

  function Sign(value: int): string { if value < 0 then "-" else "" }

  function WithFraction(front: string, fraction: string): string { if fraction == "" then front else front + "." + fraction }

  /** Decimal.String. */
  function DecimalString(d: Decimal): string {
    if d.exp >= 0 then Sign(d.value) + Digits(Abs(d.value * Pow10(d.exp)))
    else
      var str, places := Digits(Abs(d.value)), -d.exp;
      PartsOfNumber(str, places);
      var trimmed := TrimZeros(Fraction(str, places));
      WithFraction(Sign(d.value) + IntPart(str, places), trimmed)
  }

  // ------------------------------------------------------------------ parsing

  /** The first position of the character, or the length when there is none. */
  function IndexOf(s: string, c: char): (r: nat)
    ensures r <= |s| && (r < |s| ==> s[r] == c) && forall i :: 0 <= i < r ==> s[i] != c
  {
    if s == [] || s[0] == c then 0 else 1 + IndexOf(s[1..], c)
  }

  function ParseInt(s: string): Option<int> {
    if s != [] && s[0] == '-' then (if |s| > 1 && AllDigits(s[1..]) then Some(0 - Num(s[1..])) else None)
    else if s != [] && s[0] == '+' then (if |s| > 1 && AllDigits(s[1..]) then Some(Num(s[1..])) else None)
    else if s != [] && AllDigits(s) then Some(Num(s))
    else None
  }

  predicate IsInt32(x: int) { -0x8000_0000 <= x < 0x8000_0000 }

  /** Plain notation: at most one point, which may be the last character. */
  function ParsePlain(s: string, exp: int): Option<Decimal> {
    var p := IndexOf(s, '.');
    if p == |s| then
      match ParseInt(s) { case None => None case Some(value) => Some(Decimal(value, exp)) }
    else if IndexOf(s[p + 1..], '.') < |s| - p - 1 then None
    else if !IsInt32(exp - (|s| - p - 1)) then None
    else
      match ParseInt(s[..p] + s[p + 1..]) { case None => None case Some(value) => Some(Decimal(value, exp - (|s| - p - 1))) }
  }

  function Smaller(a: nat, b: nat): nat { if a < b then a else b }

  /** decimal.NewFromString. */
  function NewFromString(s: string): Option<Decimal> {
    var e := Smaller(IndexOf(s, 'e'), IndexOf(s, 'E'));
    if e == |s| then ParsePlain(s, 0)
    else
      match ParseInt(s[e + 1..])
      case None => None
      case Some(exp) => if IsInt32(exp) then ParsePlain(s[..e], exp) else None
  }

  lemma IndexIs(s: string, c: char, p: nat)
    requires p <= |s| && (p < |s| ==> s[p] == c) && forall i :: 0 <= i < p ==> s[i] != c
    ensures IndexOf(s, c) == p
  {
  }

  predicate IsPlain(s: string) { forall i :: 0 <= i < |s| ==> s[i] == '-' || s[i] == '.' || IsDigit(s[i]) }

  lemma PlainText(s: string)
    requires IsPlain(s)
    ensures NewFromString(s) == ParsePlain(s, 0)
  {
  }

  lemma WithoutPoint(s: string, value: int)
    requires ParseInt(s) == Some(value) && forall i :: 0 <= i < |s| ==> s[i] != '.'
    ensures ParsePlain(s, 0) == Some(Decimal(value, 0))
  {
  }

  lemma WithPoint(front: string, fraction: string, value: int)
    requires ParseInt(front + fraction) == Some(value) && |fraction| < 0x8000_0000
    requires (forall i :: 0 <= i < |front| ==> front[i] != '.') && forall i :: 0 <= i < |fraction| ==> fraction[i] != '.'
    ensures ParsePlain(front + "." + fraction, 0) == Some(Decimal(value, 0 - |fraction|))
  {
    var s := front + "." + fraction;
    IndexIs(s, '.', |front|);
    assert s[..|front|] == front && s[|front| + 1..] == fraction;
    IndexIs(fraction, '.', |fraction|);
  }

  function Negated(negative: bool, n: nat): int { if negative then 0 - n else n }

  lemma SignedInt(value: int, digits: string)
    requires digits != [] && AllDigits(digits)
    ensures ParseInt(Sign(value) + digits) == Some(Negated(value < 0, Num(digits)))
  {
    var s := Sign(value) + digits;
    if value < 0 {
      assert s[0] == '-' && |s| > 1 && s[1..] == digits;
    } else {
      assert s == digits && IsDigit(s[0]);
    }
  }

  lemma WholeIsParsed(value: int)
    ensures NewFromString(Sign(value) + Digits(Abs(value))) == Some(Decimal(value, 0))
  {
    var s := Sign(value) + Digits(Abs(value));
    assert IsPlain(s);
    PlainText(s);
    SignedInt(value, Digits(Abs(value)));
    WithoutPoint(s, value);
  }

  lemma FixedIsParsed(value: int, intPart: string, fraction: string)
    requires intPart != [] && AllDigits(intPart) && AllDigits(fraction) && |fraction| < 0x8000_0000
    ensures NewFromString(WithFraction(Sign(value) + intPart, fraction))
         == Some(Decimal(Negated(value < 0, Num(intPart + fraction)), 0 - |fraction|))
  {
    SignedInt(value, intPart + fraction);
    assert Sign(value) + (intPart + fraction) == (Sign(value) + intPart) + fraction;
    TextIsParsed(Sign(value) + intPart, fraction, Negated(value < 0, Num(intPart + fraction)));
  }

  lemma TextIsParsed(front: string, fraction: string, value: int)
    requires SignOrDigits(front) && AllDigits(fraction) && |fraction| < 0x8000_0000 && ParseInt(front + fraction) == Some(value)
    ensures NewFromString(WithFraction(front, fraction)) == Some(Decimal(value, 0 - |fraction|))
  {
    if fraction == "" {
      assert front + fraction == front;
      FrontParsed(front, value);
    } else {
      FrontAndFractionParsed(front, fraction, value);
    }
  }

  predicate SignOrDigits(s: string) { forall i :: 0 <= i < |s| ==> s[i] == '-' || IsDigit(s[i]) }

  lemma FrontParsed(front: string, value: int)
    requires SignOrDigits(front) && ParseInt(front) == Some(value)
    ensures NewFromString(front) == Some(Decimal(value, 0))
  {
  }

  lemma FrontAndFractionParsed(front: string, fraction: string, value: int)
    requires SignOrDigits(front) && AllDigits(fraction) && |fraction| < 0x8000_0000 && ParseInt(front + fraction) == Some(value)
    ensures NewFromString(front + "." + fraction) == Some(Decimal(value, 0 - |fraction|))
  {
    PlainText(front + "." + fraction);
    WithPoint(front, fraction, value);
  }

  lemma WholeIsPrinted(value: int)
    ensures DecimalString(Scaled(value, 0)) == Sign(value) + Digits(Abs(value)) && value * Pow10(0) == value
  {
  }

  lemma FixedIsPrinted(value: int, places: nat)
    requires places > 0 && AllDigits(Fraction(Digits(Abs(value)), places))
    ensures DecimalString(Scaled(value, places))
         == WithFraction(Sign(value) + IntPart(Digits(Abs(value)), places), TrimZeros(Fraction(Digits(Abs(value)), places)))
  {
  }

  /** The parsed text stands for the same amount. */
  ghost predicate Recovers(d: Option<Decimal>, value: int, places: nat) {
    d.Some? && 0 - places <= d.value.exp <= 0 && value == d.value.value * Pow10(d.value.exp + places)
  }

  /** Parsing what was printed gives the same number: only zeros were trimmed. */
  lemma PrintedIsParsed(value: int, places: nat)
    requires places < 0x8000_0000
    ensures Recovers(NewFromString(DecimalString(Scaled(value, places))), value, places)
  {
    if places == 0 {
      WholeIsPrinted(value);
      WholeIsParsed(value);
    } else {
      FixedIsRecovered(value, places, Digits(Abs(value)));
    }
  }

  lemma FixedIsRecovered(value: int, places: nat, str: string)
    requires 0 < places < 0x8000_0000 && str == Digits(Abs(value))
    ensures Recovers(NewFromString(DecimalString(Scaled(value, places))), value, places)
  {
    PartsOfNumber(str, places);
    FixedIsPrinted(value, places);
    PartsAreParsed(value, IntPart(str, places), Fraction(str, places));
  }

  lemma PartsAreParsed(value: int, intPart: string, fraction: string)
    requires intPart != [] && AllDigits(intPart) && AllDigits(fraction) && |fraction| < 0x8000_0000
    requires Num(intPart + fraction) == Abs(value)
    ensures Recovers(NewFromString(WithFraction(Sign(value) + intPart, TrimZeros(fraction))), value, |fraction|)
  {
    FixedIsParsed(value, intPart, TrimZeros(fraction));
    TrimmedAmount(value, intPart, fraction);
  }

  lemma TrimmedAmount(value: int, intPart: string, fraction: string)
    requires AllDigits(intPart) && AllDigits(fraction) && Num(intPart + fraction) == Abs(value)
    ensures var trimmed := TrimZeros(fraction);
            Recovers(Some(Decimal(Negated(value < 0, Num(intPart + trimmed)), 0 - |trimmed|)), value, |fraction|)
  {
    TrimmedNumber(intPart, fraction);
    NegatedProduct(value, Num(intPart + TrimZeros(fraction)), Pow10(|fraction| - |TrimZeros(fraction)|));
  }

  lemma TrimmedNumber(intPart: string, fraction: string)
    requires AllDigits(intPart) && AllDigits(fraction)
    ensures var trimmed := TrimZeros(fraction);
            Num(intPart + fraction) == Num(intPart + trimmed) * Pow10(|fraction| - |trimmed|)
  {
    var trimmed := TrimZeros(fraction);
    var k := |fraction| - |trimmed|;
    OnlyZerosTrimmed(fraction);
    assert intPart + fraction == (intPart + trimmed) + ZeroString(k);
    TrailingZeros(intPart + trimmed, k);
  }

  lemma NegatedProduct(value: int, n: nat, scale: nat)
    requires Abs(value) == n * scale
    ensures value == Negated(value < 0, n) * scale
  {
  }

  // -------------------------------------------------------------------- units

  /** In the order in which UnmarshalText tries them. */
  const UNITS: seq<string> :=
    ["tether", "gether", "mether", "kether", "ether", "milli", "micro", "gwei", "mwei", "kwei", "wei"]

  predicate IsUnit(suf: string) { exists k :: 0 <= k < |UNITS| && UNITS[k] == suf }

  /** suffixExp; any other suffix panics in the source. */
  function SuffixExp(suf: string): (r: nat)
    requires IsUnit(suf)
    ensures forall k :: 0 <= k < |UNITS| && UNITS[k] == suf ==> r == 30 - 3 * k
  {
    match suf
    case "wei" => 0
    case "kwei" => 3
    case "mwei" => 6
    case "gwei" => 9
    case "micro" => 12
    case "milli" => 15
    case "ether" => 18
    case "kether" => 21
    case "mether" => 24
    case "gether" => 27
    case _ => 30
  }

  // ----------------------------------------------------------------- printing

  /** The switch of Text, which has a table of its own: an empty or unknown unit means wei. */
  function TextUnit(suffix: string): (string, nat) {
    match suffix
    case "kwei" => ("kwei", 3)
    case "mwei" => ("mwei", 6)
    case "gwei" => ("gwei", 9)
    case "micro" => ("micro", 12)
    case "milli" => ("milli", 15)
    case "ether" => ("ether", 18)
    case "kether" => ("kether", 21)
    case "mether" => ("mether", 24)
    case "gether" => ("gether", 27)
    case "tether" => ("tether", 30)
    case _ => ("wei", 0)
  }

  lemma UnitAsItself(k: nat)
    requires k < |UNITS|
    ensures TextUnit(UNITS[k]) == (UNITS[k], 30 - 3 * k)
  {
  }

  lemma OtherwiseWei(suffix: string)
    requires forall k :: 0 <= k < |UNITS| ==> UNITS[k] != suffix
    ensures TextUnit(suffix) == ("wei", 0)
  {
    assert UNITS[0] != suffix && UNITS[1] != suffix && UNITS[2] != suffix && UNITS[3] != suffix && UNITS[4] != suffix;
    assert UNITS[5] != suffix && UNITS[6] != suffix && UNITS[7] != suffix && UNITS[8] != suffix && UNITS[9] != suffix;
  }

  /** The two tables agree, and every unit is printed as itself. */
  lemma TablesAgree(suffix: string)
    ensures IsUnit(TextUnit(suffix).0) && TextUnit(suffix).1 == SuffixExp(TextUnit(suffix).0)
    ensures TextUnit(suffix).0 == if IsUnit(suffix) then suffix else "wei"
  {
    if IsUnit(suffix) {
      var k :| 0 <= k < |UNITS| && UNITS[k] == suffix;
      UnitAsItself(k);
    } else {
      OtherwiseWei(suffix);
      assert UNITS[10] == "wei";
    }
  }

  /** Text: zero is printed without a unit. */
  function Text(w: int, suffix: string): string {
    var (suf, exp) := TextUnit(suffix);
    if w == 0 then "0" else DecimalString(Scaled(w, exp)) + " " + suf
  }

  const U64_ETH: int := 1_000_000_000_000_000_000

  /** The unit that String picks. */
  function UnitFor(w: int): (suf: string)
    ensures IsUnit(suf)
  {
    AllUnits();
    if 0 <= w < 0x1_0000_0000_0000_0000 then
      if w >= U64_ETH then "ether"
      else if w >= 1_000_000_000_000_000 then "milli"
      else if w >= 1_000_000_000_000 then "micro"
      else if w >= 1_000_000_000 then "gwei"
      else if w >= 1_000_000 then "mwei"
      else if w >= 1_000 then "kwei"
      else "wei"
    else if w >= U64_ETH * 1_000_000_000_000 then "tether"
    else if w >= U64_ETH * 1_000_000_000 then "gether"
    else if w >= U64_ETH * 1_000_000 then "mether"
    else if w >= U64_ETH * 1_000 then "kether"
    else "ether"
  }

  lemma AllUnits()
    ensures forall k :: 0 <= k < |UNITS| ==> IsUnit(UNITS[k])
    ensures IsUnit("ether") && IsUnit("milli") && IsUnit("micro") && IsUnit("gwei") && IsUnit("mwei") && IsUnit("kwei") && IsUnit("wei")
    ensures IsUnit("tether") && IsUnit("gether") && IsUnit("mether") && IsUnit("kether")
  {
    assert UNITS[0] == "tether" && UNITS[1] == "gether" && UNITS[2] == "mether" && UNITS[3] == "kether" && UNITS[4] == "ether";
    assert UNITS[5] == "milli" && UNITS[6] == "micro" && UNITS[7] == "gwei" && UNITS[8] == "mwei" && UNITS[9] == "kwei" && UNITS[10] == "wei";
  }

  function String(w: int): string { Text(w, UnitFor(w)) }

  /** String picks the largest unit of which a positive amount has at least one. */
  lemma StringUsesLargestUnit(w: int)
    requires w > 0
    ensures Pow10(SuffixExp(UnitFor(w))) <= w
    ensures SuffixExp(UnitFor(w)) < 30 ==> w < Pow10(SuffixExp(UnitFor(w)) + 3)
  {
    PowersOfTen();
  }

  lemma PowersOfTen()
    ensures Pow10(0) == 1 && Pow10(3) == 1_000 && Pow10(6) == 1_000_000 && Pow10(9) == 1_000_000_000
    ensures Pow10(12) == 1_000_000_000_000 && Pow10(15) == 1_000_000_000_000_000 && Pow10(18) == U64_ETH
    ensures Pow10(21) == U64_ETH * 1_000 && Pow10(24) == U64_ETH * 1_000_000
    ensures Pow10(27) == U64_ETH * 1_000_000_000 && Pow10(30) == U64_ETH * 1_000_000_000_000
  {
  }

  // ------------------------------------------------------------------- parsing

  predicate HasSuffix(s: string, suf: string) { |suf| <= |s| && s[|s| - |suf|..] == suf }

  function TrimSuffix(s: string, suf: string): string { if HasSuffix(s, suf) then s[..|s| - |suf|] else s }

  datatype Result = Ok(wei: int) | Unparsable | TooPrecise

  function ParseWith(s: string, suf: string): Result
    requires IsUnit(suf)
  {
    match NewFromString(TrimSuffix(TrimSuffix(s, suf), " "))
    case None => Unparsable
    case Some(d) =>
      var se := SuffixExp(suf);
      if IsInteger(d) then Ok(BigInt(d) * Pow10(se))
      else
        var scaled := Mul(d, Decimal(1, se));
        if IsInteger(scaled) then Ok(BigInt(scaled)) else TooPrecise
  }

  function ParseBare(s: string): Result {
    match NewFromString(s)
    case None => Unparsable
    case Some(d) => if IsInteger(d) then Ok(BigInt(d)) else Unparsable
  }

  function ParseFrom(s: string, k: nat): Result
    requires k <= |UNITS|
    decreases |UNITS| - k
  {
    if k == |UNITS| then ParseBare(s)
    else if HasSuffix(s, UNITS[k]) then (AllUnits(); ParseWith(s, UNITS[k]))
    else ParseFrom(s, k + 1)
  }

  class Wei {
    var value: int

    constructor (value: int)
      ensures this.value == value
    {
      this.value := value;
    }

    /** Tries the suffixes in order; the amount is overwritten only on success. */
    method UnmarshalText(s: string) returns (r: Result)
      modifies this
      ensures r == ParseFrom(s, 0)
      ensures value == if r.Ok? then r.wei else old(value)
    {
      AllUnits();
      for k := 0 to |UNITS|
        invariant value == old(value) && ParseFrom(s, 0) == ParseFrom(s, k)
      {
        var suf := UNITS[k];
        if !HasSuffix(s, suf) {
          continue;
        }
        var t := TrimSuffix(s, suf);
        t := TrimSuffix(t, " ");
        var d := NewFromString(t);
        if d.None? {
          return Unparsable;
        }
        var se := SuffixExp(suf);
        if IsInteger(d.value) {
          value := BigInt(d.value) * Pow10(se);
          return Ok(value);
        }
        var scaled := Mul(d.value, Decimal(1, se));
        if !IsInteger(scaled) {
          return TooPrecise;
        }
        value := BigInt(scaled);
        return Ok(value);
      }
      var d := NewFromString(s);
      if d.None? {
        return Unparsable;
      }
      if IsInteger(d.value) {
        value := BigInt(d.value);
        return Ok(value);
      }
      return Unparsable;
    }
  }

  // ------------------------------------------------------------- never rounded

  /** The decimal is this whole number. */
  predicate StandsFor(d: Decimal, w: int) {
    if d.exp >= 0 then w == d.value * Pow10(d.exp) else w * Pow10(-d.exp) == d.value
  }

  /** The longest unit that the text ends in. */
  ghost predicate IsUnitOf(s: string, suf: string) {
    IsUnit(suf) && HasSuffix(s, suf) && forall other :: IsUnit(other) && HasSuffix(s, other) ==> |other| <= |suf|
  }

  /** A text with a unit is read as exactly the amount it states, and fails when that is
      no number or no whole number of wei. */
  lemma ParsesExactly(s: string, suf: string, w: int)
    requires IsUnitOf(s, suf)
    ensures var number := NewFromString(TrimSuffix(TrimSuffix(s, suf), " "));
            ParseFrom(s, 0) == Ok(w) <==> number.Some? && StandsFor(Decimal(number.value.value, number.value.exp + SuffixExp(suf)), w)
  {
    var k :| 0 <= k < |UNITS| && UNITS[k] == suf;
    PicksLongestUnit(s, 0, k);
    ParseStep(s, k);
    ReadsExactly(s, suf, w);
  }

  lemma ReadsExactly(s: string, suf: string, w: int)
    requires IsUnit(suf)
    ensures var number := NewFromString(TrimSuffix(TrimSuffix(s, suf), " "));
            ParseWith(s, suf) == Ok(w) <==> number.Some? && StandsFor(Decimal(number.value.value, number.value.exp + SuffixExp(suf)), w)
  {
    var number := NewFromString(TrimSuffix(TrimSuffix(s, suf), " "));
    if number.Some? {
      ScaledIsExact(number.value, SuffixExp(suf), w);
    }
  }

  /** Without a unit the amount is in wei. */
  lemma {:induction false} ParsesBareExactly(s: string, k: nat, w: int)
    requires k <= |UNITS| && forall j :: k <= j < |UNITS| ==> !HasSuffix(s, UNITS[j])
    ensures ParseFrom(s, k) == Ok(w) <==> NewFromString(s).Some? && StandsFor(NewFromString(s).value, w)
    decreases |UNITS| - k
  {
    if k < |UNITS| {
      ParseStep(s, k);
      ParsesBareExactly(s, k + 1, w);
    } else if NewFromString(s).Some? {
      IntegerIsExact(NewFromString(s).value, w);
    }
  }

  lemma {:induction false} PicksLongestUnit(s: string, j: nat, k: nat)
    requires j <= k < |UNITS| && IsUnitOf(s, UNITS[k])
    ensures ParseFrom(s, j) == ParseFrom(s, k)
    decreases k - j
  {
    if j < k {
      ParseStep(s, j);
      EarlierIsNotFound(s, j, k);
      PicksLongestUnit(s, j + 1, k);
    }
  }

  lemma EarlierIsNotFound(s: string, j: nat, k: nat)
    requires j < k < |UNITS| && IsUnitOf(s, UNITS[k])
    ensures !HasSuffix(s, UNITS[j])
  {
    if HasSuffix(s, UNITS[j]) {
      assert IsUnit(UNITS[j]);
      SuffixOfSuffix(s, UNITS[j], UNITS[k]);
      EarlierIsNoSuffix(j, k);
      assert false;
    }
  }

  lemma SuffixOfSuffix(s: string, short: string, long: string)
    requires HasSuffix(s, short) && HasSuffix(s, long) && |short| <= |long|
    ensures long[|long| - |short|..] == short
  {
  }

  /** A whole decimal is its integer part, and one that is not whole is no number of wei. */
  lemma IntegerIsExact(d: Decimal, w: int)
    ensures StandsFor(d, w) <==> IsInteger(d) && w == BigInt(d)
  {
    if d.exp < 0 {
      if IsInteger(d) {
        WholeTimesPower(d);
        SameMultiple(w, BigInt(d), Pow10(-d.exp));
      } else {
        MultipleIsWhole(w, Pow10(-d.exp));
      }
    }
  }

  lemma SameMultiple(x: int, y: int, scale: nat)
    requires scale > 0
    ensures x * scale == y * scale <==> x == y
  {
    assert (x - y) * scale == x * scale - y * scale;
    if x * scale == y * scale {
      NoSmallMultiple(x - y, scale);
    }
  }

  lemma MultipleIsWhole(w: int, scale: nat)
    requires scale > 0
    ensures Abs(w * scale) % scale == 0
  {
    ProductOfAbs(w, scale);
    var product := Abs(w) * scale;
    var t := Abs(w) - product / scale;
    assert t * scale == product - scale * (product / scale);
    NoSmallMultiple(t, scale);
  }

  lemma ProductOfAbs(w: int, scale: nat)
    ensures Abs(w * scale) == Abs(w) * scale
  {
  }

  lemma NoSmallMultiple(t: int, scale: int)
    requires 0 - scale < t * scale < scale
    ensures t == 0
  {
  }

  lemma ScaledIsExact(d: Decimal, places: nat, w: int)
    ensures var scaled := Decimal(d.value, d.exp + places);
      && (StandsFor(scaled, w) <==> IsInteger(scaled) && w == BigInt(scaled))
      && (IsInteger(d) ==> (StandsFor(scaled, w) <==> w == BigInt(d) * Pow10(places)))
  {
    IntegerIsExact(Decimal(d.value, d.exp + places), w);
    if IsInteger(d) {
      WholeScaled(d, places);
      IntegerIsExact(Decimal(d.value, d.exp + places), BigInt(d) * Pow10(places));
    }
  }

  lemma WholeScaled(d: Decimal, places: nat)
    requires IsInteger(d)
    ensures StandsFor(Decimal(d.value, d.exp + places), BigInt(d) * Pow10(places))
  {
    if d.exp >= 0 {
      Powers(d.exp, places);
      Rescale(d.value, Pow10(d.exp), Pow10(places));
    } else {
      WholeTimesPower(d);
      if d.exp + places >= 0 {
        Powers(-d.exp, d.exp + places);
        Rescale(BigInt(d), Pow10(-d.exp), Pow10(d.exp + places));
      } else {
        Powers(places, -(d.exp + places));
        Rescale(BigInt(d), Pow10(places), Pow10(-(d.exp + places)));
      }
    }
  }

  // -------------------------------------------------------------- round trips

  /** Where a unit is printed after a space, no unit that is tried earlier matches. */
  lemma SuffixIsUnambiguous(number: string, j: nat, k: nat)
    requires j < k < |UNITS|
    ensures !HasSuffix(number + " " + UNITS[k], UNITS[j])
    ensures HasSuffix(number + " " + UNITS[k], UNITS[k])
  {
    var suf, other := UNITS[k], UNITS[j];
    var s := number + " " + suf;
    assert s[|s| - |suf|..] == suf && s[|s| - |suf| - 1] == ' ';
    if HasSuffix(s, other) {
      if |other| > |suf| {
        assert other[|other| - |suf| - 1] == s[|s| - |suf| - 1];
        NoSpaces(j, |other| - |suf| - 1);
        assert false;
      } else {
        assert other == suf[|suf| - |other|..];
        EarlierIsNoSuffix(j, k);
        assert false;
      }
    }
  }

  lemma NoSpaces(j: nat, i: nat)
    requires j < |UNITS| && i < |UNITS[j]|
    ensures UNITS[j][i] != ' '
  {
  }

  lemma EarlierIsNoSuffix(j: nat, k: nat)
    requires j < k < |UNITS| && |UNITS[j]| <= |UNITS[k]|
    ensures UNITS[k][|UNITS[k]| - |UNITS[j]|..] != UNITS[j]
  {
  }

  lemma PicksPrintedUnit(number: string, k: nat)
    requires k < |UNITS|
    ensures IsUnit(UNITS[k])
    ensures ParseFrom(number + " " + UNITS[k], 0) == ParseWith(number + " " + UNITS[k], UNITS[k])
  {
    var s := number + " " + UNITS[k];
    ComesToPrintedUnit(number, 0, k);
    ParseStep(s, k);
    EndsIn(number, UNITS[k]);
  }

  lemma {:induction false} ComesToPrintedUnit(number: string, j: nat, k: nat)
    requires j <= k < |UNITS|
    ensures ParseFrom(number + " " + UNITS[k], j) == ParseFrom(number + " " + UNITS[k], k)
    decreases k - j
  {
    if j < k {
      ParseStep(number + " " + UNITS[k], j);
      SuffixIsUnambiguous(number, j, k);
      ComesToPrintedUnit(number, j + 1, k);
    }
  }

  lemma EndsIn(number: string, suf: string)
    ensures HasSuffix(number + " " + suf, suf)
  {
  }

  lemma ParseStep(s: string, j: nat)
    requires j < |UNITS|
    ensures IsUnit(UNITS[j])
    ensures ParseFrom(s, j) == if HasSuffix(s, UNITS[j]) then ParseWith(s, UNITS[j]) else ParseFrom(s, j + 1)
  {
  }

  /** Scaling up what was scaled down for printing loses nothing, on either branch. */
  lemma ScalingIsExact(w: int, places: nat, d: Decimal)
    requires Recovers(Some(d), w, places)
    ensures IsInteger(d) ==> BigInt(d) * Pow10(places) == w
    ensures IsInteger(Mul(d, Decimal(1, places))) && BigInt(Mul(d, Decimal(1, places))) == w
  {
    if IsInteger(d) {
      WholeTimesPower(d);
      Powers(-d.exp, d.exp + places);
      Rescale(BigInt(d), Pow10(-d.exp), Pow10(d.exp + places));
    }
    var scaled := Mul(d, Decimal(1, places));
    assert scaled == Decimal(d.value, d.exp + places);
  }

  lemma WholeTimesPower(d: Decimal)
    requires IsInteger(d) && d.exp <= 0
    ensures d.value == BigInt(d) * Pow10(-d.exp)
  {
  }

  lemma Rescale(q: int, down: nat, up: nat)
    ensures (q * down) * up == q * (down * up)
  {
  }

  lemma TrimsUnit(number: string, suf: string)
    ensures TrimSuffix(TrimSuffix(number + " " + suf, suf), " ") == number
  {
  }

  lemma PrintedInUnit(w: int, suf: string)
    requires IsUnit(suf)
    ensures ParseWith(DecimalString(Scaled(w, SuffixExp(suf))) + " " + suf, suf) == Ok(w)
  {
    var places := SuffixExp(suf);
    var number := DecimalString(Scaled(w, places));
    TrimsUnit(number, suf);
    PrintedIsParsed(w, places);
    ScalingIsExact(w, places, NewFromString(number).value);
  }

  /** UnmarshalText inverts Text for every amount and every unit. */
  lemma TextRoundTrip(w: int, suffix: string)
    ensures ParseFrom(Text(w, suffix), 0) == Ok(w)
  {
    TablesAgree(suffix);
    var suf := TextUnit(suffix).0;
    if w == 0 {
      ZeroRoundTrip(0);
    } else {
      var k :| 0 <= k < |UNITS| && UNITS[k] == suf;
      PicksPrintedUnit(DecimalString(Scaled(w, SuffixExp(suf))), k);
      PrintedInUnit(w, suf);
    }
  }

  lemma {:induction false} ZeroRoundTrip(k: nat)
    requires k <= |UNITS|
    ensures ParseFrom("0", k) == Ok(0)
    decreases |UNITS| - k
  {
    if k < |UNITS| {
      assert |UNITS[k]| > 1;
      ZeroRoundTrip(k + 1);
    } else {
      WholeIsParsed(0);
      assert Sign(0) + Digits(Abs(0)) == "0";
    }
  }

  lemma StringRoundTrip(w: int)
    ensures ParseFrom(String(w), 0) == Ok(w)
  {
    TextRoundTrip(w, UnitFor(w));
  }
}
