/** Amounts as text: seven decimals, parsed strictly and printed without trailing zeros. */
module Stroops {
  import opened Wrappers

  const ONE: nat := 10_000_000

  predicate IsDigit(ch: char) { '0' <= ch <= '9' }

  predicate AllDigits(s: string) { forall i :: 0 <= i < |s| ==> IsDigit(s[i]) }

  /** `BigInt` of a run of digits; 0 for none. */
  function Num(s: string): nat
    requires AllDigits(s)
  {
    if s == "" then 0 else 10 * Num(s[..|s| - 1]) + (s[|s| - 1] as int - '0' as int)
  }

  function Digit(d: nat): char
    requires d < 10
  {
    ('0' as int + d) as char
  }

  /** `BigInt.toString` of a natural number. */
  function Decimal(n: nat): (s: string)
    ensures s != "" && AllDigits(s)
  {
    if n < 10 then [Digit(n)] else Decimal(n / 10) + [Digit(n % 10)]
  }

  function Zeros(n: nat): (s: string)
    ensures |s| == n && forall i :: 0 <= i < n ==> s[i] == '0'
  {
    seq(n, _ => '0')
  }

  /** `padStart(7, "0")` and `padEnd(7, "0")`. */
  function PadStart(s: string): string { if |s| >= 7 then s else Zeros(7 - |s|) + s }

  function PadEnd(s: string): string { if |s| >= 7 then s else s + Zeros(7 - |s|) }

  /** `replace(/0+$/, "")` */
  function StripZeros(s: string): string {
    if s != "" && s[|s| - 1] == '0' then StripZeros(s[..|s| - 1]) else s
  }

  /** The white space and line terminators that `String.prototype.trim` removes. */
  predicate IsBlank(ch: char) {
    var k := ch as int;
    || 0x09 <= k <= 0x0D || k == 0x20 || k == 0xA0 || k == 0x1680 || 0x2000 <= k <= 0x200A
    || k == 0x2028 || k == 0x2029 || k == 0x202F || k == 0x205F || k == 0x3000 || k == 0xFEFF
  }

  function TrimStart(s: string): string { if s != "" && IsBlank(s[0]) then TrimStart(s[1..]) else s }

  function TrimEnd(s: string): string { if s != "" && IsBlank(s[|s| - 1]) then TrimEnd(s[..|s| - 1]) else s }

  function Trim(s: string): string { TrimEnd(TrimStart(s)) }

  /** How many digits the text starts with. */
  function Leading(s: string): (n: nat)
    ensures n <= |s| && AllDigits(s[..n]) && (n == |s| || !IsDigit(s[n]))
  {
    if s == "" || !IsDigit(s[0]) then 0
    else
      assert s[..1 + Leading(s[1..])] == [s[0]] + s[1..][..Leading(s[1..])];
      1 + Leading(s[1..])
  }

  /** `^(\d+)(?:\.(\d{1,7}))?$` against the trimmed text; None where the client throws. */
  function ToStroops(input: string): Option<nat> { Parse(Trim(input)) }

  function Parse(t: string): Option<nat> { ParseAfter(t, Leading(t)) }

  /** With the first `n` characters the digits it starts with. */
  function ParseAfter(t: string, n: nat): Option<nat>
    requires n <= |t| && AllDigits(t[..n])
  {
    if n == 0 then None
    else if n == |t| then Some(Num(t[..n]) * ONE)
    else
      var frac := t[n + 1..];
      if t[n] == '.' && 1 <= |frac| <= 7 && AllDigits(frac)
      then Some(Num(t[..n]) * ONE + Num(PadEnd(frac)))
      else None
  }

  function FromStroops(v: int): string {
    var abs := if v < 0 then -v else v;
    (if v < 0 then "-" else "") + Print(abs / ONE, abs % ONE)
  }

  function Print(whole: nat, fraction: nat): string {
    var frac := StripZeros(PadStart(Decimal(fraction)));
    if frac == "" then Decimal(whole) else Decimal(whole) + ("." + frac)
  }

  // ---- the round trip ----

  lemma {:induction false} NumOfDecimal(n: nat)
    ensures Num(Decimal(n)) == n
  {
    if n >= 10 {
      NumOfDecimal(n / 10);
      assert Decimal(n)[..|Decimal(n)| - 1] == Decimal(n / 10);
    }
  }

  lemma {:induction false} DecimalLength(n: nat, k: nat, bound: nat)
    requires bound == Power(k) && k > 0 && n < bound
    ensures |Decimal(n)| <= k
    decreases k
  {
    if n >= 10 {
      assert Power(1) == 10;
      DecimalLength(n / 10, k - 1, Power(k - 1));
    }
  }

  function Power(k: nat): nat { if k == 0 then 1 else 10 * Power(k - 1) }

  lemma {:induction false} LeadingZeros(s: string, n: nat)
    requires AllDigits(s)
    ensures AllDigits(Zeros(n) + s) && Num(Zeros(n) + s) == Num(s)
    decreases |s|, n
  {
    var t := Zeros(n) + s;
    if s != "" {
      assert t[..|t| - 1] == Zeros(n) + s[..|s| - 1];
      LeadingZeros(s[..|s| - 1], n);
    } else if n > 0 {
      assert t[..|t| - 1] == Zeros(n - 1) + s;
      LeadingZeros(s, n - 1);
    }
  }

  lemma {:induction false} StripThenPad(s: string)
    requires |s| <= 7 && AllDigits(s)
    ensures |StripZeros(s)| <= |s| && AllDigits(StripZeros(s))
    ensures StripZeros(s) + Zeros(|s| - |StripZeros(s)|) == s
  {
    if s != "" && s[|s| - 1] == '0' {
      var t := s[..|s| - 1];
      StripThenPad(t);
      var k := |t| - |StripZeros(t)|;
      assert Zeros(k) + "0" == Zeros(k + 1);
      assert s == t + "0";
      assert StripZeros(s) + (Zeros(k) + "0") == (StripZeros(s) + Zeros(k)) + "0";
    } else {
      assert Zeros(0) == "";
    }
  }

  lemma PaddedFraction(f: nat)
    requires f < ONE
    ensures var p := PadStart(Decimal(f)); |p| == 7 && AllDigits(p) && Num(p) == f
  {
    var d := Decimal(f);
    PowerOfSeven();
    DecimalLength(f, 7, ONE);
    NumOfDecimal(f);
    if |d| < 7 { LeadingZeros(d, 7 - |d|); }
  }

  lemma PowerOfSeven()
    ensures Power(7) == ONE
  {
    assert Power(3) == 1000;
    assert Power(5) == 100 * Power(3);
    assert Power(7) == 100 * Power(5);
  }

  lemma PadBack(p: string)
    requires |p| == 7 && AllDigits(p)
    ensures |StripZeros(p)| <= 7 && AllDigits(StripZeros(p)) && PadEnd(StripZeros(p)) == p
  {
    StripThenPad(p);
    assert |StripZeros(p)| == 7 ==> Zeros(0) == "";
  }

  lemma {:induction false} LeadingOf(whole: string, rest: string)
    requires AllDigits(whole) && (rest == "" || !IsDigit(rest[0]))
    ensures Leading(whole + rest) == |whole|
  {
    var s := whole + rest;
    if whole != "" {
      assert s[1..] == whole[1..] + rest;
      LeadingOf(whole[1..], rest);
    }
  }

  lemma NothingToTrim(s: string)
    requires s != "" && !IsBlank(s[0]) && !IsBlank(s[|s| - 1])
    ensures ToStroops(s) == Parse(s)
  {}

  lemma ParsesWhole(whole: string)
    requires whole != "" && AllDigits(whole)
    ensures Parse(whole) == Some(Num(whole) * ONE)
  {
    assert whole + "" == whole;
    LeadingOf(whole, "");
  }

  lemma ParsesFraction(digits: string, frac: string, text: string, whole: nat, stroops: nat)
    requires digits != "" && AllDigits(digits) && 1 <= |frac| <= 7 && AllDigits(frac) && AllDigits(PadEnd(frac))
    requires text == digits + ("." + frac) && whole == Num(digits) && stroops == Num(PadEnd(frac))
    ensures Parse(text) == Some(whole * ONE + stroops)
  {
    LeadingOf(digits, "." + frac);
    assert text[..|digits|] == digits && text[|digits| + 1..] == frac;
  }

  lemma NoFraction()
    ensures AllDigits(PadEnd("")) && Num(PadEnd("")) == 0
  {
    LeadingZeros("", 7);
    assert PadEnd("") == Zeros(7) + "";
  }

  /** Digits with up to seven more after a point, worth `v` stroops. */
  ghost predicate Prints(text: string, digits: string, frac: string, v: nat) {
    && digits != "" && AllDigits(digits) && |frac| <= 7 && AllDigits(frac) && AllDigits(PadEnd(frac))
    && text == (if frac == "" then digits else digits + ("." + frac))
    && v == Num(digits) * ONE + if frac == "" then 0 else Num(PadEnd(frac))
  }

  lemma PrintedIsParsed(text: string, digits: string, frac: string, v: nat)
    requires Prints(text, digits, frac, v)
    ensures Parse(text) == Some(v)
  {
    if frac == "" {
      ParsesWhole(digits);
    } else {
      ParsesFraction(digits, frac, text, Num(digits), Num(PadEnd(frac)));
    }
  }

  lemma PrintedIsTrim(text: string, digits: string, frac: string, v: nat)
    requires Prints(text, digits, frac, v)
    ensures text != "" && IsDigit(text[0]) && IsDigit(text[|text| - 1])
  {
    assert text[0] == digits[0];
    assert frac != "" ==> text[|text| - 1] == frac[|frac| - 1];
  }

  lemma PrintPrints(whole: nat, fraction: nat, v: nat) returns (digits: string, frac: string)
    requires fraction < ONE && v == whole * ONE + fraction
    ensures Prints(Print(whole, fraction), digits, frac, v)
  {
    var padded := PadStart(Decimal(fraction));
    digits, frac := Decimal(whole), StripZeros(padded);
    PaddedFraction(fraction);
    PadBack(padded);
    NumOfDecimal(whole);
    if frac == "" { NoFraction(); }
  }

  lemma PrintedIsRead(text: string, digits: string, frac: string, v: nat)
    requires Prints(text, digits, frac, v)
    ensures ToStroops(text) == Some(v) && ToStroops("-" + text) == None
  {
    PrintedIsTrim(text, digits, frac, v);
    PrintedIsParsed(text, digits, frac, v);
    NothingToTrim(text);
    NothingToTrim("-" + text);
  }

  /** Parsing what was printed gives the amount back exactly when it is not negative. */
  lemma ToFromStroops(v: int)
    ensures ToStroops(FromStroops(v)) == if v >= 0 then Some(v) else None
  {
    var abs: nat := if v < 0 then -v else v;
    var whole, fraction := abs / ONE, abs % ONE;
    assert abs == whole * ONE + fraction;
    var digits, frac := PrintPrints(whole, fraction, abs);
    PrintedIsRead(Print(whole, fraction), digits, frac, abs);
    assert "" + Print(whole, fraction) == Print(whole, fraction);
  }

  // ---- which texts are amounts, and which text an amount has ----

  predicate AllBlank(s: string) { forall i :: 0 <= i < |s| ==> IsBlank(s[i]) }

  lemma {:induction false} TrimStartMeans(s: string) returns (front: string)
    ensures AllBlank(front) && s == front + TrimStart(s)
    ensures TrimStart(s) != "" ==> !IsBlank(TrimStart(s)[0])
  {
    front := "";
    if s != "" && IsBlank(s[0]) {
      var rest := TrimStartMeans(s[1..]);
      front := [s[0]] + rest;
      assert s == [s[0]] + s[1..];
    }
  }

  lemma {:induction false} TrimEndMeans(s: string) returns (back: string)
    ensures AllBlank(back) && s == TrimEnd(s) + back
    ensures TrimEnd(s) != "" ==> !IsBlank(TrimEnd(s)[|TrimEnd(s)| - 1])
  {
    back := "";
    if s != "" && IsBlank(s[|s| - 1]) {
      var rest := TrimEndMeans(s[..|s| - 1]);
      back := rest + [s[|s| - 1]];
      assert s == s[..|s| - 1] + [s[|s| - 1]];
    }
  }

  /** Trimming takes blanks off both ends, and all there are. */
  lemma TrimMeans(s: string) returns (front: string, back: string)
    ensures AllBlank(front) && AllBlank(back) && s == front + Trim(s) + back
    ensures Trim(s) != "" ==> !IsBlank(Trim(s)[0]) && !IsBlank(Trim(s)[|Trim(s)| - 1])
  {
    front := TrimStartMeans(s);
    back := TrimEndMeans(TrimStart(s));
    assert Trim(s) != "" ==> Trim(s)[0] == TrimStart(s)[0];
  }

  /** `text` is these digits, a point, and one to seven more, which `filled` fills up to seven with zeros. */
  ghost predicate IsPointed(text: string, whole: string, frac: string, filled: string) {
    && text == whole + ("." + frac) && whole != "" && AllDigits(whole) && 1 <= |frac| <= 7 && AllDigits(frac)
    && AllDigits(filled) && |filled| == 7 && filled[..|frac|] == frac
    && forall i :: |frac| <= i < 7 ==> filled[i] == '0'
  }

  /** Digits, and after a point up to seven more: so many whole units and stroops. */
  ghost predicate IsAmount(text: string, v: nat) {
    || (text != "" && AllDigits(text) && v == Num(text) * 10_000_000)
    || exists whole, frac, filled :: IsPointed(text, whole, frac, filled) && v == Num(whole) * 10_000_000 + Num(filled)
  }

  lemma FilledIsPadded(frac: string, filled: string)
    requires |frac| <= 7 == |filled| && filled[..|frac|] == frac && forall i :: |frac| <= i < 7 ==> filled[i] == '0'
    ensures PadEnd(frac) == filled
  {}

  lemma PaddedIsFilled(frac: string)
    requires |frac| <= 7 && AllDigits(frac)
    ensures var filled := PadEnd(frac);
      && AllDigits(filled) && |filled| == 7 && filled[..|frac|] == frac
      && forall i :: |frac| <= i < 7 ==> filled[i] == '0'
  {}

  lemma PointedIsParsed(text: string, whole: string, frac: string, filled: string)
    requires IsPointed(text, whole, frac, filled)
    ensures Parse(text) == Some(Num(whole) * ONE + Num(filled))
  {
    FilledIsPadded(frac, filled);
    ParsesFraction(whole, frac, text, Num(whole), Num(filled));
  }

  lemma ParsedIsPointed(text: string, n: nat) returns (whole: string, frac: string)
    requires n < |text| && AllDigits(text[..n]) && ParseAfter(text, n).Some?
    ensures IsPointed(text, whole, frac, PadEnd(frac))
    ensures AllDigits(PadEnd(frac)) && ParseAfter(text, n) == Some(Num(whole) * ONE + Num(PadEnd(frac)))
  {
    whole, frac := text[..n], text[n + 1..];
    PaddedIsFilled(frac);
    assert text == whole + ("." + frac);
  }

  lemma ParsedIsWhole(text: string)
    requires Parse(text).Some? && Leading(text) == |text|
    ensures text != "" && AllDigits(text) && Parse(text) == Some(Num(text) * ONE)
  {
    assert text[..|text|] == text;
    ParsesWhole(text);
  }

  lemma ParsedIsAmount(text: string)
    requires Parse(text).Some?
    ensures IsAmount(text, Parse(text).value)
  {
    if Leading(text) < |text| {
      var whole, frac := ParsedIsPointed(text, Leading(text));
    } else {
      ParsedIsWhole(text);
    }
  }

  lemma AmountIsParsed(text: string, v: nat)
    requires IsAmount(text, v)
    ensures Parse(text) == Some(v)
  {
    if text != "" && AllDigits(text) && v == Num(text) * ONE {
      ParsesWhole(text);
    } else {
      var whole, frac, filled :| IsPointed(text, whole, frac, filled) && v == Num(whole) * ONE + Num(filled);
      PointedIsParsed(text, whole, frac, filled);
    }
  }

  /** The trimmed text is read as an amount exactly when it has that form, and refused otherwise. */
  lemma ParsesExactlyWhen(text: string, v: nat)
    ensures Parse(text) == Some(v) <==> IsAmount(text, v)
  {
    if IsAmount(text, v) {
      AmountIsParsed(text, v);
    } else if Parse(text).Some? {
      ParsedIsAmount(text);
    }
  }

  lemma {:induction false} StrippedEnds(s: string)
    ensures StripZeros(s) != "" ==> StripZeros(s)[|StripZeros(s)| - 1] != '0'
  {
    if s != "" && s[|s| - 1] == '0' { StrippedEnds(s[..|s| - 1]); }
  }

  lemma {:induction false} DecimalBegins(n: nat)
    ensures Decimal(n)[0] == '0' <==> n == 0
    ensures n == 0 ==> Decimal(n) == "0"
  {
    if n >= 10 { DecimalBegins(n / 10); }
  }

  /** A non-negative amount is printed without a sign, leading zeros, trailing zeros or a bare point. */
  lemma PrintsCanonically(v: int) returns (digits: string, frac: string)
    requires v >= 0
    ensures FromStroops(v) == if frac == "" then digits else digits + ("." + frac)
    ensures digits != "" && AllDigits(digits) && (digits[0] == '0' ==> digits == "0")
    ensures |frac| <= 7 && AllDigits(frac) && (frac != "" ==> frac[|frac| - 1] != '0')
  {
    var whole, fraction := v / ONE, v % ONE;
    digits, frac := PrintedShape(whole, fraction);
    assert "" + Print(whole, fraction) == Print(whole, fraction);
  }

  lemma PrintedShape(whole: nat, fraction: nat) returns (digits: string, frac: string)
    requires fraction < ONE
    ensures Print(whole, fraction) == if frac == "" then digits else digits + ("." + frac)
    ensures digits != "" && AllDigits(digits) && (digits[0] == '0' ==> digits == "0")
    ensures |frac| <= 7 && AllDigits(frac) && (frac != "" ==> frac[|frac| - 1] != '0')
  {
    var padded := PadStart(Decimal(fraction));
    digits, frac := Decimal(whole), StripZeros(padded);
    DecimalBegins(whole);
    StrippedEnds(padded);
    PaddedFraction(fraction);
    PadBack(padded);
  }

  /** A negative one is printed as its absolute value after a minus. */
  lemma PrintsNegative(v: int)
    requires v > 0
    ensures FromStroops(-v) == "-" + FromStroops(v)
  {
    assert "" + Print(v / ONE, v % ONE) == Print(v / ONE, v % ONE);
  }
}
