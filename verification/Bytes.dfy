/** Sizes written as a number and an optional unit (internal/convert/bytes.go). */
module Bytes {
  import opened Wrappers
  import opened Text

  const TWO_TO_THE_64: nat := 0x1_0000_0000_0000_0000

  const DECIMAL: map<string, nat> := map[
    "kb" := 1000,
    "mb" := 1_000_000,
    "gb" := 1_000_000_000,
    "tb" := 1_000_000_000_000,
    "pb" := 1_000_000_000_000_000,
    "eb" := 1_000_000_000_000_000_000]

  const BINARY: map<string, nat> := map[
    "kib" := 1024,
    "mib" := 1_048_576,
    "gib" := 1_073_741_824,
    "tib" := 1_099_511_627_776,
    "pib" := 1_125_899_906_842_624,
    "eib" := 1_152_921_504_606_846_976]

  datatype SizeError = Unparsable | OutOfRange | UnknownSuffix

  // ---- The pattern -------------------------------------------------------------------------

  predicate IsBlank(c: char) {
    c == ' ' || c == '\t' || c == '\n' || c == '\U{000C}' || c == '\r'
  }

  predicate Blank(s: string) {
    forall i :: 0 <= i < |s| ==> IsBlank(s[i])
  }

  predicate IsUnitLetter(c: char) {
    c == 'k' || c == 'm' || c == 'g' || c == 't' || c == 'p' || c == 'e'
  }

  predicate IsUnit(u: string) {
    || (|u| == 2 && IsUnitLetter(u[0]) && u[1] == 'b')
    || (|u| == 3 && IsUnitLetter(u[0]) && u[1] == 'i' && u[2] == 'b')
  }

  /** A match of the pattern: blanks, digits, perhaps one space and a unit, blanks. */
  predicate Matches(s: string, lead: string, digits: string, gap: string, unit: string, trail: string) {
    && s == lead + (digits + (gap + (unit + trail)))
    && Blank(lead) && Blank(trail)
    && digits != [] && AllDigits(digits)
    && (if unit == [] then gap == [] else IsUnit(unit) && (gap == [] || gap == " "))
  }

  // ---- Finding the match -------------------------------------------------------------------

  function Blanks(s: string): (n: nat)
    ensures n <= |s| && (forall k :: 0 <= k < n ==> IsBlank(s[k])) && (n < |s| ==> !IsBlank(s[n]))
  {
    if s == [] || !IsBlank(s[0]) then 0 else 1 + Blanks(s[1..])
  }

  function Digits(s: string): (n: nat)
    ensures n <= |s| && (forall k :: 0 <= k < n ==> IsDigit(s[k])) && (n < |s| ==> !IsDigit(s[n]))
  {
    if s == [] || !IsDigit(s[0]) then 0 else 1 + Digits(s[1..])
  }

  /** The length of the unit at the start, if there is one. */
  function UnitLength(s: string): (n: nat)
    ensures n <= |s| && (n > 0 ==> IsUnit(s[..n]))
  {
    if |s| >= 3 && IsUnit(s[..3]) then 3 else if |s| >= 2 && IsUnit(s[..2]) then 2 else 0
  }

  datatype Size = Size(digits: string, unit: string)

  /** What follows the digits: blanks only, or a unit and blanks. */
  function ScanUnit(s: string): Option<string> {
    if Blank(s) then Some([])
    else
      var rest := if s[0] == ' ' then s[1..] else s;
      var n := UnitLength(rest);
      if n > 0 && Blank(rest[n..]) then Some(rest[..n]) else None
  }

  function Scan(s: string): (r: Option<Size>)
    ensures r.Some? ==> AllDigits(r.value.digits)
  {
    var rest := s[Blanks(s)..];
    var n := Digits(rest);
    if n == 0 then None
    else match ScanUnit(rest[n..]) case None => None case Some(unit) => Some(Size(rest[..n], unit))
  }

  lemma BlanksOf(a: string, b: string)
    requires Blank(a) && (b != [] ==> !IsBlank(b[0]))
    ensures Blanks(a + b) == |a|
  {
    assert b != [] ==> (a + b)[|a|] == b[0];
  }

  lemma DigitsOf(a: string, b: string)
    requires AllDigits(a) && (b != [] ==> !IsDigit(b[0]))
    ensures Digits(a + b) == |a|
  {
    assert b != [] ==> (a + b)[|a|] == b[0];
  }

  lemma ScanUnitFinds(gap: string, unit: string, trail: string)
    requires Blank(trail) && if unit == [] then gap == [] else IsUnit(unit) && (gap == [] || gap == " ")
    ensures ScanUnit(gap + (unit + trail)) == Some(unit)
  {
    var s := gap + (unit + trail);
    if unit == [] {
      assert s == trail;
    } else {
      assert s[|gap|] == unit[0];
      var rest := if s[0] == ' ' then s[1..] else s;
      assert rest == unit + trail;
      assert rest[..|unit|] == unit && rest[|unit|..] == trail;
      assert |unit| == 2 ==> rest[1] == 'b';
    }
  }

  /** The scan finds a match whenever there is one. */
  lemma ScanFinds(s: string, lead: string, digits: string, gap: string, unit: string, trail: string)
    requires Matches(s, lead, digits, gap, unit, trail)
    ensures Scan(s) == Some(Size(digits, unit))
  {
    var after := gap + (unit + trail);
    var rest := digits + after;
    assert rest[0] == digits[0];
    BlanksOf(lead, rest);
    assert s[|lead|..] == rest;
    assert after != [] ==> after[0] == if gap != [] then ' ' else if unit != [] then unit[0] else trail[0];
    DigitsOf(digits, after);
    assert rest[..|digits|] == digits && rest[|digits|..] == after;
    ScanUnitFinds(gap, unit, trail);
  }

  lemma ScanUnitSound(s: string) returns (gap: string, trail: string)
    requires ScanUnit(s).Some?
    ensures var unit := ScanUnit(s).value;
            && s == gap + (unit + trail) && Blank(trail)
            && if unit == [] then gap == [] else IsUnit(unit) && (gap == [] || gap == " ")
  {
    gap, trail := [], s;
    if !Blank(s) {
      var n := UnitLength(if s[0] == ' ' then s[1..] else s);
      if s[0] == ' ' {
        gap, trail := " ", s[1..][n..];
      } else {
        trail := s[n..];
      }
    }
  }

  /** What the scan finds is a match. */
  lemma ScanSound(s: string)
    requires Scan(s).Some?
    ensures exists lead, gap, trail :: Matches(s, lead, Scan(s).value.digits, gap, Scan(s).value.unit, trail)
  {
    var lead, rest := s[..Blanks(s)], s[Blanks(s)..];
    var digits, after := rest[..Digits(rest)], rest[Digits(rest)..];
    assert s == lead + rest && rest == digits + after;
    var gap, trail := ScanUnitSound(after);
    assert Matches(s, lead, digits, gap, ScanUnit(after).value, trail);
  }

  // ---- Conversion --------------------------------------------------------------------------

  function Multiplier(unit: string): Option<nat> {
    var table := if 'i' in unit then BINARY else DECIMAL;
    if unit in table then Some(table[unit]) else None
  }

  /** A product of 64-bit words. */
  function Product(x: nat, y: nat): (r: nat)
    ensures r < TWO_TO_THE_64
  {
    x * y % TWO_TO_THE_64
  }

  function Convert(size: Size): Result<nat, SizeError>
    requires AllDigits(size.digits)
  {
    var num := Value(size.digits);
    if num >= TWO_TO_THE_64 then Failure(OutOfRange)
    else if size.unit == [] then Success(num)
    else match Multiplier(size.unit)
      case None => Failure(UnknownSuffix)
      case Some(multiplier) => Success(Product(num, multiplier))
  }

  function ToBytes(val: string): Result<nat, SizeError> {
    match Scan(Lower(val))
    case None => Failure(Unparsable)
    case Some(size) => Convert(size)
  }

  /** None: a panic. */
  function MustToBytes(val: string): Option<nat> {
    var r := ToBytes(val);
    if r.Failure? then None else Some(r.value)
  }

  predicate ValidBytesString(val: string) {
    ToBytes(val).Success?
  }

  function LetterPower(c: char): nat
    requires IsUnitLetter(c)
  {
    if c == 'k' then 1
    else if c == 'm' then 2
    else if c == 'g' then 3
    else if c == 't' then 4
    else if c == 'p' then 5
    else 6
  }

  function Power(base: nat, n: nat): nat {
    if n == 0 then 1 else base * Power(base, n - 1)
  }

  /** What a unit stands for: a power of a thousand, or of 1024 with an i. */
  function UnitSize(unit: string): nat
    requires unit == [] || IsUnit(unit)
  {
    if unit == [] then 1 else Power(if |unit| == 3 then 1024 else 1000, LetterPower(unit[0]))
  }

  lemma Powers(base: nat)
    ensures Power(base, 1) == base && Power(base, 2) == base * base && Power(base, 3) == base * base * base
    ensures Power(base, 4) == base * Power(base, 3) && Power(base, 5) == base * Power(base, 4)
    ensures Power(base, 6) == base * Power(base, 5)
  {
    assert Power(base, 0) == 1;
    assert Power(base, 3) == base * Power(base, 2);
  }

  /** The two tables cover every unit the pattern admits, so no suffix is unknown. */
  lemma TablesCoverUnits(unit: string)
    requires IsUnit(unit)
    ensures Multiplier(unit) == Some(UnitSize(unit))
  {
    Powers(1000);
    Powers(1024);
    var c := unit[0];
    if |unit| == 2 {
      assert unit == [c, 'b'];
      assert "kb" == ['k', 'b'] && "mb" == ['m', 'b'] && "gb" == ['g', 'b'];
      assert "tb" == ['t', 'b'] && "pb" == ['p', 'b'] && "eb" == ['e', 'b'];
    } else {
      assert unit == [c, 'i', 'b'];
      assert "kib" == ['k', 'i', 'b'] && "mib" == ['m', 'i', 'b'] && "gib" == ['g', 'i', 'b'];
      assert "tib" == ['t', 'i', 'b'] && "pib" == ['p', 'i', 'b'] && "eib" == ['e', 'i', 'b'];
    }
  }

  lemma ConvertKnown(digits: string, unit: string)
    requires AllDigits(digits) && (unit == [] || IsUnit(unit))
    ensures Convert(Size(digits, unit)) ==
            if Value(digits) >= TWO_TO_THE_64 then Failure(OutOfRange)
            else Success(Product(Value(digits), UnitSize(unit)))
  {
    if unit != [] {
      TablesCoverUnits(unit);
    } else if Value(digits) < TWO_TO_THE_64 {
      ProductByOne(Value(digits));
    }
  }

  lemma ProductByOne(x: nat)
    requires x < TWO_TO_THE_64
    ensures Product(x, 1) == x
  {
  }

  /** Any text of the pattern's form, in any case: the result, by its digits and unit. */
  lemma ToBytesOfMatch(val: string, lead: string, digits: string, gap: string, unit: string, trail: string)
    requires Matches(Lower(val), lead, digits, gap, unit, trail)
    ensures ToBytes(val) ==
            if Value(digits) >= TWO_TO_THE_64 then Failure(OutOfRange)
            else Success(Product(Value(digits), UnitSize(unit)))
  {
    ScanFinds(Lower(val), lead, digits, gap, unit, trail);
    ConvertKnown(digits, unit);
  }

  /** It is the exact product precisely when that product fits 64 bits. */
  lemma ExactIffProductFits(val: string, lead: string, digits: string, gap: string, unit: string, trail: string)
    requires Matches(Lower(val), lead, digits, gap, unit, trail)
    ensures ToBytes(val) == Success(Value(digits) * UnitSize(unit)) <==> Value(digits) * UnitSize(unit) < TWO_TO_THE_64
  {
    ToBytesOfMatch(val, lead, digits, gap, unit, trail);
    UnitSizePositive(unit);
    ProductExactIff(Value(digits), UnitSize(unit));
  }

  lemma ProductExactIff(x: nat, y: nat)
    requires y >= 1
    ensures Product(x, y) == x * y <==> x * y < TWO_TO_THE_64
    ensures x * y < TWO_TO_THE_64 ==> x < TWO_TO_THE_64
  {
    assert x * y >= x * 1;
  }

  lemma UnitSizePositive(unit: string)
    requires unit == [] || IsUnit(unit)
    ensures UnitSize(unit) >= 1
  {
    Powers(1000);
    Powers(1024);
  }

  /** A size is valid exactly when it has the pattern's form and its digits fit 64 bits. */
  lemma ValidIffMatches(val: string)
    ensures ValidBytesString(val) <==>
            exists lead, digits, gap, unit, trail ::
              Matches(Lower(val), lead, digits, gap, unit, trail) && Value(digits) < TWO_TO_THE_64
  {
    var s := Lower(val);
    if Scan(s).Some? {
      ScanSound(s);
      var lead, gap, trail :| Matches(s, lead, Scan(s).value.digits, gap, Scan(s).value.unit, trail);
      ToBytesOfMatch(val, lead, Scan(s).value.digits, gap, Scan(s).value.unit, trail);
    }
    forall lead, digits, gap, unit, trail | Matches(s, lead, digits, gap, unit, trail) && Value(digits) < TWO_TO_THE_64
      ensures ToBytes(val).Success?
    {
      ToBytesOfMatch(val, lead, digits, gap, unit, trail);
    }
  }

  /** No pattern match carries an unknown suffix. */
  lemma SuffixAlwaysKnown(val: string)
    ensures ToBytes(val) != Failure(UnknownSuffix)
  {
    var s := Lower(val);
    if Scan(s).Some? {
      ScanSound(s);
      if Scan(s).value.unit != [] {
        TablesCoverUnits(Scan(s).value.unit);
      }
    }
  }

  lemma DigitsMatch(s: string)
    requires s != [] && AllDigits(s)
    ensures Matches(Lower(s), [], s, [], [], [])
  {
    LowerOfDigits(s);
    assert s == [] + (s + ([] + ([] + [])));
  }

  /** Reading back the decimal print of a number gives the number, if it fits 64 bits. */
  lemma ToBytesOfPrint(n: nat)
    ensures ToBytes(Print(n)) == if n < TWO_TO_THE_64 then Success(n) else Failure(OutOfRange)
  {
    var s := Print(n);
    DigitsMatch(s);
    ValueOfPrint(n);
    ToBytesOfMatch(s, [], s, [], [], []);
    if n < TWO_TO_THE_64 {
      ProductByOne(n);
    }
  }

  /** Sixteen eib and n more multiply out to n. */
  lemma ProductWraps(n: nat)
    requires n < 16
    ensures Product(n + 16, UnitSize("eib")) == n * UnitSize("eib")
  {
    EibIs();
  }

  lemma EibIs()
    ensures IsUnit("eib") && UnitSize("eib") == 1_152_921_504_606_846_976
  {
    Powers(1024);
  }

  lemma EibMatch(n: nat)
    ensures Matches(Lower(Print(n) + "eib"), [], Print(n), [], "eib", [])
  {
    var s := Print(n);
    DigitsMatch(s);
    LowerOfDigits(s);
    EibIs();
    assert Lower("eib") == "eib";
    assert Lower(s + "eib") == s + "eib" == [] + (s + ([] + ("eib" + [])));
  }

  lemma SixteenTimes(n: nat)
    ensures n * 1_152_921_504_606_846_976 % TWO_TO_THE_64 == n % 16 * 1_152_921_504_606_846_976
  {
    var q, r := n / 16, n % 16;
    assert n == 16 * q + r;
    assert n * 1_152_921_504_606_846_976 == q * TWO_TO_THE_64 + r * 1_152_921_504_606_846_976;
    Remainder(q, r * 1_152_921_504_606_846_976);
  }

  lemma Remainder(q: nat, r: nat)
    requires r < TWO_TO_THE_64
    ensures (q * TWO_TO_THE_64 + r) % TWO_TO_THE_64 == r
  {
  }

  /** Any number of eib is accepted and read as what is left of it over sixteen. */
  lemma EibWraps(n: nat, text: string)
    requires n < TWO_TO_THE_64 && text == Print(n) + "eib"
    ensures ValidBytesString(text) && ToBytes(text) == Success(n % 16 * UnitSize("eib"))
  {
    EibMatch(n);
    ToBytesOfMatch(text, [], Print(n), [], "eib", []);
    ValueOfPrint(n);
    EibIs();
    SixteenTimes(n);
  }

  /** Such a text is this one. */
  lemma SeventeenEib()
    ensures "17eib" == Print(17) + "eib"
  {
    assert Print(1) == [DigitChar(1)] == ['1'] && Print(17) == Print(1) + [DigitChar(7)] == ['1'] + ['7'];
  }
}
