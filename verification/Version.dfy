/** Library versions packed into one 32-bit number (providers/libvirt/libvirt.go). */
module Version {
  import opened Text

  const MAJOR_DIVISOR := 1_000_000
  const MINOR_DIVISOR := 1_000
  const TWO_TO_THE_32 := 0x1_0000_0000

  function Wrap(x: int): (v: nat)
    ensures v < TWO_TO_THE_32
  {
    x % TWO_TO_THE_32
  }

  predicate Numeric(parts: seq<string>) {
    |parts| == 3 && Atoi(parts[0]).Some? && Atoi(parts[1]).Some? && Atoi(parts[2]).Some?
  }

  /** The number a version stands for; zero for anything that is not three integers. */
  function Code(version: string): (v: nat)
    ensures v < TWO_TO_THE_32
  {
    var parts := Split(version, '.');
    if !Numeric(parts) then 0
    else Wrap(Atoi(parts[0]).value * MAJOR_DIVISOR + Atoi(parts[1]).value * MINOR_DIVISOR + Atoi(parts[2]).value)
  }

  lemma AddWraps(x: int, y: int)
    ensures Wrap(Wrap(x) + Wrap(y)) == Wrap(x + y)
  {
  }

  /** A component times its divisor. */
  function Term(p: int, i: nat): int {
    if i == 0 then p * MAJOR_DIVISOR else if i == 1 then p * MINOR_DIVISOR else p
  }

  ghost function Sum(parts: seq<string>, n: nat): int
    requires n <= |parts| && forall j :: 0 <= j < n ==> Atoi(parts[j]).Some?
  {
    if n == 0 then 0 else Sum(parts, n - 1) + Term(Atoi(parts[n - 1]).value, n - 1)
  }

  lemma SumOfThree(parts: seq<string>)
    requires |parts| == 3 && forall j :: 0 <= j < 3 ==> Atoi(parts[j]).Some?
    ensures Sum(parts,
                3) == Atoi(parts[0]).value * MAJOR_DIVISOR + Atoi(parts[1]).value * MINOR_DIVISOR + Atoi(parts[2]).value
  {
    assert Sum(parts, 1) == Sum(parts, 0) + Atoi(parts[0]).value * MAJOR_DIVISOR;
    assert Sum(parts, 2) == Sum(parts, 1) + Atoi(parts[1]).value * MINOR_DIVISOR;
  }

  lemma SumGrows(parts: seq<string>, n: nat)
    requires n < |parts| && forall j :: 0 <= j <= n ==> Atoi(parts[j]).Some?
    ensures Wrap(Wrap(Sum(parts, n)) + Wrap(Term(Atoi(parts[n]).value, n))) == Wrap(Sum(parts, n + 1))
  {
    AddWraps(Sum(parts, n), Term(Atoi(parts[n]).value, n));
  }

  /** genVersion: adds up the parts in 32-bit arithmetic. */
  method GenVersion(version: string) returns (v: nat)
    ensures v == Code(version)
  {
    v := 0;
    var parts := Split(version, '.');
    if |parts| != 3 {
      return 0;
    }
    for i := 0 to 3
      invariant forall j :: 0 <= j < i ==> Atoi(parts[j]).Some?
      invariant v == Wrap(Sum(parts, i))
    {
      var p := Atoi(parts[i]);
      if p.None? {
        return 0;
      }
      SumGrows(parts, i);
      v := Wrap(v + Wrap(Term(p.value, i)));
    }
    SumOfThree(parts);
  }

  function Dotted(a: nat, b: nat, c: nat): string {
    Print(a) + ['.'] + (Print(b) + ['.'] + Print(c))
  }

  function ComputeVersion(v: nat): string {
    Dotted(v / MAJOR_DIVISOR, v % MAJOR_DIVISOR / MINOR_DIVISOR, v % MAJOR_DIVISOR % MINOR_DIVISOR)
  }

  predicate RequiresVersion(have: nat, version: string) {
    have >= Code(version)
  }

  lemma SplitDotted(a: nat, b: nat, c: nat)
    ensures Split(Dotted(a, b, c), '.') == [Print(a), Print(b), Print(c)]
  {
    var rest := Print(b) + ['.'] + Print(c);
    SplitFirst(Print(a), '.', rest);
    SplitFirst(Print(b), '.', Print(c));
    SplitWhole(Print(c), '.');
  }

  lemma DottedInjective(a: nat, b: nat, c: nat, a': nat, b': nat, c': nat)
    requires Dotted(a, b, c) == Dotted(a', b', c')
    ensures a == a' && b == b' && c == c'
  {
    SplitDotted(a, b, c);
    SplitDotted(a', b', c');
    var parts := Split(Dotted(a, b, c), '.');
    assert parts[0] == Print(a) == Print(a') && parts[1] == Print(b) == Print(b') && parts[2] == Print(c) == Print(c');
    PrintInjective(a, a');
    PrintInjective(b, b');
    PrintInjective(c, c');
  }

  lemma CodeOfDotted(a: nat, b: nat, c: nat)
    requires a < 0x8000_0000_0000_0000 && b < 0x8000_0000_0000_0000 && c < 0x8000_0000_0000_0000
    ensures Code(Dotted(a, b, c)) == Wrap(a * MAJOR_DIVISOR + b * MINOR_DIVISOR + c)
  {
    SplitDotted(a, b, c);
    AtoiOfPrint(a);
    AtoiOfPrint(b);
    AtoiOfPrint(c);
  }

  /** Every 32-bit number survives being printed as a version and read back. */
  lemma CodeInvertsCompute(v: nat)
    requires v < TWO_TO_THE_32
    ensures Code(ComputeVersion(v)) == v
  {
    CodeOfDotted(v / MAJOR_DIVISOR, v % MAJOR_DIVISOR / MINOR_DIVISOR, v % MAJOR_DIVISOR % MINOR_DIVISOR);
  }

  /** Components that do not run into one another. */
  predicate Separate(a: nat, b: nat, c: nat) {
    b < 1000 && c < 1000 && a * MAJOR_DIVISOR + b * MINOR_DIVISOR + c < TWO_TO_THE_32
  }

  lemma CodeOfSeparate(a: nat, b: nat, c: nat)
    requires Separate(a, b, c)
    ensures Code(Dotted(a, b, c)) == a * MAJOR_DIVISOR + b * MINOR_DIVISOR + c
  {
    CodeOfDotted(a, b, c);
    WrapKeeps(a * MAJOR_DIVISOR + b * MINOR_DIVISOR + c);
  }

  lemma WrapKeeps(x: nat)
    requires x < TWO_TO_THE_32
    ensures Wrap(x) == x
  {
  }

  lemma Decompose(a: nat, b: nat, c: nat, v: nat)
    requires b < 1000 && c < 1000 && v == a * MAJOR_DIVISOR + b * MINOR_DIVISOR + c
    ensures v / MAJOR_DIVISOR == a && v % MAJOR_DIVISOR / MINOR_DIVISOR == b && v % MAJOR_DIVISOR % MINOR_DIVISOR == c
  {
    assert v % MAJOR_DIVISOR == b * MINOR_DIVISOR + c;
  }

  /** A version survives exactly when its last two components are below 1000 and its number fits. */
  lemma ComputeInvertsCodeIff(a: nat, b: nat, c: nat)
    ensures ComputeVersion(Code(Dotted(a, b, c))) == Dotted(a, b, c) <==> Separate(a, b, c)
  {
    var v := Code(Dotted(a, b, c));
    if Separate(a, b, c) {
      CodeOfSeparate(a, b, c);
      Decompose(a, b, c, v);
    }
    if ComputeVersion(v) == Dotted(a, b, c) {
      DottedInjective(v / MAJOR_DIVISOR, v % MAJOR_DIVISOR / MINOR_DIVISOR, v % MAJOR_DIVISOR % MINOR_DIVISOR, a, b, c);
      Recompose(v);
    }
  }

  lemma Recompose(v: nat)
    ensures v == v / MAJOR_DIVISOR * MAJOR_DIVISOR
                 + v % MAJOR_DIVISOR / MINOR_DIVISOR * MINOR_DIVISOR
                 + v % MAJOR_DIVISOR % MINOR_DIVISOR
    ensures v % MAJOR_DIVISOR / MINOR_DIVISOR < 1000 && v % MAJOR_DIVISOR % MINOR_DIVISOR < 1000
  {
  }

  predicate AtLeast(a: nat, b: nat, c: nat, a': nat, b': nat, c': nat) {
    a > a' || (a == a' && (b > b' || (b == b' && c >= c')))
  }

  /** Comparing the numbers compares the versions component by component. */
  lemma RequiresIsLexicographic(a: nat, b: nat, c: nat, a': nat, b': nat, c': nat)
    requires Separate(a, b, c) && Separate(a', b', c')
    ensures RequiresVersion(Code(Dotted(a, b, c)), Dotted(a', b', c')) <==> AtLeast(a, b, c, a', b', c')
  {
    CodeOfSeparate(a, b, c);
    CodeOfSeparate(a', b', c');
  }

  lemma SameTotalSameCode(a: nat, b: nat, c: nat, a': nat, b': nat, c': nat)
    requires a < 0x8000_0000_0000_0000 && b < 0x8000_0000_0000_0000 && c < 0x8000_0000_0000_0000
    requires a' < 0x8000_0000_0000_0000 && b' < 0x8000_0000_0000_0000 && c' < 0x8000_0000_0000_0000
    requires a * MAJOR_DIVISOR + b * MINOR_DIVISOR + c == a' * MAJOR_DIVISOR + b' * MINOR_DIVISOR + c'
    ensures Code(Dotted(a, b, c)) == Code(Dotted(a', b', c'))
  {
    CodeOfDotted(a, b, c);
    CodeOfDotted(a', b', c');
  }

  /** A version shares its number with another one, within the bounds, exactly when it is outside of them itself. */
  lemma SharesNumberIff(a: nat, b: nat, c: nat)
    ensures !Separate(a, b, c) <==>
            exists a', b', c' :: Separate(a', b', c') && Dotted(a', b', c') != Dotted(a, b, c) &&
                                 Code(Dotted(a', b', c')) == Code(Dotted(a, b, c))
  {
    var v := Code(Dotted(a, b, c));
    var a', b', c' := v / MAJOR_DIVISOR, v % MAJOR_DIVISOR / MINOR_DIVISOR, v % MAJOR_DIVISOR % MINOR_DIVISOR;
    ComputeInvertsCodeIff(a, b, c);
    CodeInvertsCompute(v);
    Recompose(v);
    assert Separate(a', b', c') && Code(Dotted(a', b', c')) == v;
    forall x: nat, y: nat, z: nat | Separate(x, y, z) && Code(Dotted(x, y, z)) == v
      ensures Dotted(x, y, z) == ComputeVersion(v) {
      ComputeInvertsCodeIff(x, y, z);
    }
  }

  /** A patch of 1000 or more runs into the minor number. */
  lemma LargePatchCollides(a: nat, b: nat, c: nat)
    requires a < 1_000_000 && b < 1_000_000 && c < 1_000_000
    ensures Dotted(a, b, c + 1000) != Dotted(a, b + 1, c) && Code(Dotted(a, b, c + 1000)) == Code(Dotted(a, b + 1, c))
  {
    SameTotalSameCode(a, b, c + 1000, a, b + 1, c);
    if Dotted(a, b, c + 1000) == Dotted(a, b + 1, c) {
      DottedInjective(a, b, c + 1000, a, b + 1, c);
    }
  }

  /** The number a well-formed version would have in unbounded arithmetic. */
  function Total(version: string): int
    requires Numeric(Split(version, '.'))
  {
    var parts := Split(version, '.');
    Atoi(parts[0]).value * MAJOR_DIVISOR + Atoi(parts[1]).value * MINOR_DIVISOR + Atoi(parts[2]).value
  }

  /**
   * Every library meets a version exactly when its number is zero: it is not three integers, or
   * their total is a multiple of 2^32.
   */
  lemma AlwaysMetIff(version: string)
    ensures (forall have: nat :: RequiresVersion(have, version)) <==> Code(version) == 0
    ensures Code(version) == 0 <==> !Numeric(Split(version, '.')) || Total(version) % TWO_TO_THE_32 == 0
  {
    if Code(version) != 0 {
      assert !RequiresVersion(0, version);
    }
  }

  /** A well-formed version far beyond any library that every library meets. */
  lemma LargeVersionAlwaysMet(have: nat)
    ensures Numeric(Split(Dotted(4294, 967, 296), '.')) && RequiresVersion(have, Dotted(4294, 967, 296))
  {
    SplitDotted(4294, 967, 296);
    AtoiOfPrint(4294);
    AtoiOfPrint(967);
    AtoiOfPrint(296);
    AlwaysMetIff(Dotted(4294, 967, 296));
  }
}
