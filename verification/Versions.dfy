/**
 * Version strings. VersionCompare adds up the signs of the part comparisons with base-4 weights and
 * returns the sign of the sum; this is shown to be lexicographic comparison of the dot-separated
 * parts padded with "0", and to follow the string order that sets of keys are iterated in.
 */
module Versions {
  // --------------------------------------------------------------- strings and their order

  /** The sign of std::string::compare. */
  function CompareStrings(a: string, b: string): (r: int)
    ensures -1 <= r <= 1
  {
    if a == "" && b == "" then 0
    else if a == "" then -1
    else if b == "" then 1
    else if a[0] < b[0] then -1
    else if b[0] < a[0] then 1
    else CompareStrings(a[1..], b[1..])
  }

  lemma {:induction false} StringsAntisymmetric(a: string, b: string)
    ensures CompareStrings(b, a) == -CompareStrings(a, b)
    ensures CompareStrings(a, b) == 0 <==> a == b
  {
    if a != "" && b != "" {
      StringsAntisymmetric(a[1..], b[1..]);
      assert a == [a[0]] + a[1..] && b == [b[0]] + b[1..];
    }
  }

  lemma {:induction false} StringsTransitive(a: string, b: string, c: string)
    requires CompareStrings(a, b) <= 0 && CompareStrings(b, c) <= 0
    ensures CompareStrings(a, c) <= 0
    ensures CompareStrings(a, b) < 0 || CompareStrings(b, c) < 0 ==> CompareStrings(a, c) < 0
    decreases |a|
  {
    if a != "" && b != "" && c != "" && a[0] == b[0] == c[0] {
      StringsTransitive(a[1..], b[1..], c[1..]);
    }
  }

  // ------------------------------------------------------------------ splitting at the dots

  function TokenLength(s: string): (n: nat)
    ensures n <= |s|
    ensures forall i :: 0 <= i < n ==> s[i] != '.'
    ensures n < |s| ==> s[n] == '.'
  {
    if s == "" || s[0] == '.' then 0 else 1 + TokenLength(s[1..])
  }

  /** CSimpleParser::Split at '.': runs of dots separate, so no part is ever empty. */
  function Split(s: string): (parts: seq<string>)
    ensures forall i :: 0 <= i < |parts| ==> parts[i] != "" && '.' !in parts[i]
    decreases |s|
  {
    if s == "" then []
    else if s[0] == '.' then Split(s[1..])
    else
      var n := TokenLength(s);
      assert n > 0;
      [s[..n]] + Split(s[n..])
  }

  /** The parser's loop: skip dots, take everything up to the next dot. */
  method SplitLoop(str: string) returns (tokens: seq<string>)
    ensures tokens == Split(str)
  {
    tokens := [];
    var rest := str;
    while rest != ""
      invariant tokens + Split(rest) == Split(str)
      decreases |rest|
    {
      if rest[0] == '.' {
        rest := rest[1..];
      } else {
        var n := TokenLength(rest);
        assert tokens + ([rest[..n]] + Split(rest[n..])) == tokens + [rest[..n]] + Split(rest[n..]);
        tokens := tokens + [rest[..n]];
        rest := rest[n..];
      }
    }
  }

  // ------------------------------------------------------------- lexicographic by parts

  /** Part i, or "0" past the end. */
  function Part(parts: seq<string>, i: nat): string {
    if i < |parts| then parts[i] else "0"
  }

  function Tail(parts: seq<string>): seq<string> {
    if parts == [] then [] else parts[1..]
  }

  function MaxParts(p1: seq<string>, p2: seq<string>): nat {
    if |p1| > |p2| then |p1| else |p2|
  }

  /** The first differing part decides; missing parts count as "0". */
  function CompareParts(p1: seq<string>, p2: seq<string>): (r: int)
    ensures -1 <= r <= 1
    decreases MaxParts(p1, p2)
  {
    if p1 == [] && p2 == [] then 0
    else
      var c := CompareStrings(Part(p1, 0), Part(p2, 0));
      if c != 0 then c else CompareParts(Tail(p1), Tail(p2))
  }

  function CompareVersions(v1: string, v2: string): (r: int)
    ensures -1 <= r <= 1
  {
    CompareParts(Split(v1), Split(v2))
  }

  lemma {:induction false} PartsAntisymmetric(p1: seq<string>, p2: seq<string>)
    ensures CompareParts(p2, p1) == -CompareParts(p1, p2)
    decreases MaxParts(p1, p2)
  {
    if p1 != [] || p2 != [] {
      StringsAntisymmetric(Part(p1, 0), Part(p2, 0));
      PartsAntisymmetric(Tail(p1), Tail(p2));
    }
  }

  lemma {:induction false} PartsTransitive(p1: seq<string>, p2: seq<string>, p3: seq<string>)
    requires CompareParts(p1, p2) <= 0 && CompareParts(p2, p3) <= 0
    ensures CompareParts(p1, p3) <= 0
    ensures CompareParts(p1, p2) < 0 || CompareParts(p2, p3) < 0 ==> CompareParts(p1, p3) < 0
    decreases |p1| + |p2| + |p3|
  {
    if p1 != [] || p2 != [] || p3 != [] {
      HeadDecides(p1, p2);
      HeadDecides(p2, p3);
      HeadDecides(p1, p3);
      StringsTransitive(Part(p1, 0), Part(p2, 0), Part(p3, 0));
      StringsAntisymmetric(Part(p1, 0), Part(p2, 0));
      StringsAntisymmetric(Part(p2, 0), Part(p3, 0));
      if CompareStrings(Part(p1, 0), Part(p2, 0)) == 0 && CompareStrings(Part(p2, 0), Part(p3, 0)) == 0 {
        PartsTransitive(Tail(p1), Tail(p2), Tail(p3));
      }
    }
  }

  /** The recursion step also holds for two empty lists, which both read as "0". */
  lemma HeadDecides(p1: seq<string>, p2: seq<string>)
    ensures CompareParts(p1, p2)
         == (var c := CompareStrings(Part(p1, 0), Part(p2, 0)); if c != 0 then c else CompareParts(Tail(p1), Tail(p2)))
  {
    StringsAntisymmetric("0", "0");
  }

  /** Version comparison is a total preorder: reflexive, antisymmetric in sign, transitive. */
  lemma VersionsArePreordered(a: string, b: string, c: string)
    ensures CompareVersions(b, a) == -CompareVersions(a, b)
    ensures CompareVersions(a, b) <= 0 && CompareVersions(b, c) <= 0 ==> CompareVersions(a, c) <= 0
    ensures CompareVersions(a, b) <= 0 && CompareVersions(b, c) < 0 ==> CompareVersions(a, c) < 0
    ensures CompareVersions(a, b) < 0 && CompareVersions(b, c) <= 0 ==> CompareVersions(a, c) < 0
  {
    PartsAntisymmetric(Split(a), Split(b));
    if CompareVersions(a, b) <= 0 && CompareVersions(b, c) <= 0 {
      PartsTransitive(Split(a), Split(b), Split(c));
    }
  }

  // ------------------------------------------------------------------- the weighted sum

  /** 1 << k. */
  function Shift(k: nat): (p: nat)
    ensures p >= 1
  {
    if k == 0 then 1 else 2 * Shift(k - 1)
  }

  const INT_LIMIT: int := 0x8000_0000

  predicate IsInt32(x: int) {
    -INT_LIMIT <= x < INT_LIMIT
  }

  /** The sum over all parts: weight 4^(n - i) for part i of n. */
  function WeightedSum(p1: seq<string>, p2: seq<string>): int
    decreases MaxParts(p1, p2)
  {
    if p1 == [] && p2 == [] then 0
    else Shift(MaxParts(p1, p2) * 2) * CompareStrings(Part(p1, 0), Part(p2, 0)) + WeightedSum(Tail(p1), Tail(p2))
  }

  lemma TailIsShorter(p1: seq<string>, p2: seq<string>)
    requires p1 != [] || p2 != []
    ensures MaxParts(Tail(p1), Tail(p2)) == MaxParts(p1, p2) - 1
    ensures Shift(MaxParts(p1, p2) * 2) == 4 * Shift(MaxParts(Tail(p1), Tail(p2)) * 2)
  {
    var n := MaxParts(p1, p2);
    assert Shift(n * 2) == 2 * Shift(n * 2 - 1) == 4 * Shift((n - 1) * 2);
  }

  lemma SignedWeight(weight: nat, sign: int)
    requires -1 <= sign <= 1
    ensures weight * sign == if sign == 0 then 0 else if sign == 1 then weight else -(weight as int)
  {
  }

  /** All lower weights together stay below the next one: 4 + 16 + ... + 4^n = (4^(n+1) - 4) / 3. */
  lemma {:induction false} WeightDominates(p1: seq<string>, p2: seq<string>)
    ensures -4 * Shift(MaxParts(p1, p2) * 2) + 4 <= 3 * WeightedSum(p1, p2) <= 4 * Shift(MaxParts(p1, p2) * 2) - 4
    decreases MaxParts(p1, p2)
  {
    if p1 != [] || p2 != [] {
      TailIsShorter(p1, p2);
      WeightDominates(Tail(p1), Tail(p2));
      SignedWeight(Shift(MaxParts(p1, p2) * 2), CompareStrings(Part(p1, 0), Part(p2, 0)));
    }
  }

  function Sign(x: int): int {
    if x < 0 then -1 else if x > 0 then 1 else 0
  }

  /** The sign of the weighted sum is the lexicographic comparison. */
  lemma {:induction false} SumSignIsLexicographic(p1: seq<string>, p2: seq<string>)
    ensures Sign(WeightedSum(p1, p2)) == CompareParts(p1, p2)
    decreases MaxParts(p1, p2)
  {
    if p1 != [] || p2 != [] {
      TailIsShorter(p1, p2);
      WeightDominates(Tail(p1), Tail(p2));
      SumSignIsLexicographic(Tail(p1), Tail(p2));
      SignedWeight(Shift(MaxParts(p1, p2) * 2), CompareStrings(Part(p1, 0), Part(p2, 0)));
    }
  }

  lemma {:induction false} ShiftGrows(j: nat, k: nat)
    requires j <= k
    ensures Shift(j) <= Shift(k)
  {
    if j < k {
      ShiftGrows(j, k - 1);
    }
  }

  /** (diff != 0) | -(int)((unsigned int)diff >> 31) on 32-bit words. */
  function SignBits(diff: int): int
    requires IsInt32(diff)
  {
    var word: int := if diff < 0 then diff + 2 * INT_LIMIT else diff;
    var topBit := word / INT_LIMIT;
    var nonZero: bv32 := if diff != 0 then 1 else 0;
    var minusTop: bv32 := if topBit == 0 then 0 else 0xFFFF_FFFF;
    var bits := nonZero | minusTop;
    if bits < 0x8000_0000 then bits as int else bits as int - 2 * INT_LIMIT
  }

  lemma SignBitsIsSign(diff: int)
    requires IsInt32(diff)
    ensures SignBits(diff) == Sign(diff)
  {
    assert (1 as bv32) | 0xFFFF_FFFF == 0xFFFF_FFFF;
    assert (1 as bv32) | 0 == 1;
    assert (0 as bv32) | 0 == 0;
  }

  /** Up to this many parts neither the shift nor the sum leaves 32 bits. */
  const MAX_PARTS := 15

  predicate Comparable(v1: string, v2: string) {
    MaxParts(Split(v1), Split(v2)) <= MAX_PARTS
  }

  lemma Shift30()
    ensures Shift(30) == 0x4000_0000
  {
    assert Shift(10) == 1024;
    assert Shift(20) == 1024 * Shift(10);
    assert Shift(30) == 1024 * Shift(20);
  }

  lemma SumFits(p1: seq<string>, p2: seq<string>)
    requires MaxParts(p1, p2) <= MAX_PARTS
    ensures 3 * WeightedSum(p1, p2) <= 0x1_0000_0000 && -0x1_0000_0000 <= 3 * WeightedSum(p1, p2)
  {
    WeightDominates(p1, p2);
    ShiftGrows(MaxParts(p1, p2) * 2, 30);
    Shift30();
  }

  function DropParts(parts: seq<string>, i: nat): seq<string> {
    if i <= |parts| then parts[i..] else []
  }

  /** Adding the term of part i keeps the running sum within 32 bits and on the way to the total. */
  lemma SumStep(p1: seq<string>, p2: seq<string>, i: nat, diff: int)
    requires i < MaxParts(p1, p2) <= MAX_PARTS
    requires diff + WeightedSum(DropParts(p1, i), DropParts(p2, i)) == WeightedSum(p1, p2)
    ensures var next := diff + Shift((MaxParts(p1, p2) - i) * 2) * CompareStrings(Part(p1, i), Part(p2, i));
            IsInt32(next)
            && next + WeightedSum(DropParts(p1, i + 1), DropParts(p2, i + 1)) == WeightedSum(p1, p2)
  {
    var rest1, rest2 := DropParts(p1, i), DropParts(p2, i);
    assert MaxParts(rest1, rest2) == MaxParts(p1, p2) - i;
    assert Part(rest1, 0) == Part(p1, i) && Part(rest2, 0) == Part(p2, i);
    assert Tail(rest1) == DropParts(p1, i + 1) && Tail(rest2) == DropParts(p2, i + 1);
    SumFits(p1, p2);
    TailSumFits(rest1, rest2);
  }

  lemma TailSumFits(p1: seq<string>, p2: seq<string>)
    requires 1 <= MaxParts(p1, p2) <= MAX_PARTS
    ensures -0x4000_0000 <= 3 * WeightedSum(Tail(p1), Tail(p2)) <= 0x4000_0000
  {
    TailIsShorter(p1, p2);
    WeightDominates(Tail(p1), Tail(p2));
    ShiftGrows(MaxParts(p1, p2) * 2, 30);
    Shift30();
  }

  lemma SumEnds(p1: seq<string>, p2: seq<string>)
    ensures WeightedSum(DropParts(p1, MaxParts(p1, p2)), DropParts(p2, MaxParts(p1, p2))) == 0
  {
  }

  /** The accumulating loop; the running sum never leaves 32 bits. */
  method AccumulateDiff(parts1: seq<string>, parts2: seq<string>) returns (diff: int)
    requires MaxParts(parts1, parts2) <= MAX_PARTS
    ensures diff == WeightedSum(parts1, parts2) && IsInt32(diff)
  {
    hide WeightedSum, CompareStrings, Shift;
    SumEnds(parts1, parts2);
    var maxParts := MaxParts(parts1, parts2);
    ghost var total := WeightedSum(parts1, parts2);
    diff := 0;
    var i := 0;
    while i < maxParts
      invariant 0 <= i <= maxParts
      invariant diff + WeightedSum(DropParts(parts1, i), DropParts(parts2, i)) == total
      invariant IsInt32(diff)
    {
      var v1p := if i < |parts1| then parts1[i] else "0";
      var v2p := if i < |parts2| then parts2[i] else "0";
      SumStep(parts1, parts2, i, diff);
      diff := diff + Shift((maxParts - i) * 2) * CompareStrings(v1p, v2p);
      i := i + 1;
    }
  }

  /** VersionCompare is lexicographic comparison of the zero-padded parts. */
  method VersionCompare(version1: string, version2: string) returns (r: int)
    requires Comparable(version1, version2)
    ensures r == CompareVersions(version1, version2)
  {
    var parts1 := SplitLoop(version1);
    var parts2 := SplitLoop(version2);
    var diff := AccumulateDiff(parts1, parts2);
    SignBitsIsSign(diff);
    SumSignIsLexicographic(parts1, parts2);
    r := SignBits(diff);
  }
}
