/**
 * Sets of keys are iterated in string order of their versions. Over versions whose parts are
 * non-empty and use no character below '0', that order never contradicts VersionCompare; with any
 * lower character admitted it does.
 */
module VersionOrder {
  import opened Versions

  /** No character below `low` except the separating dots. */
  predicate Alphabet(s: string, low: char) {
    forall i :: 0 <= i < |s| ==> s[i] == '.' || low <= s[i]
  }

  /** Dots only between non-empty parts. */
  predicate Dotted(v: string) {
    v == "" || (TokenLength(v) > 0 && DottedRest(v[TokenLength(v)..]))
  }

  /** What may follow a part: nothing, or a dot and another part. */
  predicate DottedRest(r: string)
    decreases |r|
  {
    r == "" || (r[0] == '.' && TokenLength(r[1..]) > 0 && DottedRest(r[1..][TokenLength(r[1..])..]))
  }

  predicate Regular(v: string, low: char) {
    Dotted(v) && Alphabet(v, low)
  }

  // ---------------------------------------------------------- string order follows the parts

  /** Two different parts decide the string order, whatever follows: the dot is below every part character. */
  lemma {:induction false} DifferentPartsDecide(t1: string, r1: string, t2: string, r2: string)
    requires t1 != t2
    requires forall i :: 0 <= i < |t1| ==> '0' <= t1[i]
    requires forall i :: 0 <= i < |t2| ==> '0' <= t2[i]
    requires r1 == "" || r1[0] == '.'
    requires r2 == "" || r2[0] == '.'
    ensures CompareStrings(t1 + r1, t2 + r2) == CompareStrings(t1, t2)
    decreases |t1|
  {
    if t1 == "" {
      assert t1 + r1 == r1 && (t2 + r2)[0] == t2[0];
    } else if t2 == "" {
      assert t2 + r2 == r2 && (t1 + r1)[0] == t1[0];
    } else {
      assert (t1 + r1)[1..] == t1[1..] + r1 && (t2 + r2)[1..] == t2[1..] + r2;
      if t1[0] == t2[0] {
        assert t1 == [t1[0]] + t1[1..] && t2 == [t2[0]] + t2[1..];
        DifferentPartsDecide(t1[1..], r1, t2[1..], r2);
      }
    }
  }

  lemma {:induction false} CommonPartCancels(t: string, r1: string, r2: string)
    ensures CompareStrings(t + r1, t + r2) == CompareStrings(r1, r2)
  {
    if t == "" {
      assert t + r1 == r1 && t + r2 == r2;
    } else {
      assert (t + r1)[1..] == t[1..] + r1 && (t + r2)[1..] == t[1..] + r2;
      CommonPartCancels(t[1..], r1, r2);
    }
  }

  /** Nothing sorts below the padding "0". */
  lemma {:induction false} PaddingIsLeast(parts: seq<string>)
    requires forall i :: 0 <= i < |parts| ==> parts[i] != "" && '0' <= parts[i][0]
    ensures CompareParts([], parts) <= 0
  {
    if parts != [] {
      PaddingIsLeast(parts[1..]);
      assert "0"[1..] == "";
      assert CompareStrings("0", parts[0]) <= 0;
    }
  }

  lemma FirstPartDecides(t1: string, s1: seq<string>, t2: string, s2: seq<string>)
    ensures CompareParts([t1] + s1, [t2] + s2)
         == if t1 == t2 then CompareParts(s1, s2) else CompareStrings(t1, t2)
  {
    StringsAntisymmetric(t1, t2);
    assert Tail([t1] + s1) == s1 && Tail([t2] + s2) == s2;
  }

  lemma {:induction false} SplitFirst(t: string, r: string)
    requires t != "" && '.' !in t && (r == "" || r[0] == '.')
    ensures TokenLength(t + r) == |t|
    ensures Split(t + r) == [t] + Split(r)
    decreases |t|
  {
    assert (t + r)[1..] == t[1..] + r;
    if |t| > 1 {
      SplitFirst(t[1..], r);
    } else {
      assert (t + r)[1..] == r;
    }
    assert (t + r)[..|t|] == t && (t + r)[|t|..] == r;
  }

  lemma AlphabetSlice(s: string, low: char, i: nat)
    requires Alphabet(s, low) && i <= |s|
    ensures Alphabet(s[i..], low)
  {
  }

  lemma {:induction false} PartsStartHigh(s: string)
    requires Alphabet(s, '0')
    ensures forall i :: 0 <= i < |Split(s)| ==> Split(s)[i] != "" && '0' <= Split(s)[i][0]
    decreases |s|
  {
    if s != "" {
      if s[0] == '.' {
        PartsStartHigh(s[1..]);
      } else {
        PartsStartHigh(s[TokenLength(s)..]);
      }
    }
  }

  /** String order of versions in this form is monotone for VersionCompare. */
  lemma {:induction false} StringOrderIsMonotone(v1: string, v2: string)
    requires Regular(v1, '0') && Regular(v2, '0')
    requires CompareStrings(v1, v2) <= 0
    ensures CompareVersions(v1, v2) <= 0
    decreases |v1|, 1
  {
    if v1 == "" {
      PartsStartHigh(v2);
      PaddingIsLeast(Split(v2));
    } else if v2 != "" {
      var n1, n2 := TokenLength(v1), TokenLength(v2);
      var t1, r1, t2, r2 := v1[..n1], v1[n1..], v2[..n2], v2[n2..];
      assert v1 == t1 + r1 && v2 == t2 + r2;
      PartThenRestIsMonotone(t1, r1, t2, r2);
    }
  }

  lemma {:induction false} PartThenRestIsMonotone(t1: string, r1: string, t2: string, r2: string)
    requires t1 != "" && forall i :: 0 <= i < |t1| ==> '0' <= t1[i]
    requires t2 != "" && forall i :: 0 <= i < |t2| ==> '0' <= t2[i]
    requires DottedRest(r1) && DottedRest(r2) && Alphabet(r1, '0') && Alphabet(r2, '0')
    requires CompareStrings(t1 + r1, t2 + r2) <= 0
    ensures CompareParts([t1] + Split(r1), [t2] + Split(r2)) <= 0
    decreases |t1| + |r1|, 0
  {
    FirstPartDecides(t1, Split(r1), t2, Split(r2));
    if t1 != t2 {
      DifferentPartsDecide(t1, r1, t2, r2);
    } else {
      CommonPartCancels(t1, r1, r2);
      RestIsMonotone(r1, r2);
    }
  }

  lemma {:induction false} RestIsMonotone(r1: string, r2: string)
    requires DottedRest(r1) && DottedRest(r2) && Alphabet(r1, '0') && Alphabet(r2, '0')
    requires CompareStrings(r1, r2) <= 0
    ensures CompareParts(Split(r1), Split(r2)) <= 0
    decreases |r1|, 0
  {
    if r1 == "" {
      PartsStartHigh(r2);
      PaddingIsLeast(Split(r2));
    } else if r2 != "" {
      AlphabetSlice(r1, '0', 1);
      AlphabetSlice(r2, '0', 1);
      var n1, n2 := TokenLength(r1[1..]), TokenLength(r2[1..]);
      assert Dotted(r1[1..]) && Dotted(r2[1..]);
      StringOrderIsMonotone(r1[1..], r2[1..]);
    }
  }

  /** With a part character below '0' the two orders disagree. */
  lemma LowCharacterBreaksOrder(c: char)
    requires c < '0' && c != '.'
    ensures Regular("1", c) && Regular("1." + [c], c)
    ensures CompareStrings("1", "1." + [c]) < 0
    ensures CompareVersions("1." + [c], "1") < 0
  {
    var low := "1." + [c];
    SplitFirst("1", "");
    SplitFirst("1", "." + [c]);
    SplitFirst([c], "");
    assert "1" + "" == "1" && "1" + ("." + [c]) == low && [c] + "" == [c];
    assert ("." + [c])[1..] == [c];
    assert low[1..] == "." + [c] && low[1..][1..] == [c] && [c][1..] == "" && "1"[1..] == "";
    assert Split(low) == ["1"] + [[c]] && Split("1") == ["1"] + [];
    FirstPartDecides("1", [[c]], "1", []);
  }
}
