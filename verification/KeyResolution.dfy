/** Choosing an AI interface for a wanted version, and resolving a skirmish AI key. */
module KeyResolution {
  import opened Versions
  import opened VersionOrder

  // -------------------------------------------------------------------------- interface keys

  datatype InterfaceKey = InterfaceKey(shortName: string, version: string) {
    predicate LessThan(other: InterfaceKey) {
      if shortName == other.shortName then CompareStrings(version, other.version) < 0
      else CompareStrings(shortName, other.shortName) < 0
    }
  }

  const UNSPECIFIED := InterfaceKey("", "")

  /** operator< is a strict total order, so a set of keys has one iteration order. */
  lemma LessThanIsTotalOrder(a: InterfaceKey, b: InterfaceKey, c: InterfaceKey)
    ensures !a.LessThan(a)
    ensures a == b || a.LessThan(b) || b.LessThan(a)
    ensures !(a.LessThan(b) && b.LessThan(a))
    ensures a.LessThan(b) && b.LessThan(c) ==> a.LessThan(c)
  {
    StringsAntisymmetric(a.version, a.version);
    StringsAntisymmetric(a.shortName, b.shortName);
    StringsAntisymmetric(a.version, b.version);
    StringsAntisymmetric(b.shortName, c.shortName);
    StringsAntisymmetric(a.shortName, c.shortName);
    if a.LessThan(b) && b.LessThan(c) {
      if a.shortName == b.shortName == c.shortName {
        StringsTransitive(a.version, b.version, c.version);
      } else {
        StringsAntisymmetric(a.shortName, a.shortName);
        StringsTransitive(a.shortName, b.shortName, c.shortName);
      }
    }
  }

  /** The keys of a std::set in iteration order. */
  predicate InSetOrder(keys: seq<InterfaceKey>) {
    forall i, j :: 0 <= i < j < |keys| ==> keys[i].LessThan(keys[j])
  }

  /** Same name, and a version not below the wanted one. */
  predicate Fits(key: InterfaceKey, shortName: string, minVersion: string) {
    key.shortName == shortName && CompareVersions(key.version, minVersion) >= 0
  }

  predicate FitsBy(key: InterfaceKey, shortName: string, minVersion: string, diff: int) {
    key.shortName == shortName && CompareVersions(key.version, minVersion) == diff
  }

  /** The first key whose version compares as `diff` to the wanted one. */
  function FirstBy(keys: seq<InterfaceKey>, shortName: string, minVersion: string, diff: int): InterfaceKey {
    if keys == [] then UNSPECIFIED
    else if FitsBy(keys[0], shortName, minVersion, diff) then keys[0]
    else FirstBy(keys[1..], shortName, minVersion, diff)
  }

  predicate AnyBy(keys: seq<InterfaceKey>, shortName: string, minVersion: string, diff: int) {
    exists k :: k in keys && FitsBy(k, shortName, minVersion, diff)
  }

  /** An equal version if there is one, else the first higher one in set order. */
  function FittingKey(keys: seq<InterfaceKey>, shortName: string, minVersion: string): InterfaceKey {
    if AnyBy(keys, shortName, minVersion, 0) then FirstBy(keys, shortName, minVersion, 0)
    else FirstBy(keys, shortName, minVersion, 1)
  }

  lemma {:induction false} FirstByIsFirst(keys: seq<InterfaceKey>, shortName: string, minVersion: string, diff: int)
    returns (i: nat)
    requires AnyBy(keys, shortName, minVersion, diff)
    ensures i < |keys| && FirstBy(keys, shortName, minVersion, diff) == keys[i]
    ensures FitsBy(keys[i], shortName, minVersion, diff)
    ensures forall j :: 0 <= j < i ==> !FitsBy(keys[j], shortName, minVersion, diff)
  {
    hide FitsBy;
    if FitsBy(keys[0], shortName, minVersion, diff) {
      i := 0;
    } else {
      var k :| k in keys && FitsBy(k, shortName, minVersion, diff);
      assert keys == [keys[0]] + keys[1..];
      assert k in keys[1..];
      var t := FirstByIsFirst(keys[1..], shortName, minVersion, diff);
      i := t + 1;
      forall j | 0 <= j < i ensures !FitsBy(keys[j], shortName, minVersion, diff) {
        assert j > 0 ==> keys[j] == keys[1..][j - 1];
      }
    }
  }

  lemma {:induction false} FirstByNone(keys: seq<InterfaceKey>, shortName: string, minVersion: string, diff: int)
    requires !AnyBy(keys, shortName, minVersion, diff)
    ensures FirstBy(keys, shortName, minVersion, diff) == UNSPECIFIED
  {
    if keys != [] {
      assert keys[0] in keys;
      forall k | k in keys[1..] ensures !FitsBy(k, shortName, minVersion, diff) {
        assert k in keys;
      }
      FirstByNone(keys[1..], shortName, minVersion, diff);
    }
  }

  predicate AllComparable(keys: seq<InterfaceKey>, minVersion: string) {
    forall i :: 0 <= i < |keys| ==> Comparable(keys[i].version, minVersion)
  }

  const INT_MAX := 0x7FFF_FFFF

  /** What the loop has settled after looking at `keys`. */
  predicate Settled(
    keys: seq<InterfaceKey>, shortName: string, minVersion: string, fittingKey: InterfaceKey, minDiff: int)
  {
    && minDiff == (if AnyBy(keys, shortName, minVersion, 0) then 0
                   else if AnyBy(keys, shortName, minVersion, 1) then 1 else INT_MAX)
    && fittingKey == FittingKey(keys, shortName, minVersion)
  }

  lemma {:induction false} FirstByAppend(
    keys: seq<InterfaceKey>, key: InterfaceKey, shortName: string, minVersion: string, diff: int)
    ensures AnyBy(keys + [key], shortName, minVersion, diff)
       <==> AnyBy(keys, shortName, minVersion, diff) || FitsBy(key, shortName, minVersion, diff)
    ensures FirstBy(keys + [key], shortName, minVersion, diff)
         == if !AnyBy(keys, shortName, minVersion, diff) && FitsBy(key, shortName, minVersion, diff) then key
            else FirstBy(keys, shortName, minVersion, diff)
  {
    var more := keys + [key];
    assert key == more[|keys|];
    forall k ensures k in more <==> k in keys || k == key { }
    assert forall m :: 0 <= m < |keys| ==> more[m] in keys;
    if AnyBy(keys, shortName, minVersion, diff) {
      var i := FirstByIsFirst(keys, shortName, minVersion, diff);
      var j := FirstByIsFirst(more, shortName, minVersion, diff);
      assert more[i] == keys[i];
      assert j <= i;
      assert more[j] == keys[j];
    } else if FitsBy(key, shortName, minVersion, diff) {
      var j := FirstByIsFirst(more, shortName, minVersion, diff);
    } else {
      FirstByNone(more, shortName, minVersion, diff);
      FirstByNone(keys, shortName, minVersion, diff);
    }
  }

  method FindFittingInterfaceKey(shortName: string, minVersion: string, keys: seq<InterfaceKey>)
    returns (fittingKey: InterfaceKey)
    requires AllComparable(keys, minVersion)
    ensures fittingKey == FittingKey(keys, shortName, minVersion)
  {
    var minDiff := INT_MAX;
    fittingKey := UNSPECIFIED;
    var i := 0;
    assert keys[..0] == [];
    while i < |keys|
      invariant 0 <= i <= |keys|
      invariant Settled(keys[..i], shortName, minVersion, fittingKey, minDiff)
    {
      var key := keys[i];
      assert keys[..i + 1] == keys[..i] + [key];
      FirstByAppend(keys[..i], key, shortName, minVersion, 0);
      FirstByAppend(keys[..i], key, shortName, minVersion, 1);
      i := i + 1;
      if shortName != key.shortName {
        continue;
      }
      var diff := VersionCompare(key.version, minVersion);
      if diff < 0 || diff >= minDiff {
        continue;
      }
      fittingKey, minDiff := key, diff;
    }
    assert keys[..|keys|] == keys;
  }

  /** The promise of the header: the least fitting version, and nothing only when nothing fits. */
  predicate IsLeastFitting(r: InterfaceKey, keys: seq<InterfaceKey>, shortName: string, minVersion: string) {
    if exists k :: k in keys && Fits(k, shortName, minVersion) then
      r in keys && Fits(r, shortName, minVersion)
      && forall k :: k in keys && Fits(k, shortName, minVersion) ==> CompareVersions(r.version, k.version) <= 0
    else r == UNSPECIFIED
  }

  predicate RegularVersions(keys: seq<InterfaceKey>, low: char) {
    forall k :: k in keys ==> Regular(k.version, low)
  }

  lemma FittingKeyFits(keys: seq<InterfaceKey>, shortName: string, minVersion: string)
    ensures var r := FittingKey(keys, shortName, minVersion);
            if exists k :: k in keys && Fits(k, shortName, minVersion)
            then r in keys && Fits(r, shortName, minVersion)
            else r == UNSPECIFIED
  {
    if k :| k in keys && Fits(k, shortName, minVersion) {
      assert FitsBy(k, shortName, minVersion, CompareVersions(k.version, minVersion));
      if AnyBy(keys, shortName, minVersion, 0) {
        var i := FirstByIsFirst(keys, shortName, minVersion, 0);
      } else {
        var i := FirstByIsFirst(keys, shortName, minVersion, 1);
      }
    } else {
      assert !AnyBy(keys, shortName, minVersion, 0) && !AnyBy(keys, shortName, minVersion, 1);
      FirstByNone(keys, shortName, minVersion, 1);
    }
  }

  /** A fitting key whose version equals the wanted one is never passed over. */
  lemma EqualVersionWins(keys: seq<InterfaceKey>, shortName: string, minVersion: string, key: InterfaceKey)
    requires key in keys && FitsBy(key, shortName, minVersion, 0)
    ensures FitsBy(FittingKey(keys, shortName, minVersion), shortName, minVersion, 0)
  {
    var i := FirstByIsFirst(keys, shortName, minVersion, 0);
  }

  /** Over regular versions the chosen key is the least fitting one. */
  lemma FittingKeyIsLeast(keys: seq<InterfaceKey>, shortName: string, minVersion: string)
    requires InSetOrder(keys) && RegularVersions(keys, '0')
    ensures IsLeastFitting(FittingKey(keys, shortName, minVersion), keys, shortName, minVersion)
  {
    var r := FittingKey(keys, shortName, minVersion);
    FittingKeyFits(keys, shortName, minVersion);
    forall k | k in keys && Fits(k, shortName, minVersion) ensures CompareVersions(r.version, k.version) <= 0 {
      if AnyBy(keys, shortName, minVersion, 0) {
        var i := FirstByIsFirst(keys, shortName, minVersion, 0);
        VersionsArePreordered(minVersion, r.version, k.version);
        VersionsArePreordered(r.version, minVersion, k.version);
        VersionsArePreordered(minVersion, k.version, k.version);
      } else {
        assert !FitsBy(k, shortName, minVersion, 0);
        assert FitsBy(k, shortName, minVersion, 1);
        var i := FirstByIsFirst(keys, shortName, minVersion, 1);
        var j :| 0 <= j < |keys| && keys[j] == k;
        assert i <= j;
        if i < j {
          assert keys[i].LessThan(keys[j]);
        } else {
          StringsAntisymmetric(r.version, k.version);
        }
        StringOrderIsMonotone(r.version, k.version);
      }
    }
  }

  /** No part character below `low`; if asked for, only single dots between parts. */
  predicate Admitted(version: string, low: char, dotted: bool) {
    Alphabet(version, low) && (dotted ==> Dotted(version))
  }

  predicate AllAdmitted(keys: seq<InterfaceKey>, low: char, dotted: bool) {
    forall k :: k in keys ==> Admitted(k.version, low, dotted)
  }

  /** All key sets over such versions that can be compared are served correctly, whatever is wanted. */
  ghost predicate Serves(low: char, dotted: bool) {
    forall keys: seq<InterfaceKey>, shortName: string, minVersion: string ::
      InSetOrder(keys) && AllAdmitted(keys, low, dotted) && AllComparable(keys, minVersion)
      ==> IsLeastFitting(FittingKey(keys, shortName, minVersion), keys, shortName, minVersion)
  }

  lemma AdmittedIsRegular(keys: seq<InterfaceKey>, low: char)
    requires AllAdmitted(keys, low, true) && '0' <= low
    ensures RegularVersions(keys, '0')
  {
  }

  /**
   * The exact limit: every choice is right if and only if part characters start at the digit zero and
   * parts are never empty.
   */
  lemma ServedVersions(low: char, dotted: bool)
    ensures Serves(low, dotted) <==> '0' <= low && dotted
  {
    if '0' <= low && dotted {
      forall keys: seq<InterfaceKey>, shortName: string, minVersion: string
        | InSetOrder(keys) && AllAdmitted(keys, low, dotted) && AllComparable(keys, minVersion)
        ensures IsLeastFitting(FittingKey(keys, shortName, minVersion), keys, shortName, minVersion)
      {
        AdmittedIsRegular(keys, low);
        FittingKeyIsLeast(keys, shortName, minVersion);
      }
    } else if low < '0' {
      var c := if low == '.' then '/' else low;
      WrongChoice(c);
      assert AllAdmitted([InterfaceKey("C", "1"), InterfaceKey("C", "1." + [c])], low, dotted);
    } else {
      EmptyPartMisleads(low);
    }
  }

  /** Wanted "0", available "1" and "1.c" with c below '0': "1" is chosen although "1.c" is lower. */
  lemma WrongChoice(low: char)
    requires low < '0' && low != '.'
    ensures var keys := [InterfaceKey("C", "1"), InterfaceKey("C", "1." + [low])];
            InSetOrder(keys) && RegularVersions(keys, low) && AllComparable(keys, "0")
            && FittingKey(keys, "C", "0") == keys[0]
            && !IsLeastFitting(keys[0], keys, "C", "0")
  {
    var one, lower := InterfaceKey("C", "1"), InterfaceKey("C", "1." + [low]);
    var keys := [one, lower];
    LowCharacterBreaksOrder(low);
    OneIsAboveZero(low);
    assert FitsBy(one, "C", "0", 1) && FitsBy(lower, "C", "0", 1);
    assert !AnyBy(keys, "C", "0", 0);
    assert FirstBy(keys, "C", "0", 1) == one;
    assert lower in keys && Fits(lower, "C", "0");
    VersionsArePreordered(lower.version, one.version, one.version);
  }

  /** A version of two parts with one or two dots between them. */
  function TwoParts(t1: string, double: bool, t2: string): string {
    t1 + ((if double then ".." else ".") + t2)
  }

  lemma TwoPartsSplit(t1: string, double: bool, t2: string)
    requires t1 != "" && '.' !in t1 && t2 != "" && '.' !in t2
    ensures Split(TwoParts(t1, double, t2)) == [t1, t2]
  {
    var dots := if double then ".." else ".";
    SplitFirst(t1, dots + t2);
    SplitFirst(t2, "");
    assert t2 + "" == t2;
    assert (dots + t2)[1..] == if double then "." + t2 else t2;
    assert ("." + t2)[1..] == t2;
  }

  /**
   * An empty part breaks the order even with high characters: "c..ccc" stands before "c.cc" in a set,
   * because a dot is below c, and is chosen although it is the higher version.
   */
  lemma EmptyPartMisleads(c: char)
    requires '0' <= c
    ensures
      var keys := [InterfaceKey("C", TwoParts([c], true, [c, c, c])), InterfaceKey("C", TwoParts([c], false, [c, c]))];
      && InSetOrder(keys) && AllAdmitted(keys, c, false) && AllComparable(keys, "")
      && FittingKey(keys, "C", "") == keys[0]
      && !IsLeastFitting(keys[0], keys, "C", "")
  {
    var v0, v1 := TwoParts([c], true, [c, c, c]), TwoParts([c], false, [c, c]);
    var keys := [InterfaceKey("C", v0), InterfaceKey("C", v1)];
    DoubleDotIsFirst(c);
    HigherThanNothing(c, [c, c, c]);
    HigherThanNothing(c, [c, c]);
    TwoPartsSplit([c], true, [c, c, c]);
    TwoPartsSplit([c], false, [c, c]);
    assert CompareVersions(v1, v0) == -1 by {
      LongerIsHigher(c);
    }
    assert keys[0] in keys && keys[1] in keys;
    assert FitsBy(keys[0], "C", "", 1) && FitsBy(keys[1], "C", "", 1);
    assert !AnyBy(keys, "C", "", 0);
    assert Fits(keys[1], "C", "");
    VersionsArePreordered(v1, v0, v0);
  }

  lemma DoubleDotIsFirst(c: char)
    requires '0' <= c
    ensures CompareStrings(TwoParts([c], true, [c, c, c]), TwoParts([c], false, [c, c])) < 0
  {
    CommonPartCancels([c], ".." + [c, c, c], "." + [c, c]);
    assert (".." + [c, c, c])[1..] == "." + [c, c, c] && ("." + [c, c])[1..] == [c, c];
  }

  lemma HigherThanNothing(c: char, t: string)
    requires '0' <= c && (t == [c, c] || t == [c, c, c])
    ensures CompareParts([[c], t], []) == 1
  {
    var p: seq<string> := [[c], t];
    assert Tail(p) == [t];
    assert [c][1..] == "" && "0"[1..] == "";
    if c == '0' {
      assert CompareStrings([c], "0") == 0;
      assert CompareStrings(t[1..], "") == 1;
      assert CompareStrings(t, "0") == 1;
      assert CompareParts([t], []) == 1;
    } else {
      assert CompareStrings([c], "0") == 1;
    }
  }

  lemma LongerIsHigher(c: char)
    ensures CompareParts([[c], [c, c]], [[c], [c, c, c]]) == -1
  {
    FirstPartDecides([c], [[c, c]], [c], [[c, c, c]]);
    FirstPartDecides([c, c], [], [c, c, c], []);
    assert [[c]] + [[c, c]] == [[c], [c, c]] && [[c]] + [[c, c, c]] == [[c], [c, c, c]];
    assert [[c, c]] + [] == [[c, c]] && [[c, c, c]] + [] == [[c, c, c]];
    CommonPartCancels([c, c], "", [c]);
    assert [c, c] + "" == [c, c] && [c, c] + [c] == [c, c, c];
  }

  lemma OneIsAboveZero(low: char)
    ensures CompareVersions("1", "0") == 1
    ensures low != '.' ==> CompareVersions("1." + [low], "0") == 1
    ensures Comparable("1", "0") && (low != '.' ==> Comparable("1." + [low], "0"))
  {
    SplitFirst("0", "");
    SplitFirst("1", "");
    SplitFirst("1", "." + [low]);
    assert "0" + "" == "0" && "1" + "" == "1" && "1" + ("." + [low]) == "1." + [low];
    FirstPartDecides("1", [], "0", []);
    FirstPartDecides("1", Split("." + [low]), "0", []);
  }

  // ------------------------------------------------------------------------ skirmish AI keys

  datatype SkirmishAIKey = SkirmishAIKey(shortName: string, version: string, interfaceKey: InterfaceKey) {
    predicate IsUnspecified() {
      shortName == ""
    }

    /** The interface part is ignored. */
    predicate LessThan(other: SkirmishAIKey) {
      if shortName == other.shortName then CompareStrings(version, other.version) < 0
      else CompareStrings(shortName, other.shortName) < 0
    }
  }

  const NO_AI := SkirmishAIKey("", "", UNSPECIFIED)

  predicate Matches(wanted: SkirmishAIKey, key: SkirmishAIKey) {
    wanted.shortName == key.shortName && (wanted.version != "" ==> wanted.version == key.version)
  }

  /** The registered keys with the wanted name, and the wanted version if one is given, in order. */
  function MatchingKeys(wanted: SkirmishAIKey, registered: seq<SkirmishAIKey>): seq<SkirmishAIKey> {
    if registered == [] then []
    else
      var last := registered[|registered| - 1];
      MatchingKeys(wanted, registered[..|registered| - 1]) + if Matches(wanted, last) then [last] else []
  }

  lemma {:induction false} MatchingKeysMembers(wanted: SkirmishAIKey, registered: seq<SkirmishAIKey>)
    ensures forall k :: k in MatchingKeys(wanted, registered) <==> k in registered && Matches(wanted, k)
  {
    if registered != [] {
      var front := registered[..|registered| - 1];
      MatchingKeysMembers(wanted, front);
      assert registered == front + [registered[|registered| - 1]];
    }
  }

  /** A registered key answers a wish for a name, and for a version if one is given; nothing answers an empty wish. */
  predicate Answers(key: SkirmishAIKey, wanted: SkirmishAIKey) {
    wanted.shortName != "" && key.shortName == wanted.shortName
    && (wanted.version == "" || key.version == wanted.version)
  }

  method FittingSkirmishAIKeys(wanted: SkirmishAIKey, registered: seq<SkirmishAIKey>)
    returns (matched: seq<SkirmishAIKey>)
    ensures matched == Candidates(wanted, registered)
    ensures forall k :: k in matched <==> k in registered && Answers(k, wanted)
  {
    MatchingKeysMembers(wanted, registered);
    matched := [];
    if wanted.IsUnspecified() {
      return;
    }
    for i := 0 to |registered|
      invariant matched == MatchingKeys(wanted, registered[..i])
    {
      assert registered[..i + 1][..i] == registered[..i];
      if wanted.shortName != registered[i].shortName {
        continue;
      }
      if wanted.version != "" && wanted.version != registered[i].version {
        continue;
      }
      matched := matched + [registered[i]];
    }
    assert registered[..|registered|] == registered;
  }

  predicate AllMutuallyComparable(keys: seq<SkirmishAIKey>) {
    forall k, m :: k in keys && m in keys ==> Comparable(k.version, m.version)
  }

  /** Key b has the highest version, and any earlier key a lower one. */
  predicate IsFirstHighest(keys: seq<SkirmishAIKey>, b: nat) {
    && b < |keys|
    && (forall j :: 0 <= j < |keys| ==> CompareVersions(keys[j].version, keys[b].version) <= 0)
    && (forall j :: 0 <= j < b ==> CompareVersions(keys[j].version, keys[b].version) < 0)
  }

  lemma LaterAndHigher(keys: seq<SkirmishAIKey>, b: nat)
    requires keys != [] && IsFirstHighest(keys[..|keys| - 1], b)
    ensures var last := |keys| - 1;
            IsFirstHighest(keys, if CompareVersions(keys[last].version, keys[b].version) <= 0 then b else last)
  {
    var k := |keys| - 1;
    VersionsArePreordered(keys[k].version, keys[k].version, keys[k].version);
    VersionsArePreordered(keys[b].version, keys[k].version, keys[k].version);
    forall j | 0 <= j < k ensures CompareVersions(keys[j].version, keys[b].version) <= 0 {
      assert keys[..k][j] == keys[j];
    }
    forall j | 0 <= j < b ensures CompareVersions(keys[j].version, keys[b].version) < 0 {
      assert keys[..k][j] == keys[j];
    }
    if CompareVersions(keys[k].version, keys[b].version) > 0 {
      forall j | 0 <= j < k ensures CompareVersions(keys[j].version, keys[k].version) < 0 {
        VersionsArePreordered(keys[j].version, keys[b].version, keys[k].version);
      }
    }
  }

  predicate AllComparableTo(keys: seq<SkirmishAIKey>, key: SkirmishAIKey) {
    forall k :: k in keys ==> Comparable(key.version, k.version)
  }

  method HighestVersion(fitting: seq<SkirmishAIKey>) returns (bestIndex: nat)
    requires fitting != []
    requires forall i :: 0 <= i < |fitting| ==> AllComparableTo(fitting, fitting[i])
    ensures IsFirstHighest(fitting, bestIndex)
  {
    hide CompareVersions, Comparable;
    bestIndex := 0;
    VersionsArePreordered(fitting[0].version, fitting[0].version, fitting[0].version);
    for k := 1 to |fitting|
      invariant IsFirstHighest(fitting[..k], bestIndex)
    {
      assert fitting[bestIndex] in fitting;
      var diff := VersionCompare(fitting[k].version, fitting[bestIndex].version);
      assert fitting[..k + 1][..k] == fitting[..k];
      LaterAndHigher(fitting[..k + 1], bestIndex);
      if diff <= 0 {
        continue;
      }
      bestIndex := k;
    }
    assert fitting[..|fitting|] == fitting;
  }

  function Candidates(wanted: SkirmishAIKey, registered: seq<SkirmishAIKey>): seq<SkirmishAIKey> {
    if wanted.IsUnspecified() then [] else MatchingKeys(wanted, registered)
  }

  /** The first key with the highest version. */
  ghost predicate IsBest(r: SkirmishAIKey, keys: seq<SkirmishAIKey>) {
    exists b: nat :: IsFirstHighest(keys, b) && r == keys[b]
  }

  /** The best of the matching keys; the unspecified key exactly when none matches. */
  method ResolveSkirmishAIKey(wanted: SkirmishAIKey, registered: seq<SkirmishAIKey>) returns (r: SkirmishAIKey)
    requires AllMutuallyComparable(registered)
    ensures if Candidates(wanted, registered) == [] then r == NO_AI else IsBest(r, Candidates(wanted, registered))
    ensures r == SkirmishAIKey("", "", InterfaceKey("", "")) <==> forall k :: k in registered ==> !Answers(k, wanted)
    ensures forall k :: k in registered && Answers(k, wanted) ==>
              r in registered && Answers(r, wanted) && CompareVersions(k.version, r.version) <= 0
  {
    var fitting := FittingSkirmishAIKeys(wanted, registered);
    if fitting == [] {
      return NO_AI;
    }
    assert fitting[0] in fitting;
    var bestIndex := HighestVersion(fitting);
    r := fitting[bestIndex];
  }
}
