/**
 * The hits of explosions as a conserved quantity. How many hits a tree of explosions owes is defined by
 * the objects alone: all together, or only those that pass any test, such as being one particular hit.
 * Along every run of the ring, the hits applied and the hits still owed by waiting damages are together
 * exactly as many as the explosions so far owe.
 */
module DamageLedger {
  import opened Falloff
  import opened Explosions
  import opened DamageWheel

  /** Which hits are counted. */
  type HitTest = Hit -> bool

  function One(test: HitTest, hit: Hit): nat {
    if test(hit) then 1 else 0
  }

  // ------------------------------------------------------------------- what a tree owes

  /** Impacts have radius zero and reach the object they hit, wherever its middle is. */
  predicate InReach(radius: Distance, o: Found) {
    radius == 0.0 || o.dist <= radius
  }

  predicate IsSpared(p: Params, u: Found) {
    p.ignoreOwner && u.id == p.owner
  }

  /** The hit comes later: the blast needs four frames or more to get there. */
  predicate ComesLate(p: Params, radius: Distance, u: Found) {
    (if radius == 0.0 then 0.0 else u.dist) >= 4.0 * p.speed
  }

  function DamageFactor(p: Params, radius: Distance, o: Found): real
    requires InReach(radius, o)
  {
    if radius == 0.0 then 1.0 else Factor(radius, o.dist, p.edge)
  }

  function UnitHitOf(p: Params, radius: Distance, u: Found): Hit
    requires InReach(radius, u)
  {
    UnitHit(u.id, p.owner, DamageFactor(p, radius, u))
  }

  function FeatureHitOf(p: Params, radius: Distance, f: Found): Hit
    requires InReach(radius, f)
  {
    FeatureHit(f.id, p.owner, DamageFactor(p, radius, f))
  }

  /** One hit for a unit reached, and what its damage sets off; nothing if it is gone when a late hit comes. */
  function OwedToUnit(test: HitTest, p: Params, radius: Distance, u: Found): nat
    decreases u
  {
    if !InReach(radius, u) || IsSpared(p, u) || (ComesLate(p, radius, u) && u.gone) then 0
    else One(test, UnitHitOf(p, radius, u)) + OwedByAll(test, u.response)
  }

  function OwedToFeature(test: HitTest, p: Params, radius: Distance, f: Found): nat
    decreases f
  {
    if !InReach(radius, f) then 0 else One(test, FeatureHitOf(p, radius, f)) + OwedByAll(test, f.response)
  }

  function OwedToUnits(test: HitTest, p: Params, radius: Distance, us: seq<Found>): nat
    decreases us
  {
    if us == [] then 0 else OwedToUnit(test, p, radius, us[0]) + OwedToUnits(test, p, radius, us[1..])
  }

  function OwedToFeatures(test: HitTest, p: Params, radius: Distance, fs: seq<Found>): nat
    decreases fs
  {
    if fs == [] then 0 else OwedToFeature(test, p, radius, fs[0]) + OwedToFeatures(test, p, radius, fs[1..])
  }

  function OwedBy(test: HitTest, e: Explosion): nat
    decreases e
  {
    match e
    case Area(p, aoe, us, fs) =>
      var radius := if aoe < 1.0 then 1.0 else aoe;
      OwedToUnits(test, p, radius, us) + OwedToFeatures(test, p, radius, fs)
    case ImpactOnly(p, Nothing) => 0
    case ImpactOnly(p, Unit(u)) => OwedToUnit(test, p, 0.0, u)
    case ImpactOnly(p, Feature(f)) => OwedToFeature(test, p, 0.0, f)
  }

  function OwedByAll(test: HitTest, es: seq<Explosion>): nat
    decreases es
  {
    if es == [] then 0 else OwedBy(test, es[0]) + OwedByAll(test, es[1..])
  }

  // ------------------------------------------------------------- what a list of effects owes

  function OwedLater(test: HitTest, wd: WaitingDamage): nat {
    if wd.gone then 0
    else One(test, UnitHit(wd.targetID, wd.attackerID, wd.factor)) + OwedByAll(test, wd.response)
  }

  function OwedOnce(test: HitTest, effect: Effect): nat {
    match effect
    case Direct(hit) => One(test, hit)
    case Deferred(_, wd) => OwedLater(test, wd)
  }

  function OwedIn(test: HitTest, effects: seq<Effect>): nat {
    if effects == [] then 0 else OwedOnce(test, effects[0]) + OwedIn(test, effects[1..])
  }

  lemma {:induction false} OwedInSum(test: HitTest, a: seq<Effect>, b: seq<Effect>)
    ensures OwedIn(test, a + b) == OwedIn(test, a) + OwedIn(test, b)
  {
    if a == [] {
      assert a + b == b;
    } else {
      OwedInSum(test, a[1..], b);
      assert (a + b)[1..] == a[1..] + b;
    }
  }

  lemma OwedInOne(test: HitTest, effect: Effect)
    ensures OwedIn(test, [effect]) == OwedOnce(test, effect)
  {
    assert OwedIn(test, []) == 0;
  }

  lemma {:induction false} UnitIsHitOnce(test: HitTest, p: Params, radius: Distance, u: Found)
    ensures OwedIn(test, UnitEffects(p, radius, u)) == OwedToUnit(test, p, radius, u)
    decreases u
  {
    AllAreHitOnce(test, u.response);
    var effects := UnitEffects(p, radius, u);
    if effects != [] {
      OwedInOne(test, effects[0]);
      OwedInSum(test, [effects[0]], AllEffects(u.response));
    }
  }

  lemma {:induction false} FeatureIsHitOnce(test: HitTest, p: Params, radius: Distance, f: Found)
    ensures OwedIn(test, FeatureEffects(p, radius, f)) == OwedToFeature(test, p, radius, f)
    decreases f
  {
    AllAreHitOnce(test, f.response);
    var effects := FeatureEffects(p, radius, f);
    if effects != [] {
      OwedInOne(test, effects[0]);
      OwedInSum(test, [effects[0]], AllEffects(f.response));
    }
  }

  lemma {:induction false} UnitsAreHitOnce(test: HitTest, p: Params, radius: Distance, us: seq<Found>)
    ensures OwedIn(test, UnitListEffects(p, radius, us)) == OwedToUnits(test, p, radius, us)
    decreases us
  {
    if us != [] {
      UnitIsHitOnce(test, p, radius, us[0]);
      UnitsAreHitOnce(test, p, radius, us[1..]);
      OwedInSum(test, UnitEffects(p, radius, us[0]), UnitListEffects(p, radius, us[1..]));
    }
  }

  lemma {:induction false} FeaturesAreHitOnce(test: HitTest, p: Params, radius: Distance, fs: seq<Found>)
    ensures OwedIn(test, FeatureListEffects(p, radius, fs)) == OwedToFeatures(test, p, radius, fs)
    decreases fs
  {
    if fs != [] {
      FeatureIsHitOnce(test, p, radius, fs[0]);
      FeaturesAreHitOnce(test, p, radius, fs[1..]);
      OwedInSum(test, FeatureEffects(p, radius, fs[0]), FeatureListEffects(p, radius, fs[1..]));
    }
  }

  lemma AreaIsHitOnce(test: HitTest, p: Params, radius: Distance, us: seq<Found>, fs: seq<Found>)
    ensures OwedIn(test, UnitListEffects(p, radius, us) + FeatureListEffects(p, radius, fs))
         == OwedToUnits(test, p, radius, us) + OwedToFeatures(test, p, radius, fs)
    decreases us, fs
  {
    UnitsAreHitOnce(test, p, radius, us);
    FeaturesAreHitOnce(test, p, radius, fs);
    OwedInSum(test, UnitListEffects(p, radius, us), FeatureListEffects(p, radius, fs));
  }

  lemma {:induction false} ExplosionHitsOnce(test: HitTest, e: Explosion)
    ensures OwedIn(test, ExplosionEffects(e)) == OwedBy(test, e)
    decreases e
  {
    match e
    case Area(p, aoe, us, fs) =>
      UnitsAreHitOnce(test, p, ExplosionRadius(aoe), us);
      FeaturesAreHitOnce(test, p, ExplosionRadius(aoe), fs);
      OwedInSum(test, UnitListEffects(p, ExplosionRadius(aoe), us), FeatureListEffects(p, ExplosionRadius(aoe), fs));
    case ImpactOnly(p, Nothing) =>
    case ImpactOnly(p, Unit(u)) => UnitIsHitOnce(test, p, 0.0, u);
    case ImpactOnly(p, Feature(f)) => FeatureIsHitOnce(test, p, 0.0, f);
  }

  /**
   * The effects of a tree of explosions hold, for each object it reaches, exactly one hit of that id,
   * attacker and factor, those set off by deferred hits included.
   */
  lemma {:induction false} AllAreHitOnce(test: HitTest, es: seq<Explosion>)
    ensures OwedIn(test, AllEffects(es)) == OwedByAll(test, es)
    decreases es
  {
    if es != [] {
      ExplosionHitsOnce(test, es[0]);
      AllAreHitOnce(test, es[1..]);
      OwedInSum(test, ExplosionEffects(es[0]), AllEffects(es[1..]));
    }
  }

  // --------------------------------------------------------------------------- late hits

  /** Frames until a hit that needs dist / speed frames, counted from the fourth on. */
  predicate WaitsFor(delay: int, dist: Distance, speed: Speed) {
    0.0 < speed ==> (delay + 3) as real * speed <= dist < (delay + 4) as real * speed
  }

  /** A late hit is filed, and nothing else happens, with the delay its distance calls for. */
  lemma LateHitIsFiled(p: Params, radius: Distance, u: Found) returns (delay: int)
    requires 0.0 < radius && InReach(radius, u) && !IsSpared(p, u) && ComesLate(p, radius, u)
    ensures WaitsFor(delay, u.dist, p.speed)
    ensures UnitEffects(p, radius, u)
         == [Deferred(delay, WaitingDamage(u.id, p.owner, DamageFactor(p, radius, u), u.gone, u.response))]
  {
    delay := Delay(u.dist, p.speed);
    if 0.0 < p.speed {
      DelayIsTravelTime(u.dist, p.speed);
    }
  }

  // ------------------------------------------------------------------------------ the ledger

  function Applied(test: HitTest, trace: seq<Stamped>): nat {
    if trace == [] then 0 else Applied(test, trace[..|trace| - 1]) + One(test, trace[|trace| - 1].hit)
  }

  function OwedByList(test: HitTest, list: seq<WaitingDamage>): nat {
    if list == [] then 0 else OwedLater(test, list[0]) + OwedByList(test, list[1..])
  }

  function OwedBySlots(test: HitTest, slots: seq<seq<WaitingDamage>>): nat {
    if slots == [] then 0 else OwedByList(test, slots[0]) + OwedBySlots(test, slots[1..])
  }

  /** The hits applied so far and those the ring still owes, but for the first n hits of one slot. */
  function LedgerFrom(test: HitTest, st: WheelState, slot: nat, n: nat): nat
    requires slot < SLOTS && n <= |st.wheel[slot]|
  {
    Applied(test, st.trace) + OwedBySlots(test, st.wheel[slot := st.wheel[slot][n..]])
  }

  function Ledger(test: HitTest, st: WheelState): nat {
    Applied(test, st.trace) + OwedBySlots(test, st.wheel)
  }

  lemma LedgerFromStart(test: HitTest, st: WheelState, slot: nat)
    requires slot < SLOTS
    ensures LedgerFrom(test, st, slot, 0) == Ledger(test, st)
  {
    assert st.wheel[slot := st.wheel[slot][0..]] == st.wheel;
  }

  lemma AppliedOneMore(test: HitTest, trace: seq<Stamped>, next: Stamped)
    ensures Applied(test, trace + [next]) == Applied(test, trace) + One(test, next.hit)
  {
    assert (trace + [next])[..|trace|] == trace;
  }

  lemma {:induction false} OwedByListAppend(test: HitTest, list: seq<WaitingDamage>, wd: WaitingDamage)
    ensures OwedByList(test, list + [wd]) == OwedByList(test, list) + OwedLater(test, wd)
  {
    if list == [] {
      assert list + [wd] == [wd];
      assert OwedByList(test, []) == 0;
    } else {
      OwedByListAppend(test, list[1..], wd);
      assert (list + [wd])[1..] == list[1..] + [wd];
    }
  }

  lemma {:induction false} OwedBySlotsUpdate(
    test: HitTest, slots: seq<seq<WaitingDamage>>, i: nat, list: seq<WaitingDamage>)
    requires i < |slots|
    ensures OwedBySlots(test, slots[i := list]) + OwedByList(test, slots[i])
         == OwedBySlots(test, slots) + OwedByList(test, list)
  {
    var updated := slots[i := list];
    if i == 0 {
      assert updated[1..] == slots[1..];
    } else {
      OwedBySlotsUpdate(test, slots[1..], i - 1, list);
      assert updated[1..] == slots[1..][i - 1 := list];
    }
  }

  /** Appending one waiting damage to a slot adds what it owes. */
  lemma FiledIsOwed(test: HitTest, slots: seq<seq<WaitingDamage>>, i: nat, wd: WaitingDamage)
    requires i < |slots|
    ensures OwedBySlots(test, slots[i := slots[i] + [wd]]) == OwedBySlots(test, slots) + OwedLater(test, wd)
  {
    OwedBySlotsUpdate(test, slots, i, slots[i] + [wd]);
    OwedByListAppend(test, slots[i], wd);
  }

  lemma EffectIsBooked(test: HitTest, st: WheelState, frame: int, effect: Effect, slot: nat, n: nat)
    requires slot < SLOTS && n <= |st.wheel[slot]|
    ensures st.wheel[slot] <= ApplyEffect(st, frame, effect).wheel[slot]
    ensures LedgerFrom(test, ApplyEffect(st, frame, effect), slot, n)
         == LedgerFrom(test, st, slot, n) + OwedOnce(test, effect)
  {
    match effect
    case Direct(hit) => AppliedOneMore(test, st.trace, Stamped(frame, hit));
    case Deferred(delay, wd) =>
      var s := Slot(frame + delay);
      var rest := st.wheel[slot := st.wheel[slot][n..]];
      FiledIsOwed(test, rest, s, wd);
      var next := ApplyEffect(st, frame, effect).wheel;
      if s == slot {
        assert (st.wheel[slot] + [wd])[n..] == st.wheel[slot][n..] + [wd];
      }
      assert next[slot := next[slot][n..]] == rest[s := rest[s] + [wd]];
  }

  lemma {:induction false} EffectsAreBookedFrom(
    test: HitTest, st: WheelState, frame: int, effects: seq<Effect>, slot: nat, n: nat)
    requires slot < SLOTS && n <= |st.wheel[slot]|
    ensures st.wheel[slot] <= Apply(st, frame, effects).wheel[slot]
    ensures LedgerFrom(test, Apply(st, frame, effects), slot, n)
         == LedgerFrom(test, st, slot, n) + OwedIn(test, effects)
    decreases effects
  {
    hide LedgerFrom, ApplyEffect, OwedOnce;
    if effects != [] {
      EffectIsBooked(test, st, frame, effects[0], slot, n);
      EffectsAreBookedFrom(test, ApplyEffect(st, frame, effects[0]), frame, effects[1..], slot, n);
    }
  }

  /** Effects add to the ledger exactly what they owe. */
  lemma EffectsAreBooked(test: HitTest, st: WheelState, frame: int, effects: seq<Effect>)
    ensures Ledger(test, Apply(st, frame, effects)) == Ledger(test, st) + OwedIn(test, effects)
  {
    EffectsAreBookedFrom(test, st, frame, effects, 0, 0);
    LedgerFromStart(test, st, 0);
    LedgerFromStart(test, Apply(st, frame, effects), 0);
  }

  lemma DueIsOwed(test: HitTest, wd: WaitingDamage)
    ensures OwedIn(test, DueEffects(wd)) == OwedLater(test, wd)
  {
    if !wd.gone {
      var hit := Direct(UnitHit(wd.targetID, wd.attackerID, wd.factor));
      AllAreHitOnce(test, wd.response);
      OwedInOne(test, hit);
      OwedInSum(test, [hit], AllEffects(wd.response));
    }
  }

  lemma OneIsTakenOut(test: HitTest, st: WheelState, slot: nat, n: nat)
    requires slot < SLOTS && n < |st.wheel[slot]|
    ensures LedgerFrom(test, st, slot, n) == LedgerFrom(test, st, slot, n + 1) + OwedLater(test, st.wheel[slot][n])
  {
    var list := st.wheel[slot];
    OwedBySlotsUpdate(test, st.wheel, slot, list[n..]);
    OwedBySlotsUpdate(test, st.wheel, slot, list[n + 1..]);
    assert list[n..][0] == list[n] && list[n..][1..] == list[n + 1..];
  }

  lemma {:induction false} DrainingKeepsLedger(test: HitTest, st: WheelState, frame: int, n: nat)
    requires n <= |st.wheel[Slot(frame)]|
    ensures var end := DrainFrom(st, frame, n);
            LedgerFrom(test, end, Slot(frame), |end.wheel[Slot(frame)]|) == LedgerFrom(test, st, Slot(frame), n)
    decreases PendingWeight(st.wheel[Slot(frame)][n..])
  {
    hide LedgerFrom;
    var slot := Slot(frame);
    if n < |st.wheel[slot]| {
      var wd := st.wheel[slot][n];
      DrainStepShrinks(st, frame, n);
      OneIsTakenOut(test, st, slot, n);
      EffectsAreBookedFrom(test, st, frame, DueEffects(wd), slot, n + 1);
      DueIsOwed(test, wd);
      DrainingKeepsLedger(test, Apply(st, frame, DueEffects(wd)), frame, n + 1);
    }
  }

  /** Draining a frame neither loses nor repeats a hit, whatever the hits set off. */
  lemma DrainKeepsLedger(test: HitTest, st: WheelState, frame: int)
    ensures Ledger(test, Drain(st, frame)) == Ledger(test, st)
  {
    hide DrainFrom;
    var slot, end := Slot(frame), DrainFrom(st, frame, 0);
    DrainingKeepsLedger(test, st, frame, 0);
    LedgerFromStart(test, st, slot);
    var list := end.wheel[slot];
    assert list[|list|..] == [];
  }

  function OwedByScripts(test: HitTest, scripts: seq<FrameScript>): nat {
    if scripts == [] then 0
    else OwedByAll(test, scripts[0].before) + OwedByAll(test, scripts[0].after) + OwedByScripts(test, scripts[1..])
  }

  lemma FrameIsBooked(test: HitTest, st: WheelState, frame: int, script: FrameScript)
    ensures Ledger(test, WheelFrame(st, frame, script))
         == Ledger(test, st) + OwedByAll(test, script.before) + OwedByAll(test, script.after)
  {
    hide Ledger, Drain, Apply;
    AllAreHitOnce(test, script.before);
    AllAreHitOnce(test, script.after);
    var st1 := Apply(st, frame, AllEffects(script.before));
    EffectsAreBooked(test, st, frame, AllEffects(script.before));
    DrainKeepsLedger(test, st1, frame);
    EffectsAreBooked(test, Drain(st1, frame), frame, AllEffects(script.after));
  }

  lemma {:induction false} RunIsBooked(test: HitTest, st: WheelState, frame: int, scripts: seq<FrameScript>)
    ensures Ledger(test, WheelRun(st, frame, scripts)) == Ledger(test, st) + OwedByScripts(test, scripts)
    decreases |scripts|
  {
    hide Ledger, WheelFrame;
    if scripts != [] {
      FrameIsBooked(test, st, frame, scripts[0]);
      RunIsBooked(test, WheelFrame(st, frame, scripts[0]), frame + 1, scripts[1..]);
    }
  }

  lemma {:induction false} NothingIsOwed(test: HitTest, slots: seq<seq<WaitingDamage>>)
    requires forall i :: 0 <= i < |slots| ==> slots[i] == []
    ensures OwedBySlots(test, slots) == 0
  {
    if slots != [] {
      NothingIsOwed(test, slots[1..]);
    }
  }

  /**
   * In every run from an empty ring, whether or not its hits come on time: the hits applied, with those
   * the ring still owes, are one for each object the explosions reach.
   */
  lemma NoHitIsLost(test: HitTest, frame: int, scripts: seq<FrameScript>)
    ensures var end := WheelRun(EMPTY_WHEEL, frame, scripts);
            Applied(test, end.trace) + OwedBySlots(test, end.wheel) == OwedByScripts(test, scripts)
  {
    RunIsBooked(test, EMPTY_WHEEL, frame, scripts);
    NothingIsOwed(test, EMPTY_WHEEL.wheel);
  }

  // -------------------------------------------------------------------- the order of one area

  /** The objects of a list that pass a test, in order. */
  function Chosen(list: seq<Found>, test: Found -> bool): (s: seq<Found>)
    ensures forall i :: 0 <= i < |s| ==> s[i] in list && test(s[i])
    ensures forall o :: o in list && test(o) ==> o in s
    ensures |s| <= |list|
  {
    if list == [] then []
    else
      assert list == [list[0]] + list[1..];
      (if test(list[0]) then [list[0]] else []) + Chosen(list[1..], test)
  }

  predicate Quiet(list: seq<Found>) {
    forall o :: o in list ==> o.response == []
  }

  function StruckAtOnce(p: Params, radius: Distance): Found -> bool {
    (u: Found) => InReach(radius, u) && !ComesLate(p, radius, u) && !IsSpared(p, u)
  }

  function Struck(radius: Distance): Found -> bool {
    (f: Found) => InReach(radius, f)
  }

  function UnitHits(p: Params, radius: Distance, us: seq<Found>): seq<Hit>
    requires forall i :: 0 <= i < |us| ==> InReach(radius, us[i])
  {
    seq(|us|, i requires 0 <= i < |us| => UnitHitOf(p, radius, us[i]))
  }

  function FeatureHits(p: Params, radius: Distance, fs: seq<Found>): seq<Hit>
    requires forall i :: 0 <= i < |fs| ==> InReach(radius, fs[i])
  {
    seq(|fs|, i requires 0 <= i < |fs| => FeatureHitOf(p, radius, fs[i]))
  }

  /** The hits one area makes at once: the units in their order, then the features in theirs. */
  function HitsAtOnce(p: Params, radius: Distance, us: seq<Found>, fs: seq<Found>): seq<Hit> {
    UnitHits(p, radius, Chosen(us, StruckAtOnce(p, radius))) + FeatureHits(p, radius, Chosen(fs, Struck(radius)))
  }

  function DirectHits(effects: seq<Effect>): seq<Hit> {
    if effects == [] then []
    else (if effects[0].Direct? then [effects[0].hit] else []) + DirectHits(effects[1..])
  }

  lemma {:induction false} DirectHitsConcat(a: seq<Effect>, b: seq<Effect>)
    ensures DirectHits(a + b) == DirectHits(a) + DirectHits(b)
  {
    if a == [] {
      assert a + b == b;
    } else {
      DirectHitsConcat(a[1..], b);
      assert (a + b)[1..] == a[1..] + b;
      var first := if a[0].Direct? then [a[0].hit] else [];
      assert first + (DirectHits(a[1..]) + DirectHits(b)) == first + DirectHits(a[1..]) + DirectHits(b);
    }
  }

  lemma UnitAtOnce(p: Params, radius: Distance, u: Found)
    requires u.response == []
    ensures DirectHits(UnitEffects(p, radius, u))
         == if StruckAtOnce(p, radius)(u) then [UnitHitOf(p, radius, u)] else []
  {
    assert AllEffects([]) == [] && DirectHits([]) == [];
  }

  lemma FeatureAtOnce(p: Params, radius: Distance, f: Found)
    requires f.response == []
    ensures DirectHits(FeatureEffects(p, radius, f)) == if Struck(radius)(f) then [FeatureHitOf(p, radius, f)] else []
  {
    assert AllEffects([]) == [] && DirectHits([]) == [];
  }

  lemma {:induction false} UnitsInOrder(p: Params, radius: Distance, us: seq<Found>)
    requires Quiet(us)
    ensures DirectHits(UnitListEffects(p, radius, us)) == UnitHits(p, radius, Chosen(us, StruckAtOnce(p, radius)))
  {
    hide UnitEffects, UnitHitOf;
    if us != [] {
      assert us[0] in us;
      UnitsInOrder(p, radius, us[1..]);
      UnitAtOnce(p, radius, us[0]);
      DirectHitsConcat(UnitEffects(p, radius, us[0]), UnitListEffects(p, radius, us[1..]));
    }
  }

  lemma {:induction false} FeaturesInOrder(p: Params, radius: Distance, fs: seq<Found>)
    requires Quiet(fs)
    ensures DirectHits(FeatureListEffects(p, radius, fs)) == FeatureHits(p, radius, Chosen(fs, Struck(radius)))
  {
    hide FeatureEffects, FeatureHitOf;
    if fs != [] {
      assert fs[0] in fs;
      FeaturesInOrder(p, radius, fs[1..]);
      FeatureAtOnce(p, radius, fs[0]);
      DirectHitsConcat(FeatureEffects(p, radius, fs[0]), FeatureListEffects(p, radius, fs[1..]));
    }
  }

  function Stamps(frame: int, hits: seq<Hit>): seq<Stamped> {
    seq(|hits|, i requires 0 <= i < |hits| => Stamped(frame, hits[i]))
  }

  lemma {:induction false} DirectHitsAreStamped(st: WheelState, frame: int, effects: seq<Effect>)
    ensures Apply(st, frame, effects).trace == st.trace + Stamps(frame, DirectHits(effects))
    decreases effects
  {
    if effects != [] {
      DirectHitsAreStamped(ApplyEffect(st, frame, effects[0]), frame, effects[1..]);
      if effects[0].Direct? {
        assert Stamps(frame, DirectHits(effects))
            == [Stamped(frame, effects[0].hit)] + Stamps(frame, DirectHits(effects[1..]));
      }
    }
  }

  /** An area whose objects set nothing off stamps its hits in the order of the two lists. */
  lemma AreaIsInOrder(st: WheelState, frame: int, p: Params, radius: Distance, us: seq<Found>, fs: seq<Found>)
    requires Quiet(us) && Quiet(fs)
    ensures Apply(st, frame, UnitListEffects(p, radius, us) + FeatureListEffects(p, radius, fs)).trace
         == st.trace + Stamps(frame, HitsAtOnce(p, radius, us, fs))
  {
    var units, features := UnitListEffects(p, radius, us), FeatureListEffects(p, radius, fs);
    DirectHitsAreStamped(st, frame, units + features);
    DirectHitsConcat(units, features);
    UnitsInOrder(p, radius, us);
    FeaturesInOrder(p, radius, fs);
  }

  /** What one area adds to the ledger, and to the trace if its objects set nothing off. */
  lemma AreaIsBooked(st: WheelState, frame: int, p: Params, radius: Distance, us: seq<Found>, fs: seq<Found>)
    ensures
      var end := Apply(st, frame, UnitListEffects(p, radius, us) + FeatureListEffects(p, radius, fs));
      && (forall test ::
            Ledger(test, end)
            == Ledger(test, st) + OwedToUnits(test, p, radius, us) + OwedToFeatures(test, p, radius, fs))
      && (Quiet(us) && Quiet(fs) ==> end.trace == st.trace + Stamps(frame, HitsAtOnce(p, radius, us, fs)))
  {
    hide Apply, UnitListEffects, FeatureListEffects, Ledger, OwedToUnits, OwedToFeatures, OwedIn, HitsAtOnce, Stamps;
    var effects := UnitListEffects(p, radius, us) + FeatureListEffects(p, radius, fs);
    var end := Apply(st, frame, effects);
    forall test ensures Ledger(test, end)
                     == Ledger(test, st) + OwedToUnits(test, p, radius, us) + OwedToFeatures(test, p, radius, fs)
    {
      EffectsAreBooked(test, st, frame, effects);
      AreaIsHitOnce(test, p, radius, us, fs);
    }
    if Quiet(us) && Quiet(fs) {
      AreaIsInOrder(st, frame, p, radius, us, fs);
    }
  }
}
