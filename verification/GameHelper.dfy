/**
 * The damage half of the game helper as it runs: object lists shared by nested explosions, and the
 * ring of waiting damages, both updated in place. Each method is proved to have exactly the
 * effects of the private-list version in module Explosions.
 */
module GameHelper {
  import opened Arithmetic
  import opened Falloff
  import opened Explosions
  import opened DamageWheel
  import opened DamageLedger

  class GameHelper {
    var frameNum: int
    const waitingDamages: array<seq<WaitingDamage>>
    var unitCache: seq<Found>
    var featureCache: seq<Found>
    /** Every DoDamage call on an object, with its frame. */
    ghost var trace: seq<Stamped>

    ghost predicate Valid() {
      waitingDamages.Length == SLOTS
    }

    ghost function State(): WheelState
      requires Valid()
      reads this, waitingDamages
    {
      WheelState(trace, waitingDamages[..])
    }

    constructor ()
      ensures Valid() && fresh(waitingDamages)
      ensures State() == EMPTY_WHEEL && unitCache == [] && featureCache == [] && frameNum == -1
    {
      frameNum := -1;
      waitingDamages := new seq<WaitingDamage>[SLOTS](_ => []);
      unitCache, featureCache, trace := [], [], [];
      new;
      assert waitingDamages[..] == EMPTY_WHEEL.wheel;
    }

    method BeginFrame()
      requires Valid()
      modifies this`frameNum
      ensures frameNum == old(frameNum) + 1
    {
      frameNum := frameNum + 1;
    }

    /** The object's own reaction: the explosions its damage sets off, run one after another. */
    method React(response: seq<Explosion>)
      requires Valid()
      modifies this`unitCache, this`featureCache, this`trace, waitingDamages
      ensures State() == Apply(old(State()), frameNum, AllEffects(response))
      ensures forall test :: Ledger(test, State()) == old(Ledger(test, State())) + OwedByAll(test, response)
      ensures unitCache == old(unitCache) && featureCache == old(featureCache)
      decreases response
    {
      if response != [] {
        Explosion(response[0]);
        React(response[1..]);
        ApplyConcat(old(State()), frameNum, ExplosionEffects(response[0]), AllEffects(response[1..]));
      }
      forall test ensures Ledger(test, State()) == old(Ledger(test, State())) + OwedByAll(test, response) {
        EffectsAreBooked(test, old(State()), frameNum, AllEffects(response));
        AllAreHitOnce(test, response);
      }
    }

    /** A late hit only goes into the slot of the frame its distance calls for. */
    method DamageUnit(p: Params, expRadius: Distance, unit: Found)
      requires Valid()
      modifies this`unitCache, this`featureCache, this`trace, waitingDamages
      ensures State() == Apply(old(State()), frameNum, UnitEffects(p, expRadius, unit))
      ensures 0.0 < expRadius && InReach(expRadius, unit) && !IsSpared(p, unit) && ComesLate(p, expRadius, unit) ==>
                exists delay ::
                  WaitsFor(delay, unit.dist, p.speed) && trace == old(trace)
                  && var slot := (frameNum + delay) % SLOTS;
                     var wd := WaitingDamage(
                                 unit.id, p.owner, DamageFactor(p, expRadius, unit), unit.gone, unit.response);
                     waitingDamages[..] == old(waitingDamages[..])[slot := old(waitingDamages[slot]) + [wd]]
      ensures unitCache == old(unitCache) && featureCache == old(featureCache)
      decreases unit
    {
      if p.ignoreOwner && unit.id == p.owner {
        return;
      }
      var expDist: Distance := if expRadius != 0.0 then unit.dist else 0.0;
      if expDist > expRadius {
        return;
      }
      var factor := Factor(expRadius, expDist, p.edge);
      if IsDirect(expDist, p.speed) {
        trace := trace + [Stamped(frameNum, Hit.UnitHit(unit.id, p.owner, factor))];
        React(unit.response);
        ApplyConcat(old(State()), frameNum, [Direct(Hit.UnitHit(unit.id, p.owner, factor))], AllEffects(unit.response));
      } else {
        var slot := (frameNum + Truncate(expDist / p.speed) - (DIRECT_EXPLOSION_DAMAGE_SPEED_SCALE - 1)) % SLOTS;
        var wd := WaitingDamage(unit.id, p.owner, factor, unit.gone, unit.response);
        waitingDamages[slot] := waitingDamages[slot] + [wd];
        assert slot == Slot(frameNum + Delay(expDist, p.speed));
        assert State() == ApplyEffect(old(State()), frameNum, Deferred(Delay(expDist, p.speed), wd));
        if 0.0 < expRadius {
          var delay := LateHitIsFiled(p, expRadius, unit);
        }
      }
    }

    method DamageFeature(p: Params, expRadius: Distance, feature: Found)
      requires Valid()
      modifies this`unitCache, this`featureCache, this`trace, waitingDamages
      ensures State() == Apply(old(State()), frameNum, FeatureEffects(p, expRadius, feature))
      ensures unitCache == old(unitCache) && featureCache == old(featureCache)
      decreases feature
    {
      var expDist: Distance := if expRadius != 0.0 then feature.dist else 0.0;
      if expDist > expRadius {
        return;
      }
      var hit := Hit.FeatureHit(feature.id, p.owner, Factor(expRadius, expDist, p.edge));
      trace := trace + [Stamped(frameNum, hit)];
      React(feature.response);
      ApplyConcat(old(State()), frameNum, [Direct(hit)], AllEffects(feature.response));
    }

    /** The quad-field query appends what it finds to the shared lists. */
    method GetUnitsAndFeatures(units: seq<Found>, features: seq<Found>)
      modifies this`unitCache, this`featureCache
      ensures unitCache == old(unitCache) + units && featureCache == old(featureCache) + features
    {
      unitCache := unitCache + units;
      featureCache := featureCache + features;
    }

    /**
     * Works on the part of the shared lists behind the end markers. Nested calls use the same
     * lists; each returns them as it found them.
     */
    method DamageObjectsInExplosionRadius(e: Explosion, expRad: Distance)
      requires Valid() && e.Area?
      modifies this`unitCache, this`featureCache, this`trace, waitingDamages
      ensures State() == Apply(old(State()), frameNum,
                           UnitListEffects(e.params, expRad, e.units)
                           + FeatureListEffects(e.params, expRad, e.features))
      ensures forall test ::
                Ledger(test, State()) == old(Ledger(test, State()))
                                       + OwedToUnits(test, e.params, expRad, e.units)
                                       + OwedToFeatures(test, e.params, expRad, e.features)
      ensures Quiet(e.units) && Quiet(e.features) ==>
                trace == old(trace) + Stamps(frameNum, HitsAtOnce(e.params, expRad, e.units, e.features))
      ensures unitCache == old(unitCache) && featureCache == old(featureCache)
      decreases e, 0
    {
      hide UnitEffects, FeatureEffects, ApplyEffect, Ledger, OwedToUnits, OwedToFeatures, OwedIn, HitsAtOnce, Stamps;
      var oldNumUnits, oldNumFeatures := |unitCache|, |featureCache|;
      GetUnitsAndFeatures(e.units, e.features);
      var newNumUnits, newNumFeatures := |unitCache|, |featureCache|;
      ghost var units, features := unitCache, featureCache;
      ghost var start := old(State());

      var n := oldNumUnits;
      while n < newNumUnits
        invariant oldNumUnits <= n <= newNumUnits
        invariant unitCache == units && featureCache == features
        invariant Apply(State(), frameNum, UnitListEffects(e.params, expRad, e.units[n - oldNumUnits..]))
               == Apply(start, frameNum, UnitListEffects(e.params, expRad, e.units))
      {
        ghost var rest := e.units[n - oldNumUnits..];
        assert unitCache[n] == e.units[n - oldNumUnits] == rest[0];
        assert rest[1..] == e.units[n + 1 - oldNumUnits..];
        ApplyConcat(State(), frameNum, UnitEffects(e.params, expRad, rest[0]),
                    UnitListEffects(e.params, expRad, rest[1..]));
        DamageUnit(e.params, expRad, unitCache[n]);
        n := n + 1;
      }
      unitCache := unitCache[..oldNumUnits];
      ghost var middle := State();
      assert middle == Apply(start, frameNum, UnitListEffects(e.params, expRad, e.units));

      n := oldNumFeatures;
      while n < newNumFeatures
        invariant oldNumFeatures <= n <= newNumFeatures
        invariant unitCache == old(unitCache) && featureCache == features
        invariant Apply(State(), frameNum, FeatureListEffects(e.params, expRad, e.features[n - oldNumFeatures..]))
               == Apply(middle, frameNum, FeatureListEffects(e.params, expRad, e.features))
      {
        ghost var rest := e.features[n - oldNumFeatures..];
        assert featureCache[n] == e.features[n - oldNumFeatures] == rest[0];
        assert rest[1..] == e.features[n + 1 - oldNumFeatures..];
        ApplyConcat(State(), frameNum, FeatureEffects(e.params, expRad, rest[0]),
                    FeatureListEffects(e.params, expRad, rest[1..]));
        DamageFeature(e.params, expRad, featureCache[n]);
        n := n + 1;
      }
      featureCache := featureCache[..oldNumFeatures];
      ApplyConcat(start, frameNum, UnitListEffects(e.params, expRad, e.units),
                  FeatureListEffects(e.params, expRad, e.features));
      AreaIsBooked(start, frameNum, e.params, expRad, e.units, e.features);
    }

    /** The damage part of an explosion. */
    method Explosion(e: Explosion)
      requires Valid()
      modifies this`unitCache, this`featureCache, this`trace, waitingDamages
      ensures State() == Apply(old(State()), frameNum, ExplosionEffects(e))
      ensures forall test :: Ledger(test, State()) == old(Ledger(test, State())) + OwedBy(test, e)
      ensures unitCache == old(unitCache) && featureCache == old(featureCache)
      decreases e, 1
    {
      match e {
        case Area(_, aoe, _, _) => DamageObjectsInExplosionRadius(e, ExplosionRadius(aoe));
        case ImpactOnly(p, Nothing) =>
        case ImpactOnly(p, Unit(u)) => DamageUnit(p, 0.0, u);
        case ImpactOnly(p, Feature(f)) => DamageFeature(p, 0.0, f);
      }
      forall test ensures Ledger(test, State()) == old(Ledger(test, State())) + OwedBy(test, e) {
        EffectsAreBooked(test, old(State()), frameNum, ExplosionEffects(e));
        ExplosionHitsOnce(test, e);
      }
    }

    method ApplyWaitingDamage(wd: WaitingDamage)
      requires Valid()
      modifies this`unitCache, this`featureCache, this`trace, waitingDamages
      ensures State() == Apply(old(State()), frameNum, DueEffects(wd))
      ensures unitCache == old(unitCache) && featureCache == old(featureCache)
    {
      if wd.gone {
        return;
      }
      ghost var hit := Hit.UnitHit(wd.targetID, wd.attackerID, wd.factor);
      trace := trace + [Stamped(frameNum, hit)];
      React(wd.response);
      ApplyConcat(old(State()), frameNum, [Direct(hit)], AllEffects(wd.response));
    }

    /** Applies this frame's waiting damages by index, since applying them can add more, then clears the slot. */
    method Update()
      requires Valid()
      modifies this`unitCache, this`featureCache, this`trace, waitingDamages
      ensures State() == Drain(old(State()), frameNum)
      ensures forall test :: Ledger(test, State()) == old(Ledger(test, State()))
      ensures unitCache == old(unitCache) && featureCache == old(featureCache)
    {
      var wdIdx := frameNum % SLOTS;
      var n := 0;
      while n < |waitingDamages[wdIdx]|
        invariant 0 <= n <= |waitingDamages[wdIdx]|
        invariant unitCache == old(unitCache) && featureCache == old(featureCache)
        invariant DrainFrom(State(), frameNum, n) == DrainFrom(old(State()), frameNum, 0)
        decreases PendingWeight(waitingDamages[wdIdx][n..])
      {
        DrainStepShrinks(State(), frameNum, n);
        ApplyWaitingDamage(waitingDamages[wdIdx][n]);
        n := n + 1;
      }
      waitingDamages[wdIdx] := [];
      assert waitingDamages[..] == DrainFrom(old(State()), frameNum, 0).wheel[wdIdx := []];
      forall test ensures Ledger(test, State()) == old(Ledger(test, State())) {
        DrainKeepsLedger(test, old(State()), frameNum);
      }
    }

    /** One simulation frame: the frame counter, explosions, Update, more explosions. */
    method SimFrame(script: FrameScript)
      requires Valid()
      modifies this, waitingDamages
      ensures frameNum == old(frameNum) + 1
      ensures State() == WheelFrame(old(State()), frameNum, script)
      ensures forall test ::
                Ledger(test, State()) == old(Ledger(test, State()))
                                       + OwedByAll(test, script.before) + OwedByAll(test, script.after)
      ensures unitCache == old(unitCache) && featureCache == old(featureCache)
    {
      BeginFrame();
      React(script.before);
      Update();
      React(script.after);
    }
  }
}
