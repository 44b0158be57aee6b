/**
 * Explosions as finite trees. Damaging an object can set off further explosions; which ones is
 * decided by code outside this model, so every object an explosion finds carries the explosions
 * its damage will set off. The effects of one explosion are the flat list of direct hits and
 * deferred hits, in order, that a version with private object lists would produce.
 */
module Explosions {
  import opened Arithmetic
  import opened Falloff

  /** Explosion speeds divide distances; the source's behaviour at 0 is undefined. */
  type Speed = r: real | r != 0.0 witness 1.0

  /** No unit: the owner id of an explosion without an owner. */
  const NO_OWNER := -1

  const DIRECT_EXPLOSION_DAMAGE_SPEED_SCALE := 4

  /**
   * An object as the quad field reports it: its distance from the explosion and the explosions its
   * damage sets off. `gone` says that a deferred hit will find the unit removed.
   */
  datatype Found = Found(id: int, dist: Distance, gone: bool, response: seq<Explosion>)

  datatype Params = Params(owner: int, speed: Speed, edge: Edge, ignoreOwner: bool)

  /** The object hit by an impact-only explosion. */
  datatype Target = Nothing | Unit(unit: Found) | Feature(feature: Found)

  datatype Explosion =
    | Area(params: Params, damageAreaOfEffect: real, units: seq<Found>, features: seq<Found>)
    | ImpactOnly(params: Params, target: Target)

  datatype WaitingDamage = WaitingDamage(
    targetID: int, attackerID: int, factor: real, gone: bool, response: seq<Explosion>)

  datatype Hit = UnitHit(id: int, attackerID: int, factor: real) | FeatureHit(id: int, attackerID: int, factor: real)

  datatype Effect = Direct(hit: Hit) | Deferred(delay: int, damage: WaitingDamage)

  /** Frames between the explosion and a deferred hit. */
  function Delay(dist: Distance, speed: Speed): int {
    Truncate(dist / speed) - (DIRECT_EXPLOSION_DAMAGE_SPEED_SCALE - 1)
  }

  predicate IsDirect(dist: Distance, speed: Speed) {
    dist < speed * DIRECT_EXPLOSION_DAMAGE_SPEED_SCALE as real
  }

  function ExplosionRadius(areaOfEffect: real): (r: Distance)
    ensures 1.0 <= r && areaOfEffect <= r && (r == 1.0 || r == areaOfEffect)
  {
    if areaOfEffect < 1.0 then 1.0 else areaOfEffect
  }

  /** Damage to one unit: nothing, a direct hit with all it sets off, or one deferred hit. */
  function UnitEffects(p: Params, radius: Distance, u: Found): seq<Effect>
    decreases u
  {
    var dist: Distance := if radius != 0.0 then u.dist else 0.0;
    if (p.ignoreOwner && u.id == p.owner) || dist > radius then []
    else
      var factor := Factor(radius, dist, p.edge);
      if IsDirect(dist, p.speed) then [Direct(UnitHit(u.id, p.owner, factor))] + AllEffects(u.response)
      else [Deferred(Delay(dist, p.speed), WaitingDamage(u.id, p.owner, factor, u.gone, u.response))]
  }

  function FeatureEffects(p: Params, radius: Distance, f: Found): seq<Effect>
    decreases f
  {
    var dist: Distance := if radius != 0.0 then f.dist else 0.0;
    if dist > radius then []
    else [Direct(FeatureHit(f.id, p.owner, Factor(radius, dist, p.edge)))] + AllEffects(f.response)
  }

  function UnitListEffects(p: Params, radius: Distance, us: seq<Found>): seq<Effect>
    decreases us
  {
    if us == [] then [] else UnitEffects(p, radius, us[0]) + UnitListEffects(p, radius, us[1..])
  }

  function FeatureListEffects(p: Params, radius: Distance, fs: seq<Found>): seq<Effect>
    decreases fs
  {
    if fs == [] then [] else FeatureEffects(p, radius, fs[0]) + FeatureListEffects(p, radius, fs[1..])
  }

  function ExplosionEffects(e: Explosion): seq<Effect>
    decreases e
  {
    match e
    case Area(p, aoe, us, fs) =>
      UnitListEffects(p, ExplosionRadius(aoe), us) + FeatureListEffects(p, ExplosionRadius(aoe), fs)
    case ImpactOnly(p, Nothing) => []
    case ImpactOnly(p, Unit(u)) => UnitEffects(p, 0.0, u)
    case ImpactOnly(p, Feature(f)) => FeatureEffects(p, 0.0, f)
  }

  function AllEffects(es: seq<Explosion>): seq<Effect>
    decreases es
  {
    if es == [] then [] else ExplosionEffects(es[0]) + AllEffects(es[1..])
  }

  // ------------------------------------------------------- deferral consumes part of the tree

  /** Number of objects in a tree of explosions. */
  function FoundWeight(f: Found): nat
    decreases f
  {
    1 + Weight(f.response)
  }

  function ListWeight(fs: seq<Found>): nat
    decreases fs
  {
    if fs == [] then 0 else FoundWeight(fs[0]) + ListWeight(fs[1..])
  }

  function ExplosionWeight(e: Explosion): nat
    decreases e
  {
    match e
    case Area(_, _, us, fs) => ListWeight(us) + ListWeight(fs)
    case ImpactOnly(_, Nothing) => 0
    case ImpactOnly(_, Unit(u)) => FoundWeight(u)
    case ImpactOnly(_, Feature(f)) => FoundWeight(f)
  }

  function Weight(es: seq<Explosion>): nat
    decreases es
  {
    if es == [] then 0 else ExplosionWeight(es[0]) + Weight(es[1..])
  }

  /** What the deferred hits among some effects can still set off, themselves included. */
  function DeferredWeight(effects: seq<Effect>): nat {
    if effects == [] then 0
    else (if effects[0].Deferred? then 1 + Weight(effects[0].damage.response) else 0) + DeferredWeight(effects[1..])
  }

  lemma {:induction false} DeferredWeightSum(a: seq<Effect>, b: seq<Effect>)
    ensures DeferredWeight(a + b) == DeferredWeight(a) + DeferredWeight(b)
  {
    if a == [] {
      assert a + b == b;
    } else {
      DeferredWeightSum(a[1..], b);
      assert (a + b)[1..] == a[1..] + b;
    }
  }

  lemma {:induction false} UnitDefersAtMost(p: Params, radius: Distance, u: Found)
    ensures DeferredWeight(UnitEffects(p, radius, u)) <= FoundWeight(u)
    decreases u
  {
    AllDefersAtMost(u.response);
    var effects := UnitEffects(p, radius, u);
    if effects != [] && effects[0].Direct? {
      DeferredWeightSum([effects[0]], AllEffects(u.response));
    }
  }

  lemma {:induction false} FeatureDefersAtMost(p: Params, radius: Distance, f: Found)
    ensures DeferredWeight(FeatureEffects(p, radius, f)) <= FoundWeight(f)
    decreases f
  {
    AllDefersAtMost(f.response);
    var effects := FeatureEffects(p, radius, f);
    if effects != [] {
      DeferredWeightSum([effects[0]], AllEffects(f.response));
    }
  }

  lemma {:induction false} ListsDeferAtMost(p: Params, radius: Distance, fs: seq<Found>)
    ensures DeferredWeight(UnitListEffects(p, radius, fs)) <= ListWeight(fs)
    ensures DeferredWeight(FeatureListEffects(p, radius, fs)) <= ListWeight(fs)
    decreases fs
  {
    if fs != [] {
      UnitDefersAtMost(p, radius, fs[0]);
      FeatureDefersAtMost(p, radius, fs[0]);
      ListsDeferAtMost(p, radius, fs[1..]);
      DeferredWeightSum(UnitEffects(p, radius, fs[0]), UnitListEffects(p, radius, fs[1..]));
      DeferredWeightSum(FeatureEffects(p, radius, fs[0]), FeatureListEffects(p, radius, fs[1..]));
    }
  }

  lemma {:induction false} ExplosionDefersAtMost(e: Explosion)
    ensures DeferredWeight(ExplosionEffects(e)) <= ExplosionWeight(e)
    decreases e
  {
    match e
    case Area(p, aoe, us, fs) =>
      ListsDeferAtMost(p, ExplosionRadius(aoe), us);
      ListsDeferAtMost(p, ExplosionRadius(aoe), fs);
      DeferredWeightSum(UnitListEffects(p, ExplosionRadius(aoe), us), FeatureListEffects(p, ExplosionRadius(aoe), fs));
    case ImpactOnly(p, Nothing) =>
    case ImpactOnly(p, Unit(u)) => UnitDefersAtMost(p, 0.0, u);
    case ImpactOnly(p, Feature(f)) => FeatureDefersAtMost(p, 0.0, f);
  }

  /** Deferred hits only postpone part of the tree, so draining them is finite. */
  lemma {:induction false} AllDefersAtMost(es: seq<Explosion>)
    ensures DeferredWeight(AllEffects(es)) <= Weight(es)
    decreases es
  {
    if es != [] {
      ExplosionDefersAtMost(es[0]);
      AllDefersAtMost(es[1..]);
      DeferredWeightSum(ExplosionEffects(es[0]), AllEffects(es[1..]));
    }
  }

  // ------------------------------------------------------------------------- on-time delays

  lemma NegativeSpeedQuotient(dist: Distance, speed: Speed)
    requires speed < 0.0
    ensures dist / speed <= 0.0
  {
    var q, s: real := dist / speed, speed;
    assert q * s == dist;
    SignOfProduct(-q, -s);
    assert (-q) * (-s) == dist;
  }

  /** The delay is the travel time in whole frames, less three. */
  lemma DelayIsTravelTime(dist: Distance, speed: Speed)
    requires 0.0 < speed
    ensures (Delay(dist, speed) + 3) as real * speed <= dist < (Delay(dist, speed) + 4) as real * speed
  {
    var d := Delay(dist, speed);
    ProductNonNegative(dist, speed);
    QuotientBound(dist, speed, 0.0);
    QuotientBound(dist, speed, (d + 3) as real);
    QuotientBound(dist, speed, (d + 4) as real);
  }

  /**
   * A deferred hit waits between 1 and 127 frames if and only if the speed is positive and the
   * object is closer than 131 times the speed.
   */
  lemma DelayFitsWheel(dist: Distance, speed: Speed)
    requires !IsDirect(dist, speed)
    ensures 1 <= Delay(dist, speed) <= 127 <==> 0.0 < speed && dist < 131.0 * speed
    ensures 0.0 < speed ==> 1 <= Delay(dist, speed)
  {
    if 0.0 < speed {
      QuotientBound(dist, speed, 4.0);
      QuotientBound(dist, speed, 131.0);
    } else {
      NegativeSpeedQuotient(dist, speed);
    }
  }
}
