/**
 * The ring of waiting damages against an ideal schedule that files every hit under its absolute due
 * frame. The two agree on every run exactly when no deferred hit is out of the ring's reach.
 */
module DamageOnTime {
  import opened Falloff
  import opened Explosions
  import opened DamageWheel

  // ------------------------------------------------------------------------ the ideal schedule

  /** A deferred hit is filed under the frame it is meant for, whichever that is. */
  function IdealEffect(st: ScheduleState, frame: int, effect: Effect): ScheduleState {
    match effect
    case Direct(h) => st.(trace := st.trace + [Stamped(frame, h)])
    case Deferred(delay, wd) =>
      var due := frame + delay;
      st.(schedule := st.schedule[due := Due(st.schedule, due) + [wd]])
  }

  function IdealAll(st: ScheduleState, frame: int, effects: seq<Effect>): ScheduleState
    decreases effects
  {
    if effects == [] then st else IdealAll(IdealEffect(st, frame, effects[0]), frame, effects[1..])
  }

  lemma {:induction false} IdealGrowsAtMost(st: ScheduleState, frame: int, effects: seq<Effect>, due: int)
    ensures PendingWeight(Due(IdealAll(st, frame, effects).schedule, due))
         <= PendingWeight(Due(st.schedule, due)) + DeferredWeight(effects)
    decreases effects
  {
    if effects != [] {
      if effects[0].Deferred? {
        PendingWeightAppend(Due(st.schedule, due), effects[0].damage);
      }
      IdealGrowsAtMost(IdealEffect(st, frame, effects[0]), frame, effects[1..], due);
    }
  }

  /** Apply the hits due in a frame, oldest first, with all they set off. */
  function IdealDue(st: ScheduleState, frame: int): ScheduleState
    decreases PendingWeight(Due(st.schedule, frame))
  {
    var list := Due(st.schedule, frame);
    if list == [] then st
    else
      var rest := st.(schedule := st.schedule[frame := list[1..]]);
      DueDefersAtMost(list[0]);
      IdealGrowsAtMost(rest, frame, DueEffects(list[0]), frame);
      IdealDue(IdealAll(rest, frame, DueEffects(list[0])), frame)
  }

  function IdealDrain(st: ScheduleState, frame: int): ScheduleState {
    var end := IdealDue(st, frame);
    end.(schedule := end.schedule - {frame})
  }

  function IdealFrame(st: ScheduleState, frame: int, script: FrameScript): ScheduleState {
    IdealAll(IdealDrain(IdealAll(st, frame, AllEffects(script.before)), frame), frame, AllEffects(script.after))
  }

  function IdealRun(st: ScheduleState, frame: int, scripts: seq<FrameScript>): ScheduleState
    decreases |scripts|
  {
    if scripts == [] then st else IdealRun(IdealFrame(st, frame, scripts[0]), frame + 1, scripts[1..])
  }

  // What the ideal schedule promises of a single hit.

  predicate Extends(st: ScheduleState, later: ScheduleState) {
    st.trace <= later.trace
  }

  /** Filing effects takes nothing out of any frame's list. */
  lemma {:induction false} IdealAppends(st: ScheduleState, frame: int, effects: seq<Effect>, due: int)
    ensures Extends(st, IdealAll(st, frame, effects))
    ensures Due(st.schedule, due) <= Due(IdealAll(st, frame, effects).schedule, due)
    decreases effects
  {
    if effects != [] {
      IdealAppends(IdealEffect(st, frame, effects[0]), frame, effects[1..], due);
    }
  }

  /** The stamp a waiting hit leaves when it is applied. */
  function StampOf(wd: WaitingDamage, frame: int): Stamped {
    Stamped(frame, UnitHit(wd.targetID, wd.attackerID, wd.factor))
  }

  lemma DueEffectsAreStamped(st: ScheduleState, frame: int, wd: WaitingDamage)
    requires !wd.gone
    ensures StampOf(wd, frame) in IdealAll(st, frame, DueEffects(wd)).trace
  {
    var effects := DueEffects(wd);
    var first := IdealEffect(st, frame, effects[0]);
    assert effects[0] == Direct(UnitHit(wd.targetID, wd.attackerID, wd.factor));
    assert first.trace[|st.trace|] == StampOf(wd, frame);
    IdealAppends(first, frame, effects[1..], frame);
    assert IdealAll(st, frame, effects).trace[|st.trace|] == StampOf(wd, frame);
  }

  /** Draining a frame keeps what is filed under later ones and applies everything filed under it. */
  lemma {:induction false} IdealDueApplies(st: ScheduleState, frame: int, due: int, wd: WaitingDamage)
    ensures Extends(st, IdealDue(st, frame))
    ensures due != frame ==> Due(st.schedule, due) <= Due(IdealDue(st, frame).schedule, due)
    ensures wd in Due(st.schedule, frame) && !wd.gone ==> StampOf(wd, frame) in IdealDue(st, frame).trace
    decreases PendingWeight(Due(st.schedule, frame))
  {
    var list := Due(st.schedule, frame);
    if list != [] {
      var rest := st.(schedule := st.schedule[frame := list[1..]]);
      var next := IdealAll(rest, frame, DueEffects(list[0]));
      DueDefersAtMost(list[0]);
      IdealGrowsAtMost(rest, frame, DueEffects(list[0]), frame);
      IdealAppends(rest, frame, DueEffects(list[0]), due);
      IdealAppends(rest, frame, DueEffects(list[0]), frame);
      IdealDueApplies(next, frame, due, wd);
      if wd in list && !wd.gone {
        if wd == list[0] {
          DueEffectsAreStamped(rest, frame, wd);
        } else {
          assert wd in list[1..];
        }
      }
    }
  }

  /** A hit filed under a frame of the run is applied in that very frame, unless its target is gone by then. */
  lemma {:induction false} FiledHitIsApplied(
    st: ScheduleState, frame: int, scripts: seq<FrameScript>, due: int, wd: WaitingDamage)
    ensures Extends(st, IdealRun(st, frame, scripts))
    ensures wd in Due(st.schedule, due) && !wd.gone && frame <= due < frame + |scripts|
        ==> StampOf(wd, due) in IdealRun(st, frame, scripts).trace
    decreases |scripts|
  {
    if scripts != [] {
      var before := IdealAll(st, frame, AllEffects(scripts[0].before));
      IdealAppends(st, frame, AllEffects(scripts[0].before), due);
      IdealDueApplies(before, frame, due, wd);
      IdealAppends(IdealDrain(before, frame), frame, AllEffects(scripts[0].after), due);
      FiledHitIsApplied(IdealFrame(st, frame, scripts[0]), frame + 1, scripts[1..], due, wd);
    }
  }

  // ------------------------------------------------------- conditions on every deferred hit

  /** A condition on the distance and the explosion speed of a hit. */
  type HitCondition = (Distance, Speed) -> bool

  /** Every deferred hit of a tree, those that due hits set off included, meets the condition. */
  predicate UnitMeets(ok: HitCondition, p: Params, radius: Distance, u: Found)
    decreases u
  {
    var dist: Distance := if radius != 0.0 then u.dist else 0.0;
    (p.ignoreOwner && u.id == p.owner) || dist > radius
    || ((IsDirect(dist, p.speed) || ok(dist, p.speed)) && AllMeet(ok, u.response))
  }

  predicate FeatureMeets(ok: HitCondition, radius: Distance, f: Found)
    decreases f
  {
    var dist: Distance := if radius != 0.0 then f.dist else 0.0;
    dist > radius || AllMeet(ok, f.response)
  }

  predicate UnitListMeets(ok: HitCondition, p: Params, radius: Distance, us: seq<Found>)
    decreases us
  {
    us == [] || (UnitMeets(ok, p, radius, us[0]) && UnitListMeets(ok, p, radius, us[1..]))
  }

  predicate FeatureListMeets(ok: HitCondition, radius: Distance, fs: seq<Found>)
    decreases fs
  {
    fs == [] || (FeatureMeets(ok, radius, fs[0]) && FeatureListMeets(ok, radius, fs[1..]))
  }

  predicate ExplosionMeets(ok: HitCondition, e: Explosion)
    decreases e
  {
    match e
    case Area(p, aoe, us, fs) =>
      UnitListMeets(ok, p, ExplosionRadius(aoe), us) && FeatureListMeets(ok, ExplosionRadius(aoe), fs)
    case ImpactOnly(p, Nothing) => true
    case ImpactOnly(p, Unit(u)) => UnitMeets(ok, p, 0.0, u)
    case ImpactOnly(p, Feature(f)) => FeatureMeets(ok, 0.0, f)
  }

  predicate AllMeet(ok: HitCondition, es: seq<Explosion>)
    decreases es
  {
    es == [] || (ExplosionMeets(ok, es[0]) && AllMeet(ok, es[1..]))
  }

  /** A condition of deferred hits rules out nothing else: one that holds of them all is met by every tree. */
  lemma {:induction false} EveryTreeMeets(ok: HitCondition, es: seq<Explosion>)
    requires forall dist: Distance, speed: Speed :: !IsDirect(dist, speed) ==> ok(dist, speed)
    ensures AllMeet(ok, es)
    decreases es
  {
    if es != [] {
      match es[0] {
        case Area(p, aoe, us, fs) =>
          EveryListMeets(ok, p, ExplosionRadius(aoe), us);
          EveryListMeets(ok, p, ExplosionRadius(aoe), fs);
        case ImpactOnly(p, Nothing) =>
        case ImpactOnly(p, Unit(u)) => EveryTreeMeets(ok, u.response);
        case ImpactOnly(p, Feature(f)) => EveryTreeMeets(ok, f.response);
      }
      EveryTreeMeets(ok, es[1..]);
    }
  }

  lemma {:induction false} EveryListMeets(ok: HitCondition, p: Params, radius: Distance, os: seq<Found>)
    requires forall dist: Distance, speed: Speed :: !IsDirect(dist, speed) ==> ok(dist, speed)
    ensures UnitListMeets(ok, p, radius, os) && FeatureListMeets(ok, radius, os)
    decreases os
  {
    if os != [] {
      EveryTreeMeets(ok, os[0].response);
      EveryListMeets(ok, p, radius, os[1..]);
    }
  }

  predicate ScriptsMeet(ok: HitCondition, scripts: seq<FrameScript>) {
    forall i :: 0 <= i < |scripts| ==> AllMeet(ok, scripts[i].before) && AllMeet(ok, scripts[i].after)
  }

  /** The speed is positive and the unit closer than 131 times the speed. */
  predicate WithinReach(dist: Distance, speed: Speed) {
    0.0 < speed && dist < 131.0 * speed
  }

  /** A condition that lets no deferred hit out of the ring's reach. */
  ghost predicate KeepsReach(ok: HitCondition) {
    forall dist: Distance, speed: Speed :: ok(dist, speed) && !IsDirect(dist, speed) ==> WithinReach(dist, speed)
  }

  /** A deferred effect waits 1 to 127 frames, and what it sets off meets the condition in turn. */
  predicate Timely(ok: HitCondition, effect: Effect) {
    effect.Deferred? ==> 1 <= effect.delay < SLOTS && AllMeet(ok, effect.damage.response)
  }

  predicate AllTimely(ok: HitCondition, effects: seq<Effect>) {
    forall i :: 0 <= i < |effects| ==> Timely(ok, effects[i])
  }

  lemma {:induction false} UnitIsTimely(ok: HitCondition, p: Params, radius: Distance, u: Found)
    requires KeepsReach(ok) && UnitMeets(ok, p, radius, u)
    ensures AllTimely(ok, UnitEffects(p, radius, u))
    decreases u
  {
    var dist: Distance := if radius != 0.0 then u.dist else 0.0;
    if !((p.ignoreOwner && u.id == p.owner) || dist > radius) {
      if IsDirect(dist, p.speed) {
        AllAreTimely(ok, u.response);
      } else {
        DelayFitsWheel(dist, p.speed);
      }
    }
  }

  lemma {:induction false} FeatureIsTimely(ok: HitCondition, p: Params, radius: Distance, f: Found)
    requires KeepsReach(ok) && FeatureMeets(ok, radius, f)
    ensures AllTimely(ok, FeatureEffects(p, radius, f))
    decreases f
  {
    var dist: Distance := if radius != 0.0 then f.dist else 0.0;
    if dist <= radius {
      AllAreTimely(ok, f.response);
    }
  }

  lemma {:induction false} UnitListIsTimely(ok: HitCondition, p: Params, radius: Distance, us: seq<Found>)
    requires KeepsReach(ok) && UnitListMeets(ok, p, radius, us)
    ensures AllTimely(ok, UnitListEffects(p, radius, us))
    decreases us
  {
    if us != [] {
      UnitIsTimely(ok, p, radius, us[0]);
      UnitListIsTimely(ok, p, radius, us[1..]);
    }
  }

  lemma {:induction false} FeatureListIsTimely(ok: HitCondition, p: Params, radius: Distance, fs: seq<Found>)
    requires KeepsReach(ok) && FeatureListMeets(ok, radius, fs)
    ensures AllTimely(ok, FeatureListEffects(p, radius, fs))
    decreases fs
  {
    if fs != [] {
      FeatureIsTimely(ok, p, radius, fs[0]);
      FeatureListIsTimely(ok, p, radius, fs[1..]);
    }
  }

  lemma {:induction false} ExplosionIsTimely(ok: HitCondition, e: Explosion)
    requires KeepsReach(ok) && ExplosionMeets(ok, e)
    ensures AllTimely(ok, ExplosionEffects(e))
    decreases e
  {
    match e
    case Area(p, aoe, us, fs) =>
      UnitListIsTimely(ok, p, ExplosionRadius(aoe), us);
      FeatureListIsTimely(ok, p, ExplosionRadius(aoe), fs);
    case ImpactOnly(p, Nothing) =>
    case ImpactOnly(p, Unit(u)) => UnitIsTimely(ok, p, 0.0, u);
    case ImpactOnly(p, Feature(f)) => FeatureIsTimely(ok, p, 0.0, f);
  }

  /** Within reach every deferred effect of a tree waits 1 to 127 frames. */
  lemma {:induction false} AllAreTimely(ok: HitCondition, es: seq<Explosion>)
    requires KeepsReach(ok) && AllMeet(ok, es)
    ensures AllTimely(ok, AllEffects(es))
    decreases es
  {
    if es != [] {
      ExplosionIsTimely(ok, es[0]);
      AllAreTimely(ok, es[1..]);
    }
  }

  // --------------------------------------------------------------- within reach, runs agree

  predicate ListMeets(ok: HitCondition, list: seq<WaitingDamage>) {
    forall i :: 0 <= i < |list| ==> AllMeet(ok, list[i].response)
  }

  /** Everything still waiting sets off only what meets the condition. */
  ghost predicate PendingMeets(ok: HitCondition, schedule: Schedule) {
    forall f :: ListMeets(ok, Due(schedule, f))
  }

  lemma EffectIsFiledOnTime(ok: HitCondition, st: ScheduleState, frame: int, open: int, effect: Effect)
    requires Timely(ok, effect) && frame <= open <= frame + 1
    ensures ScheduleEffect(st, frame, open, effect) == IdealEffect(st, frame, effect)
    ensures PendingMeets(ok, st.schedule) ==> PendingMeets(ok, IdealEffect(st, frame, effect).schedule)
  {
    if effect.Deferred? {
      DueOnTime(open, frame + effect.delay);
      var end := IdealEffect(st, frame, effect).schedule;
      if PendingMeets(ok, st.schedule) {
        forall f ensures ListMeets(ok, Due(end, f)) {
          assert ListMeets(ok, Due(st.schedule, f));
        }
      }
    }
  }

  lemma {:induction false} EffectsAreFiledOnTime(
    ok: HitCondition, st: ScheduleState, frame: int, open: int, effects: seq<Effect>)
    requires AllTimely(ok, effects) && PendingMeets(ok, st.schedule) && frame <= open <= frame + 1
    ensures ScheduleAll(st, frame, open, effects) == IdealAll(st, frame, effects)
    ensures PendingMeets(ok, IdealAll(st, frame, effects).schedule)
    decreases effects
  {
    if effects != [] {
      EffectIsFiledOnTime(ok, st, frame, open, effects[0]);
      EffectsAreFiledOnTime(ok, IdealEffect(st, frame, effects[0]), frame, open, effects[1..]);
    }
  }

  lemma DueIsTimely(ok: HitCondition, wd: WaitingDamage)
    requires KeepsReach(ok) && AllMeet(ok, wd.response)
    ensures AllTimely(ok, DueEffects(wd))
  {
    AllAreTimely(ok, wd.response);
  }

  lemma {:induction false} DueHitsAgree(ok: HitCondition, st: ScheduleState, frame: int)
    requires KeepsReach(ok) && PendingMeets(ok, st.schedule)
    ensures RunDue(st, frame) == IdealDue(st, frame)
    ensures PendingMeets(ok, IdealDue(st, frame).schedule)
    decreases PendingWeight(Due(st.schedule, frame))
  {
    var list := Due(st.schedule, frame);
    if list != [] {
      var rest := st.(schedule := st.schedule[frame := list[1..]]);
      assert ListMeets(ok, list);
      forall f ensures ListMeets(ok, Due(rest.schedule, f)) {
        assert ListMeets(ok, Due(st.schedule, f));
      }
      DueIsTimely(ok, list[0]);
      EffectsAreFiledOnTime(ok, rest, frame, frame, DueEffects(list[0]));
      DueDefersAtMost(list[0]);
      IdealGrowsAtMost(rest, frame, DueEffects(list[0]), frame);
      DueHitsAgree(ok, IdealAll(rest, frame, DueEffects(list[0])), frame);
    }
  }

  lemma FramesAgree(ok: HitCondition, st: ScheduleState, frame: int, script: FrameScript)
    requires KeepsReach(ok) && PendingMeets(ok, st.schedule)
    requires AllMeet(ok, script.before) && AllMeet(ok, script.after)
    ensures ScheduleFrame(st, frame, script) == IdealFrame(st, frame, script)
    ensures PendingMeets(ok, IdealFrame(st, frame, script).schedule)
  {
    AllAreTimely(ok, script.before);
    AllAreTimely(ok, script.after);
    EffectsAreFiledOnTime(ok, st, frame, frame, AllEffects(script.before));
    var before := IdealAll(st, frame, AllEffects(script.before));
    DueHitsAgree(ok, before, frame);
    var drained := IdealDrain(before, frame);
    forall f ensures ListMeets(ok, Due(drained.schedule, f)) {
      assert ListMeets(ok, Due(IdealDue(before, frame).schedule, f));
    }
    EffectsAreFiledOnTime(ok, drained, frame, frame + 1, AllEffects(script.after));
  }

  lemma {:induction false} RunsAgree(ok: HitCondition, st: ScheduleState, frame: int, scripts: seq<FrameScript>)
    requires KeepsReach(ok) && PendingMeets(ok, st.schedule) && ScriptsMeet(ok, scripts)
    ensures ScheduleRun(st, frame, scripts) == IdealRun(st, frame, scripts)
    decreases |scripts|
  {
    if scripts != [] {
      FramesAgree(ok, st, frame, scripts[0]);
      RunsAgree(ok, IdealFrame(st, frame, scripts[0]), frame + 1, scripts[1..]);
    }
  }

  /** The ring applies the same hits in the same frames and order as the ideal schedule. */
  predicate OnTime(frame: int, scripts: seq<FrameScript>) {
    WheelRun(EMPTY_WHEEL, frame, scripts).trace == IdealRun(EMPTY_SCHEDULE, frame, scripts).trace
  }

  /** While every deferred hit is within reach, each is applied in its absolute due frame, in filing order. */
  lemma WheelIsPunctual(ok: HitCondition, frame: int, scripts: seq<FrameScript>)
    requires KeepsReach(ok) && ScriptsMeet(ok, scripts)
    ensures OnTime(frame, scripts)
  {
    WheelIsSchedule(frame, scripts);
    RunsAgree(ok, EMPTY_SCHEDULE, frame, scripts);
  }

  predicate InWindow(dist: Distance, speed: Speed) {
    1 <= Delay(dist, speed) < SLOTS
  }

  /** For a deferred hit the window of delays is the ring's reach. */
  lemma WindowIsReach(dist: Distance, speed: Speed)
    requires !IsDirect(dist, speed)
    ensures InWindow(dist, speed) <==> WithinReach(dist, speed)
  {
    DelayFitsWheel(dist, speed);
  }

  /** The condition by delays and the condition by speed and distance both suffice. */
  lemma WindowAndReachSuffice(frame: int, scripts: seq<FrameScript>)
    requires ScriptsMeet(InWindow, scripts) || ScriptsMeet(WithinReach, scripts)
    ensures OnTime(frame, scripts)
  {
    forall dist: Distance, speed: Speed | InWindow(dist, speed) && !IsDirect(dist, speed)
      ensures WithinReach(dist, speed)
    {
      WindowIsReach(dist, speed);
    }
    if ScriptsMeet(InWindow, scripts) {
      WheelIsPunctual(InWindow, frame, scripts);
    } else {
      WheelIsPunctual(WithinReach, frame, scripts);
    }
  }

  // ------------------------------------------------------------- out of reach, some run differs

  /** Whatever the explosions, if every deferred hit meets the condition, the ring keeps the due frames. */
  ghost predicate Punctual(ok: HitCondition) {
    forall frame: int, scripts: seq<FrameScript> :: ScriptsMeet(ok, scripts) ==> OnTime(frame, scripts)
  }

  const IDLE := FrameScript([], [])

  function Idle(n: nat): (scripts: seq<FrameScript>)
    ensures |scripts| == n
    ensures forall i :: 0 <= i < n ==> scripts[i] == IDLE
  {
    if n == 0 then [] else [IDLE] + Idle(n - 1)
  }

  /** The one waiting hit of the examples below. */
  const LONE := WaitingDamage(0, NO_OWNER, 1.0, false, [])

  function Lone(due: int): ScheduleState {
    ScheduleState([], map[due := [LONE]])
  }

  function LoneExplosion(dist: Distance, speed: Speed): Explosion {
    Area(Params(NO_OWNER, speed, 1.0, false), dist + 1.0, [Found(0, dist, false, [])], [])
  }

  lemma LoneEffects(dist: Distance, speed: Speed)
    requires !IsDirect(dist, speed)
    ensures AllEffects([LoneExplosion(dist, speed)]) == [Deferred(Delay(dist, speed), LONE)]
  {
    var e := LoneExplosion(dist, speed);
    var unit := [Deferred(Delay(dist, speed), LONE)];
    assert UnitEffects(e.params, dist + 1.0, e.units[0]) == unit;
    assert UnitListEffects(e.params, dist + 1.0, e.units) == unit + [];
    assert ExplosionEffects(e) == unit + [] + [];
  }

  lemma {:induction false} IdleKeepsIdeal(due: int, frame: int, n: nat)
    requires !(frame <= due < frame + n)
    ensures IdealRun(Lone(due), frame, Idle(n)) == Lone(due)
    decreases n
  {
    if n > 0 {
      assert Idle(n)[1..] == Idle(n - 1);
      assert Lone(due).schedule - {frame} == Lone(due).schedule;
      IdleKeepsIdeal(due, frame + 1, n - 1);
    }
  }

  lemma {:induction false} IdleKeepsTrace(trace: seq<Stamped>, frame: int, n: nat)
    ensures ScheduleRun(ScheduleState(trace, map[]), frame, Idle(n)).trace == trace
    decreases n
  {
    if n > 0 {
      var st := ScheduleState(trace, map[]);
      assert Idle(n)[1..] == Idle(n - 1);
      assert st.schedule - {frame} == map[];
      IdleKeepsTrace(trace, frame + 1, n - 1);
    }
  }

  lemma LoneIsApplied(frame: int)
    ensures ScheduleFrame(Lone(frame), frame, IDLE)
         == ScheduleState([Stamped(frame, UnitHit(0, NO_OWNER, 1.0))], map[])
  {
    var rest := Lone(frame).(schedule := Lone(frame).schedule[frame := []]);
    var hit := Direct(UnitHit(0, NO_OWNER, 1.0));
    assert DueEffects(LONE) == [hit];
    assert [hit][1..] == [];
    var applied := ScheduleState([Stamped(frame, UnitHit(0, NO_OWNER, 1.0))], rest.schedule);
    assert ScheduleAll(rest, frame, frame, [hit]) == applied;
    assert Due(Lone(frame).schedule, frame)[1..] == [];
    assert RunDue(applied, frame) == applied;
    assert rest.schedule - {frame} == map[];
  }

  lemma {:induction false} LoneIsSeen(due: int, frame: int, n: nat)
    requires frame <= due < frame + n
    ensures ScheduleRun(Lone(due), frame, Idle(n)).trace == [Stamped(due, UnitHit(0, NO_OWNER, 1.0))]
    decreases n
  {
    assert Idle(n)[1..] == Idle(n - 1);
    if frame == due {
      LoneIsApplied(frame);
      IdleKeepsTrace([Stamped(due, UnitHit(0, NO_OWNER, 1.0))], frame + 1, n - 1);
    } else {
      assert Lone(due).schedule - {frame} == Lone(due).schedule;
      LoneIsSeen(due, frame + 1, n - 1);
    }
  }

  /** A hit out of reach is applied within 128 frames all the same, and never in the frame it is meant for. */
  lemma OutOfReachIsMistimed(frame: int, dist: Distance, speed: Speed) returns (scripts: seq<FrameScript>)
    requires !IsDirect(dist, speed) && !WithinReach(dist, speed)
    ensures scripts == [FrameScript([LoneExplosion(dist, speed)], [])] + Idle(Delay(dist, speed) % SLOTS)
    ensures |WheelRun(EMPTY_WHEEL, frame, scripts).trace| == 1
    ensures IdealRun(EMPTY_SCHEDULE, frame, scripts).trace == []
  {
    hide Delay, WithinReach, WheelRun, ScheduleRun, IdealRun, Idle, LoneExplosion;
    var delay := Delay(dist, speed);
    var n := delay % SLOTS;
    scripts := [FrameScript([LoneExplosion(dist, speed)], [])] + Idle(n);
    OutOfReachDelay(dist, speed);
    WheelIsSchedule(frame, scripts);
    LoneRun(frame, dist, speed, n);
    LoneIsSeen(DueFrame(frame, frame + delay), frame, n + 1);
    IdleKeepsIdeal(frame + delay, frame, n + 1);
  }

  lemma LoneRun(frame: int, dist: Distance, speed: Speed, n: nat)
    requires !IsDirect(dist, speed)
    ensures
      var scripts := [FrameScript([LoneExplosion(dist, speed)], [])] + Idle(n);
      var wanted := frame + Delay(dist, speed);
      && ScheduleRun(EMPTY_SCHEDULE, frame, scripts) == ScheduleRun(Lone(DueFrame(frame, wanted)), frame, Idle(n + 1))
      && IdealRun(EMPTY_SCHEDULE, frame, scripts) == IdealRun(Lone(wanted), frame, Idle(n + 1))
  {
    hide Delay, DueFrame, ScheduleFrame, IdealFrame;
    var scripts := [FrameScript([LoneExplosion(dist, speed)], [])] + Idle(n);
    assert scripts[1..] == Idle(n);
    assert Idle(n + 1)[1..] == Idle(n);
    FirstFrame(frame, dist, speed);
  }

  lemma FirstFrame(frame: int, dist: Distance, speed: Speed)
    requires !IsDirect(dist, speed)
    ensures
      var first, wanted := FrameScript([LoneExplosion(dist, speed)], []), frame + Delay(dist, speed);
      && ScheduleFrame(EMPTY_SCHEDULE, frame, first) == ScheduleFrame(Lone(DueFrame(frame, wanted)), frame, IDLE)
      && IdealFrame(EMPTY_SCHEDULE, frame, first) == IdealFrame(Lone(wanted), frame, IDLE)
  {
    var effect := Deferred(Delay(dist, speed), LONE);
    LoneEffects(dist, speed);
    var filed := ScheduleEffect(EMPTY_SCHEDULE, frame, frame, effect);
    var ideal := IdealEffect(EMPTY_SCHEDULE, frame, effect);
    assert [effect][1..] == [];
    assert [] + [LONE] == [LONE];
    assert filed.schedule == Lone(DueFrame(frame, frame + effect.delay)).schedule;
    assert ideal.schedule == Lone(frame + effect.delay).schedule;
    assert ScheduleAll(EMPTY_SCHEDULE, frame, frame, [effect]) == filed;
    assert IdealAll(EMPTY_SCHEDULE, frame, [effect]) == ideal;
  }

  /** Out of reach a deferred hit is meant for the past or for a frame beyond the window. */
  lemma OutOfReachDelay(dist: Distance, speed: Speed)
    requires !IsDirect(dist, speed) && !WithinReach(dist, speed)
    ensures Delay(dist, speed) < 0 || SLOTS <= Delay(dist, speed)
  {
    DelayFitsWheel(dist, speed);
    if speed < 0.0 {
      NegativeSpeedQuotient(dist, speed);
    }
  }

  /**
   * The ring keeps the due frames of all runs whose deferred hits meet a condition if and only if the
   * condition implies a positive speed and a distance below 131 times the speed.
   */
  lemma PunctualityIsReach(ok: HitCondition)
    ensures Punctual(ok) <==> KeepsReach(ok)
  {
    if KeepsReach(ok) {
      forall frame: int, scripts: seq<FrameScript> | ScriptsMeet(ok, scripts)
        ensures OnTime(frame, scripts)
      {
        WheelIsPunctual(ok, frame, scripts);
      }
    } else {
      var dist: Distance, speed: Speed :| ok(dist, speed) && !IsDirect(dist, speed) && !WithinReach(dist, speed);
      var scripts := OutOfReachIsMistimed(0, dist, speed);
      LoneMeets(ok, dist, speed);
      assert ScriptsMeet(ok, scripts) && !OnTime(0, scripts);
    }
  }

  lemma LoneMeets(ok: HitCondition, dist: Distance, speed: Speed)
    requires ok(dist, speed)
    ensures AllMeet(ok, [LoneExplosion(dist, speed)])
  {
    var e := LoneExplosion(dist, speed);
    assert UnitMeets(ok, e.params, dist + 1.0, e.units[0]);
    assert UnitListMeets(ok, e.params, dist + 1.0, e.units);
    assert ExplosionMeets(ok, e);
  }

  // ------------------------------------------------------------------- the slot being drained

  /** An effect goes to the slot of the current frame exactly if its delay is a multiple of 128. */
  lemma OwnSlotIsMultiple(frame: int, delay: int)
    ensures Slot(frame + delay) == Slot(frame) <==> delay % SLOTS == 0
  {
  }

  lemma {:induction false} OwnSlotIsStable(ok: HitCondition, st: WheelState, frame: int, effects: seq<Effect>)
    requires AllTimely(ok, effects)
    ensures Apply(st, frame, effects).wheel[Slot(frame)] == st.wheel[Slot(frame)]
    decreases effects
  {
    if effects != [] {
      assert Timely(ok, effects[0]);
      if effects[0].Deferred? {
        OwnSlotIsMultiple(frame, effects[0].delay);
      }
      forall i | 0 <= i < |effects[1..]| ensures Timely(ok, effects[1..][i]) {
        assert Timely(ok, effects[i + 1]);
      }
      OwnSlotIsStable(ok, ApplyEffect(st, frame, effects[0]), frame, effects[1..]);
    }
  }

  /**
   * Within reach a drain never appends to the slot it reads from, so the reference it holds into that
   * slot stays good.
   */
  lemma {:induction false} DrainLeavesSlot(ok: HitCondition, st: WheelState, frame: int, n: nat)
    requires KeepsReach(ok) && n <= |st.wheel[Slot(frame)]| && ListMeets(ok, st.wheel[Slot(frame)])
    ensures DrainFrom(st, frame, n).wheel[Slot(frame)] == st.wheel[Slot(frame)]
    decreases PendingWeight(st.wheel[Slot(frame)][n..])
  {
    var slot := st.wheel[Slot(frame)];
    if n < |slot| {
      DueIsTimely(ok, slot[n]);
      OwnSlotIsStable(ok, st, frame, DueEffects(slot[n]));
      DrainStepShrinks(st, frame, n);
      DrainLeavesSlot(ok, Apply(st, frame, DueEffects(slot[n])), frame, n + 1);
    }
  }
}
