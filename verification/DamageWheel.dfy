/**
 * The 128-slot wheel of waiting damages, filled by explosions and drained once a frame, refines a
 * schedule over absolute frames that files each hit under the next frame its slot is drained in.
 * When that is the frame the hit is meant for is the subject of module DamageOnTime.
 */
module DamageWheel {
  import opened Explosions
  import Falloff

  const SLOTS := 128

  type Wheel = w: seq<seq<WaitingDamage>> | |w| == SLOTS witness seq(SLOTS, _ => [])

  /** A hit together with the frame it was applied in. */
  datatype Stamped = Stamped(frame: int, hit: Hit)

  // --------------------------------------------------------------------- the wheel as a value

  datatype WheelState = WheelState(trace: seq<Stamped>, wheel: Wheel)

  function EmptySlots(): Wheel {
    seq(SLOTS, _ => [])
  }

  const EMPTY_WHEEL := WheelState([], EmptySlots())

  /** frame & (size - 1): the slot of an absolute frame number. */
  function Slot(frame: int): nat {
    frame % SLOTS
  }

  function ApplyEffect(st: WheelState, frame: int, effect: Effect): WheelState {
    match effect
    case Direct(h) => st.(trace := st.trace + [Stamped(frame, h)])
    case Deferred(delay, wd) =>
      var s := Slot(frame + delay);
      st.(wheel := st.wheel[s := st.wheel[s] + [wd]])
  }

  function Apply(st: WheelState, frame: int, effects: seq<Effect>): WheelState
    decreases effects
  {
    if effects == [] then st else Apply(ApplyEffect(st, frame, effects[0]), frame, effects[1..])
  }

  lemma {:induction false} ApplyConcat(st: WheelState, frame: int, a: seq<Effect>, b: seq<Effect>)
    ensures Apply(st, frame, a + b) == Apply(Apply(st, frame, a), frame, b)
    decreases a
  {
    if a == [] {
      assert a + b == b;
    } else {
      ApplyConcat(ApplyEffect(st, frame, a[0]), frame, a[1..], b);
      assert (a + b)[1..] == a[1..] + b;
    }
  }

  /** The effects of one waiting damage falling due; nothing when its target is gone. */
  function DueEffects(wd: WaitingDamage): seq<Effect> {
    if wd.gone then []
    else [Direct(UnitHit(wd.targetID, wd.attackerID, wd.factor))] + AllEffects(wd.response)
  }

  function PendingWeight(list: seq<WaitingDamage>): nat {
    if list == [] then 0 else 1 + Weight(list[0].response) + PendingWeight(list[1..])
  }

  lemma {:induction false} PendingWeightAppend(list: seq<WaitingDamage>, wd: WaitingDamage)
    ensures PendingWeight(list + [wd]) == PendingWeight(list) + 1 + Weight(wd.response)
  {
    if list == [] {
      assert list + [wd] == [wd];
    } else {
      PendingWeightAppend(list[1..], wd);
      assert (list + [wd])[1..] == list[1..] + [wd];
    }
  }

  /** Applying effects only appends to a slot, and adds at most what they defer. */
  lemma {:induction false} ApplyAppends(st: WheelState, frame: int, effects: seq<Effect>, slot: nat, n: nat)
    requires slot < SLOTS && n <= |st.wheel[slot]|
    ensures st.wheel[slot] <= Apply(st, frame, effects).wheel[slot]
    ensures PendingWeight(Apply(st, frame, effects).wheel[slot][n..])
         <= PendingWeight(st.wheel[slot][n..]) + DeferredWeight(effects)
    decreases effects
  {
    if effects != [] {
      var next := ApplyEffect(st, frame, effects[0]);
      if effects[0].Deferred? && Slot(frame + effects[0].delay) == slot {
        var wd := effects[0].damage;
        assert (st.wheel[slot] + [wd])[n..] == st.wheel[slot][n..] + [wd];
        PendingWeightAppend(st.wheel[slot][n..], wd);
      }
      ApplyAppends(next, frame, effects[1..], slot, n);
    }
  }

  lemma DueDefersAtMost(wd: WaitingDamage)
    ensures DeferredWeight(DueEffects(wd)) <= Weight(wd.response)
  {
    AllDefersAtMost(wd.response);
    DeferredWeightSum([Direct(UnitHit(wd.targetID, wd.attackerID, wd.factor))], AllEffects(wd.response));
  }

  /** One step of the drain loop makes the unprocessed rest of the slot lighter, even if it grew. */
  lemma DrainStepShrinks(st: WheelState, frame: int, n: nat)
    requires n < |st.wheel[Slot(frame)]|
    ensures var next := Apply(st, frame, DueEffects(st.wheel[Slot(frame)][n])).wheel[Slot(frame)];
            n < |next| && st.wheel[Slot(frame)] <= next
            && PendingWeight(next[n + 1..]) < PendingWeight(st.wheel[Slot(frame)][n..])
  {
    var slot := st.wheel[Slot(frame)];
    DueDefersAtMost(slot[n]);
    ApplyAppends(st, frame, DueEffects(slot[n]), Slot(frame), n + 1);
    assert slot[n..][1..] == slot[n + 1..];
  }

  /** The drain loop from index n on: hits may add further hits to the slot being drained. */
  function DrainFrom(st: WheelState, frame: int, n: nat): WheelState
    requires n <= |st.wheel[Slot(frame)]|
    decreases PendingWeight(st.wheel[Slot(frame)][n..])
  {
    if n == |st.wheel[Slot(frame)]| then st
    else
      DrainStepShrinks(st, frame, n);
      DrainFrom(Apply(st, frame, DueEffects(st.wheel[Slot(frame)][n])), frame, n + 1)
  }

  /** Update: drain the slot of the frame, then clear it. */
  function Drain(st: WheelState, frame: int): WheelState {
    var end := DrainFrom(st, frame, 0);
    end.(wheel := end.wheel[Slot(frame) := []])
  }

  // ---------------------------------------------------------------------------- the schedule

  type Schedule = map<int, seq<WaitingDamage>>

  datatype ScheduleState = ScheduleState(trace: seq<Stamped>, schedule: Schedule)

  const EMPTY_SCHEDULE := ScheduleState([], map[])

  function Due(schedule: Schedule, frame: int): seq<WaitingDamage> {
    if frame in schedule then schedule[frame] else []
  }

  /** The first frame from `open` on that shares the slot of the wanted frame. */
  function DueFrame(open: int, wanted: int): int {
    open + (wanted - open) % SLOTS
  }

  /** `open` is the first frame that is still to be drained: this one before its drain ends, the next one after. */
  function ScheduleEffect(st: ScheduleState, frame: int, open: int, effect: Effect): ScheduleState {
    match effect
    case Direct(h) => st.(trace := st.trace + [Stamped(frame, h)])
    case Deferred(delay, wd) =>
      var due := DueFrame(open, frame + delay);
      st.(schedule := st.schedule[due := Due(st.schedule, due) + [wd]])
  }

  function ScheduleAll(st: ScheduleState, frame: int, open: int, effects: seq<Effect>): ScheduleState
    decreases effects
  {
    if effects == [] then st
    else ScheduleAll(ScheduleEffect(st, frame, open, effects[0]), frame, open, effects[1..])
  }

  lemma {:induction false} ScheduleGrowsAtMost(st: ScheduleState, frame: int, open: int, effects: seq<Effect>)
    ensures PendingWeight(Due(ScheduleAll(st, frame, open, effects).schedule, open))
         <= PendingWeight(Due(st.schedule, open)) + DeferredWeight(effects)
    decreases effects
  {
    if effects != [] {
      var next := ScheduleEffect(st, frame, open, effects[0]);
      if effects[0].Deferred? {
        PendingWeightAppend(Due(st.schedule, open), effects[0].damage);
      }
      ScheduleGrowsAtMost(next, frame, open, effects[1..]);
    }
  }

  /** Take the oldest hit due now, apply it, and repeat until none is due. */
  function RunDue(st: ScheduleState, frame: int): ScheduleState
    decreases PendingWeight(Due(st.schedule, frame))
  {
    var list := Due(st.schedule, frame);
    if list == [] then st
    else
      var rest := st.(schedule := st.schedule[frame := list[1..]]);
      DueDefersAtMost(list[0]);
      ScheduleGrowsAtMost(rest, frame, frame, DueEffects(list[0]));
      RunDue(ScheduleAll(rest, frame, frame, DueEffects(list[0])), frame)
  }

  /** A frame's hits are applied and forgotten. */
  function DrainSchedule(st: ScheduleState, frame: int): ScheduleState {
    var end := RunDue(st, frame);
    end.(schedule := end.schedule - {frame})
  }

  // ------------------------------------------------------------------------------ refinement

  /**
   * The wheel shows the next 128 frames of the schedule, starting at `open`, and the schedule holds
   * nothing else. The first n hits of the open slot are already done.
   */
  ghost predicate Shows(wheel: Wheel, schedule: Schedule, open: int, n: nat) {
    n <= |wheel[Slot(open)]|
    && Due(schedule, open) == wheel[Slot(open)][n..]
    && (forall f :: open < f < open + SLOTS ==> Due(schedule, f) == wheel[Slot(f)])
    && (forall f :: f in schedule ==> open <= f < open + SLOTS)
  }

  ghost predicate Refines(st: WheelState, ss: ScheduleState, open: int, n: nat) {
    st.trace == ss.trace && Shows(st.wheel, ss.schedule, open, n)
  }

  lemma DueFrameSlot(open: int, wanted: int)
    ensures open <= DueFrame(open, wanted) < open + SLOTS
    ensures Slot(DueFrame(open, wanted)) == Slot(wanted)
    ensures forall f :: open <= f < open + SLOTS && Slot(f) == Slot(wanted) ==> f == DueFrame(open, wanted)
  {
  }

  lemma EffectRefines(st: WheelState, ss: ScheduleState, frame: int, open: int, n: nat, effect: Effect)
    requires Refines(st, ss, open, n)
    ensures Refines(ApplyEffect(st, frame, effect), ScheduleEffect(ss, frame, open, effect), open, n)
  {
    if effect.Deferred? {
      var slot, due := Slot(frame + effect.delay), DueFrame(open, frame + effect.delay);
      DueFrameSlot(open, frame + effect.delay);
      if due == open {
        assert (st.wheel[slot] + [effect.damage])[n..] == st.wheel[slot][n..] + [effect.damage];
      }
    }
  }

  lemma {:induction false} EffectsRefine(
    st: WheelState, ss: ScheduleState, frame: int, open: int, n: nat, effects: seq<Effect>)
    requires Refines(st, ss, open, n)
    ensures Refines(Apply(st, frame, effects), ScheduleAll(ss, frame, open, effects), open, n)
    decreases effects
  {
    if effects != [] {
      EffectRefines(st, ss, frame, open, n, effects[0]);
      EffectsRefine(ApplyEffect(st, frame, effects[0]), ScheduleEffect(ss, frame, open, effects[0]),
                    frame, open, n, effects[1..]);
    }
  }

  lemma {:induction false} DrainFromRefines(st: WheelState, ss: ScheduleState, frame: int, n: nat)
    requires Refines(st, ss, frame, n)
    ensures var end := DrainFrom(st, frame, n);
            Refines(end, RunDue(ss, frame), frame, |end.wheel[Slot(frame)]|)
    decreases PendingWeight(st.wheel[Slot(frame)][n..])
  {
    var slot := st.wheel[Slot(frame)];
    if n < |slot| {
      var list := Due(ss.schedule, frame);
      assert list == slot[n..] && list[0] == slot[n] && list[1..] == slot[n + 1..];
      var rest := ss.(schedule := ss.schedule[frame := list[1..]]);
      assert Refines(st, rest, frame, n + 1);
      EffectsRefine(st, rest, frame, frame, n + 1, DueEffects(slot[n]));
      DrainStepShrinks(st, frame, n);
      DrainFromRefines(Apply(st, frame, DueEffects(slot[n])), ScheduleAll(rest, frame, frame, DueEffects(slot[n])),
                       frame, n + 1);
    }
  }

  /** Draining a frame moves the window on by one frame. */
  lemma DrainRefines(st: WheelState, ss: ScheduleState, frame: int)
    requires Refines(st, ss, frame, 0)
    ensures Refines(Drain(st, frame), DrainSchedule(ss, frame), frame + 1, 0)
  {
    hide DrainFrom, RunDue;
    DrainFromRefines(st, ss, frame, 0);
    var end, last := Drain(st, frame), DrainSchedule(ss, frame);
    forall f | frame + 1 <= f < frame + 1 + SLOTS ensures Due(last.schedule, f) == end.wheel[Slot(f)] {
      if f == frame + SLOTS {
        assert Slot(f) == Slot(frame);
      } else {
        assert Slot(f) != Slot(frame);
      }
    }
  }

  // ------------------------------------------------------------------------------ whole runs

  /** The explosions of one frame, before and after its Update. */
  datatype FrameScript = FrameScript(before: seq<Explosion>, after: seq<Explosion>)

  function WheelFrame(st: WheelState, frame: int, script: FrameScript): WheelState {
    Apply(Drain(Apply(st, frame, AllEffects(script.before)), frame), frame, AllEffects(script.after))
  }

  function ScheduleFrame(st: ScheduleState, frame: int, script: FrameScript): ScheduleState {
    ScheduleAll(DrainSchedule(ScheduleAll(st, frame, frame, AllEffects(script.before)), frame),
                frame, frame + 1, AllEffects(script.after))
  }

  function WheelRun(st: WheelState, frame: int, scripts: seq<FrameScript>): WheelState
    decreases |scripts|
  {
    if scripts == [] then st else WheelRun(WheelFrame(st, frame, scripts[0]), frame + 1, scripts[1..])
  }

  function ScheduleRun(st: ScheduleState, frame: int, scripts: seq<FrameScript>): ScheduleState
    decreases |scripts|
  {
    if scripts == [] then st else ScheduleRun(ScheduleFrame(st, frame, scripts[0]), frame + 1, scripts[1..])
  }

  lemma {:induction false} RunRefines(st: WheelState, ss: ScheduleState, frame: int, scripts: seq<FrameScript>)
    requires Refines(st, ss, frame, 0)
    ensures Refines(WheelRun(st, frame, scripts), ScheduleRun(ss, frame, scripts), frame + |scripts|, 0)
    decreases |scripts|
  {
    if scripts != [] {
      var before, after := AllEffects(scripts[0].before), AllEffects(scripts[0].after);
      EffectsRefine(st, ss, frame, frame, 0, before);
      var st1, ss1 := Apply(st, frame, before), ScheduleAll(ss, frame, frame, before);
      DrainRefines(st1, ss1, frame);
      EffectsRefine(Drain(st1, frame), DrainSchedule(ss1, frame), frame, frame + 1, 0, after);
      RunRefines(WheelFrame(st, frame, scripts[0]), ScheduleFrame(ss, frame, scripts[0]), frame + 1, scripts[1..]);
    }
  }

  /** From an empty wheel, every run applies the same hits in the same frames and order as that schedule. */
  lemma WheelIsSchedule(frame: int, scripts: seq<FrameScript>)
    ensures WheelRun(EMPTY_WHEEL, frame, scripts).trace == ScheduleRun(EMPTY_SCHEDULE, frame, scripts).trace
  {
    RunRefines(EMPTY_WHEEL, EMPTY_SCHEDULE, frame, scripts);
  }

  /** The wheel's due frame is the wanted frame exactly when it falls in the next 128 undrained frames. */
  lemma DueOnTime(open: int, wanted: int)
    ensures DueFrame(open, wanted) == wanted <==> open <= wanted < open + SLOTS
  {
  }

  /**
   * A deferred hit falls due exactly Delay frames later, both when it is scheduled before the
   * frame's drain ends and when it is scheduled after, if and only if the explosion speed is
   * positive and the unit is closer than 131 times the speed.
   */
  lemma DeferredHitIsOnTime(frame: int, dist: Falloff.Distance, speed: Speed)
    requires !IsDirect(dist, speed)
    ensures DueFrame(frame, frame + Delay(dist, speed)) == frame + Delay(dist, speed)
         && DueFrame(frame + 1, frame + Delay(dist, speed)) == frame + Delay(dist, speed)
       <==> 0.0 < speed && dist < 131.0 * speed
  {
    DelayFitsWheel(dist, speed);
    DueOnTime(frame, frame + Delay(dist, speed));
    DueOnTime(frame + 1, frame + Delay(dist, speed));
  }
}
