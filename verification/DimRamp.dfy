/** The dim ramp manager (pkg/vdcapi/dim_ramp.go): one ramp goroutine per addressed device,
    started, cancelled and finishing concurrently, and the values one ramp applies. */
module DimRamp {
  type RampId = nat

  // ------------------------------------------------------------ the manager

  /** `active` is the registered ramp per device. A ramp's `cancelled` is its context's state,
      `finished` says its goroutine has reached the bound and called finish, and `pending`
      are the cancels a stop or stopAll has still to call after giving the lock back. */
  datatype Ramp = Ramp(uid: string, cancelled: bool, finished: bool)

  datatype State = State(active: map<string, RampId>, ramps: map<RampId, Ramp>, pending: set<RampId>)

  const INITIAL := State(map[], map[], {})

  /** start registers a fresh ramp and cancels the one it replaces under the same lock. A
      start with direction 0, or at the bound already, takes no step at all. Ticks change no
      field of the manager. */
  datatype Event =
    | Start(uid: string, id: RampId)
    | Stop(uid: string)
    | StopAll
    | Cancel(id: RampId)
    | Finish(id: RampId)
    | Tick(id: RampId)

  function Cancelled(ramps: map<RampId, Ramp>, id: RampId): map<RampId, Ramp> {
    if id in ramps then ramps[id := ramps[id].(cancelled := true)] else ramps
  }

  function Step(s: State, e: Event): State {
    match e
    case Start(uid, id) =>
      if id in s.ramps then s
      else
        var ramps := if uid in s.active then Cancelled(s.ramps, s.active[uid]) else s.ramps;
        s.(active := s.active[uid := id], ramps := ramps[id := Ramp(uid, false, false)])
    case Stop(uid) =>
      if uid !in s.active then s
      else s.(active := s.active - {uid}, pending := s.pending + {s.active[uid]})
    case StopAll => s.(active := map[], pending := s.pending + s.active.Values)
    case Cancel(id) =>
      if id !in s.pending then s
      else s.(ramps := Cancelled(s.ramps, id), pending := s.pending - {id})
    case Finish(id) =>
      if id !in s.ramps || s.ramps[id].finished then s
      else
        var uid := s.ramps[id].uid;
        var ramps := s.ramps[id := s.ramps[id].(finished := true)];
        if uid in s.active && s.active[uid] == id
        then s.(active := s.active - {uid}, ramps := ramps)
        else s.(ramps := ramps)
    case Tick(_) => s
  }

  function Run(s: State, es: seq<Event>): State
    decreases |es|
  {
    if es == [] then s else Step(Run(s, es[..|es| - 1]), es[|es| - 1])
  }

  /** Still ticking, and nobody has told it to stop. */
  predicate Driving(s: State, id: RampId) {
    id in s.ramps && !s.ramps[id].cancelled && !s.ramps[id].finished
  }

  predicate Registered(s: State, id: RampId)
    requires id in s.ramps
  {
    s.ramps[id].uid in s.active && s.active[s.ramps[id].uid] == id
  }

  ghost predicate Inv(s: State) {
    && (forall id :: id in s.ramps && Driving(s, id) ==> Registered(s, id) || id in s.pending)
    && (forall uid :: uid in s.active ==>
          s.active[uid] in s.ramps && s.ramps[s.active[uid]].uid == uid &&
          Driving(s, s.active[uid]) && s.active[uid] !in s.pending)
    && (forall id :: id in s.pending ==> id in s.ramps)
  }

  lemma StepKeepsInv(s: State, e: Event)
    requires Inv(s)
    ensures Inv(Step(s, e))
  {
    var s' := Step(s, e);
    match e {
      case Start(uid, id) =>
      case StopAll =>
        forall id | id in s'.ramps && Driving(s', id) ensures id in s'.pending {
          if id !in s.pending { assert s.active[s.ramps[id].uid] == id; }
        }
        forall id | id in s'.pending ensures id in s'.ramps {
          if id !in s.pending {
            var uid :| uid in s.active && s.active[uid] == id;
          }
        }
      case Stop(uid) =>
      case Cancel(id) =>
      case Finish(id) =>
      case Tick(_) =>
    }
  }

  /** In every interleaving a ramp that still drives its device is the registered one or has
      its cancel already on the way, and the registered one is driving. */
  lemma {:induction false} RunKeepsInv(es: seq<Event>)
    ensures Inv(Run(INITIAL, es))
    decreases |es|
  {
    if es != [] {
      RunKeepsInv(es[..|es| - 1]);
      StepKeepsInv(Run(INITIAL, es[..|es| - 1]), es[|es| - 1]);
    }
  }

  /** Once the pending cancels of its own ramps are through, at most one ramp drives a device,
      and it is the registered one: registered and driving are then the same. */
  lemma OneDriverPerDevice(es: seq<Event>, id: RampId, other: RampId)
    requires var s := Run(INITIAL, es);
             && Driving(s, id) && Driving(s, other) && s.ramps[id].uid == s.ramps[other].uid
             && forall p :: p in s.pending && p in s.ramps ==> s.ramps[p].uid != s.ramps[id].uid
    ensures id == other && Registered(Run(INITIAL, es), id)
  {
    RunKeepsInv(es);
  }

  /** A finishing ramp removes its own registration or none. */
  lemma FinishSparesOthers(s: State, id: RampId, uid: string)
    requires uid in s.active && s.active[uid] != id && Inv(s)
    ensures var s' := Step(s, Finish(id));
            uid in s'.active && s'.active[uid] == s.active[uid] && Driving(s', s.active[uid])
  {
  }

  /** start and stop decide: after a start the new ramp is the device's, after a stop and its
      cancel no ramp drives the device unless another cancel is still to come. */
  lemma StopEndsDevice(es: seq<Event>, uid: string, id: RampId)
    requires var s := Run(INITIAL, es);
             uid in s.active && s.pending == {}
    ensures var s := Run(INITIAL, es);
            var t := Step(Step(s, Stop(uid)), Cancel(s.active[uid]));
            Driving(t, id) ==> t.ramps[id].uid != uid
  {
    RunKeepsInv(es);
  }

  /** After any run a start makes its fresh ramp the device's: registered and driving. Every
      other ramp still driving the device has its cancel to come, so once those are through the
      new one drives it alone. The other devices keep their ramps. */
  lemma StartTakesOver(es: seq<Event>, uid: string, id: RampId, other: RampId)
    requires id !in Run(INITIAL, es).ramps
    ensures var s, t := Run(INITIAL, es), Run(INITIAL, es + [Start(uid, id)]);
            && t.active == s.active[uid := id] && Driving(t, id) && t.ramps[id].uid == uid && t.pending == s.pending
            && (other != id && Driving(t, other) && t.ramps[other].uid == uid ==> other in t.pending)
            && (other in s.ramps && s.ramps[other].uid != uid ==> (Driving(t, other) <==> Driving(s, other)))
  {
    assert (es + [Start(uid, id)])[..|es|] == es;
    RunKeepsInv(es);
    RunKeepsInv(es + [Start(uid, id)]);
  }

  /** A ramp left alone by starts, stops and cancels stays its device's until it finishes. */
  lemma {:induction false} UndisturbedStays(es: seq<Event>, more: seq<Event>, uid: string, id: RampId)
    requires var s := Run(INITIAL, es); uid in s.active && s.active[uid] == id
    requires forall e :: e in more ==>
               (e.Start? ==> e.uid != uid) && (e.Stop? ==> e.uid != uid) && !e.StopAll? && e != Finish(id)
    ensures var t := Run(INITIAL, es + more); uid in t.active && t.active[uid] == id && Driving(t, id)
    decreases |more|
  {
    if more == [] {
      assert es + more == es;
      RunKeepsInv(es);
    } else {
      var init := more[..|more| - 1];
      UndisturbedStays(es, init, uid, id);
      assert (es + more)[..|es + more| - 1] == es + init;
      RunKeepsInv(es + init);
      RunKeepsInv(es + more);
      assert more[|more| - 1] in more;
    }
  }

  /** The manager's own fields, kept in step with the machine: `state` is the machine's. */
  class DimRampManager {
    var active: map<string, RampId>
    var cancelled: set<RampId>
    ghost var state: State

    ghost predicate Valid()
      reads this
    {
      && Inv(state)
      && active == state.active
      && (forall id :: id in state.ramps ==> (state.ramps[id].cancelled <==> id in cancelled))
      && cancelled <= state.ramps.Keys
    }

    constructor ()
      ensures Valid() && state == INITIAL
    {
      active, cancelled, state := map[], {}, INITIAL;
    }

    /** `id` is the identity of the fresh context. */
    method Start(uid: string, direction: int, startValue: real, id: RampId) returns (launched: bool)
      requires Valid() && id !in state.ramps
      modifies this
      ensures Valid()
      ensures launched <==> direction != 0 && startValue != if direction > 0 then 100.0 else 0.0
      ensures !launched ==> active == old(active) && cancelled == old(cancelled)
      ensures launched ==>
                && active == old(active)[uid := id] && id in state.ramps && state.ramps[id].uid == uid
                && id !in cancelled && Driving(state, id)
                && cancelled == old(cancelled) + (if uid in old(active) then {old(active)[uid]} else {})
                && (uid in old(active) ==> !Driving(state, old(active)[uid]))
      ensures state == if launched then Step(old(state), Event.Start(uid, id)) else old(state)
    {
      if direction == 0 { return false; }
      if startValue == Target(direction) { return false; }
      StepKeepsInv(state, Event.Start(uid, id));
      if uid in active {
        cancelled := cancelled + {active[uid]};
      }
      active := active[uid := id];
      state := Step(state, Event.Start(uid, id));
      return true;
    }

    method Finish(uid: string, id: RampId)
      requires Valid() && id in state.ramps && state.ramps[id] == Ramp(uid, state.ramps[id].cancelled, false)
      modifies this
      ensures Valid() && state == Step(old(state), Event.Finish(id))
      ensures !Driving(state, id) && cancelled == old(cancelled)
      ensures active == if uid in old(active) && old(active)[uid] == id then old(active) - {uid} else old(active)
    {
      StepKeepsInv(state, Event.Finish(id));
      if uid in active && active[uid] == id {
        active := active - {uid};
      }
      state := Step(state, Event.Finish(id));
    }

    /** The locked half of stop: the entry goes, its cancel is still to come. */
    method Stop(uid: string) returns (handle: set<RampId>)
      requires Valid()
      modifies this
      ensures Valid() && state == Step(old(state), Event.Stop(uid))
      ensures state.pending == old(state).pending + handle
      ensures handle == if uid in old(active) then {old(active)[uid]} else {}
      ensures active == old(active) - {uid} && cancelled == old(cancelled)
    {
      StepKeepsInv(state, Event.Stop(uid));
      handle := {};
      if uid in active {
        handle := {active[uid]};
        active := active - {uid};
      }
      state := Step(state, Event.Stop(uid));
    }

    method StopAll() returns (all: set<RampId>)
      requires Valid()
      modifies this
      ensures Valid() && state == Step(old(state), Event.StopAll)
      ensures active == map[] && all == old(active).Values && cancelled == old(cancelled)
      ensures all <= state.pending
    {
      StepKeepsInv(state, Event.StopAll);
      all := active.Values;
      active := map[];
      state := Step(state, Event.StopAll);
    }

    method Cancel(id: RampId)
      requires Valid() && id in state.pending
      modifies this
      ensures Valid() && state == Step(old(state), Event.Cancel(id))
      ensures cancelled == old(cancelled) + {id} && !Driving(state, id) && id !in state.pending
      ensures active == old(active)
    {
      StepKeepsInv(state, Event.Cancel(id));
      cancelled := cancelled + {id};
      state := Step(state, Event.Cancel(id));
    }
  }

  // ------------------------------------------------------- the ramp's values

  function Target(direction: int): real {
    if direction > 0 then 100.0 else 0.0
  }

  function Abs(x: real): real {
    if x < 0.0 then -x else x
  }

  function Ceil(x: real): int {
    -((-x).Floor)
  }

  /** The size of one step for a full sweep of 0 to 100. */
  function StepSize(tick: real, sweep: real): real
    requires sweep > 0.0
  {
    100.0 * (tick / sweep)
  }

  lemma StepSizePositive(tick: real, sweep: real)
    requires tick > 0.0 && sweep > 0.0
    ensures StepSize(tick, sweep) > 0.0
  {
    var q := tick / sweep;
    assert q * sweep == tick;
  }

  /** n steps cover the distance t. */
  predicate Covers(n: nat, step: real, t: real) {
    t == n as real * step
  }

  lemma CoversNext(n: nat, step: real, t: real)
    requires Covers(n, step, t)
    ensures Covers(n + 1, step, t + step)
  {
  }

  lemma ProductOrder(x: real, y: real, step: real)
    requires step > 0.0
    ensures x < y <==> x * step < y * step
  {
    assert (y - x) * step == y * step - x * step;
  }

  /** n steps do not reach d: n is below ceil(d / step); one more reaches it: n + 1 is that. */
  lemma CeilDivision(d: real, step: real, n: nat, t: real)
    requires step > 0.0 && Covers(n, step, t) && t < d
    ensures n < Ceil(d / step)
    ensures t + step >= d ==> n + 1 == Ceil(d / step)
  {
    var q, x, y := d / step, n as real, (n + 1) as real;
    assert q * step == d && y * step == t + step;
    ProductOrder(x, q, step);
    ProductOrder(y, q, step);
    assert x < q && x == y - 1.0;
  }

  predicate Ordered(s: seq<real>, up: bool) {
    forall i, j :: 0 <= i < j < |s| ==> if up then s[i] < s[j] else s[i] > s[j]
  }

  lemma OrderedSnoc(startValue: real, applied: seq<real>, v: real, up: bool)
    requires Ordered([startValue] + applied, up)
    requires var last := Last(startValue, applied); if up then last < v else last > v
    ensures Ordered([startValue] + (applied + [v]), up)
  {
    var s := [startValue] + applied;
    assert s[|s| - 1] == Last(startValue, applied);
    assert [startValue] + (applied + [v]) == s + [v];
    forall i | 0 <= i < |s| - 1 ensures if up then s[i] < v else s[i] > v {
      assert if up then s[i] < s[|s| - 1] else s[i] > s[|s| - 1];
    }
  }

  lemma OrderedRange(startValue: real, applied: seq<real>, up: bool)
    requires Ordered([startValue] + applied, up)
    ensures forall i :: 0 <= i < |applied| ==>
              if up then startValue < applied[i] <= Last(startValue, applied)
              else startValue > applied[i] >= Last(startValue, applied)
  {
    var s := [startValue] + applied;
    forall i | 0 <= i < |applied|
      ensures if up then startValue < applied[i] <= Last(startValue, applied)
              else startValue > applied[i] >= Last(startValue, applied)
    {
      assert s[0] == startValue && s[i + 1] == applied[i] && s[|s| - 1] == Last(startValue, applied);
    }
  }

  function Last(startValue: real, applied: seq<real>): real {
    if applied == [] then startValue else applied[|applied| - 1]
  }

  /** Each value is one step away from the one before it. */
  ghost predicate Evenly(startValue: real, applied: seq<real>, step: real) {
    && (applied != [] ==> applied[0] == startValue + step)
    && forall i, j :: 0 <= i && j == i + 1 && j < |applied| ==> applied[j] == applied[i] + step
  }

  lemma NothingApplied(startValue: real, step: real, size: real, up: bool)
    ensures Ordered([startValue] + [], up) && Evenly(startValue, [], step) && Covers(0, size, 0.0)
  {
  }

  lemma EvenlySnoc(startValue: real, applied: seq<real>, step: real)
    requires Evenly(startValue, applied, step)
    ensures Evenly(startValue, applied + [Last(startValue, applied) + step], step)
  {
  }

  /** n is the number of whole steps that d needs. */
  predicate Needs(n: nat, step: real, d: real) {
    (n - 1) as real * step < d <= n as real * step
  }

  lemma NeedsSteps(n: nat, size: real, t: real, distance: real)
    requires n > 0 && Covers(n, size, t) && t - size < distance <= t
    ensures Needs(n, size, distance)
  {
    assert (n - 1) as real * size == n as real * size - size;
  }

  method RampLoop(startValue: real, direction: int, tick: real, sweep: real) returns (applied: seq<real>)
    requires 0.0 <= startValue <= 100.0 && direction != 0 && startValue != Target(direction)
    requires tick > 0.0 && sweep > 0.0
    ensures |applied| == Ceil(Abs(Target(direction) - startValue) / StepSize(tick, sweep)) > 0
    ensures Needs(|applied|, StepSize(tick, sweep), Abs(Target(direction) - startValue))
    ensures applied[|applied| - 1] == Target(direction)
    ensures Ordered([startValue] + applied, direction > 0)
    ensures var step := StepSize(tick, sweep);
            Evenly(startValue, applied[..|applied| - 1], if direction > 0 then step else -step)
  {
    hide StepSize, Ceil, Ordered, Covers, Evenly, Needs;
    StepSizePositive(tick, sweep);
    ghost var size := StepSize(tick, sweep);
    var target := Target(direction);
    ghost var distance := Abs(target - startValue);
    var step := StepSize(tick, sweep);
    if target < startValue { step := -step; }
    applied := [];
    var value := startValue;
    ghost var travelled := 0.0;
    NothingApplied(startValue, step, size, direction > 0);
    while true
      invariant Covers(|applied|, size, travelled) && travelled < distance
      invariant value == Last(startValue, applied)
      invariant value == if direction > 0 then startValue + travelled else startValue - travelled
      invariant Ordered([startValue] + applied, direction > 0)
      invariant Evenly(startValue, applied, step)
      decreases Ceil(distance / size) - |applied|
    {
      CeilDivision(distance, size, |applied|, travelled);
      CoversNext(|applied|, size, travelled);
      EvenlySnoc(startValue, applied, step);
      value := value + step;
      var done := (step > 0.0 && value >= target) || (step < 0.0 && value <= target);
      if done { value := target; }
      OrderedSnoc(startValue, applied, value, direction > 0);
      ghost var before := applied;
      applied := applied + [value];
      travelled := travelled + size;
      if done {
        NeedsSteps(|applied|, size, travelled, distance);
        assert applied[..|applied| - 1] == before;
        break;
      }
    }
  }

  lemma StepPerTick(tick: real, sweep: real)
    requires sweep > 0.0
    ensures StepSize(tick, sweep) * sweep == 100.0 * tick
  {
    assert tick / sweep * sweep == tick;
  }

  /** One ramp left alone: every applied value lies strictly beyond the one before it in the
      direction of the bound, all stay within, the last one is the bound itself, there are
      as many as whole steps are needed, and all but the last are one full step apart. */
  method RampValues(startValue: real, direction: int, tick: real, sweep: real) returns (applied: seq<real>)
    requires 0.0 <= startValue <= 100.0 && direction != 0 && startValue != Target(direction)
    requires tick > 0.0 && sweep > 0.0
    ensures |applied| == Ceil(Abs(Target(direction) - startValue) / StepSize(tick, sweep)) > 0
    ensures applied[|applied| - 1] == if direction > 0 then 100.0 else 0.0
    ensures var distance := if direction > 0 then 100.0 - startValue else startValue;
            && (|applied| - 1) as real * StepSize(tick, sweep) < distance
            && distance <= |applied| as real * StepSize(tick, sweep)
            && StepSize(tick, sweep) * sweep == 100.0 * tick
    ensures Ordered([startValue] + applied, direction > 0)
    ensures forall i :: 0 <= i < |applied| ==> 0.0 <= applied[i] <= 100.0
    ensures var step := if direction > 0 then StepSize(tick, sweep) else -StepSize(tick, sweep);
            && (|applied| > 1 ==> applied[0] == startValue + step)
            && forall i, j :: 0 <= i && j == i + 1 && j < |applied| - 1 ==> applied[j] == applied[i] + step
  {
    hide StepSize, Ceil;
    applied := RampLoop(startValue, direction, tick, sweep);
    OrderedRange(startValue, applied, direction > 0);
    StepPerTick(tick, sweep);
  }
}
