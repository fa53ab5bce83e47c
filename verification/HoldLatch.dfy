/** The hold-release latch with its watchdog, the same in the Zigbee2MQTT and Home Assistant
    plugins (dispatchButtonAction, autoReleaseHold; Unsubscribe is Home Assistant's). A key is
    what the maps are indexed by: button index of one subscription, or dSUID. The locked part
    of a handler and its host calls are one step. */
module HoldLatch {
  import opened Options

  type Key = nat
  type TimerId = nat

  datatype Call = UpdateButton(k: Key, value: int) | SetButtonAction(k: Key, action: string)

  /** What happened to the latch: it was set, let go with a release, or let go without one. */
  datatype Mark = Enter(k: Key) | Exit(k: Key) | Drop(k: Key)

  /** `armed` are the watchdogs ever started that have not run yet, with the key each was
      started for: a stopped one may still run if it expired before it was stopped. */
  datatype State = State(
    held: set<Key>,
    timers: map<Key, TimerId>,
    armed: map<TimerId, Key>,
    trail: seq<Mark>,
    calls: seq<Call>)

  const INITIAL := State({}, map[], map[], [], [])

  datatype Event =
    | Action(k: Key, action: string, t: TimerId)   // t: the watchdog a hold would start
    | Fire(t: TimerId)
    | Unsubscribe(k: Key)

  const RELEASE := "release"
  const HOLD := "hold"

  function ReleaseCalls(k: Key): seq<Call> {
    [SetButtonAction(k, RELEASE), UpdateButton(k, 0)]
  }

  function HoldCalls(k: Key): seq<Call> {
    [UpdateButton(k, 1), SetButtonAction(k, HOLD)]
  }

  function TipCalls(k: Key, action: string): seq<Call> {
    [UpdateButton(k, 1), SetButtonAction(k, action), UpdateButton(k, 0)]
  }

  /** Lets a held button go and forwards the release. */
  function LetGo(s: State, k: Key): State {
    if k !in s.held then s
    else s.(held := s.held - {k}, timers := s.timers - {k}, trail := s.trail + [Exit(k)],
            calls := s.calls + ReleaseCalls(k))
  }

  function Step(s: State, e: Event): State {
    match e
    case Action(k, action, t) =>
      if action == RELEASE then LetGo(s, k)
      else if action == HOLD then
        if t in s.armed then s
        else State(s.held + {k}, s.timers[k := t], s.armed[t := k],
                   if k in s.held then s.trail else s.trail + [Enter(k)], s.calls + HoldCalls(k))
      else s.(calls := s.calls + TipCalls(k, action))
    case Fire(t) =>
      if t !in s.armed then s
      else LetGo(s.(armed := s.armed - {t}), s.armed[t])
    case Unsubscribe(k) =>
      s.(held := s.held - {k}, timers := s.timers - {k},
         trail := if k in s.held then s.trail + [Drop(k)] else s.trail)
  }

  function Run(s: State, es: seq<Event>): State
    decreases |es|
  {
    if es == [] then s else Step(Run(s, es[..|es| - 1]), es[|es| - 1])
  }

  function HeldCount(held: bool): nat {
    if held then 1 else 0
  }

  /** The history of one button read as an alternation: held or not at its end, or None when
      a hold begins while held, or ends while not held. */
  function Replay(trail: seq<Mark>, k: Key): Option<bool>
    decreases |trail|
  {
    if trail == [] then Some(false)
    else
      var before, mark := Replay(trail[..|trail| - 1], k), trail[|trail| - 1];
      if mark.k != k then before
      else if before == Some(!mark.Enter?) then Some(mark.Enter?)
      else None
  }

  lemma ReplaySnoc(trail: seq<Mark>, mark: Mark, k: Key)
    ensures var before := Replay(trail, k);
            Replay(trail + [mark], k) ==
            if mark.k != k then before else if before == Some(!mark.Enter?) then Some(mark.Enter?) else None
  {
    assert (trail + [mark])[..|trail|] == trail;
  }

  lemma {:induction false} ReplayCounts(trail: seq<Mark>, k: Key)
    requires Replay(trail, k).Some?
    ensures var m := multiset(trail);
            m[Enter(k)] == m[Exit(k)] + m[Drop(k)] + HeldCount(Replay(trail, k).value)
    decreases |trail|
  {
    if trail != [] {
      ReplayCounts(trail[..|trail| - 1], k);
      assert trail == trail[..|trail| - 1] + [trail[|trail| - 1]];
    }
  }

  ghost predicate Inv(s: State) {
    && s.timers.Keys == s.held
    && (forall k: Key :: Replay(s.trail, k) == Some(k in s.held))
    && (forall k: Key :: multiset(s.calls)[SetButtonAction(k, RELEASE)] == multiset(s.trail)[Exit(k)])
  }

  /** A mark that fits the button it is about, with the calls that go with it. */
  lemma MarkKeepsInv(s: State, s': State, mark: Mark)
    requires Inv(s) && s'.trail == s.trail + [mark] && s'.timers.Keys == s'.held
    requires if mark.Enter? then mark.k !in s.held && s'.held == s.held + {mark.k}
             else mark.k in s.held && s'.held == s.held - {mark.k}
    requires s'.calls == s.calls +
               match mark case Enter(k) => HoldCalls(k) case Exit(k) => ReleaseCalls(k) case Drop(_) => []
    ensures Inv(s')
  {
    forall k: Key
      ensures Replay(s'.trail, k) == Some(k in s'.held)
      ensures multiset(s'.calls)[SetButtonAction(k, RELEASE)] == multiset(s'.trail)[Exit(k)]
    {
      ReplaySnoc(s.trail, mark, k);
      assert multiset(s.calls)[SetButtonAction(k, RELEASE)] == multiset(s.trail)[Exit(k)];
    }
  }

  lemma LetGoKeepsInv(s: State, k: Key)
    requires Inv(s)
    ensures Inv(LetGo(s, k))
  {
    if k in s.held { MarkKeepsInv(s, LetGo(s, k), Exit(k)); }
  }

  /** Calls other than a release change none of the counts. */
  lemma CallsKeepInv(s: State, s': State, more: seq<Call>)
    requires Inv(s) && s'.held == s.held && s'.timers.Keys == s.held && s'.trail == s.trail
    requires s'.calls == s.calls + more
    requires forall k: Key :: SetButtonAction(k, RELEASE) !in more
    ensures Inv(s')
  {
  }

  lemma StepKeepsInv(s: State, e: Event)
    requires Inv(s)
    ensures Inv(Step(s, e))
  {
    match e {
      case Action(k, action, t) =>
        if action == RELEASE {
          LetGoKeepsInv(s, k);
        } else if action == HOLD {
          if t in s.armed {
          } else if k in s.held {
            CallsKeepInv(s, Step(s, e), HoldCalls(k));
          } else {
            MarkKeepsInv(s, Step(s, e), Enter(k));
          }
        } else {
          CallsKeepInv(s, Step(s, e), TipCalls(k, action));
        }
      case Fire(t) =>
        if t in s.armed { LetGoKeepsInv(s.(armed := s.armed - {t}), s.armed[t]); }
      case Unsubscribe(k) =>
        if k in s.held { MarkKeepsInv(s, Step(s, e), Drop(k)); }
        else { CallsKeepInv(s, Step(s, e), []); }
    }
  }

  lemma {:induction false} RunKeepsInv(s: State, es: seq<Event>)
    requires Inv(s)
    ensures Inv(Run(s, es))
    decreases |es|
  {
    if es != [] {
      RunKeepsInv(s, es[..|es| - 1]);
      StepKeepsInv(Run(s, es[..|es| - 1]), es[|es| - 1]);
    }
  }

  /** Over every interleaving, stale watchdogs included: begun and ended holds of a button
      alternate, so no release is forwarded twice or without a hold; the releases forwarded,
      the holds dropped by unsubscribing and one for a current hold add up to the holds
      begun; and the buttons with a watchdog entry are the held ones. */
  lemma ReleasesMatchHolds(es: seq<Event>, k: Key)
    ensures var s := Run(INITIAL, es);
            var m := multiset(s.trail);
            && Replay(s.trail, k) == Some(k in s.held)
            && multiset(s.calls)[SetButtonAction(k, RELEASE)] + m[Drop(k)] + HeldCount(k in s.held) == m[Enter(k)]
            && (k in s.timers <==> k in s.held)
  {
    RunKeepsInv(INITIAL, es);
    ReplayCounts(Run(INITIAL, es).trail, k);
  }

  /** The watchdog entered for a button is one that was started for it and has not run. */
  predicate TimersArmed(s: State) {
    forall k :: k in s.timers ==> s.timers[k] in s.armed && s.armed[s.timers[k]] == k
  }

  lemma {:induction false} RunKeepsTimersArmed(es: seq<Event>)
    ensures TimersArmed(Run(INITIAL, es))
    decreases |es|
  {
    if es != [] {
      RunKeepsTimersArmed(es[..|es| - 1]);
      RunKeepsInv(INITIAL, es[..|es| - 1]);
    }
  }

  /** Over every run: a watchdog that fires releases its button exactly when that is held. If it
      is a stale one of an earlier hold, then a current hold, guarded by another watchdog, is
      cut short, and the watchdog meant for it finds nothing to release any more. */
  lemma WatchdogReleasesIff(es: seq<Event>, t: TimerId)
    requires t in Run(INITIAL, es).armed
    ensures var s := Run(INITIAL, es);
            var k, s' := s.armed[t], Step(s, Fire(t));
            && (s'.calls == s.calls + ReleaseCalls(k) <==> k in s.timers)
            && (k !in s.timers ==> s' == s.(armed := s.armed - {t}))
            && (k in s.timers && s.timers[k] != t ==>
                  && k in s.held && k !in s'.held
                  && s.timers[k] in s'.armed
                  && Step(s', Fire(s.timers[k])).calls == s'.calls)
  {
    RunKeepsInv(INITIAL, es);
    RunKeepsTimersArmed(es);
    assert ReleaseCalls(Run(INITIAL, es).armed[t]) != [];
  }

  /** So a hold can be cut short: after hold, release, hold the first watchdog, if it had
      expired before the release stopped it, ends the second hold. */
  lemma StaleWatchdogEndsNewHold(k: Key, first: TimerId, second: TimerId)
    requires first != second
    ensures var s := Run(INITIAL, [Action(k, HOLD, first), Action(k, RELEASE, 0), Action(k, HOLD, second)]);
            && s.timers == map[k := second] && k in s.held && first in s.armed
            && k !in Step(s, Fire(first)).held
            && Step(s, Fire(first)).calls == s.calls + ReleaseCalls(k)
  {
    var e1, e2, e3 := Action(k, HOLD, first), Action(k, RELEASE, 0), Action(k, HOLD, second);
    var es := [e1, e2, e3];
    assert es[..2] == [e1, e2] && [e1, e2][..1] == [e1] && [e1][..0] == [];
    assert Run(INITIAL, [e1]) == Step(INITIAL, e1);
    assert Run(INITIAL, [e1, e2]) == Step(Step(INITIAL, e1), e2);
  }

  class Latch {
    var held: set<Key>
    var timers: map<Key, TimerId>
    ghost var state: State

    ghost predicate Valid()
      reads this
    {
      Inv(state) && held == state.held && timers == state.timers
    }

    constructor ()
      ensures Valid() && state == INITIAL
    {
      held, timers, state := {}, map[], INITIAL;
    }

    /** `t` is the watchdog time.AfterFunc would return. */
    method DispatchButtonAction(k: Key, action: string, t: TimerId) returns (calls: seq<Call>)
      requires Valid() && t !in state.armed
      modifies this
      ensures Valid() && state == Step(old(state), Action(k, action, t))
      ensures state.calls == old(state).calls + calls
      ensures action == "hold" ==>
                && held == old(held) + {k} && timers == old(timers)[k := t]
                && calls == [UpdateButton(k, 1), SetButtonAction(k, "hold")]
      ensures action == "release" ==>
                && held == old(held) - {k} && timers == old(timers) - {k}
                && calls == if k in old(held) then [SetButtonAction(k, "release"), UpdateButton(k, 0)] else []
      ensures action != "hold" && action != "release" ==>
                && held == old(held) && timers == old(timers)
                && calls == [UpdateButton(k, 1), SetButtonAction(k, action), UpdateButton(k, 0)]
    {
      StepKeepsInv(state, Action(k, action, t));
      if action == RELEASE {
        var was := k in held;
        if was {
          held := held - {k};
          if k in timers { timers := timers - {k}; }
        }
        calls := if was then ReleaseCalls(k) else [];
      } else if action == HOLD {
        held, timers := held + {k}, timers[k := t];
        calls := HoldCalls(k);
      } else {
        calls := TipCalls(k, action);
      }
      state := Step(state, Action(k, action, t));
    }

    method AutoReleaseHold(k: Key, ghost t: TimerId) returns (calls: seq<Call>)
      requires Valid() && t in state.armed && state.armed[t] == k
      modifies this
      ensures Valid() && state == Step(old(state), Fire(t))
      ensures state.calls == old(state).calls + calls
      ensures held == old(held) - {k} && timers == old(timers) - {k}
      ensures calls == if k in old(held) then [SetButtonAction(k, "release"), UpdateButton(k, 0)] else []
    {
      StepKeepsInv(state, Fire(t));
      state := Step(state, Fire(t));
      if k !in held { return []; }
      held, timers := held - {k}, timers - {k};
      return ReleaseCalls(k);
    }

    method Unsubscribe(k: Key)
      requires Valid()
      modifies this
      ensures Valid() && state == Step(old(state), Event.Unsubscribe(k))
      ensures state.calls == old(state).calls
    {
      StepKeepsInv(state, Event.Unsubscribe(k));
      held := held - {k};
      if k in timers { timers := timers - {k}; }
      state := Step(state, Event.Unsubscribe(k));
    }
  }
}
