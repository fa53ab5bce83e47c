/** Click recognition from raw press and release inputs
    (pkg/server/connector_button_actions.go). Times are nanoseconds. */
module ButtonClicks {
  import opened Options
  import opened SeqFacts

  const MILLISECOND := 1_000_000
  const HOLD_THRESHOLD := 700 * MILLISECOND
  const MULTI_CLICK_WINDOW := 450 * MILLISECOND
  const DIM_REPEAT_INTERVAL := 350 * MILLISECOND

  datatype Input = Input(at: int, tag: string, uniqueId: string, index: int, value: real, mode: string) {
    predicate On() { value > 0.0 }
  }

  /** The level a button was last reported at. */
  predicate Level(inputs: seq<Input>) {
    inputs != [] && inputs[|inputs| - 1].value > 0.0
  }

  datatype Event = Event(tag: string, uniqueId: string, index: int, action: string)

  datatype ButtonState = ButtonState(pressedAt: Option<int>, lastRelease: Option<int>, clickCount: nat, mode: string)

  const UNTOUCHED := ButtonState(None, None, 0, "")

  // --------------------------------------------------------------- button keys

  function Digit(d: nat): char
    requires d < 10
  {
    ['0', '1', '2', '3', '4', '5', '6', '7', '8', '9'][d]
  }

  function Decimal(n: nat): (s: string)
    ensures |s| > 0 && '#' !in s && '-' !in s
  {
    if n < 10 then [Digit(n)] else Decimal(n / 10) + [Digit(n % 10)]
  }

  function Itoa(n: int): (s: string)
    ensures '#' !in s && ('-' in s <==> n < 0)
  {
    if n < 0 then "-" + Decimal(-n) else Decimal(n)
  }

  function Key(tag: string, index: int): string {
    tag + "#" + Itoa(index)
  }

  lemma {:induction false} DecimalIsInjective(m: nat, n: nat)
    requires Decimal(m) == Decimal(n)
    ensures m == n
  {
    var s := Decimal(m);
    if m >= 10 && n >= 10 {
      assert Decimal(m / 10) == s[..|s| - 1] == Decimal(n / 10);
      DecimalIsInjective(m / 10, n / 10);
      assert Digit(m % 10) == s[|s| - 1] == Digit(n % 10);
    } else {
      assert s[|s| - 1] == Digit(m % 10) == Digit(n % 10);
    }
  }

  lemma LastSeparator(a: string, b: string, c: string, d: string)
    requires a + "#" + b == c + "#" + d && '#' !in b && '#' !in d
    ensures a == c && b == d
  {
    var k := a + "#" + b;
    assert k[|a|] == '#' && k[|c|] == '#';
    assert forall i :: 0 <= i < |b| ==> k[|a| + 1 + i] == b[i];
    assert forall i :: 0 <= i < |d| ==> k[|c| + 1 + i] == d[i];
    assert a == k[..|a|] && c == k[..|c|] && b == k[|a| + 1..] && d == k[|c| + 1..];
  }

  lemma ItoaIsInjective(m: int, n: int)
    requires Itoa(m) == Itoa(n)
    ensures m == n
  {
    if m < 0 && n < 0 {
      assert Decimal(-m) == Itoa(m)[1..] == Decimal(-n);
      DecimalIsInjective(-m, -n);
    } else if m >= 0 && n >= 0 {
      DecimalIsInjective(m, n);
    } else {
      assert false;
    }
  }

  /** No two buttons share a state entry, whatever characters their tags hold. */
  lemma KeyIsInjective(tag: string, index: int, tag': string, index': int)
    requires Key(tag, index) == Key(tag', index')
    ensures tag == tag' && index == index'
  {
    hide Itoa;
    LastSeparator(tag, Itoa(index), tag', Itoa(index'));
    ItoaIsInjective(index, index');
  }

  // ------------------------------------------------- what was pressed, from the trace

  /** The inputs of one button. */
  function Of(history: seq<Input>, tag: string, index: int): seq<Input> {
    if history == [] then []
    else
      var before := Of(Init(history), tag, index);
      if Last(history).tag == tag && Last(history).index == index then before + [Last(history)] else before
  }

  /** The inputs that change the level of a button: press, release, press, ... */
  function Edges(inputs: seq<Input>): seq<Input> {
    if inputs == [] then []
    else
      var before := Edges(Init(inputs));
      if Last(inputs).On() == (|before| % 2 == 0) then before + [Last(inputs)] else before
  }

  function NormalizeMode(mode: string): string {
    if mode in ["single", "dimmer", "scene", "default"] then mode else ""
  }

  /** The last mode any of the edges named. */
  function ModeOf(edges: seq<Input>): (m: string)
    ensures NormalizeMode(m) == m
  {
    if edges == [] then ""
    else if Last(edges).mode in ["single", "dimmer", "scene", "default"] then Last(edges).mode
    else ModeOf(Init(edges))
  }

  datatype Press = Press(down: int, up: int, mode: string, uniqueId: string) {
    function Duration(): int { up - down }
    predicate IsHold() { Duration() >= 700_000_000 }
    predicate CountsClicks() { mode != "single" && mode != "dimmer" }
  }

  function Presses(edges: seq<Input>): seq<Press> {
    if edges == [] then []
    else if |edges| % 2 == 1 then Presses(Init(edges))
    else Presses(Init(edges)) + [Press(Last(Init(edges)).at, Last(edges).at, ModeOf(edges), Last(edges).uniqueId)]
  }

  /** The presses that last at least the debounce window. */
  function Kept(presses: seq<Press>, debounce: int): seq<Press> {
    if presses == [] then []
    else if Last(presses).Duration() < debounce then Kept(Init(presses), debounce)
    else Kept(Init(presses), debounce) + [Last(presses)]
  }

  /** A press continues the run of the one before it. */
  predicate Continues(p: Press, q: Press) {
    q.CountsClicks() && !p.IsHold() && q.up - p.up <= 450_000_000
  }

  /** How many presses the run ending in the last press has. */
  function Run(presses: seq<Press>): (n: nat)
    ensures presses != [] ==> 0 < n <= |presses|
  {
    if presses == [] then 0
    else if |presses| > 1 && Continues(Last(Init(presses)), Last(presses)) then Run(Init(presses)) + 1
    else 1
  }

  // ------------------------------------------------------- what is to be emitted

  function Min(a: nat, b: nat): nat {
    if a < b then a else b
  }

  /** A click of multiplicity n, in the vocabulary of the mode. */
  function ClickName(mode: string, n: nat): string
    requires 1 <= n <= 4
  {
    if mode == "scene" then ["scene5", "scene0", "scene18", "scene17"][n - 1]
    else ["tip", "tip2", "tip3", "tip4"][n - 1]
  }

  function HoldName(mode: string, index: int): string {
    if mode != "scene" then "hold" else if index % 2 == 0 then "scene43" else "scene42"
  }

  /** How many dim steps a hold of length d stands for. */
  function Repeats(d: int): nat
    requires d >= HOLD_THRESHOLD
  {
    1 + (d - HOLD_THRESHOLD) / DIM_REPEAT_INTERVAL
  }

  function Times<T>(n: nat, x: T): seq<T> {
    seq(n, _ => x)
  }

  /** The actions the last of the kept presses stands for. */
  function Actions(presses: seq<Press>, index: int): seq<string>
    requires presses != []
  {
    var p := Last(presses);
    if !p.IsHold() then [ClickName(p.mode, Min(4, Run(presses)))]
    else if p.mode == "scene" || p.mode == "single" then [HoldName(p.mode, index)]
    else
      var dim := if index % 2 == 0 then "dimup" else "dimdown";
      (if p.mode == "dimmer" then [] else ["hold"]) + Times(Repeats(p.Duration()), dim)
  }

  function Events(tag: string, uniqueId: string, index: int, actions: seq<string>): seq<Event> {
    seq(|actions|, i requires 0 <= i < |actions| => Event(tag, uniqueId, index, actions[i]))
  }

  /** Everything one button's presses stand for. */
  function Log(presses: seq<Press>, tag: string, index: int): seq<Event> {
    if presses == [] then []
    else Log(Init(presses), tag, index) + Events(tag, Last(presses).uniqueId, index, Actions(presses, index))
  }

  function EventsOf(events: seq<Event>, tag: string, index: int): seq<Event> {
    if events == [] then []
    else
      var before := EventsOf(Init(events), tag, index);
      if Last(events).tag == tag && Last(events).index == index then before + [Last(events)] else before
  }

  // --------------------------------------------------- properties of that meaning

  /** The last n presses are short, each within the window of the one before, and nothing
      before them belongs to the run. */
  predicate IsRun(presses: seq<Press>, n: nat)
    requires 0 < n <= |presses|
  {
    && (forall i :: |presses| - n < i < |presses| ==> Continues(presses[i - 1], presses[i]))
    && (n < |presses| ==> !Continues(presses[|presses| - n - 1], presses[|presses| - n]))
  }

  /** Run is the length of the one run that the last press ends. */
  lemma {:induction false} RunIsMaximal(presses: seq<Press>, n: nat)
    requires 0 < n <= |presses|
    ensures n == Run(presses) <==> IsRun(presses, n)
    decreases n
  {
    var init := Init(presses);
    if |presses| > 1 && Continues(Last(init), Last(presses)) {
      if n == 1 {
        assert presses[|presses| - 2] == Last(init);
      } else {
        RunIsMaximal(init, n - 1);
        assert forall i :: 0 <= i < |init| ==> init[i] == presses[i];
        if IsRun(init, n - 1) {
          forall i | |presses| - n < i < |presses| ensures Continues(presses[i - 1], presses[i]) {
            if i < |presses| - 1 { assert Continues(init[i - 1], init[i]); }
          }
        }
        if IsRun(presses, n) {
          forall i | |init| - (n - 1) < i < |init| ensures Continues(init[i - 1], init[i]) {
            assert Continues(presses[i - 1], presses[i]);
          }
        }
      }
    } else if n > 1 {
      assert presses[|presses| - 2] == Last(init);
    }
  }

  /** A hold dims once, and once more for every full repeat interval beyond the threshold. */
  lemma RepeatsFillTheHold(d: int)
    requires d >= 700_000_000
    ensures 700_000_000 + (Repeats(d) - 1) * 350_000_000 <= d < 700_000_000 + Repeats(d) * 350_000_000
  {
    var extra := d - HOLD_THRESHOLD;
    assert extra == extra / DIM_REPEAT_INTERVAL * DIM_REPEAT_INTERVAL + extra % DIM_REPEAT_INTERVAL;
  }

  /** Presses and releases alternate, so a press is a level change up and the next one down. */
  lemma {:induction false} EdgesAlternate(inputs: seq<Input>, i: nat)
    requires i < |Edges(inputs)|
    ensures Edges(inputs)[i].value > 0.0 <==> i % 2 == 0
  {
    var before := Edges(Init(inputs));
    if i < |before| { EdgesAlternate(Init(inputs), i); }
  }

  /** An input counts exactly if it changes the level, which is down to begin with. */
  lemma {:induction false} EdgesAreChanges(inputs: seq<Input>, x: Input)
    ensures |Edges(inputs)| % 2 == 1 <==> Level(inputs)
    ensures Edges(inputs + [x]) == Edges(inputs) + if x.value > 0.0 <==> Level(inputs) then [] else [x]
  {
    EdgesNext(inputs, x);
    hide Edges;
    LevelIsParity(inputs);
  }

  lemma {:induction false} LevelIsParity(inputs: seq<Input>)
    ensures |Edges(inputs)| % 2 == 1 <==> Level(inputs)
  {
    if inputs != [] { LevelIsParity(Init(inputs)); }
  }

  /** Every press is the pair of a level change up and the next one down. */
  lemma {:induction false} PressIsPair(edges: seq<Input>, k: nat)
    ensures |Presses(edges)| == |edges| / 2
    ensures 2 * k + 1 < |edges| ==>
              Presses(edges)[k] == Press(edges[2 * k].at, edges[2 * k + 1].at, ModeOf(edges[..2 * k + 2]),
                                         edges[2 * k + 1].uniqueId)
    decreases edges
  {
    hide ModeOf;
    if edges != [] {
      var init := Init(edges);
      PressIsPair(init, k);
      if 2 * k + 1 < |init| {
        assert init[..2 * k + 2] == edges[..2 * k + 2];
      } else if 2 * k + 2 == |edges| {
        assert edges[..2 * k + 2] == edges;
      }
    }
  }

  /** The mode of a button is the last one of the four that any edge named. */
  lemma {:induction false} ModeIsLastNamed(edges: seq<Input>)
    ensures ModeOf(edges) == "" ==>
              forall i :: 0 <= i < |edges| ==> edges[i].mode !in ["single", "dimmer", "scene", "default"]
    ensures ModeOf(edges) != "" ==>
              exists i :: && 0 <= i < |edges| && ModeOf(edges) == edges[i].mode
                          && edges[i].mode in ["single", "dimmer", "scene", "default"]
                          && forall j :: i < j < |edges| ==>
                               edges[j].mode !in ["single", "dimmer", "scene", "default"]
  {
    if edges != [] {
      if Last(edges).mode in ["single", "dimmer", "scene", "default"] {
        assert ModeOf(edges) == edges[|edges| - 1].mode;
      } else {
        ModeIsLastNamed(Init(edges));
        assert ModeOf(edges) == ModeOf(Init(edges));
        hide ModeOf;
        assert forall i :: 0 <= i < |edges| - 1 ==> edges[i] == Init(edges)[i];
      }
    }
  }

  // ------------------------------------------------------- the recognizer's state

  function LastShortUp(presses: seq<Press>): Option<int> {
    if presses == [] then None
    else if Last(presses).IsHold() then LastShortUp(Init(presses))
    else Some(Last(presses).up)
  }

  /** 0 after a hold; otherwise the clicks the next short press may add to. */
  function ClickCount(kept: seq<Press>): nat {
    if kept == [] || Last(kept).IsHold() then 0 else Min(4, Run(kept))
  }

  function StateFrom(pressedAt: Option<int>, kept: seq<Press>, mode: string): ButtonState {
    ButtonState(pressedAt, LastShortUp(kept), ClickCount(kept), mode)
  }

  function StateOf(edges: seq<Input>, debounce: int): ButtonState {
    StateFrom(if |edges| % 2 == 1 then Some(Last(edges).at) else None, Kept(Presses(edges), debounce), ModeOf(edges))
  }

  lemma EdgesNext(inputs: seq<Input>, x: Input)
    ensures Edges(inputs + [x]) == if x.On() == (|Edges(inputs)| % 2 == 0) then Edges(inputs) + [x] else Edges(inputs)
  {
    InitLast(inputs, x);
  }

  lemma ModeNext(edges: seq<Input>, x: Input)
    ensures ModeOf(edges + [x]) == if NormalizeMode(x.mode) != "" then x.mode else ModeOf(edges)
  {
    InitLast(edges, x);
  }

  lemma PressesNext(edges: seq<Input>, x: Input)
    ensures Presses(edges + [x]) == if |edges| % 2 == 0 then Presses(edges)
                                    else Presses(edges) + [Press(Last(edges).at, x.at, ModeOf(edges + [x]), x.uniqueId)]
  {
    hide ModeOf;
    var all := edges + [x];
    InitLast(edges, x);
    assert |all| == |edges| + 1;
    assert |all| % 2 == 1 <==> |edges| % 2 == 0;
    assert Presses(all) == if |all| % 2 == 1 then Presses(Init(all))
                           else Presses(Init(all)) + [Press(Last(Init(all)).at, x.at, ModeOf(all), x.uniqueId)];
    hide Init, Last, Presses;
  }

  lemma PressDown(inputs: seq<Input>, x: Input, debounce: int)
    requires x.On() && |Edges(inputs)| % 2 == 0
    ensures var es, es' := Edges(inputs), Edges(inputs + [x]);
            && Presses(es') == Presses(es)
            && StateOf(es', debounce)
               == StateOf(es, debounce).(pressedAt := Some(x.at),
                                         mode := if NormalizeMode(x.mode) != "" then x.mode else ModeOf(es))
  {
    hide Edges, Presses, ModeOf, Kept, LastShortUp, ClickCount;
    EdgesNext(inputs, x);
    ModeNext(Edges(inputs), x);
    PressesNext(Edges(inputs), x);
  }

  lemma KeptNext(presses: seq<Press>, p: Press, debounce: int)
    ensures Kept(presses + [p], debounce)
         == if p.Duration() < debounce then Kept(presses, debounce) else Kept(presses, debounce) + [p]
  {
    InitLast(presses, p);
  }

  lemma ShortNext(kept: seq<Press>, p: Press)
    requires !p.IsHold()
    ensures LastShortUp(kept + [p]) == Some(p.up)
    ensures var up := LastShortUp(kept);
            ClickCount(kept + [p]) == if !p.CountsClicks() || up == None || p.up - up.value > MULTI_CLICK_WINDOW then 1
                                      else Min(4, ClickCount(kept) + 1)
  {
    InitLast(kept, p);
  }

  lemma HoldNext(kept: seq<Press>, p: Press)
    requires p.IsHold()
    ensures LastShortUp(kept + [p]) == LastShortUp(kept) && ClickCount(kept + [p]) == 0
  {
    InitLast(kept, p);
  }

  lemma OfNext(history: seq<Input>, x: Input, tag: string, index: int)
    ensures Of(history + [x], tag, index)
         == if x.tag == tag && x.index == index then Of(history, tag, index) + [x] else Of(history, tag, index)
  {
    InitLast(history, x);
  }

  lemma {:induction false} EventsOfConcat(events: seq<Event>, tag: string, uniqueId: string, index: int,
                                          actions: seq<string>, t: string, i: int)
    ensures EventsOf(events + Events(tag, uniqueId, index, actions), t, i)
         == if t == tag && i == index then EventsOf(events, t, i) + Events(tag, uniqueId, index, actions)
            else EventsOf(events, t, i)
    decreases |actions|
  {
    var out := Events(tag, uniqueId, index, actions);
    if actions == [] {
      assert out == [] && events + out == events;
    } else {
      var e := Event(tag, uniqueId, index, Last(actions));
      assert out == Events(tag, uniqueId, index, Init(actions)) + [e];
      EventsOfConcat(events, tag, uniqueId, index, Init(actions), t, i);
      assert events + out == (events + Events(tag, uniqueId, index, Init(actions))) + [e];
      InitLast(events + Events(tag, uniqueId, index, Init(actions)), e);
    }
  }

  // ------------------------------------------------------------------ the source

  function ButtonClickAction(clickCount: int): string {
    if clickCount <= 1 then "tip" else if clickCount == 2 then "tip2" else if clickCount == 3 then "tip3" else "tip4"
  }

  function MapButtonActionByMode(mode: string, index: int, action: string): string {
    if mode != "scene" then action
    else match action
      case "tip" => "scene5"
      case "tip2" => "scene0"
      case "tip3" => "scene18"
      case "tip4" => "scene17"
      case "hold" => if index % 2 == 0 then "scene43" else "scene42"
      case "dimup" => if index % 2 == 0 then "scene43" else "scene42"
      case "dimdown" => if index % 2 == 0 then "scene43" else "scene42"
      case _ => action
  }

  function ButtonDimRepeatAction(index: int): string {
    if index % 2 == 0 then "dimup" else "dimdown"
  }

  function ButtonRepeatCount(pressDuration: int): int {
    var extra := pressDuration - HOLD_THRESHOLD;
    if extra <= 0 then 1 else 1 + extra / DIM_REPEAT_INTERVAL
  }

  /** Of one button, the state is that of its edges and the events are those its presses stand for. */
  ghost predicate Tracks(states: map<string, ButtonState>, events: seq<Event>, history: seq<Input>, debounce: int,
                         tag: string, index: int)
  {
    var edges := Edges(Of(history, tag, index));
    && State(states, Key(tag, index)) == StateOf(edges, debounce)
    && EventsOf(events, tag, index) == Log(Kept(Presses(edges), debounce), tag, index)
  }

  function State(states: map<string, ButtonState>, key: string): ButtonState {
    if key in states then states[key] else UNTOUCHED
  }

  ghost predicate AllTracked(states: map<string, ButtonState>, events: seq<Event>, history: seq<Input>, debounce: int) {
    forall tag: string, index: int :: Tracks(states, events, history, debounce, tag, index)
  }

  lemma Tracked(states: map<string, ButtonState>, events: seq<Event>, history: seq<Input>, debounce: int, tag: string,
                index: int)
    requires AllTracked(states, events, history, debounce)
    ensures EventsOf(events, tag, index) == Log(Kept(Presses(Edges(Of(history, tag, index))), debounce), tag, index)
  {
    hide Of, Edges, Presses, Kept, StateOf, Log, EventsOf;
    assert Tracks(states, events, history, debounce, tag, index);
  }

  /** Handling one input of a button as that button's meaning demands leaves every other button alone. */
  lemma OthersUntouched(states: map<string, ButtonState>, states': map<string, ButtonState>, events: seq<Event>,
                        history: seq<Input>, debounce: int, x: Input, actions: seq<string>)
    requires AllTracked(states, events, history, debounce)
    requires forall k: string :: k != Key(x.tag, x.index) ==> State(states', k) == State(states, k)
    requires var es' := Edges(Of(history, x.tag, x.index) + [x]);
             && State(states', Key(x.tag, x.index)) == StateOf(es', debounce)
             && Log(Kept(Presses(es'), debounce), x.tag, x.index)
                == EventsOf(events, x.tag, x.index) + Events(x.tag, x.uniqueId, x.index, actions)
    ensures AllTracked(states', events + Events(x.tag, x.uniqueId, x.index, actions), history + [x], debounce)
  {
    hide Of, Edges, Presses, Kept, StateOf, Log, EventsOf, Events, Key;
    forall tag: string, index: int
      ensures Tracks(states', events + Events(x.tag, x.uniqueId, x.index, actions), history + [x], debounce, tag, index)
    {
      assert Tracks(states, events, history, debounce, tag, index);
      OfNext(history, x, tag, index);
      EventsOfConcat(events, x.tag, x.uniqueId, x.index, actions, tag, index);
      if tag != x.tag || index != x.index {
        if Key(tag, index) == Key(x.tag, x.index) { KeyIsInjective(tag, index, x.tag, x.index); }
      }
    }
  }

  function Following(kept: seq<Press>, p: Press, debounce: int): seq<Press> {
    if p.Duration() < debounce then kept else kept + [p]
  }

  /** The press a release ends, and what becomes of the button's state and events. */
  lemma ReleaseEnds(inputs: seq<Input>, x: Input, debounce: int, tag: string, index: int)
    requires !x.On() && |Edges(inputs)| % 2 == 1
    ensures var es, es' := Edges(inputs), Edges(inputs + [x]);
            var m := if NormalizeMode(x.mode) != "" then x.mode else ModeOf(es);
            var kept, p := Kept(Presses(es), debounce), Press(Last(es).at, x.at, m, x.uniqueId);
            && StateOf(es', debounce) == StateFrom(None, Following(kept, p, debounce), m)
            && NormalizeMode(m) == m
            && Log(Kept(Presses(es'), debounce), tag, index)
               == Log(kept, tag, index) +
                  if p.Duration() < debounce then [] else Events(tag, x.uniqueId, index, Actions(kept + [p], index))
  {
    hide Edges, Presses, ModeOf, Kept, Run, LastShortUp, StateFrom, Log;
    var es := Edges(inputs);
    EdgesNext(inputs, x);
    ModeNext(es, x);
    PressesNext(es, x);
    var p := Press(Last(es).at, x.at, ModeOf(es + [x]), x.uniqueId);
    KeptNext(Presses(es), p, debounce);
    LogNext(Kept(Presses(es), debounce), p, tag, index);
  }

  lemma LogNext(kept: seq<Press>, p: Press, tag: string, index: int)
    ensures Log(kept + [p], tag, index)
         == Log(kept, tag, index) + Events(tag, p.uniqueId, index, Actions(kept + [p], index))
    ensures Last(kept + [p]) == p
  {
    InitLast(kept, p);
  }

  lemma ClickAction(presses: seq<Press>, x: Input)
    requires presses != [] && !Last(presses).IsHold()
    ensures Events(x.tag, x.uniqueId, x.index, Actions(presses, x.index))
         == [Event(x.tag, x.uniqueId, x.index, ClickName(Last(presses).mode, ClickCount(presses)))]
  {
  }

  /** What a hold emits: itself except in a dimmer, and its dim steps outside scenes and single buttons. */
  lemma HoldActions(presses: seq<Press>, index: int)
    requires presses != [] && Last(presses).IsHold() && NormalizeMode(Last(presses).mode) == Last(presses).mode
    ensures var p := Last(presses);
            var head := if p.mode == "dimmer" then [] else [MapButtonActionByMode(p.mode, index, "hold")];
            var dim := MapButtonActionByMode(p.mode, index, ButtonDimRepeatAction(index));
            Actions(presses, index) == if p.mode == "scene" || p.mode == "single" then head
                                       else head + Times(ButtonRepeatCount(p.Duration()), dim)
  {
    var p := Last(presses);
    hide Run, MapButtonActionByMode, Last;
    RepeatCounts(p.Duration());
    MapsByMode(p.mode, index);
    hide Repeats, ButtonRepeatCount;
    hide Times, NormalizeMode;
  }

  lemma RepeatCounts(d: int)
    requires d >= HOLD_THRESHOLD
    ensures ButtonRepeatCount(d) == Repeats(d)
  {
  }

  /** What the vocabulary of the mode makes of a hold and its dim steps. */
  lemma MapsByMode(mode: string, index: int)
    ensures MapButtonActionByMode(mode, index, "hold") == HoldName(mode, index)
    ensures mode != "scene" ==>
              MapButtonActionByMode(mode, index, ButtonDimRepeatAction(index)) == ButtonDimRepeatAction(index)
    ensures mode == "scene" ==>
              forall action | action in {"hold", "dimup", "dimdown"} ::
                MapButtonActionByMode(mode, index, action) == if index % 2 == 0 then "scene43" else "scene42"
  {
  }

  lemma EventsNext(x: Input, actions: seq<string>, action: string)
    ensures Events(x.tag, x.uniqueId, x.index, actions + [action])
         == Events(x.tag, x.uniqueId, x.index, actions) + [Event(x.tag, x.uniqueId, x.index, action)]
  {
  }

  lemma NoActions(x: Input)
    ensures Events(x.tag, x.uniqueId, x.index, []) == []
  {
  }

  class Connector {
    var buttonStates: map<string, ButtonState>
    var events: seq<Event>
    const debounce: int
    ghost var history: seq<Input>

    ghost predicate Valid()
      reads this
    {
      AllTracked(buttonStates, events, history, debounce)
    }

    constructor (debounce: int)
      ensures Valid() && history == [] && events == [] && this.debounce == debounce
    {
      buttonStates, events, history := map[], [], [];
      this.debounce := debounce;
    }

    method EmitEvent(e: Event)
      modifies `events
      ensures events == old(events) + [e]
    {
      events := events + [e];
    }

    /** A press longer than the hold threshold has ended. */
    method EmitHold(x: Input, mode: string, pressDuration: int, ghost presses: seq<Press>)
      requires presses != [] && Last(presses).mode == mode == NormalizeMode(mode)
      requires Last(presses).Duration() == pressDuration >= HOLD_THRESHOLD
      modifies `events
      ensures events == old(events) + Events(x.tag, x.uniqueId, x.index, Actions(presses, x.index))
    {
      HoldActions(presses, x.index);
      hide Actions, Run, Events, Repeats;
      ghost var done: seq<string> := [];
      NoActions(x);
      var mappedHold := MapButtonActionByMode(mode, x.index, "hold");
      if mode != "dimmer" {
        EmitEvent(Event(x.tag, x.uniqueId, x.index, mappedHold));
        EventsNext(x, done, mappedHold);
        done := done + [mappedHold];
      }
      ghost var head := done;
      var repeatCount := ButtonRepeatCount(pressDuration);
      var repeatAction := ButtonDimRepeatAction(x.index);
      if mode == "dimmer" || mode == "default" || mode == "" {
        for i := 0 to repeatCount
          invariant done == head + Times(i, repeatAction)
          invariant events == old(events) + Events(x.tag, x.uniqueId, x.index, done)
        {
          var mappedRepeat := MapButtonActionByMode(mode, x.index, repeatAction);
          EmitEvent(Event(x.tag, x.uniqueId, x.index, mappedRepeat));
          EventsNext(x, done, mappedRepeat);
          done := done + [repeatAction];
        }
      }
    }

    /** The rest of emitButtonAction when a press ends. */
    method EndPress(x: Input, key: string, held: ButtonState, ghost kept: seq<Press>)
      requires held.pressedAt.Some? && held == StateFrom(held.pressedAt, kept, held.mode)
      requires NormalizeMode(held.mode) == held.mode
      modifies this`buttonStates, this`events
      ensures var p := Press(held.pressedAt.value, x.at, held.mode, x.uniqueId);
              && buttonStates == old(buttonStates)[key := StateFrom(None, Following(kept, p, debounce), held.mode)]
              && events == old(events) +
                   if p.Duration() < debounce then []
                   else Events(x.tag, x.uniqueId, x.index, Actions(kept + [p], x.index))
    {
      hide Run, LastShortUp, ClickCount;
      var state := held.(pressedAt := None);
      var pressDuration := x.at - held.pressedAt.value;
      if pressDuration < debounce {
        buttonStates := buttonStates[key := state];
        return;
      }
      ghost var p := Press(held.pressedAt.value, x.at, held.mode, x.uniqueId);
      InitLast(kept, p);
      if pressDuration >= HOLD_THRESHOLD {
        HoldNext(kept, p);
        state := state.(clickCount := 0);
        buttonStates := buttonStates[key := state];
        EmitHold(x, state.mode, pressDuration, kept + [p]);
        return;
      }
      ShortNext(kept, p);
      var multiClickEnabled := state.mode != "single" && state.mode != "dimmer";
      if !multiClickEnabled {
        state := state.(clickCount := 1);
      } else if state.lastRelease == None || x.at - state.lastRelease.value > MULTI_CLICK_WINDOW {
        state := state.(clickCount := 1);
      } else {
        state := state.(clickCount := state.clickCount + 1);
        if state.clickCount > 4 {
          state := state.(clickCount := 4);
        }
      }
      state := state.(lastRelease := Some(x.at));
      var mappedAction := MapButtonActionByMode(state.mode, x.index, ButtonClickAction(state.clickCount));
      buttonStates := buttonStates[key := state];
      EmitEvent(Event(x.tag, x.uniqueId, x.index, mappedAction));
      ClickAction(kept + [p], x);
    }

    /** emitButtonAction, for the button at hand: inputs are those it has had before. */
    method EmitForButton(x: Input, ghost inputs: seq<Input>) returns (ghost actions: seq<string>)
      requires State(buttonStates, Key(x.tag, x.index)) == StateOf(Edges(inputs), debounce)
      modifies this`buttonStates, this`events
      ensures || buttonStates == old(buttonStates)
              || buttonStates == old(buttonStates)[Key(x.tag, x.index) := StateOf(Edges(inputs + [x]), debounce)]
      ensures State(buttonStates, Key(x.tag, x.index)) == StateOf(Edges(inputs + [x]), debounce)
      ensures events == old(events) + Events(x.tag, x.uniqueId, x.index, actions)
      ensures Log(Kept(Presses(Edges(inputs + [x])), debounce), x.tag, x.index)
           == Log(Kept(Presses(Edges(inputs)), debounce), x.tag, x.index) + Events(x.tag, x.uniqueId, x.index, actions)
    {
      hide Edges, Presses, Kept, Log, Key, Run, ModeOf, LastShortUp, ClickCount, Events;
      NoActions(x);
      actions := [];
      var key := Key(x.tag, x.index);
      var state := State(buttonStates, key);
      if NormalizeMode(x.mode) != "" {
        state := state.(mode := x.mode);
      }
      var pressed := x.value > 0.0;
      if pressed {
        if state.pressedAt == None {
          PressDown(inputs, x, debounce);
          state := state.(pressedAt := Some(x.at));
          buttonStates := buttonStates[key := state];
        } else {
          EdgesNext(inputs, x);
        }
        return;
      }
      if state.pressedAt == None {
        EdgesNext(inputs, x);
        return;
      }
      ReleaseEnds(inputs, x, debounce, x.tag, x.index);
      ghost var kept := Kept(Presses(Edges(inputs)), debounce);
      ghost var p := Press(state.pressedAt.value, x.at, state.mode, x.uniqueId);
      if p.Duration() >= debounce { actions := Actions(kept + [p], x.index); }
      EndPress(x, key, state, kept);
    }

    /** emitButtonAction at time x.at. */
    method EmitButtonAction(x: Input)
      requires Valid()
      modifies this
      ensures Valid() && history == old(history) + [x] && old(events) <= events
      ensures forall tag: string, index: int :: EventsOf(events, tag, index)
                == Log(Kept(Presses(Edges(Of(history, tag, index))), debounce), tag, index)
    {
      assert Tracks(buttonStates, events, history, debounce, x.tag, x.index);
      hide Of, Edges, Presses, Kept, Log, EventsOf, Key, AllTracked, Events, StateOf;
      ghost var actions := EmitForButton(x, Of(history, x.tag, x.index));
      OthersUntouched(old(buttonStates), buttonStates, old(events), old(history), debounce, x, actions);
      history := history + [x];
      forall tag: string, index: int
        ensures EventsOf(events, tag, index)
             == Log(Kept(Presses(Edges(Of(history, tag, index))), debounce), tag, index)
      {
        Tracked(buttonStates, events, history, debounce, tag, index);
      }
    }
  }
}
