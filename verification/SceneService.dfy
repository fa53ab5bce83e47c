/** Saving and recalling scenes (pkg/vdcapi/method_service.go, control.go, pbuf_scene_actions.go).

    A snapshot of the device store is the sequence of its entries in the order in which the map
    happens to be ranged over. `derive` is the derivation of a dSUID from a device's identity. */
module SceneService {
  import opened Options
  import opened SeqFacts
  import opened Text
  import opened Scenes

  datatype Device = Device(key: string, uniqueId: string, output: string, channels: map<int, real>)

  type Snapshot = seq<Device>

  /** A command that reached a device. */
  datatype Call =
    | SetLightLevel(uniqueId: string, level: real)
    | SetChannel(uniqueId: string, channel: int, value: real)
    | NativeScene(uniqueId: string, scene: int)

  datatype Naming = Naming(vdcDsuid: string, derive: string -> string) {
    function Dsuid(d: Device): (dsuid: string)
      ensures TrimSpace(d.uniqueId) != "" ==> dsuid == derive(TrimSpace(d.uniqueId))
      ensures TrimSpace(d.uniqueId) == "" ==> dsuid == derive(d.key)
    {
      derive(if TrimSpace(d.uniqueId) == "" then d.key else TrimSpace(d.uniqueId))
    }
  }

  function ClampLevel(v: real): (r: real)
    ensures 0.0 <= r <= 100.0
    ensures 0.0 <= v <= 100.0 ==> r == v
    ensures (v < 0.0 ==> r == 0.0) && (v > 100.0 ==> r == 100.0)
  {
    if v < 0.0 then 0.0 else if v > 100.0 then 100.0 else v
  }

  predicate IsLightOutput(output: string) {
    var o := TrimSpace(output);
    o == "" || EqualFold(o, "light") || EqualFold(o, "colorlight") || EqualFold(o, "movinglight")
  }

  datatype SceneAction = SetLevel(level: real) | DimUp | DimDown | Stop | Ignore

  /** sceneBrightnessLevels. */
  function SceneBrightness(scene: int): Option<real> {
    match scene
    case 0 | 1 | 2 | 3 | 4 => Some(0.0)
    case 5 | 6 | 7 | 8 | 9 => Some(100.0)
    case 13 => Some(1.0)
    case 14 => Some(100.0)
    case 17 | 20 | 23 | 26 | 29 => Some(75.0)
    case 18 | 21 => Some(50.0)
    case 19 | 22 => Some(25.0)
    case 24 | 27 | 30 => Some(65.0)
    case 25 => Some(64.0)
    case 28 | 31 => Some(25.0)
    case 32 | 34 | 36 | 38 | 40 => Some(0.0)
    case 33 | 35 | 37 | 39 => Some(100.0)
    case 50 | 64 | 67 | 68 | 69 | 72 => Some(0.0)
    case 51 | 65 | 70 | 71 | 74 | 75 | 76 => Some(100.0)
    case _ => None
  }

  function MapSceneAction(scene: int): SceneAction {
    if SceneBrightness(scene).Some? then SetLevel(SceneBrightness(scene).value)
    else if scene in {11, 42, 44, 46, 48} then DimDown
    else if scene in {12, 43, 45, 47, 49} then DimUp
    else if scene in {15, 52, 53, 54, 55} then Stop
    else Ignore
  }

  /** The table, the other way round: which scenes set a light to which brightness. */
  lemma ActionSetsLevel(scene: int)
    ensures StaticLevel(scene) == match MapSceneAction(scene)
                                  case SetLevel(level) => Some(level)
                                  case DimUp => Some(100.0)
                                  case DimDown => Some(0.0)
                                  case Stop => None
                                  case Ignore => None
    ensures MapSceneAction(scene) == Stop <==> scene in {15, 52, 53, 54, 55}
  {
  }

  // -------------------------------------------------------------- addressing

  predicate NamesAll(n: Naming, targets: seq<string>) {
    exists i :: 0 <= i < |targets| &&
      (TrimSpace(targets[i]) == "" || EqualFold(targets[i], "root") || EqualFold(targets[i], n.vdcDsuid))
  }

  predicate Wanted(n: Naming, targets: seq<string>, d: Device) {
    && IsLightOutput(d.output)
    && exists i :: 0 <= i < |targets| && TrimSpace(targets[i]) != "" && EqualFold(n.Dsuid(d), TrimSpace(targets[i]))
  }

  predicate HasUniqueId(ds: Snapshot, uniqueId: string) {
    exists i :: 0 <= i < |ds| && ds[i].uniqueId == uniqueId
  }

  function Lights(ds: Snapshot): Snapshot {
    if ds == [] then []
    else Lights(Init(ds)) + if IsLightOutput(Last(ds).output) then [Last(ds)] else []
  }

  /** The wanted lights, each unique id once. */
  function Chosen(n: Naming, targets: seq<string>, ds: Snapshot): Snapshot {
    if ds == [] then []
    else
      var before := Chosen(n, targets, Init(ds));
      if Wanted(n, targets, Last(ds)) && !HasUniqueId(before, Last(ds).uniqueId) then before + [Last(ds)] else before
  }

  function Resolved(n: Naming, targets: seq<string>, all: bool, ds: Snapshot): Snapshot {
    if all || NamesAll(n, targets) then Lights(ds) else Chosen(n, targets, ds)
  }

  /** The first device that goes by this dSUID. */
  function Named(n: Naming, target: string, ds: Snapshot): Option<Device> {
    if ds == [] then None
    else if EqualFold(n.Dsuid(ds[0]), target) then Some(ds[0])
    else Named(n, target, ds[1..])
  }

  // ------------------------------------------------------------ what a recall does

  function Eligible(e: Entry): set<int> {
    set ch | ch in e.channels && !e.channels[ch].dontCare
  }

  /** The stored scene is used rather than the static table. */
  predicate Recallable(scenes: Scenes, target: string, scene: int) {
    var e := Lookup(scenes, target, scene);
    e.Some? && !e.value.dontCare && Eligible(e.value) != {}
  }

  function LevelCalls(ds: Snapshot, level: real): seq<Call> {
    seq(|ds|, i requires 0 <= i < |ds| => SetLightLevel(ds[i].uniqueId, ClampLevel(level)))
  }

  function ChannelCalls(n: Naming, target: string, ds: Snapshot, ch: int, value: real): seq<Call> {
    if ch == 0 then LevelCalls(Resolved(n, [target], false, ds), value)
    else match Named(n, target, ds)
      case None => []
      case Some(d) => [SetChannel(d.uniqueId, ch, value)]
  }

  /** The channels of a scene driven in this order. */
  function RecallCalls(n: Naming, target: string, ds: Snapshot, e: Entry, order: seq<int>): seq<Call>
    requires forall i :: 0 <= i < |order| ==> order[i] in e.channels
  {
    if order == [] then []
    else
      var last := Last(order);
      RecallCalls(n, target, ds, e, Init(order)) + ChannelCalls(n, target, ds, last, e.channels[last].value)
  }

  predicate Enumerates(order: seq<int>, channels: set<int>) {
    && (forall i, j :: 0 <= i < j < |order| ==> order[i] != order[j])
    && (forall i :: 0 <= i < |order| ==> order[i] in channels)
    && (forall ch :: ch in channels ==> ch in order)
  }

  /** The brightness of a scene in the static table; None for a scene that changes nothing. */
  function StaticLevel(scene: int): Option<real> {
    if scene in {0, 1, 2, 3, 4, 32, 34, 36, 38, 40, 50, 64, 67, 68, 69, 72} then Some(0.0)
    else if scene in {5, 6, 7, 8, 9, 14, 33, 35, 37, 39, 51, 65, 70, 71, 74, 75, 76} then Some(100.0)
    else if scene == 13 then Some(1.0)
    else if scene in {17, 20, 23, 26, 29} then Some(75.0)
    else if scene in {24, 27, 30} then Some(65.0)
    else if scene == 25 then Some(64.0)
    else if scene in {18, 21} then Some(50.0)
    else if scene in {19, 22, 28, 31} then Some(25.0)
    else if scene in {11, 42, 44, 46, 48} then Some(0.0)
    else if scene in {12, 43, 45, 47, 49} then Some(100.0)
    else None
  }

  function StaticCalls(ds: Snapshot, scene: int, level: real, native: (string, int) -> bool): seq<Call> {
    seq(|ds|, i requires 0 <= i < |ds| =>
      if native(ds[i].uniqueId, scene) then NativeScene(ds[i].uniqueId, scene)
      else SetLightLevel(ds[i].uniqueId, ClampLevel(level)))
  }

  function StaticScene(n: Naming, targets: seq<string>, all: bool, ds: Snapshot, scene: int,
                       native: (string, int) -> bool): seq<Call>
  {
    match StaticLevel(scene)
    case None => []
    case Some(level) => StaticCalls(Resolved(n, targets, all, ds), scene, level, native)
  }

  /** The commands that answer a scene call to one target: its stored scene if that is
      recallable, and the static table exactly when it is not. */
  ghost predicate Answers(n: Naming, native: (string, int) -> bool, scenes: Scenes, ds: Snapshot, target: string,
                          scene: int, calls: seq<Call>)
  {
    if Recallable(scenes, target, scene) then
      var e := Lookup(scenes, target, scene).value;
      exists order :: Enumerates(order, Eligible(e)) && calls == RecallCalls(n, target, ds, e, order)
    else calls == StaticScene(n, [target], false, ds, scene, native)
  }

  /** The writes a save notification makes. */
  function SaveWrites(n: Naming, targets: seq<string>, all: bool, scene: int, ds: Snapshot): seq<Write> {
    if all then seq(|ds|, i requires 0 <= i < |ds| => Save(n.Dsuid(ds[i]), scene, ds[i].channels))
    else if targets == [] then []
    else
      SaveWrites(n, Init(targets), false, scene, ds) +
      match Named(n, Last(targets), ds)
      case None => []
      case Some(d) => [Save(Last(targets), scene, d.channels)]
  }

  // ---------------------------------------------------------- one device, one name

  /** The device at i alone goes by this dSUID. */
  predicate OnlyDevice(n: Naming, target: string, ds: Snapshot, i: nat) {
    i < |ds| && forall j :: 0 <= j < |ds| ==> (EqualFold(n.Dsuid(ds[j]), target) <==> j == i)
  }

  /** A proper device address, naming neither the root nor the vDC. */
  predicate IsDeviceAddress(n: Naming, target: string) {
    target != "" && TrimSpace(target) == target && !EqualFold(target, "root") && !EqualFold(target, n.vdcDsuid)
  }

  lemma {:induction false} OnlyNamed(n: Naming, target: string, ds: Snapshot, i: nat)
    requires OnlyDevice(n, target, ds, i)
    ensures Named(n, target, ds) == Some(ds[i])
    decreases ds
  {
    if i > 0 {
      forall j | 0 <= j < |ds[1..]| ensures EqualFold(n.Dsuid(ds[1..][j]), target) <==> j == i - 1 {
        assert ds[1..][j] == ds[j + 1];
      }
      OnlyNamed(n, target, ds[1..], i - 1);
    }
  }

  lemma WantedIsNamed(n: Naming, target: string, d: Device)
    requires IsDeviceAddress(n, target)
    ensures Wanted(n, [target], d) <==> IsLightOutput(d.output) && EqualFold(n.Dsuid(d), target)
    ensures !NamesAll(n, [target])
  {
    var ts := [target];
    assert ts[0] == target;
  }

  lemma {:induction false} NoneChosen(n: Naming, targets: seq<string>, ds: Snapshot)
    requires forall j :: 0 <= j < |ds| ==> !Wanted(n, targets, ds[j])
    ensures Chosen(n, targets, ds) == []
  {
    if ds != [] { NoneChosen(n, targets, Init(ds)); }
  }

  lemma {:induction false} OnlyChosen(n: Naming, targets: seq<string>, ds: Snapshot, i: nat)
    requires i < |ds| && forall j :: 0 <= j < |ds| ==> (Wanted(n, targets, ds[j]) <==> j == i)
    ensures Chosen(n, targets, ds) == [ds[i]]
  {
    if i == |ds| - 1 {
      NoneChosen(n, targets, Init(ds));
    } else {
      OnlyChosen(n, targets, Init(ds), i);
    }
  }

  lemma OnlyResolved(n: Naming, target: string, ds: Snapshot, i: nat)
    requires OnlyDevice(n, target, ds, i) && IsDeviceAddress(n, target) && IsLightOutput(ds[i].output)
    ensures Resolved(n, [target], false, ds) == [ds[i]]
  {
    forall j | 0 <= j < |ds| ensures Wanted(n, [target], ds[j]) <==> j == i {
      WantedIsNamed(n, target, ds[j]);
    }
    WantedIsNamed(n, target, ds[i]);
    OnlyChosen(n, [target], ds, i);
  }

  /** The one command that puts a channel of a device to a value. */
  function Drive(uniqueId: string, ch: int, value: real): Call {
    if ch == 0 then SetLightLevel(uniqueId, ClampLevel(value)) else SetChannel(uniqueId, ch, value)
  }

  /** Each command of a recall puts its channel to the saved value. */
  ghost predicate SetsEach(sent: seq<Call>, uniqueId: string, e: Entry, order: seq<int>) {
    && |sent| == |order|
    && forall k :: 0 <= k < |sent| ==>
         && order[k] in e.channels
         && var value := e.channels[order[k]].value;
            sent[k] == if order[k] == 0 then SetLightLevel(uniqueId, ClampLevel(value))
                       else SetChannel(uniqueId, order[k], value)
  }

  lemma ChannelDrives(n: Naming, target: string, ds: Snapshot, i: nat, ch: int, value: real)
    requires OnlyDevice(n, target, ds, i) && IsDeviceAddress(n, target) && IsLightOutput(ds[i].output)
    ensures ChannelCalls(n, target, ds, ch, value) == [Drive(ds[i].uniqueId, ch, value)]
  {
    OnlyResolved(n, target, ds, i);
    OnlyNamed(n, target, ds, i);
  }

  /** To one light, a recall is one command for each channel in turn. */
  lemma {:induction false} RecallDrives(n: Naming, target: string, ds: Snapshot, i: nat, e: Entry, order: seq<int>)
    requires OnlyDevice(n, target, ds, i) && IsDeviceAddress(n, target) && IsLightOutput(ds[i].output)
    requires forall j :: 0 <= j < |order| ==> order[j] in e.channels
    ensures SetsEach(RecallCalls(n, target, ds, e, order), ds[i].uniqueId, e, order)
  {
    if order != [] {
      RecallDrives(n, target, ds, i, e, Init(order));
      ChannelDrives(n, target, ds, i, Last(order), e.channels[Last(order)].value);
    }
  }

  lemma UniqueIdNext(ds: Snapshot, d: Device)
    ensures forall id :: HasUniqueId(ds + [d], id) <==> HasUniqueId(ds, id) || id == d.uniqueId
  {
    forall id ensures HasUniqueId(ds + [d], id) <==> HasUniqueId(ds, id) || id == d.uniqueId {
      assert (ds + [d])[|ds|] == d;
      assert forall i :: 0 <= i < |ds| ==> (ds + [d])[i] == ds[i];
    }
  }

  lemma NoChannels(n: Naming, target: string, ds: Snapshot, e: Entry)
    ensures RecallCalls(n, target, ds, e, []) == [] && Eligible(e) - e.channels.Keys == {}
  {
  }

  lemma NextChannel(n: Naming, target: string, ds: Snapshot, e: Entry, order: seq<int>, ch: int)
    requires ch in e.channels && forall i :: 0 <= i < |order| ==> order[i] in e.channels
    ensures RecallCalls(n, target, ds, e, order + [ch])
         == RecallCalls(n, target, ds, e, order) + ChannelCalls(n, target, ds, ch, e.channels[ch].value)
  {
    InitLast(order, ch);
  }

  lemma EnumeratesNothing(order: seq<int>, channels: set<int>)
    requires Enumerates(order, channels)
    ensures order == [] <==> channels == {}
  {
    if channels != {} { HasMember(channels); }
    if order != [] { assert order[0] in channels; }
  }

  lemma OneSave(n: Naming, target: string, scene: int, ds: Snapshot, i: nat)
    requires OnlyDevice(n, target, ds, i)
    ensures SaveWrites(n, [target], false, scene, ds) == [Save(target, scene, ds[i].channels)]
  {
    OnlyNamed(n, target, ds, i);
    assert Init([target]) == [];
  }

  lemma NoWrites(scenes: Scenes)
    ensures ApplyAll(scenes, []) == scenes
  {
  }

  lemma OneBlock(block: seq<Call>)
    ensures Flat([block]) == block
  {
    assert Init([block]) == [];
  }

  lemma SavedSceneIsThere(scenes: Scenes, target: string, scene: int, saved: map<int, real>, edits: seq<Write>)
    requires forall k, ch :: 0 <= k < |edits| && ch in saved ==> !Overwrites(edits[k], target, scene, ch)
    ensures var e := Lookup(ApplyAll(ApplyAll(scenes, [Save(target, scene, saved)]), edits), target, scene);
            && e.Some?
            && forall ch :: ch in saved ==> ch in e.value.channels && e.value.channels[ch].value == saved[ch]
  {
    var w := Save(target, scene, saved);
    assert ApplyAll(scenes, [w]) == Apply(scenes, w) by { ApplyNext(scenes, [], w); assert [] + [w] == [w]; }
    WritesElsewhere(scenes, w, target, scene);
    PresentStays(Apply(scenes, w), edits, target, scene);
    forall ch | ch in saved ensures Holds(ApplyAll(Apply(scenes, w), edits), target, scene, ch, saved[ch]) {
      SavedValuesSurvive(scenes, target, scene, saved, edits, ch);
    }
  }

  /** The device is found under any spelling of its dSUID, but a scene saved under one is
      recallable under another only by that very string, and then if anything is eligible. */
  lemma SpellingDecidesRecall(n: Naming, scenes: Scenes, saved: string, target: string, scene: int, ds: Snapshot,
                              i: nat)
    requires OnlyDevice(n, saved, ds, i) && EqualFold(saved, target)
    requires target != saved ==> Lookup(scenes, target, scene) == None
    ensures Named(n, saved, ds) == Named(n, target, ds) == Some(ds[i])
    ensures var w := Save(saved, scene, ds[i].channels);
            var e := Written(Current(scenes, saved, scene), w);
            Recallable(Apply(scenes, w), target, scene) <==> target == saved && !e.dontCare && Eligible(e) != {}
  {
    OnlyNamed(n, saved, ds, i);
    assert OnlyDevice(n, target, ds, i);
    OnlyNamed(n, target, ds, i);
    WritesElsewhere(scenes, Save(saved, scene, ds[i].channels), target, scene);
  }

  /** So the recall of a scene just saved under another spelling gets the static table. */
  lemma OtherSpellingIsMissed(n: Naming, native: (string, int) -> bool, scenes: Scenes, saved: string, target: string,
                              scene: int, ds: Snapshot, i: nat, calls: seq<Call>)
    requires OnlyDevice(n, saved, ds, i) && EqualFold(saved, target) && saved != target
    requires Lookup(scenes, target, scene) == None
    ensures Answers(n, native, Apply(scenes, Save(saved, scene, ds[i].channels)), ds, target, scene, calls)
       <==> calls == StaticScene(n, [target], false, ds, scene, native)
  {
    SpellingDecidesRecall(n, scenes, saved, target, scene, ds, i);
    hide StaticScene, Recallable;
  }

  const DESK_LAMP := Device("uid:ab12", "ab12", "light", map[0 := 40.0])
  const UPPER_CASE := "AB12"
  const LOWER_CASE := "ab12"

  lemma SameWord()
    ensures EqualFold(UPPER_CASE, LOWER_CASE) && !EqualFold(UPPER_CASE, "root") && IsLightOutput("light")
    ensures TrimSpace(UPPER_CASE) == UPPER_CASE && TrimSpace(LOWER_CASE) == LOWER_CASE
  {
    assert Fold(UPPER_CASE)[0] == 'a' && Fold("root")[0] == 'r';
  }

  lemma {:induction false} EnumeratesEach(order: seq<int>, channels: set<int>)
    requires Enumerates(order, channels)
    ensures |order| == |channels|
  {
    if order == [] {
      EnumeratesNothing(order, channels);
    } else {
      var last := Last(order);
      forall ch | ch in channels - {last} ensures ch in Init(order) {
        var i :| 0 <= i < |order| && order[i] == ch;
        assert Init(order)[i] == ch;
      }
      EnumeratesEach(Init(order), channels - {last});
    }
  }

  lemma OnlyOrder(order: seq<int>, ch: int)
    requires Enumerates(order, {ch})
    ensures order == [ch]
  {
    EnumeratesEach(order, {ch});
    assert order[0] in {ch};
  }

  /** The recall of a scene with one eligible channel, to a light addressed properly. */
  lemma OneChannelRecall(n: Naming, native: (string, int) -> bool, scenes: Scenes, ds: Snapshot, target: string,
                         scene: int, ch: int, calls: seq<Call>)
    requires OnlyDevice(n, target, ds, 0) && IsDeviceAddress(n, target) && IsLightOutput(ds[0].output)
    requires Recallable(scenes, target, scene) && Eligible(Lookup(scenes, target, scene).value) == {ch}
    ensures Answers(n, native, scenes, ds, target, scene, calls)
       <==> calls == [Drive(ds[0].uniqueId, ch, Lookup(scenes, target, scene).value.channels[ch].value)]
  {
    var e := Lookup(scenes, target, scene).value;
    assert ch in Eligible(e);
    assert Enumerates([ch], Eligible(e));
    forall order | Enumerates(order, Eligible(e))
      ensures order == [ch] && RecallCalls(n, target, ds, e, order) == [Drive(ds[0].uniqueId, ch, e.channels[ch].value)]
    {
      OnlyOrder(order, ch);
      RecallDrives(n, target, ds, 0, e, order);
    }
    hide RecallCalls, Enumerates, Drive, Recallable;
    assert Enumerates([ch], Eligible(e))
        && RecallCalls(n, target, ds, e, [ch]) == [Drive(ds[0].uniqueId, ch, e.channels[ch].value)];
  }

  /** One lamp at 40 %, saved as scene 5 under the upper-case spelling of its dSUID: recalled so,
      it is set to 40 %; recalled under the lower-case one, to the table's 100 %. */
  lemma TwoSpellings(vdc: string, native: (string, int) -> bool, calls: seq<Call>)
    requires !EqualFold(UPPER_CASE, vdc) && !native("ab12", 5)
    ensures var n, ds := Naming(vdc, id => UPPER_CASE), [DESK_LAMP];
            var scenes := Apply(map[], Save(UPPER_CASE, 5, DESK_LAMP.channels));
            && (Answers(n, native, scenes, ds, UPPER_CASE, 5, calls) <==> calls == [SetLightLevel("ab12", 40.0)])
            && (Answers(n, native, scenes, ds, LOWER_CASE, 5, calls) <==> calls == [SetLightLevel("ab12", 100.0)])
  {
    var n, ds := Naming(vdc, id => UPPER_CASE), [DESK_LAMP];
    var scenes := Apply(map[], Save(UPPER_CASE, 5, DESK_LAMP.channels));
    SameWord();
    hide Fold, TrimSpace, IsLightOutput, Answers, StaticLevel;
    assert n.Dsuid(DESK_LAMP) == UPPER_CASE;
    assert OnlyDevice(n, UPPER_CASE, ds, 0) && OnlyDevice(n, LOWER_CASE, ds, 0);
    assert IsDeviceAddress(n, UPPER_CASE) && IsDeviceAddress(n, LOWER_CASE);
    var e := Lookup(scenes, UPPER_CASE, 5).value;
    assert e.channels == map[0 := ChannelValue(40.0, false)];
    assert Eligible(e) == {0};
    OneChannelRecall(n, native, scenes, ds, UPPER_CASE, 5, 0, calls);
    OtherSpellingIsMissed(n, native, map[], UPPER_CASE, LOWER_CASE, 5, ds, 0, calls);
    OnlyResolved(n, LOWER_CASE, ds, 0);
    TableSetsFull(n, native, ds);
  }

  lemma TableSetsFull(n: Naming, native: (string, int) -> bool, ds: Snapshot)
    requires ds == [DESK_LAMP] && !native("ab12", 5) && Resolved(n, [LOWER_CASE], false, ds) == ds
    ensures StaticScene(n, [LOWER_CASE], false, ds, 5, native) == [SetLightLevel("ab12", 100.0)]
  {
    assert StaticLevel(5) == Some(100.0);
  }

  // ------------------------------------------------------------------ the source

  /** The devices' side: what has been asked of them. Errors are only logged. */
  class Commander {
    var calls: seq<Call>
    const native: (string, int) -> bool

    constructor (native: (string, int) -> bool)
      ensures calls == [] && this.native == native
    {
      calls := [];
      this.native := native;
    }

    method SetLightLevel(uniqueId: string, level: real)
      modifies this
      ensures calls == old(calls) + [Call.SetLightLevel(uniqueId, level)]
    {
      calls := calls + [Call.SetLightLevel(uniqueId, level)];
    }

    method SetChannelValue(uniqueId: string, channel: int, value: real)
      modifies this
      ensures calls == old(calls) + [SetChannel(uniqueId, channel, value)]
    {
      calls := calls + [SetChannel(uniqueId, channel, value)];
    }

    /** Recalls a native scene, or reports that there is none. */
    method CallScene(uniqueId: string, scene: int) returns (ok: bool)
      modifies this
      ensures ok == native(uniqueId, scene)
      ensures calls == old(calls) + if ok then [NativeScene(uniqueId, scene)] else []
    {
      ok := native(uniqueId, scene);
      if ok { calls := calls + [NativeScene(uniqueId, scene)]; }
    }
  }

  lemma Grow<T>(s: seq<T>, i: nat)
    requires i < |s|
    ensures Init(s[..i + 1]) == s[..i] && Last(s[..i + 1]) == s[i] && s[..i + 1] == s[..i] + [s[i]]
  {
  }

  class MethodService {
    const naming: Naming
    const scenes: SceneStore
    const commander: Commander

    constructor (naming: Naming, scenes: SceneStore, commander: Commander)
      ensures this.naming == naming && this.scenes == scenes && this.commander == commander
    {
      this.naming, this.scenes, this.commander := naming, scenes, commander;
    }

    method ResolveNotificationTargets(targets: seq<string>, all: bool, ds: Snapshot) returns (result: Snapshot)
      ensures result == Resolved(naming, targets, all, ds)
    {
      var everyone := all;
      if !all {
        for i := 0 to |targets|
          invariant everyone <==> NamesAll(naming, targets[..i])
        {
          var t := targets[i];
          assert targets[..i + 1][i] == t;
          assert forall j :: 0 <= j < i ==> targets[..i + 1][j] == targets[..i][j];
          if TrimSpace(t) == "" || EqualFold(t, "root") || EqualFold(t, naming.vdcDsuid) {
            everyone := true;
          }
        }
        assert targets[..|targets|] == targets;
      }
      if everyone { result := AllLights(ds); } else { result := ChosenLights(targets, ds); }
    }

    static method AllLights(ds: Snapshot) returns (result: Snapshot)
      ensures result == Lights(ds)
    {
      result := [];
      for i := 0 to |ds|
        invariant result == Lights(ds[..i])
      {
        Grow(ds, i);
        if ds[i].output != "" && !IsLightOutput(ds[i].output) { continue; }
        result := result + [ds[i]];
      }
      assert ds[..|ds|] == ds;
    }

    method ChosenLights(targets: seq<string>, ds: Snapshot) returns (result: Snapshot)
      ensures result == Chosen(naming, targets, ds)
    {
      var targetSet := set t | t in targets && TrimSpace(t) != "" :: Fold(TrimSpace(t));
      var seen: set<string> := {};
      result := [];
      for i := 0 to |ds|
        invariant result == Chosen(naming, targets, ds[..i])
        invariant forall id :: id in seen <==> HasUniqueId(result, id)
      {
        Grow(ds, i);
        var d := ds[i];
        if d.output != "" && !IsLightOutput(d.output) { continue; }
        assert Fold(naming.Dsuid(d)) in targetSet <==> Wanted(naming, targets, d);
        if Fold(naming.Dsuid(d)) !in targetSet { continue; }
        if d.uniqueId in seen { continue; }
        seen := seen + {d.uniqueId};
        UniqueIdNext(result, d);
        result := result + [d];
      }
      assert ds[..|ds|] == ds;
    }

    method ResolveDeviceByDsuid(target: string, ds: Snapshot) returns (d: Option<Device>)
      ensures d == Named(naming, target, ds)
    {
      for i := 0 to |ds|
        invariant Named(naming, target, ds) == Named(naming, target, ds[i..])
      {
        assert ds[i..][0] == ds[i] && ds[i..][1..] == ds[i + 1..];
        if EqualFold(naming.Dsuid(ds[i]), target) { return Some(ds[i]); }
      }
      return None;
    }

    method ApplyLevelToNotificationTargets(targets: seq<string>, all: bool, value: real, ds: Snapshot)
      modifies commander
      ensures commander.calls == old(commander.calls) + LevelCalls(Resolved(naming, targets, all, ds), value)
    {
      var level := ClampLevel(value);
      var devices := ResolveNotificationTargets(targets, all, ds);
      for i := 0 to |devices|
        invariant commander.calls == old(commander.calls) + LevelCalls(devices, value)[..i]
      {
        commander.SetLightLevel(devices[i].uniqueId, level);
      }
    }

    method ApplySceneToTargets(targets: seq<string>, all: bool, scene: int, fallback: real, ds: Snapshot)
      modifies commander
      ensures commander.calls
           == old(commander.calls) + StaticCalls(Resolved(naming, targets, all, ds), scene, fallback, commander.native)
    {
      var level := ClampLevel(fallback);
      var devices := ResolveNotificationTargets(targets, all, ds);
      for i := 0 to |devices|
        invariant commander.calls == old(commander.calls) + StaticCalls(devices, scene, fallback, commander.native)[..i]
      {
        var ok := commander.CallScene(devices[i].uniqueId, scene);
        if ok { continue; }
        commander.SetLightLevel(devices[i].uniqueId, level);
      }
    }

    method ApplyStaticSceneAction(targets: seq<string>, all: bool, scene: int, ds: Snapshot)
      modifies commander
      ensures commander.calls == old(commander.calls) + StaticScene(naming, targets, all, ds, scene, commander.native)
    {
      ActionSetsLevel(scene);
      hide StaticLevel, MapSceneAction;
      match MapSceneAction(scene) {
        case SetLevel(level) => ApplySceneToTargets(targets, all, scene, level, ds);
        case DimUp => ApplySceneToTargets(targets, all, scene, 100.0, ds);
        case DimDown => ApplySceneToTargets(targets, all, scene, 0.0, ds);
        case Stop =>
        case Ignore =>
      }
    }

    /** One channel of a stored scene. */
    method ApplyChannel(target: string, ch: int, value: real, ds: Snapshot)
      modifies commander
      ensures commander.calls == old(commander.calls) + ChannelCalls(naming, target, ds, ch, value)
    {
      if ch == 0 {
        ApplyLevelToNotificationTargets([target], false, value, ds);
      } else {
        var dev := ResolveDeviceByDsuid(target, ds);
        if dev.Some? {
          commander.SetChannelValue(dev.value.uniqueId, ch, value);
        }
      }
    }

    /** The channels of a stored scene that are not flagged, in the order they are ranged over. */
    method ApplyEntry(target: string, entry: Entry, ds: Snapshot) returns (applied: bool, ghost order: seq<int>)
      modifies commander
      ensures Enumerates(order, Eligible(entry)) && (applied <==> Eligible(entry) != {})
      ensures commander.calls == old(commander.calls) + RecallCalls(naming, target, ds, entry, order)
    {
      applied, order := false, [];
      var todo := entry.channels.Keys;
      hide RecallCalls, ChannelCalls;
      NoChannels(naming, target, ds, entry);
      while todo != {}
        invariant todo <= entry.channels.Keys
        invariant Enumerates(order, Eligible(entry) - todo) && (applied <==> order != [])
        invariant commander.calls == old(commander.calls) + RecallCalls(naming, target, ds, entry, order)
      {
        HasMember(todo);
        var chIdx :| chIdx in todo;
        var ch := entry.channels[chIdx];
        todo := todo - {chIdx};
        if !ch.dontCare {
          ApplyChannel(target, chIdx, ch.value, ds);
          NextChannel(naming, target, ds, entry, order, chIdx);
          order := order + [chIdx];
          applied := true;
        }
      }
      assert Eligible(entry) - todo == Eligible(entry);
      EnumeratesNothing(order, Eligible(entry));
    }

    /** callScene. */
    method HandleCallSceneNotification(targets: seq<string>, all: bool, scene: int, ds: Snapshot)
      returns (ghost blocks: seq<seq<Call>>)
      modifies commander
      ensures commander.calls == old(commander.calls) + Flat(blocks)
      ensures if all || targets == [] then blocks == [StaticScene(naming, targets, all, ds, scene, commander.native)]
              else && |blocks| == |targets|
                   && forall i :: 0 <= i < |targets| ==>
                        Answers(naming, commander.native, scenes.scenes, ds, targets[i], scene, blocks[i])
    {
      if !all && |targets| > 0 {
        blocks := HandleEach(targets, scene, ds);
        return;
      }
      ApplyStaticSceneAction(targets, all, scene, ds);
      blocks := [StaticScene(naming, targets, all, ds, scene, commander.native)];
      OneBlock(blocks[0]);
    }

    method HandleEach(targets: seq<string>, scene: int, ds: Snapshot) returns (ghost blocks: seq<seq<Call>>)
      modifies commander
      ensures commander.calls == old(commander.calls) + Flat(blocks)
      ensures && |blocks| == |targets|
              && forall i :: 0 <= i < |targets| ==>
                   Answers(naming, commander.native, scenes.scenes, ds, targets[i], scene, blocks[i])
    {
      hide Answers;
      blocks := [];
      for i := 0 to |targets|
        invariant |blocks| == i
        invariant commander.calls == old(commander.calls) + Flat(blocks)
        invariant forall j :: 0 <= j < i ==>
                    Answers(naming, commander.native, scenes.scenes, ds, targets[j], scene, blocks[j])
      {
        ghost var block := HandleOne(targets[i], scene, ds);
        InitLast(blocks, block);
        blocks := blocks + [block];
      }
    }

    method HandleOne(target: string, scene: int, ds: Snapshot) returns (ghost block: seq<Call>)
      modifies commander
      ensures commander.calls == old(commander.calls) + block
      ensures Answers(naming, commander.native, scenes.scenes, ds, target, scene, block)
    {
      var entry := scenes.GetScene(target, scene);
      if entry.Some? && !entry.value.dontCare {
        ghost var order;
        var applied;
        applied, order := ApplyEntry(target, entry.value, ds);
        if applied {
          return RecallCalls(naming, target, ds, entry.value, order);
        }
      }
      ApplyStaticSceneAction([target], false, scene, ds);
      block := StaticScene(naming, [target], false, ds, scene, commander.native);
    }

    /** saveScene. */
    method HandleSaveSceneNotification(targets: seq<string>, all: bool, scene: int, ds: Snapshot)
      modifies scenes
      ensures scenes.scenes == ApplyAll(old(scenes.scenes), SaveWrites(naming, targets, all, scene, ds))
    {
      if all { SaveEveryDevice(scene, ds, targets); } else { SaveNamedDevices(targets, scene, ds); }
    }

    method SaveEveryDevice(scene: int, ds: Snapshot, ghost targets: seq<string>)
      modifies scenes
      ensures scenes.scenes == ApplyAll(old(scenes.scenes), SaveWrites(naming, targets, true, scene, ds))
    {
      ghost var writes: seq<Write> := [];
      hide ApplyAll, Apply;
      NoWrites(old(scenes.scenes));
      for i := 0 to |ds|
        invariant writes == SaveWrites(naming, targets, true, scene, ds)[..i]
        invariant scenes.scenes == ApplyAll(old(scenes.scenes), writes)
      {
        var w := Save(naming.Dsuid(ds[i]), scene, ds[i].channels);
        ApplyNext(old(scenes.scenes), writes, w);
        scenes.SaveScene(w.device, scene, ds[i].channels);
        writes := writes + [w];
      }
      assert writes == SaveWrites(naming, targets, true, scene, ds);
    }

    method SaveNamedDevices(targets: seq<string>, scene: int, ds: Snapshot)
      modifies scenes
      ensures scenes.scenes == ApplyAll(old(scenes.scenes), SaveWrites(naming, targets, false, scene, ds))
    {
      ghost var writes: seq<Write> := [];
      hide ApplyAll, Apply, Named;
      NoWrites(old(scenes.scenes));
      for i := 0 to |targets|
        invariant writes == SaveWrites(naming, targets[..i], false, scene, ds)
        invariant scenes.scenes == ApplyAll(old(scenes.scenes), writes)
      {
        Grow(targets, i);
        var dev := ResolveDeviceByDsuid(targets[i], ds);
        if dev.Some? {
          var w := Save(targets[i], scene, dev.value.channels);
          ApplyNext(old(scenes.scenes), writes, w);
          scenes.SaveScene(targets[i], scene, dev.value.channels);
          writes := writes + [w];
        }
      }
      assert targets[..|targets|] == targets;
    }

    /** A scene saved for a present light, edited in any way that stores no other value for the
        saved channels, and recalled later: the light is sent exactly the saved value of every
        channel not flagged by then. If the scene is not flagged itself, the static table answers
        only when every channel is flagged. */
    method SaveEditRecall(target: string, scene: int, ds: Snapshot, i: nat, edits: seq<Write>, ds': Snapshot, i': nat)
      returns (ghost sent: seq<Call>, ghost order: seq<int>)
      requires OnlyDevice(naming, target, ds, i) && OnlyDevice(naming, target, ds', i')
      requires IsDeviceAddress(naming, target) && IsLightOutput(ds'[i'].output)
      requires forall k, ch :: 0 <= k < |edits| && ch in ds[i].channels ==> !Overwrites(edits[k], target, scene, ch)
      modifies scenes, commander
      ensures commander.calls == old(commander.calls) + sent
      ensures scenes.scenes == ApplyAll(Apply(old(scenes.scenes), Save(target, scene, ds[i].channels)), edits)
      ensures Lookup(scenes.scenes, target, scene).Some?
      ensures var e := Lookup(scenes.scenes, target, scene).value;
              && (forall ch :: ch in ds[i].channels ==> ch in e.channels && e.channels[ch].value == ds[i].channels[ch])
              && if e.dontCare || Eligible(e) == {}
                 then sent == StaticScene(naming, [target], false, ds', scene, commander.native)
                 else Enumerates(order, Eligible(e)) && SetsEach(sent, ds'[i'].uniqueId, e, order)
    {
      ghost var before := scenes.scenes;
      hide StaticScene, RecallCalls, ApplyAll, SaveWrites, Overwrites, OnlyDevice, IsDeviceAddress, IsLightOutput;
      hide Flat, SetsEach;
      HandleSaveSceneNotification([target], false, scene, ds);
      OneSave(naming, target, scene, ds, i);
      scenes.Edit(edits);
      SavedSceneIsThere(before, target, scene, ds[i].channels, edits);
      var blocks := HandleCallSceneNotification([target], false, scene, ds');
      sent, order := blocks[0], [];
      assert blocks == [sent];
      OneBlock(sent);
      if Recallable(scenes.scenes, target, scene) {
        var e := Lookup(scenes.scenes, target, scene).value;
        order :| Enumerates(order, Eligible(e)) && sent == RecallCalls(naming, target, ds', e, order);
        RecallDrives(naming, target, ds', i', e, order);
      }
    }
  }
}
