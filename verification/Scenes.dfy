/** Stored scenes (pkg/vdcapi/scene_store.go), keyed by the dSUID string the caller used. */
module Scenes {
  import opened Options

  datatype ChannelValue = ChannelValue(value: real, dontCare: bool)

  datatype Entry = Entry(channels: map<int, ChannelValue>, effect: int, dontCare: bool, ignoreLocalPriority: bool)

  type Scenes = map<string, map<int, Entry>>

  const NO_ENTRY := Entry(map[], 0, false, false)
  const NO_VALUE := ChannelValue(0.0, false)

  /** One write to the store. */
  datatype Write =
    | Save(device: string, scene: int, saved: map<int, real>)
    | SetValue(device: string, scene: int, channel: int, value: real)
    | SetChannelDontCare(device: string, scene: int, channel: int, flag: bool)
    | SetEffect(device: string, scene: int, effect: int)
    | SetDontCare(device: string, scene: int, flag: bool)
    | SetIgnoreLocalPriority(device: string, scene: int, flag: bool)

  function Lookup(scenes: Scenes, device: string, scene: int): Option<Entry> {
    if device in scenes && scene in scenes[device] then Some(scenes[device][scene]) else None
  }

  function Current(scenes: Scenes, device: string, scene: int): Entry {
    match Lookup(scenes, device, scene) case Some(e) => e case None => NO_ENTRY
  }

  function ChannelOf(e: Entry, channel: int): ChannelValue {
    if channel in e.channels then e.channels[channel] else NO_VALUE
  }

  function SavedInto(e: Entry, saved: map<int, real>): Entry {
    e.(channels := map ch | ch in e.channels.Keys + saved.Keys ::
      if ch in saved then ChannelOf(e, ch).(value := saved[ch]) else ChannelOf(e, ch))
  }

  function Written(e: Entry, w: Write): Entry {
    match w
    case Save(_, _, saved) => SavedInto(e, saved)
    case SetValue(_, _, ch, v) => e.(channels := e.channels[ch := ChannelOf(e, ch).(value := v)])
    case SetChannelDontCare(_, _, ch, flag) => e.(channels := e.channels[ch := ChannelOf(e, ch).(dontCare := flag)])
    case SetEffect(_, _, effect) => e.(effect := effect)
    case SetDontCare(_, _, flag) => e.(dontCare := flag)
    case SetIgnoreLocalPriority(_, _, flag) => e.(ignoreLocalPriority := flag)
  }

  function Put(scenes: Scenes, device: string, scene: int, e: Entry): Scenes {
    scenes[device := (if device in scenes then scenes[device] else map[])[scene := e]]
  }

  function Apply(scenes: Scenes, w: Write): Scenes {
    Put(scenes, w.device, w.scene, Written(Current(scenes, w.device, w.scene), w))
  }

  function ApplyAll(scenes: Scenes, ws: seq<Write>): Scenes
    decreases ws
  {
    if ws == [] then scenes else ApplyAll(Apply(scenes, ws[0]), ws[1..])
  }

  lemma PutTwice(scenes: Scenes, device: string, scene: int, e: Entry, e': Entry)
    ensures Put(Put(scenes, device, scene, e), device, scene, e') == Put(scenes, device, scene, e')
  {
    var inner := if device in scenes then scenes[device] else map[];
    assert inner[scene := e][scene := e'] == inner[scene := e'];
    UpdateTwice(scenes, device, inner[scene := e], inner[scene := e']);
  }

  lemma UpdateTwice<K, V>(m: map<K, V>, k: K, v: V, v': V)
    ensures m[k := v][k := v'] == m[k := v']
  {
  }

  lemma UpdateSame<K, V>(m: map<K, V>, k: K)
    requires k in m
    ensures m[k := m[k]] == m
  {
  }

  // ------------------------------------------------------- what writes leave alone

  /** The write stores a value for this channel of this scene. */
  predicate Overwrites(w: Write, device: string, scene: int, channel: int) {
    && w.device == device && w.scene == scene
    && match w
       case Save(_, _, saved) => channel in saved
       case SetValue(_, _, ch, _) => ch == channel
       case _ => false
  }

  predicate Holds(scenes: Scenes, device: string, scene: int, channel: int, value: real) {
    var e := Lookup(scenes, device, scene);
    e.Some? && channel in e.value.channels && e.value.channels[channel].value == value
  }

  /** A write to one scene leaves every other scene as it was. */
  lemma WritesElsewhere(scenes: Scenes, w: Write, device: string, scene: int)
    ensures Lookup(Apply(scenes, w), device, scene)
         == if w.device == device && w.scene == scene then Some(Written(Current(scenes, device, scene), w))
            else Lookup(scenes, device, scene)
  {
  }

  lemma {:induction false} ValueSurvives(scenes: Scenes, ws: seq<Write>, device: string, scene: int, channel: int,
                                         value: real)
    requires Holds(scenes, device, scene, channel, value)
    requires forall i :: 0 <= i < |ws| ==> !Overwrites(ws[i], device, scene, channel)
    ensures Holds(ApplyAll(scenes, ws), device, scene, channel, value)
    decreases ws
  {
    if ws != [] {
      WritesElsewhere(scenes, ws[0], device, scene);
      assert !Overwrites(ws[0], device, scene, channel);
      ValueSurvives(Apply(scenes, ws[0]), ws[1..], device, scene, channel, value);
    }
  }

  /** Saved values stay in force until something else writes those channels of that scene:
      other devices, other scenes, other channels, flags and effects do not disturb them. */
  lemma SavedValuesSurvive(scenes: Scenes, device: string, scene: int, saved: map<int, real>, ws: seq<Write>,
                           channel: int)
    requires channel in saved
    requires forall w :: w in ws && w.device == device && w.scene == scene ==>
               !(w.Save? && channel in w.saved) && !(w.SetValue? && w.channel == channel)
    ensures Holds(ApplyAll(Apply(scenes, Save(device, scene, saved)), ws), device, scene, channel, saved[channel])
  {
    WritesElsewhere(scenes, Save(device, scene, saved), device, scene);
    forall i | 0 <= i < |ws| ensures !Overwrites(ws[i], device, scene, channel) {
      assert ws[i] in ws;
    }
    ValueSurvives(Apply(scenes, Save(device, scene, saved)), ws, device, scene, channel, saved[channel]);
  }

  /** A scene nobody wrote under this very string stays absent. */
  lemma {:induction false} AbsentUnlessWritten(scenes: Scenes, ws: seq<Write>, device: string, scene: int)
    requires Lookup(scenes, device, scene) == None
    ensures Lookup(ApplyAll(scenes, ws), device, scene) == None <==>
              forall i :: 0 <= i < |ws| ==> !(ws[i].device == device && ws[i].scene == scene)
    decreases ws
  {
    if ws != [] {
      WritesElsewhere(scenes, ws[0], device, scene);
      if ws[0].device == device && ws[0].scene == scene {
        PresentStays(Apply(scenes, ws[0]), ws[1..], device, scene);
      } else {
        AbsentUnlessWritten(Apply(scenes, ws[0]), ws[1..], device, scene);
        assert forall i :: 0 < i < |ws| ==> ws[i] == ws[1..][i - 1];
        assert forall i :: 0 <= i < |ws[1..]| ==> ws[1..][i] == ws[i + 1];
      }
    }
  }

  lemma {:induction false} PresentStays(scenes: Scenes, ws: seq<Write>, device: string, scene: int)
    requires Lookup(scenes, device, scene).Some?
    ensures Lookup(ApplyAll(scenes, ws), device, scene).Some?
    decreases ws
  {
    if ws != [] {
      WritesElsewhere(scenes, ws[0], device, scene);
      PresentStays(Apply(scenes, ws[0]), ws[1..], device, scene);
    }
  }

  lemma HasMember(s: set<int>)
    requires s != {}
    ensures exists ch :: ch in s
  {
    assert (forall ch: int :: ch !in s) ==> s == {};
  }

  lemma {:induction false} ApplyNext(scenes: Scenes, ws: seq<Write>, w: Write)
    ensures ApplyAll(scenes, ws + [w]) == Apply(ApplyAll(scenes, ws), w)
    decreases ws
  {
    if ws == [] {
      assert [w][1..] == [] && ws + [w] == [w];
    } else {
      assert (ws + [w])[1..] == ws[1..] + [w];
      ApplyNext(Apply(scenes, ws[0]), ws[1..], w);
    }
  }

  lemma Without<K, V>(m: map<K, V>, ks: set<K>, k: K)
    requires k in m && k in ks
    ensures m - (ks - {k}) == (m - ks)[k := m[k]]
  {
  }

  lemma SavedNothing(e: Entry)
    ensures SavedInto(e, map[]) == e
  {
    assert SavedInto(e, map[]).channels == e.channels;
  }

  lemma SavedNext(e: Entry, saved: map<int, real>, ch: int, v: real)
    requires ch !in saved
    ensures var e' := SavedInto(e, saved);
            SavedInto(e, saved[ch := v]) == e'.(channels := e'.channels[ch := ChannelOf(e', ch).(value := v)])
  {
    var e' := SavedInto(e, saved);
    assert SavedInto(e, saved[ch := v]).channels == e'.channels[ch := ChannelOf(e', ch).(value := v)];
  }

  // ------------------------------------------------------------------ the source

  class SceneStore {
    var scenes: Scenes

    constructor ()
      ensures scenes == map[]
    {
      scenes := map[];
    }

    /** Only the channels given are updated, and of those only the value. */
    method SaveScene(device: string, scene: int, channels: map<int, real>)
      modifies this
      ensures scenes == Apply(old(scenes), Save(device, scene, channels))
      ensures var e, was := Lookup(scenes, device, scene), old(Lookup(scenes, device, scene));
              && e.Some?
              && e.value.channels.Keys == channels.Keys + (if was == None then {} else was.value.channels.Keys)
              && (forall ch :: ch in channels ==> e.value.channels[ch].value == channels[ch])
              && (forall ch :: ch in e.value.channels ==>
                    if was == None || ch !in was.value.channels then !e.value.channels[ch].dontCare
                    else
                      && e.value.channels[ch].dontCare == was.value.channels[ch].dontCare
                      && (ch !in channels ==> e.value.channels[ch] == was.value.channels[ch]))
              && e.value.dontCare == (was != None && was.value.dontCare)
    {
      if device !in scenes {
        scenes := scenes[device := map[]];
      }
      var entry := StoreChannels(Current(scenes, device, scene), channels);
      scenes := scenes[device := scenes[device][scene := entry]];
      UpdateTwice(old(scenes), device, map[], scenes[device]);
    }

    static method StoreChannels(before: Entry, channels: map<int, real>) returns (entry: Entry)
      ensures entry == SavedInto(before, channels)
    {
      entry := before;
      var todo: set<int> := channels.Keys;
      SavedNothing(before);
      assert channels - todo == map[];
      while todo != {}
        invariant todo <= channels.Keys
        invariant entry == SavedInto(before, channels - todo)
      {
        HasMember(todo);
        var idx :| idx in todo;
        SavedNext(before, channels - todo, idx, channels[idx]);
        Without(channels, todo, idx);
        var cv := ChannelOf(entry, idx);
        entry := entry.(channels := entry.channels[idx := cv.(value := channels[idx])]);
        todo := todo - {idx};
      }
      assert channels - todo == channels;
    }

    method GetScene(device: string, scene: int) returns (e: Option<Entry>)
      ensures e == Lookup(scenes, device, scene)
    {
      if device in scenes {
        if scene in scenes[device] {
          return Some(scenes[device][scene]);
        }
      }
      return None;
    }

    method EnsureEntry(device: string, scene: int) returns (entry: Entry)
      modifies this
      ensures device in scenes && scene in scenes[device]
      ensures scenes == Put(old(scenes), device, scene, Current(old(scenes), device, scene))
      ensures entry == scenes[device][scene]
    {
      if device !in scenes {
        scenes := scenes[device := map[]];
      }
      ghost var inner := scenes[device];
      if scene !in scenes[device] {
        scenes := scenes[device := scenes[device][scene := NO_ENTRY]];
      } else {
        UpdateSame(scenes[device], scene);
        UpdateSame(scenes, device);
      }
      entry := scenes[device][scene];
      UpdateTwice(old(scenes), device, inner, scenes[device]);
    }

    method SetSceneChannelValue(device: string, scene: int, channel: int, value: real)
      modifies this
      ensures scenes == Apply(old(scenes), SetValue(device, scene, channel, value))
      ensures var e, was := Lookup(scenes, device, scene), old(Current(scenes, device, scene));
              && e.Some? && channel in e.value.channels
              && e.value.channels[channel].value == value
              && e.value.channels[channel].dontCare == (channel in was.channels && was.channels[channel].dontCare)
              && e.value == was.(channels := was.channels[channel := e.value.channels[channel]])
    {
      var entry := EnsureEntry(device, scene);
      ghost var was := entry;
      entry := entry.(channels := entry.channels[channel := ChannelOf(entry, channel).(value := value)]);
      scenes := scenes[device := scenes[device][scene := entry]];
      PutTwice(old(scenes), device, scene, was, scenes[device][scene]);
    }

    method SetSceneChannelDontCare(device: string, scene: int, channel: int, dontCare: bool)
      modifies this
      ensures scenes == Apply(old(scenes), SetChannelDontCare(device, scene, channel, dontCare))
      ensures var e, was := Lookup(scenes, device, scene), old(Current(scenes, device, scene));
              && e.Some? && channel in e.value.channels
              && e.value.channels[channel].dontCare == dontCare
              && e.value.channels[channel].value
                 == (if channel in was.channels then was.channels[channel].value else 0.0)
              && e.value == was.(channels := was.channels[channel := e.value.channels[channel]])
    {
      var entry := EnsureEntry(device, scene);
      ghost var was := entry;
      entry := entry.(channels := entry.channels[channel := ChannelOf(entry, channel).(dontCare := dontCare)]);
      scenes := scenes[device := scenes[device][scene := entry]];
      PutTwice(old(scenes), device, scene, was, scenes[device][scene]);
    }

    method SetSceneEffect(device: string, scene: int, effect: int)
      modifies this
      ensures scenes == Apply(old(scenes), SetEffect(device, scene, effect))
      ensures Lookup(scenes, device, scene) == Some(old(Current(scenes, device, scene)).(effect := effect))
    {
      var entry := EnsureEntry(device, scene);
      ghost var was := entry;
      scenes := scenes[device := scenes[device][scene := entry.(effect := effect)]];
      PutTwice(old(scenes), device, scene, was, scenes[device][scene]);
    }

    method SetSceneDontCare(device: string, scene: int, dontCare: bool)
      modifies this
      ensures scenes == Apply(old(scenes), SetDontCare(device, scene, dontCare))
      ensures Lookup(scenes, device, scene) == Some(old(Current(scenes, device, scene)).(dontCare := dontCare))
    {
      var entry := EnsureEntry(device, scene);
      ghost var was := entry;
      scenes := scenes[device := scenes[device][scene := entry.(dontCare := dontCare)]];
      PutTwice(old(scenes), device, scene, was, scenes[device][scene]);
    }

    method SetSceneIgnoreLocalPriority(device: string, scene: int, ignore: bool)
      modifies this
      ensures scenes == Apply(old(scenes), SetIgnoreLocalPriority(device, scene, ignore))
      ensures Lookup(scenes, device, scene) == Some(old(Current(scenes, device, scene)).(ignoreLocalPriority := ignore))
    {
      var entry := EnsureEntry(device, scene);
      ghost var was := entry;
      scenes := scenes[device := scenes[device][scene := entry.(ignoreLocalPriority := ignore)]];
      PutTwice(old(scenes), device, scene, was, scenes[device][scene]);
    }

    /** A sequence of writes, each through its setter. */
    method Edit(ws: seq<Write>)
      modifies this
      ensures scenes == ApplyAll(old(scenes), ws)
    {
      for i := 0 to |ws|
        invariant ApplyAll(scenes, ws[i..]) == ApplyAll(old(scenes), ws)
      {
        assert ws[i..][1..] == ws[i + 1..];
        match ws[i] {
          case Save(d, n, saved) => SaveScene(d, n, saved);
          case SetValue(d, n, ch, v) => SetSceneChannelValue(d, n, ch, v);
          case SetChannelDontCare(d, n, ch, flag) => SetSceneChannelDontCare(d, n, ch, flag);
          case SetEffect(d, n, effect) => SetSceneEffect(d, n, effect);
          case SetDontCare(d, n, flag) => SetSceneDontCare(d, n, flag);
          case SetIgnoreLocalPriority(d, n, flag) => SetSceneIgnoreLocalPriority(d, n, flag);
        }
      }
    }
  }
}
