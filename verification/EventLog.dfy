/** The bounded plugin event log against the full history (pkg/bridge/event_buffer.go).
    The device activity log (pkg/bridge/device_activity.go) keeps its rings the same way. */
module EventLog {
  import opened SeqFacts

  datatype PluginEvent = PluginEvent(seqNo: nat, pluginId: string, level: string, message: string)

  function Newest<T>(s: seq<T>, n: nat): seq<T> {
    if |s| <= n then s else s[|s| - n..]
  }

  /** Everything published, or what one plugin published. */
  function Stream(history: seq<PluginEvent>, pluginId: string): seq<PluginEvent> {
    if pluginId == "" then history else Of(history, pluginId)
  }

  function Of(history: seq<PluginEvent>, pluginId: string): seq<PluginEvent> {
    if history == [] then []
    else Of(Init(history), pluginId) + if Last(history).pluginId == pluginId then [Last(history)] else []
  }

  predicate Matches(ev: PluginEvent, since: nat, level: string) {
    ev.seqNo > since && (level == "" || ev.level == level)
  }

  function Matching(s: seq<PluginEvent>, since: nat, level: string): seq<PluginEvent> {
    if s == [] then []
    else Matching(Init(s), since, level) + if Matches(Last(s), since, level) then [Last(s)] else []
  }

  predicate Increasing(s: seq<PluginEvent>) {
    forall i, j :: 0 <= i < j < |s| ==> s[i].seqNo < s[j].seqNo
  }

  lemma OfNext(history: seq<PluginEvent>, ev: PluginEvent, p: string)
    ensures Of(history + [ev], p) == if p == ev.pluginId then Of(history, p) + [ev] else Of(history, p)
  {
    InitLast(history, ev);
  }

  lemma MatchingNext(s: seq<PluginEvent>, ev: PluginEvent, since: nat, level: string)
    ensures Matching(s + [ev], since, level)
         == Matching(s, since, level) + if Matches(ev, since, level) then [ev] else []
  {
    InitLast(s, ev);
  }

  lemma NewestNext<T>(s: seq<T>, x: T, n: nat)
    ensures Newest(s + [x], n) == Newest(Newest(s, n) + [x], n)
  {
  }

  /** In an increasing log the events after a sequence number are the end of it. */
  lemma {:induction false} NewerIsSuffix(s: seq<PluginEvent>, since: nat) returns (k: nat)
    requires Increasing(s)
    ensures k <= |s| && Matching(s, since, "") == s[k..]
    ensures forall i :: 0 <= i < |s| ==> (s[i].seqNo > since <==> i >= k)
  {
    if s == [] {
      k := 0;
    } else {
      var init := Init(s);
      k := NewerIsSuffix(init, since);
      assert forall i :: 0 <= i < |init| ==> init[i] == s[i];
      if Last(s).seqNo > since {
        assert s[k..] == init[k..] + [Last(s)];
      } else {
        assert k == |init|;
        k := |s|;
      }
    }
  }

  lemma DropDrop<T>(s: seq<T>, a: nat, b: nat)
    requires a + b <= |s|
    ensures s[a..][b..] == s[a + b..]
  {
  }

  lemma IncreasingSuffix(s: seq<PluginEvent>, d: nat)
    requires Increasing(s) && d <= |s|
    ensures Increasing(s[d..]) && forall i :: 0 <= i < |s| - d ==> s[d..][i] == s[d + i]
  {
    forall i, j | 0 <= i < j < |s[d..]| ensures s[d..][i].seqNo < s[d..][j].seqNo {
      assert s[d + i].seqNo < s[d + j].seqNo;
    }
  }

  /** Dropping old events before or after selecting the newer ones is the same. */
  lemma NewestCommutes(s: seq<PluginEvent>, since: nat, cap: nat)
    requires Increasing(s)
    ensures Matching(Newest(s, cap), since, "") == Newest(Matching(s, since, ""), cap)
  {
    hide Matching, Matches, Increasing;
    var d := if |s| <= cap then 0 else |s| - cap;
    var t := s[d..];
    assert t == Newest(s, cap);
    IncreasingSuffix(s, d);
    var k := NewerIsSuffix(s, since);
    var l := NewerIsSuffix(t, since);
    assert l == if k <= d then 0 else k - d by {
      if l < |t| { assert s[d + l] == t[l]; }
      if 0 < l { assert s[d + l - 1] == t[l - 1]; }
    }
    DropDrop(s, d, l);
    DropDrop(s, k, if k <= d then d - k else 0);
  }

  lemma {:induction false} OfIsIncreasing(history: seq<PluginEvent>, pluginId: string)
    requires Increasing(history)
    ensures Increasing(Of(history, pluginId))
    ensures forall i :: 0 <= i < |Of(history, pluginId)| ==> Of(history, pluginId)[i] in history
  {
    if history != [] {
      var init := Init(history);
      OfIsIncreasing(init, pluginId);
      forall ev | ev in Of(init, pluginId) ensures ev.seqNo < Last(history).seqNo {
        var i :| 0 <= i < |init| && init[i] == ev;
        assert history[i] == ev;
      }
    }
  }

  /** A log selects, in order, nothing but what was published by the plugin asked for. */
  lemma {:induction false} OfPicks(history: seq<PluginEvent>, pluginId: string)
    ensures forall ev :: ev in Of(history, pluginId) <==> ev in history && ev.pluginId == pluginId
  {
    if history != [] {
      OfPicks(Init(history), pluginId);
      assert history == Init(history) + [Last(history)];
    }
  }

  lemma {:induction false} MatchingPicks(s: seq<PluginEvent>, since: nat, level: string)
    ensures forall ev :: ev in Matching(s, since, level) <==>
                           ev in s && ev.seqNo > since && (level == "" || ev.level == level)
  {
    if s != [] {
      MatchingPicks(Init(s), since, level);
      assert s == Init(s) + [Last(s)];
    }
  }

  /** What is selected of a log's newest events is what was asked for. */
  lemma FoundIsAskedFor(history: seq<PluginEvent>, pluginId: string, since: nat, level: string, cap: nat)
    ensures forall ev :: ev in Matching(Newest(Stream(history, pluginId), cap), since, level) ==>
                           && ev in history && ev.seqNo > since && (level == "" || ev.level == level)
                           && (pluginId == "" || ev.pluginId == pluginId)
  {
    OfPicks(history, pluginId);
    MatchingPicks(Newest(Stream(history, pluginId), cap), since, level);
    hide Matching, Of;
    forall ev | ev in Matching(Newest(Stream(history, pluginId), cap), since, level)
      ensures ev in history && (pluginId == "" || ev.pluginId == pluginId)
    {
      assert ev in Newest(Stream(history, pluginId), cap);
      assert ev in Stream(history, pluginId);
    }
  }

  // ----------------------------------------------------------------- polling

  /** A poller asking for what is after the last event it has seen, at the times the log had
      these lengths; what it has received in the end. */
  function Polled(s: seq<PluginEvent>, marks: seq<nat>, cap: nat): seq<PluginEvent>
    requires forall i :: 0 <= i < |marks| ==> marks[i] <= |s|
  {
    if marks == [] then []
    else
      var got := Polled(s, Init(marks), cap);
      got + Matching(Newest(s[..Last(marks)], cap), Since(got), "")
  }

  predicate Rising(marks: seq<nat>) {
    forall i, j :: 0 <= i <= j < |marks| ==> marks[i] <= marks[j]
  }

  /** Each poll finds at most cap more than the one before it. */
  predicate NeverOverrun(marks: seq<nat>, cap: nat) {
    marks == [] || (NeverOverrun(Init(marks), cap) && Last(marks) - Mark(Init(marks)) <= cap)
  }

  function Mark(marks: seq<nat>): nat {
    if marks == [] then 0 else Last(marks)
  }

  lemma NewerThan(s: seq<PluginEvent>, from: nat, to: nat, since: nat, cap: nat)
    requires Increasing(s) && from <= to <= |s|
    requires forall i :: 0 <= i < to ==> (s[i].seqNo > since <==> i >= from)
    ensures Matching(Newest(s[..to], cap), since, "") == Newest(s[from..to], cap)
  {
    hide Matching, Matches;
    var seen := s[..to];
    assert Increasing(seen) by { assert forall i :: 0 <= i < to ==> seen[i] == s[i]; }
    hide Increasing;
    NewestCommutes(seen, since, cap);
    var k := NewerIsSuffix(seen, since);
    assert k == from by {
      if k < to { assert seen[k] == s[k]; }
      if from < to { assert seen[from] == s[from]; }
    }
    assert seen[from..] == s[from..to];
  }

  /** The poller has got as far as the first m events. */
  predicate SeenUpTo(got: seq<PluginEvent>, s: seq<PluginEvent>, m: nat)
    requires m <= |s|
  {
    if m == 0 then got == [] else got != [] && Last(got) == s[m - 1]
  }

  predicate Numbered(s: seq<PluginEvent>) {
    Increasing(s) && forall i :: 0 <= i < |s| ==> s[i].seqNo > 0
  }

  function Since(got: seq<PluginEvent>): nat {
    if got == [] then 0 else Last(got).seqNo
  }

  lemma PollOnce(s: seq<PluginEvent>, got: seq<PluginEvent>, from: nat, to: nat, cap: nat)
    requires Numbered(s) && from <= to <= |s| && cap > 0 && SeenUpTo(got, s, from)
    ensures Matching(Newest(s[..to], cap), Since(got), "") == Newest(s[from..to], cap)
    ensures SeenUpTo(got + Newest(s[from..to], cap), s, to)
  {
    hide Matching, Newest;
    NewerThan(s, from, to, Since(got), cap);
    SeenNext(s, got, from, to, cap);
  }

  lemma SeenNext(s: seq<PluginEvent>, got: seq<PluginEvent>, from: nat, to: nat, cap: nat)
    requires from <= to <= |s| && cap > 0 && SeenUpTo(got, s, from)
    ensures SeenUpTo(got + Newest(s[from..to], cap), s, to)
  {
    var more := Newest(s[from..to], cap);
    if from == to {
      assert got + more == got;
    } else {
      assert |more| > 0 && more[|more| - 1] == s[to - 1];
    }
  }

  /** What a poll adds: the newest events since the poll before, at most cap of them. */
  lemma {:induction false} PollNext(s: seq<PluginEvent>, marks: seq<nat>, cap: nat)
    requires Numbered(s) && Rising(marks) && cap > 0 && marks != []
    requires forall i :: 0 <= i < |marks| ==> marks[i] <= |s|
    ensures Rising(Init(marks)) && Mark(Init(marks)) <= Last(marks)
    ensures Polled(s, marks, cap) == Polled(s, Init(marks), cap) + Newest(s[Mark(Init(marks))..Last(marks)], cap)
    ensures SeenUpTo(Polled(s, marks, cap), s, Last(marks))
    decreases marks
  {
    hide Matching, Numbered, Newest;
    var init, to := Init(marks), Last(marks);
    if init != [] {
      PollNext(s, init, cap);
      assert marks[|init| - 1] <= marks[|init|];
    }
    PollOnce(s, Polled(s, init, cap), Mark(init), to, cap);
  }

  lemma Completes<T>(s: seq<T>, got: seq<T>, from: nat, to: nat, cap: nat)
    requires from <= to <= |s| && |got| <= from
    ensures |got + Newest(s[from..to], cap)| <= to
    ensures got + Newest(s[from..to], cap) == s[..to] <==> got == s[..from] && to - from <= cap
  {
    var more := Newest(s[from..to], cap);
    assert s[..to] == s[..from] + s[from..to];
    if got + more == s[..to] {
      assert |got| + |more| == to;
      assert got == (got + more)[..from];
    }
  }

  /** A poller has received exactly what was logged if and only if never more than the
      capacity was logged between two polls. */
  lemma {:induction false} PollerMissesNothingIff(s: seq<PluginEvent>, marks: seq<nat>, cap: nat)
    requires Numbered(s) && Rising(marks) && cap > 0
    requires forall i :: 0 <= i < |marks| ==> marks[i] <= |s|
    ensures Polled(s, marks, cap) == s[..Mark(marks)] <==> NeverOverrun(marks, cap)
    ensures |Polled(s, marks, cap)| <= Mark(marks)
    decreases marks
  {
    if marks != [] {
      PollNext(s, marks, cap);
      PollerMissesNothingIff(s, Init(marks), cap);
      hide Polled, Numbered, Rising;
      Completes(s, Polled(s, Init(marks), cap), Mark(Init(marks)), Last(marks), cap);
    }
  }

  // ------------------------------------------------------------------ the source

  class EventBuffer {
    var byPlugin: map<string, seq<PluginEvent>>
    var global: seq<PluginEvent>
    const perCap: nat
    const globalCap: nat
    var counter: nat
    ghost var history: seq<PluginEvent>

    ghost predicate Valid()
      reads this
    {
      && counter == |history|
      && (forall i :: 0 <= i < |history| ==> history[i].seqNo == i + 1)
      && global == Newest(history, globalCap)
      && forall p: string :: Ring(byPlugin, p) == Newest(Of(history, p), perCap)
    }

    static function Ring(rings: map<string, seq<PluginEvent>>, p: string): seq<PluginEvent> {
      if p in rings then rings[p] else []
    }

    function Capacity(pluginId: string): nat {
      if pluginId == "" then globalCap else perCap
    }

    /** NewEventBuffer. */
    constructor (perCap: nat, globalCap: nat)
      ensures Valid() && history == [] && this.perCap == perCap && this.globalCap == globalCap
    {
      byPlugin, global, counter, history := map[], [], 0, [];
      this.perCap, this.globalCap := perCap, globalCap;
    }

    /** slice = append(slice, ev), cut to the last cap. */
    static method AppendCapped(ring: seq<PluginEvent>, ev: PluginEvent, cap: nat, ghost stream: seq<PluginEvent>)
      returns (slice: seq<PluginEvent>)
      requires ring == Newest(stream, cap)
      ensures slice == Newest(stream + [ev], cap)
    {
      slice := ring + [ev];
      if |slice| > cap {
        slice := slice[|slice| - cap..];
      }
      NewestNext(stream, ev, cap);
    }

    method Publish(ev: PluginEvent)
      requires Valid()
      modifies this
      ensures Valid() && history == old(history) + [ev.(seqNo := |old(history)| + 1)]
    {
      hide Newest, Of;
      counter := counter + 1;
      var stamped := ev.(seqNo := counter);
      var slice := AppendCapped(Ring(byPlugin, ev.pluginId), stamped, perCap, Of(history, ev.pluginId));
      byPlugin := byPlugin[ev.pluginId := slice];
      global := AppendCapped(global, stamped, globalCap, history);
      forall p: string ensures Ring(byPlugin, p) == Newest(Of(history + [stamped], p), perCap) {
        OfNext(history, stamped, p);
      }
      history := history + [stamped];
    }

    static method Select(src: seq<PluginEvent>, since: nat, level: string) returns (out: seq<PluginEvent>)
      ensures out == Matching(src, since, level)
    {
      out := [];
      assert out == Matching(src[..0], since, level);
      hide Matching;
      for i := 0 to |src|
        invariant out == Matching(src[..i], since, level)
      {
        var ev := src[i];
        assert src[..i + 1] == src[..i] + [ev];
        MatchingNext(src[..i], ev, since, level);
        if ev.seqNo <= since { continue; }
        if level != "" && ev.level != level { continue; }
        out := out + [ev];
      }
      assert src[..|src|] == src;
    }

    /** The streams carry rising positive numbers, so what PollerMissesNothingIff says of a
        poller holds of every log kept here. */
    lemma StreamIsNumbered(pluginId: string)
      requires Valid()
      ensures Numbered(Stream(history, pluginId))
    {
      OfIsIncreasing(history, pluginId);
      var s := Stream(history, pluginId);
      forall i | 0 <= i < |s| ensures s[i].seqNo > 0 {
        assert s[i] in history;
      }
    }

    /** Of the retained events those after `since` at the wanted level, the last `limit` of them.
        Without a level that is the newest of all that came after `since`: nothing is missing
        exactly when no more than the capacity came. */
    method Snapshot(pluginId: string, since: nat, level: string, limit: int) returns (out: seq<PluginEvent>)
      requires Valid()
      ensures var found := Matching(Newest(Stream(history, pluginId), Capacity(pluginId)), since, level);
              out == if limit > 0 then Newest(found, limit) else found
      ensures forall ev :: ev in out ==>
                && ev in history && ev.seqNo > since && (level == "" || ev.level == level)
                && (pluginId == "" || ev.pluginId == pluginId)
      ensures limit > 0 ==> |out| <= limit
      ensures level == "" && limit <= 0 ==>
                var newer := Matching(Stream(history, pluginId), since, "");
                && out == Newest(newer, Capacity(pluginId))
                && (out == newer <==> |newer| <= Capacity(pluginId))
    {
      StreamIsNumbered(pluginId);
      NewestCommutes(Stream(history, pluginId), since, Capacity(pluginId));
      FoundIsAskedFor(history, pluginId, since, level, Capacity(pluginId));
      var src := if pluginId == "" then global else Ring(byPlugin, pluginId);
      assert src == Newest(Stream(history, pluginId), Capacity(pluginId));
      hide Matching, Of, Numbered, Stream, Valid, Ring, Capacity, Increasing;
      out := Select(src, since, level);
      if limit > 0 && |out| > limit {
        out := out[|out| - limit..];
      }
    }
  }
}
