/** Topic filter matching (topicMatches and splitTopic of pkg/bridge/mqtt/mqtt.go) against
    section 4.7.1 of MQTT 3.1.1. */
module MqttTopics {
  /** strings.Split(t, "/"). */
  function Split(t: string): (levels: seq<string>)
    ensures levels != []
    decreases |t|
  {
    if t == [] then [""]
    else
      var rest := Split(t[1..]);
      if t[0] == '/' then [""] + rest else [[t[0]] + rest[0]] + rest[1..]
  }

  function SplitTopic(t: string): seq<string> {
    if t == "" then [] else Split(t)
  }

  function Join(levels: seq<string>): string
    requires levels != []
  {
    if |levels| == 1 then levels[0] else levels[0] + "/" + Join(levels[1..])
  }

  /** Splitting loses nothing, and splits at every slash. */
  lemma {:induction false} SplitRoundTrip(t: string)
    ensures Join(Split(t)) == t
    ensures forall i :: 0 <= i < |Split(t)| ==> '/' !in Split(t)[i]
    decreases |t|
  {
    if t != [] {
      var rest := Split(t[1..]);
      SplitRoundTrip(t[1..]);
      if t[0] == '/' {
        assert Split(t)[1..] == rest;
      } else {
        assert Split(t)[1..] == rest[1..];
      }
      assert t == [t[0]] + t[1..];
    }
  }

  // -------------------------------------------------------------- the standard

  /** '#' only as the last level, and both wildcards only as a whole level. */
  predicate ValidFilter(f: seq<string>) {
    && f != []
    && forall i :: 0 <= i < |f| ==>
         && (f[i] == "#" ==> i == |f| - 1)
         && ('#' in f[i] ==> f[i] == "#")
         && ('+' in f[i] ==> f[i] == "+")
  }

  predicate LevelMatches(filter: string, level: string) {
    filter == "+" || filter == level
  }

  /** Section 4.7.1: level by level; a closing '#' stands for the parent and any number of
      levels below it. */
  predicate StandardMatch(f: seq<string>, t: seq<string>) {
    if f != [] && f[|f| - 1] == "#" then
      |t| >= |f| - 1 && forall i :: 0 <= i < |f| - 1 ==> f[i] == "+" || f[i] == t[i]
    else
      |t| == |f| && forall i :: 0 <= i < |f| ==> f[i] == "+" || f[i] == t[i]
  }

  // ---------------------------------------------------------------- the source

  /** What the loop of topicMatches decides from its k-th level on. */
  function LevelsMatch(f: seq<string>, t: seq<string>, k: nat): bool
    requires k <= |f|
    decreases |f| - k
  {
    if k == |f| then |f| == |t|
    else if f[k] == "#" then true
    else if k >= |t| then false
    else LevelMatches(f[k], t[k]) && LevelsMatch(f, t, k + 1)
  }

  predicate Matches(filter: string, topic: string) {
    filter == topic || LevelsMatch(SplitTopic(filter), SplitTopic(topic), 0)
  }

  method TopicMatches(filter: string, topic: string) returns (b: bool)
    ensures b == Matches(filter, topic)
  {
    if filter == topic { return true; }
    var fp, tp := SplitTopic(filter), SplitTopic(topic);
    for i := 0 to |fp|
      invariant LevelsMatch(fp, tp, 0) == LevelsMatch(fp, tp, i)
    {
      var seg := fp[i];
      if seg == "#" { return true; }
      if i >= |tp| { return false; }
      if seg == "+" { continue; }
      if seg != tp[i] { return false; }
    }
    return |fp| == |tp|;
  }

  // ---------------------------------------------------------------- the theorem

  lemma {:induction false} LevelsMatchIsStandard(f: seq<string>, t: seq<string>, k: nat)
    requires ValidFilter(f) && k <= |f| && k <= |t|
    requires forall i :: 0 <= i < k ==> f[i] != "#" && LevelMatches(f[i], t[i])
    ensures LevelsMatch(f, t, k) <==> StandardMatch(f, t)
    decreases |f| - k
  {
    if k < |f| && f[k] != "#" && k < |t| && LevelMatches(f[k], t[k]) {
      LevelsMatchIsStandard(f, t, k + 1);
    }
  }

  /** For a valid filter and a topic name of at least one character, which 4.7.3 demands, the
      source decides what the standard says. */
  lemma MatchesIsStandard(filter: string, topic: string)
    requires ValidFilter(Split(filter)) && filter != "" && topic != ""
    ensures Matches(filter, topic) <==> StandardMatch(Split(filter), Split(topic))
  {
    LevelsMatchIsStandard(Split(filter), Split(topic), 0);
  }

  /** An empty topic has no level at all: it equals the empty filter, and only a leading '#' takes
      it; an empty filter takes nothing else. */
  lemma EmptyHasNoLevel(filter: string, topic: string)
    ensures Matches(filter, "") <==> filter == "" || Split(filter)[0] == "#"
    ensures Matches("", topic) <==> topic == ""
  {
    if filter != "" { assert SplitTopic(filter) == Split(filter); }
  }

  /** Nothing checks a filter for validity, and on an invalid one the source is laxer: what
      stands behind an inner '#' is never looked at. */
  lemma InnerHashIgnoresRest(f: seq<string>, t: seq<string>, k: nat)
    requires k < |f| && f[k] == "#" && (forall i :: 0 <= i < k ==> f[i] != "#")
    ensures LevelsMatch(f, t, 0) <==> StandardMatch(f[..k + 1], t)
  {
    InnerHash(f, t, k, 0);
  }

  lemma {:induction false} InnerHash(f: seq<string>, t: seq<string>, k: nat, j: nat)
    requires j <= k < |f| && j <= |t| && f[k] == "#" && (forall i :: 0 <= i < k ==> f[i] != "#")
    requires forall i :: 0 <= i < j ==> LevelMatches(f[i], t[i])
    ensures LevelsMatch(f, t, j) <==> StandardMatch(f[..k + 1], t)
    decreases k - j
  {
    var g := f[..k + 1];
    assert g[|g| - 1] == "#";
    if j < k && j < |t| && LevelMatches(f[j], t[j]) {
      InnerHash(f, t, k, j + 1);
    } else if j < k && j < |t| {
      assert !LevelMatches(g[j], t[j]);
    }
  }
}
