/** The fan-out broker of pkg/bridge/mqtt/mqtt.go: many subscriptions share one client
    subscription per topic filter. Subscribe, Close, connect and connection loss are atomic
    steps; the session is clean, so losing the connection loses the client subscriptions. */
module MqttBroker {
  import opened MqttTopics

  /** A subscription object: its identity, topic filter and handler. */
  datatype Sub = Sub(id: nat, topic: string)

  /** `installed` are the topics the client is subscribed to at the server. */
  datatype State = State(
    subs: set<Sub>,
    topicSubs: map<string, seq<Sub>>,
    closed: set<Sub>,
    connected: bool,
    installed: set<string>)

  const INITIAL := State({}, map[], {}, false, {})

  datatype Event =
    | Subscribe(s: Sub, installs: bool)   // installs: whether the client subscribe succeeds
    | Close(s: Sub)
    | Connect
    | ConnectionLost

  function ListFor(b: State, topic: string): seq<Sub> {
    if topic in b.topicSubs then b.topicSubs[topic] else []
  }

  function RemoveSub(list: seq<Sub>, s: Sub): seq<Sub> {
    if list == [] then [] else if list[0] == s then list[1..] else [list[0]] + RemoveSub(list[1..], s)
  }

  function WithList(m: map<string, seq<Sub>>, topic: string, list: seq<Sub>): map<string, seq<Sub>> {
    if list == [] then m - {topic} else m[topic := list]
  }

  function Step(b: State, e: Event): State {
    match e
    case Subscribe(s, installs) =>
      var list := ListFor(b, s.topic);
      if b.connected && list == [] && !installs then b
      else b.(subs := b.subs + {s}, topicSubs := b.topicSubs[s.topic := list + [s]],
              installed := if b.connected && list == [] then b.installed + {s.topic} else b.installed)
    case Close(s) =>
      if s in b.closed then b
      else
        var list := RemoveSub(ListFor(b, s.topic), s);
        b.(subs := b.subs - {s}, closed := b.closed + {s}, topicSubs := WithList(b.topicSubs, s.topic, list),
           installed := if list == [] && b.connected then b.installed - {s.topic} else b.installed)
    case Connect => b.(connected := true, installed := b.topicSubs.Keys)
    case ConnectionLost => b.(connected := false, installed := {})
  }

  /** Subscribing makes a new object, and only objects handed out are closed. */
  predicate Enabled(b: State, e: Event) {
    match e
    case Subscribe(s, _) => s !in b.subs && s !in b.closed
    case Close(s) => s in b.subs || s in b.closed
    case _ => true
  }

  predicate Distinct(list: seq<Sub>) {
    forall i, j :: 0 <= i < j < |list| ==> list[i] != list[j]
  }

  /** The flat set is the disjoint union of the lists: each list holds the live subscriptions
      of its topic, each once, and none is empty. */
  ghost predicate Inv(b: State) {
    && (forall t :: t in b.topicSubs ==>
          && b.topicSubs[t] != [] && Distinct(b.topicSubs[t])
          && forall s :: s in b.topicSubs[t] ==> s in b.subs && s.topic == t)
    && (forall s :: s in b.subs ==> s.topic in b.topicSubs && s in b.topicSubs[s.topic])
    && b.subs !! b.closed
    && b.installed == if b.connected then b.topicSubs.Keys else {}
  }

  lemma {:induction false} RemoveSubRemoves(list: seq<Sub>, s: Sub)
    requires Distinct(list)
    ensures var r := RemoveSub(list, s);
            Distinct(r) && forall x :: x in r <==> x in list && x != s
  {
    if list != [] {
      var tail := list[1..];
      assert Distinct(tail) by {
        forall i, j | 0 <= i < j < |tail| ensures tail[i] != tail[j] { assert list[i + 1] != list[j + 1]; }
      }
      assert forall j :: 0 <= j < |tail| ==> tail[j] == list[j + 1] != list[0];
      assert forall x :: x in list <==> x == list[0] || x in tail;
      assert list[0] !in tail;
      RemoveSubRemoves(tail, s);
      if list[0] != s {
        DistinctAppend([list[0]], RemoveSub(tail, s));
      }
    }
  }

  lemma StepKeepsInv(b: State, e: Event)
    requires Inv(b) && Enabled(b, e)
    ensures Inv(Step(b, e))
  {
    match e {
      case Subscribe(s, installs) =>
        var list := ListFor(b, s.topic);
        assert s !in list;
        assert Distinct(list + [s]);
      case Close(s) =>
        RemoveSubRemoves(ListFor(b, s.topic), s);
      case _ =>
    }
  }

  predicate Legal(b: State, es: seq<Event>)
    decreases |es|
  {
    es == [] || (Legal(b, es[..|es| - 1]) && Enabled(Run(b, es[..|es| - 1]), es[|es| - 1]))
  }

  function Run(b: State, es: seq<Event>): State
    decreases |es|
  {
    if es == [] then b else Step(Run(b, es[..|es| - 1]), es[|es| - 1])
  }

  lemma RunGoesOn(b: State, es: seq<Event>, e: Event)
    ensures Run(b, []) == b && Run(b, es + [e]) == Step(Run(b, es), e)
  {
    assert (es + [e])[..|es|] == es;
  }

  /** Over every sequence of subscribes, closes, connects and losses. */
  lemma {:induction false} RunKeepsInv(es: seq<Event>)
    requires Legal(INITIAL, es)
    ensures Inv(Run(INITIAL, es))
    decreases |es|
  {
    if es != [] {
      RunKeepsInv(es[..|es| - 1]);
      StepKeepsInv(Run(INITIAL, es[..|es| - 1]), es[|es| - 1]);
    }
  }

  /** Closing undoes subscribing, wherever the connection stands, but for the closed mark. */
  lemma CloseUndoesSubscribe(b: State, s: Sub, installs: bool)
    requires Inv(b) && Enabled(b, Subscribe(s, installs))
    ensures var b' := Step(Step(b, Subscribe(s, installs)), Close(s));
            b' == b.(closed := b.closed + {s})
  {
    var list := ListFor(b, s.topic);
    assert s !in list;
    RemoveLast(list, s);
    RemoveAbsent(list, s);
    if b.connected && list == [] && !installs {
      assert WithList(b.topicSubs, s.topic, []) == b.topicSubs;
      assert b.subs - {s} == b.subs;
    } else {
      var one := Step(b, Subscribe(s, installs));
      assert RemoveSub(ListFor(one, s.topic), s) == list;
      assert WithList(one.topicSubs, s.topic, list) == b.topicSubs;
      assert one.subs - {s} == b.subs;
    }
  }

  lemma {:induction false} RemoveLast(list: seq<Sub>, s: Sub)
    requires s !in list
    ensures RemoveSub(list + [s], s) == list
  {
    if list != [] {
      RemoveLast(list[1..], s);
      assert (list + [s])[1..] == list[1..] + [s];
    } else {
      assert list + [s] == [s];
    }
  }

  lemma {:induction false} RemoveAbsent(list: seq<Sub>, s: Sub)
    requires s !in list
    ensures RemoveSub(list, s) == list
  {
    if list != [] { RemoveAbsent(list[1..], s); }
  }

  class Broker {
    var subs: set<Sub>
    var topicSubs: map<string, seq<Sub>>
    var closed: set<Sub>
    var connected: bool
    var installed: set<string>

    function Fields(): State
      reads this
    {
      State(subs, topicSubs, closed, connected, installed)
    }

    constructor ()
      ensures Fields() == INITIAL
    {
      subs, topicSubs, closed, connected, installed := {}, map[], {}, false, {};
    }

    /** Subscribe: registers first and takes the registration back when the client fails. */
    method Subscribe(s: Sub, installs: bool) returns (ok: bool)
      requires Inv(Fields()) && Enabled(Fields(), Event.Subscribe(s, installs))
      modifies this
      ensures Inv(Fields()) && Fields() == Step(old(Fields()), Event.Subscribe(s, installs))
      ensures ok <==> s in subs
      ensures ok <==> installs || !connected || s.topic in old(topicSubs)
      ensures !ok ==> Fields() == old(Fields())
      ensures ok ==>
                && subs == old(subs) + {s} && closed == old(closed) && connected == old(connected)
                && topicSubs.Keys == old(topicSubs).Keys + {s.topic}
                && topicSubs[s.topic] == (if s.topic in old(topicSubs) then old(topicSubs)[s.topic] else []) + [s]
                && (forall t :: t in old(topicSubs) && t != s.topic ==> topicSubs[t] == old(topicSubs)[t])
                && installed == if connected then old(installed) + {s.topic} else old(installed)
    {
      ghost var before := Fields();
      StepKeepsInv(before, Event.Subscribe(s, installs));
      subs := subs + {s};
      var list := if s.topic in topicSubs then topicSubs[s.topic] else [];
      var first := |list| == 0;
      topicSubs := topicSubs[s.topic := list + [s]];
      if connected && first {
        if !installs {
          subs := subs - {s};
          RemoveLast(list, s);
          var rest := RemoveSub(topicSubs[s.topic], s);
          topicSubs := topicSubs[s.topic := rest];
          if |rest| == 0 { topicSubs := topicSubs - {s.topic}; }
          assert topicSubs == before.topicSubs && subs == before.subs;
          return false;
        }
        installed := installed + {s.topic};
      }
      return true;
    }

    method Close(s: Sub)
      requires Inv(Fields()) && Enabled(Fields(), Event.Close(s))
      modifies this
      ensures Inv(Fields()) && Fields() == Step(old(Fields()), Event.Close(s))
      ensures s in old(closed) ==> Fields() == old(Fields())
      ensures s !in subs && s in closed && subs == old(subs) - {s} && connected == old(connected)
      ensures s !in old(closed) ==>
                && (s.topic in topicSubs <==> exists x :: x in subs && x.topic == s.topic)
                && (forall t :: t != s.topic ==> (t in topicSubs <==> t in old(topicSubs)))
                && (forall t :: t != s.topic && t in topicSubs ==> topicSubs[t] == old(topicSubs)[t])
                && installed == if connected then topicSubs.Keys else {}
    {
      StepKeepsInv(Fields(), Event.Close(s));
      if s in closed { return; }
      closed := closed + {s};
      subs := subs - {s};
      var list := RemoveSub(topicSubs[s.topic], s);
      var last := |list| == 0;
      topicSubs := if last then topicSubs - {s.topic} else topicSubs[s.topic := list];
      if last && connected { installed := installed - {s.topic}; }
      assert !last ==> list[0] in topicSubs[s.topic] && list[0] in subs;
    }

    /** Appends the handlers of one topic that are not closed; none of those registered is. */
    method AppendOpen(handlers: seq<Sub>, list: seq<Sub>) returns (all: seq<Sub>)
      ensures (forall s :: s in list ==> s !in closed) ==> all == handlers + list
      ensures forall s :: s in all <==> s in handlers || (s in list && s !in closed)
    {
      all := handlers;
      for i := 0 to |list|
        invariant forall s :: s in all <==> s in handlers || (s in list[..i] && s !in closed)
        invariant (forall s :: s in list ==> s !in closed) ==> all == handlers + list[..i]
      {
        assert list[..i + 1] == list[..i] + [list[i]] && list[i] in list;
        if list[i] in closed { continue; }
        all := all + [list[i]];
      }
      assert list[..|list|] == list;
    }

    /** dispatch, the map walked in any order: every live subscription whose filter matches is
        called, exactly once, and nothing else is. */
    method Dispatch(topic: string) returns (called: seq<Sub>)
      requires Inv(Fields())
      ensures forall s :: s in called <==> s in subs && Matches(s.topic, topic)
      ensures Distinct(called)
      ensures topic != "" ==> forall s: Sub :: s.topic != "" && ValidFilter(Split(s.topic)) ==>
                (s in called <==> s in subs && StandardMatch(Split(s.topic), Split(topic)))
    {
      called := [];
      var todo := topicSubs.Keys;
      while todo != {}
        invariant todo <= topicSubs.Keys
        invariant forall s :: s in called <==> s in subs && s.topic !in todo && Matches(s.topic, topic)
        invariant Distinct(called)
      {
        var filter :| filter in todo;
        var list := topicSubs[filter];
        var matches := TopicMatches(filter, topic);
        assert forall s :: s in called ==> s.topic != filter;
        if matches {
          DistinctAppend(called, list);
          called := AppendOpen(called, list);
        }
        assert forall s :: s in list <==> s in subs && s.topic == filter;
        todo := todo - {filter};
      }
      if topic != "" {
        forall s: Sub | s.topic != "" && ValidFilter(Split(s.topic))
          ensures s in called <==> s in subs && StandardMatch(Split(s.topic), Split(topic))
        {
          MatchesIsStandard(s.topic, topic);
        }
      }
    }
  }

  lemma DistinctAppend(a: seq<Sub>, b: seq<Sub>)
    requires Distinct(a) && Distinct(b) && forall s :: s in a ==> s !in b
    ensures Distinct(a + b)
  {
    forall i, j | 0 <= i < |a| <= j < |a + b| ensures (a + b)[i] != (a + b)[j] {
      assert (a + b)[i] == a[i] && (a + b)[j] == b[j - |a|] && a[i] in a && b[j - |a|] in b;
    }
  }
}
