/** Keeping the dSS's set of devices current (pkg/vdcapi/state_store.go, config_store.go and
    the hello case and update pump of pbuf_dispatch.go and pbuf_server.go).

    HandleEvent with its broadcast is one step, and so is a hello with the writing of its
    frames; the source releases its locks in between. Frame writes to an open connection
    succeed. `dsuid` is the derivation of a device's dSUID from its identity. */
module Announce {
  import opened Options
  import opened Text

  // ------------------------------------------------------------ state store

  datatype EventKind =
    | Init
    | Remove
    | Change      // channel, button, button action, input, sensor, active: broadcast
    | Describe    // descriptors and metadata: stored, not broadcast

  datatype Event = Event(kind: EventKind, uniqueId: string, connection: string, tag: string)

  datatype Update = Update(kind: EventKind, key: string)

  /** Devices by key; the values of a device play no part in which devices exist. */
  datatype Store = Store(devices: set<string>, tagIndex: map<string, string>)

  function ConnectionTag(connection: string, tag: string): string {
    TrimSpace(connection) + "|" + TrimSpace(tag)
  }

  function EventKey(e: Event): string {
    if TrimSpace(e.uniqueId) != "" then "uid:" + TrimSpace(e.uniqueId)
    else if e.connection == "" && e.tag == "" then "anon:sample"
    else "conn:" + ConnectionTag(e.connection, e.tag)
  }

  function ResolveKey(s: Store, e: Event): Option<string> {
    var key :=
      if TrimSpace(e.uniqueId) != "" then Some("uid:" + TrimSpace(e.uniqueId))
      else if e.tag == "" then None
      else
        var ct := ConnectionTag(e.connection, e.tag);
        if ct in s.tagIndex then Some(s.tagIndex[ct]) else None;
    if key.Some? && key.value in s.devices then key else None
  }

  function KeySet(key: Option<string>): set<string> {
    match key case None => {} case Some(k) => {k}
  }

  /** How a device is named: by its unique id if it has one, else by connection and tag. */
  lemma KeysSpelledOut(s: Store, e: Event)
    ensures TrimSpace(e.uniqueId) != "" ==> EventKey(e) == "uid:" + TrimSpace(e.uniqueId)
    ensures TrimSpace(e.uniqueId) == "" && (e.connection != "" || e.tag != "") ==>
              EventKey(e) == "conn:" + TrimSpace(e.connection) + "|" + TrimSpace(e.tag)
    ensures TrimSpace(e.uniqueId) == "" && e.connection == "" && e.tag == "" ==> EventKey(e) == "anon:sample"
    ensures TrimSpace(e.uniqueId) != "" ==>
              ResolveKey(s, e) == if EventKey(e) in s.devices then Some(EventKey(e)) else None
    ensures TrimSpace(e.uniqueId) == "" ==>
              var ct := TrimSpace(e.connection) + "|" + TrimSpace(e.tag);
              ResolveKey(s, e) == if e.tag != "" && ct in s.tagIndex && s.tagIndex[ct] in s.devices
                                  then Some(s.tagIndex[ct]) else None
  {
  }

  /** The new store, and the update to broadcast if there is one. */
  function Handle(s: Store, e: Event): (Store, Option<Update>) {
    match e.kind
    case Init =>
      var key := EventKey(e);
      var index := if e.tag != "" then s.tagIndex[ConnectionTag(e.connection, e.tag) := key] else s.tagIndex;
      (Store(s.devices + {key}, index), Some(Update(Init, key)))
    case Remove =>
      (match ResolveKey(s, e)
       case None => (s, None)
       case Some(key) =>
         var index := if e.tag != "" then s.tagIndex - {ConnectionTag(e.connection, e.tag)} else s.tagIndex;
         (Store(s.devices - {key}, index), Some(Update(Remove, key))))
    case Change =>
      (match ResolveKey(s, e)
       case None => (s, None)
       case Some(key) => (s, Some(Update(Change, key))))
    case Describe => (s, None)
  }

  /** A broadcast update tells the truth about the device it names and touches no other. */
  lemma HandleIsHonest(s: Store, e: Event)
    ensures var (s', up) := Handle(s, e);
            match up
            case None => s'.devices == s.devices
            case Some(u) =>
              && (u.kind == Init ==> u.key in s'.devices)
              && (u.kind == Remove ==> u.key in s.devices && u.key !in s'.devices)
              && (u.kind == Change ==> u.key in s'.devices && s'.devices == s.devices)
              && s'.devices - {u.key} == s.devices - {u.key}
  {
  }

  const QUEUE_CAPACITY := 16

  /** A full queue drops the update. */
  function Enqueue(q: seq<Update>, u: Update): seq<Update> {
    if |q| < QUEUE_CAPACITY then q + [u] else q
  }

  class StateStore {
    var devices: set<string>
    var tagIndex: map<string, string>
    var nextSubId: nat
    var subscribers: map<nat, seq<Update>>

    constructor ()
      ensures Contents() == Store({}, map[]) && subscribers == map[] && nextSubId == 0
    {
      devices, tagIndex, nextSubId, subscribers := {}, map[], 0, map[];
    }

    function Contents(): Store
      reads this
    {
      Store(devices, tagIndex)
    }

    method Subscribe() returns (id: nat)
      modifies this`nextSubId, this`subscribers
      ensures id == old(nextSubId) && nextSubId == id + 1 && subscribers == old(subscribers)[id := []]
    {
      id := nextSubId;
      nextSubId := nextSubId + 1;
      subscribers := subscribers[id := []];
    }

    method Unsubscribe(id: nat)
      modifies this`subscribers
      ensures subscribers == old(subscribers) - {id}
    {
      subscribers := subscribers - {id};
    }

    /** The update pump takes the oldest update from its queue. */
    method Receive(id: nat) returns (u: Update)
      requires id in subscribers && subscribers[id] != []
      modifies this`subscribers
      ensures u == old(subscribers)[id][0]
      ensures subscribers == old(subscribers)[id := old(subscribers)[id][1..]]
    {
      u := subscribers[id][0];
      subscribers := subscribers[id := subscribers[id][1..]];
    }

    method Has(uniqueId: string) returns (b: bool)
      ensures b <==> TrimSpace(uniqueId) != "" && "uid:" + TrimSpace(uniqueId) in devices
    {
      if TrimSpace(uniqueId) == "" { return false; }
      b := "uid:" + TrimSpace(uniqueId) in devices;
    }

    /** An announced device exists afterwards, a removed one does not, and every queue with room
        holds the news of it at its end. A change of a device that exists is passed on likewise;
        what names no device changes nothing. */
    method HandleEvent(e: Event)
      modifies this`devices, this`tagIndex, this`subscribers
      ensures Contents() == Handle(old(Contents()), e).0
      ensures e.kind == Init ==> devices == old(devices) + {EventKey(e)}
      ensures e.kind == Init && e.tag != "" ==>
                tagIndex == old(tagIndex)[TrimSpace(e.connection) + "|" + TrimSpace(e.tag) := EventKey(e)]
      ensures e.kind == Remove ==> devices == old(devices - KeySet(ResolveKey(Contents(), e)))
      ensures e.kind == Change || e.kind == Describe ==> devices == old(devices)
      ensures subscribers.Keys == old(subscribers).Keys
      ensures forall id :: id in subscribers ==>
                subscribers[id] ==
                if |old(subscribers)[id]| >= 16 || e.kind == Describe then old(subscribers)[id]
                else if e.kind == Init then old(subscribers)[id] + [Update(Init, EventKey(e))]
                else if old(ResolveKey(Contents(), e)) == None then old(subscribers)[id]
                else old(subscribers)[id] + [Update(e.kind, old(ResolveKey(Contents(), e)).value)]
    {
      match e.kind {
        case Init =>
          var key := EventKey(e);
          devices := devices + {key};
          if e.tag != "" { tagIndex := tagIndex[ConnectionTag(e.connection, e.tag) := key]; }
          Broadcast(Update(Init, key));
        case Remove =>
          var key := ResolveKey(Contents(), e);
          if key.Some? {
            devices := devices - {key.value};
            if e.tag != "" { tagIndex := tagIndex - {ConnectionTag(e.connection, e.tag)}; }
            Broadcast(Update(Remove, key.value));
          }
        case Change =>
          var key := ResolveKey(Contents(), e);
          if key.Some? { Broadcast(Update(Change, key.value)); }
        case Describe =>
      }
    }

    method ReAnnounce(uniqueId: string)
      modifies this`subscribers
      ensures subscribers.Keys == old(subscribers).Keys
      ensures var key := "uid:" + TrimSpace(uniqueId);
              forall id :: id in subscribers ==>
                var was := old(subscribers)[id];
                subscribers[id] == if TrimSpace(uniqueId) == "" || key !in devices || |was| >= 16 then was
                                   else was + [Update(Init, key)]
    {
      var present := Has(uniqueId);
      if present { Broadcast(Update(Init, "uid:" + TrimSpace(uniqueId))); }
    }

    /** Every subscriber's queue takes the update, but a full one drops it. */
    method Broadcast(u: Update)
      modifies this`subscribers
      ensures subscribers.Keys == old(subscribers).Keys
      ensures forall id :: id in subscribers ==>
                subscribers[id] == old(subscribers)[id] + if |old(subscribers)[id]| < 16 then [u] else []
    {
      var todo := subscribers.Keys;
      ghost var before := subscribers;
      while todo != {}
        invariant todo <= before.Keys == subscribers.Keys
        invariant forall id :: id in before ==>
          subscribers[id] == before[id] + if id !in todo && |before[id]| < 16 then [u] else []
      {
        var id :| id in todo;
        if |subscribers[id]| < QUEUE_CAPACITY {
          subscribers := subscribers[id := subscribers[id] + [u]];
        }
        todo := todo - {id};
      }
    }
  }

  function Reannounced(s: Store, uniqueId: string): Option<Update> {
    var key := "uid:" + TrimSpace(uniqueId);
    if TrimSpace(uniqueId) != "" && key in s.devices then Some(Update(Init, key)) else None
  }

  // ------------------------------------------------- frames and announced set

  datatype Frame = Vanish(id: string) | AnnounceDevice(id: string) | Push(id: string)

  function FrameEffect(view: set<string>, f: Frame): set<string> {
    match f
    case Vanish(d) => view - {d}
    case AnnounceDevice(d) => view + {d}
    case Push(_) => view
  }

  /** What the dSS believes after the frames. */
  function View(view: set<string>, frames: seq<Frame>): set<string>
    decreases |frames|
  {
    if frames == [] then view else FrameEffect(View(view, frames[..|frames| - 1]), frames[|frames| - 1])
  }

  function PumpFrames(kind: EventKind, id: string): seq<Frame> {
    match kind
    case Init => [Vanish(id), AnnounceDevice(id), Push(id)]
    case Remove => [Vanish(id)]
    case Change => [Push(id)]
    case Describe => []
  }

  function AfterUpdate(known: set<string>, kind: EventKind, id: string): set<string> {
    match kind
    case Init => known + {id}
    case Remove => known - {id}
    case Change => known
    case Describe => known
  }

  lemma PumpFramesView(view: set<string>, kind: EventKind, id: string)
    ensures View(view, PumpFrames(kind, id)) == AfterUpdate(view, kind, id)
  {
    var f := PumpFrames(kind, id);
    if kind == Init {
      assert f[..2] == [Vanish(id), AnnounceDevice(id)] && f[..2][..1] == [Vanish(id)] && f[..2][..1][..0] == [];
      assert View(view, [Vanish(id)]) == view - {id};
    } else if f != [] {
      assert f[..0] == [];
    }
  }

  lemma ViewSnoc(view: set<string>, frames: seq<Frame>, f: Frame)
    ensures View(view, frames + [f]) == FrameEffect(View(view, frames), f)
  {
    assert (frames + [f])[..|frames|] == frames;
  }

  /** Every element of the set, once. */
  ghost predicate Enumerates(order: seq<string>, elements: set<string>) {
    && (forall i, j :: 0 <= i < j < |order| ==> order[i] != order[j])
    && (forall d :: d in order <==> d in elements)
  }

  /** The device frames of a hello. */
  function Reconciliation(stale: seq<string>, current: seq<string>): seq<Frame>
    decreases |stale| + |current|
  {
    if current != [] then
      var d := current[|current| - 1];
      Reconciliation(stale, current[..|current| - 1]) + [Vanish(d), AnnounceDevice(d), Push(d)]
    else if stale != [] then Reconciliation(stale[..|stale| - 1], []) + [Vanish(stale[|stale| - 1])]
    else []
  }

  /** One frame for each stale device, then three for each current one. */
  lemma {:induction false} ReconciliationFrames(stale: seq<string>, current: seq<string>)
    ensures var frames := Reconciliation(stale, current);
            && |frames| == |stale| + 3 * |current|
            && (forall i :: 0 <= i < |stale| ==> frames[i] == Vanish(stale[i]))
            && forall k :: 0 <= k < |current| ==>
                 var at := |stale| + 3 * k;
                 && frames[at] == Vanish(current[k]) && frames[at + 1] == AnnounceDevice(current[k])
                 && frames[at + 2] == Push(current[k])
    decreases |stale| + |current|
  {
    if current != [] {
      var init := current[..|current| - 1];
      ReconciliationFrames(stale, init);
      var before, d := Reconciliation(stale, init), current[|init|];
      assert Reconciliation(stale, current) == before + [Vanish(d), AnnounceDevice(d), Push(d)];
      hide Reconciliation;
      assert |before| == |stale| + 3 * |init|;
      assert forall k :: 0 <= k < |init| ==> current[k] == init[k] && |stale| + 3 * k + 2 < |before|;
    } else if stale != [] {
      ReconciliationFrames(stale[..|stale| - 1], []);
    }
  }

  function Elements(order: seq<string>): set<string> {
    set d | d in order
  }

  lemma ElementsSnoc(order: seq<string>)
    requires order != []
    ensures Elements(order) == Elements(order[..|order| - 1]) + {order[|order| - 1]}
  {
    assert order == order[..|order| - 1] + [order[|order| - 1]];
  }

  lemma RefreshView(view: set<string>, frames: seq<Frame>, d: string)
    ensures View(view, frames + [Vanish(d), AnnounceDevice(d), Push(d)]) == View(view, frames) + {d}
  {
    ViewSnoc(view, frames, Vanish(d));
    ViewSnoc(view, frames + [Vanish(d)], AnnounceDevice(d));
    ViewSnoc(view, frames + [Vanish(d)] + [AnnounceDevice(d)], Push(d));
    assert frames + [Vanish(d)] + [AnnounceDevice(d)] + [Push(d)] == frames + [Vanish(d), AnnounceDevice(d), Push(d)];
  }

  /** The dSS ends up without the stale devices and with the current ones. */
  lemma {:induction false} ReconciliationView(view: set<string>, stale: seq<string>, current: seq<string>)
    ensures View(view, Reconciliation(stale, current)) == (view - Elements(stale)) + Elements(current)
    decreases |stale| + |current|
  {
    hide View, Elements;
    if current != [] {
      var init := current[..|current| - 1];
      ReconciliationView(view, stale, init);
      RefreshView(view, Reconciliation(stale, init), current[|current| - 1]);
      ElementsSnoc(current);
    } else if stale != [] {
      var init := stale[..|stale| - 1];
      ReconciliationView(view, init, []);
      ViewSnoc(view, Reconciliation(init, []), Vanish(stale[|stale| - 1]));
      ElementsSnoc(stale);
      NoElements(view);
    } else {
      NoElements(view);
    }
  }

  lemma NoElements(view: set<string>)
    ensures Elements([]) == {} && View(view, []) == view
  {
  }

  class ConfigStore {
    var announcedDsuids: set<string>

    constructor (persisted: set<string>)
      ensures announcedDsuids == persisted
    {
      announcedDsuids := persisted;
    }

    /** Returns what was announced and is not current any more, each once, and makes the
        current dSUIDs the announced ones. */
    method StaleAnnouncedDsuids(current: set<string>) returns (stale: seq<string>)
      modifies this
      ensures announcedDsuids == current
      ensures forall d :: d in stale <==> d in old(announcedDsuids) - current
      ensures forall i, j :: 0 <= i < j < |stale| ==> stale[i] != stale[j]
    {
      stale := [];
      var todo := announcedDsuids;
      while todo != {}
        invariant todo <= announcedDsuids == old(announcedDsuids)
        invariant forall d :: d in stale <==> d in announcedDsuids - todo - current
        invariant forall i, j :: 0 <= i < j < |stale| ==> stale[i] != stale[j]
      {
        var d :| d in todo;
        assert d !in stale;
        todo := todo - {d};
        if d !in current { stale := stale + [d]; }
      }
      announcedDsuids := current;
    }

    method MarkDsuidAdded(dsuid: string)
      modifies this
      ensures announcedDsuids == old(announcedDsuids) + {dsuid}
    {
      announcedDsuids := announcedDsuids + {dsuid};
    }

    method MarkDsuidRemoved(dsuid: string)
      modifies this
      ensures announcedDsuids == old(announcedDsuids) - {dsuid}
    {
      announcedDsuids := announcedDsuids - {dsuid};
    }

    /** The device frames of an accepted hello: stale devices vanish, current ones vanish and
        are announced afresh, in any order of the maps walked. Wherever the dSS view equalled
        the announced set, it is the current set afterwards. */
    method HelloFrames(current: set<string>, ghost view: set<string>)
      returns (frames: seq<Frame>, ghost stale: seq<string>, ghost order: seq<string>)
      modifies this
      ensures announcedDsuids == current
      ensures Enumerates(stale, old(announcedDsuids) - current) && Enumerates(order, current)
      ensures forall i, j :: 0 <= i < j < |stale| ==> stale[i] != stale[j]
      ensures forall i, j :: 0 <= i < j < |order| ==> order[i] != order[j]
      ensures frames == Reconciliation(stale, order)
      ensures View(view, frames) == (view - (old(announcedDsuids) - current)) + current
    {
      frames := [];
      var gone := StaleAnnouncedDsuids(current);
      stale, order := gone, [];
      for i := 0 to |gone|
        invariant announcedDsuids == current
        invariant frames == Reconciliation(gone[..i], [])
      {
        assert gone[..i + 1][..i] == gone[..i];
        frames := frames + [Vanish(gone[i])];
      }
      assert gone[..|gone|] == gone;
      var todo := current;
      while todo != {}
        invariant todo <= current == announcedDsuids
        invariant frames == Reconciliation(gone, order) && Enumerates(order, current - todo)
      {
        var d :| d in todo;
        assert (order + [d])[..|order|] == order;
        frames := frames + [Vanish(d), AnnounceDevice(d), Push(d)];
        order := order + [d];
        todo := todo - {d};
      }
      assert current - todo == current;
      ReconciliationView(view, stale, order);
      assert Elements(stale) == old(announcedDsuids) - current && Elements(order) == current;
    }

    /** One turn of the update pump of an active session. */
    method PumpUpdate(kind: EventKind, id: string, ghost view: set<string>) returns (frames: seq<Frame>)
      modifies this
      ensures frames == PumpFrames(kind, id)
      ensures announcedDsuids == AfterUpdate(old(announcedDsuids), kind, id)
      ensures View(view, frames) == AfterUpdate(view, kind, id)
    {
      PumpFramesView(view, kind, id);
      match kind {
        case Init =>
          frames := [Vanish(id), AnnounceDevice(id), Push(id)];
          MarkDsuidAdded(id);
        case Remove =>
          frames := [Vanish(id)];
          MarkDsuidRemoved(id);
        case Change =>
          frames := [Push(id)];
        case Describe =>
          frames := [];
      }
    }
  }
}
