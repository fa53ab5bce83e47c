/** The announcement protocol as a whole: store, announced set, connections with their update
    queues, and the set of devices the dSS derives from the frames. A step is one of the
    methods of module Announce; connections take the session over from one another. */
module Mirror {
  import opened Options
  import opened Text
  import opened Announce

  type ConnId = nat

  /** The identity a device's dSUID is derived from: its unique id, else its key. */
  function Identity(key: string): string {
    if |key| > 4 && key[..4] == "uid:" then key[4..] else key
  }

  /** `lossy` records that the queue once dropped the news of a device and has not been empty
      at a hello since. */
  datatype Conn = Conn(active: bool, open: bool, lossy: bool, queue: seq<Update>)

  datatype State = State(
    store: Store,
    announced: set<string>,
    view: set<string>,
    owner: Option<ConnId>,
    conns: map<ConnId, Conn>)

  datatype Step =
    | Connect(c: ConnId)
    | DeviceEvent(e: Event)
    | ReAnnounce(uniqueId: string)
    | Hello(c: ConnId, stale: seq<string>, order: seq<string>)   // the orders the two maps are walked in
    | Pump(c: ConnId)
    | Bye(c: ConnId)
    | Disconnect(c: ConnId)

  /** The announced set is persisted, so a run may start with what the dSS was told before. */
  function Initial(known: set<string>): State {
    State(Store({}, map[]), known, known, None, map[])
  }

  function Present(store: Store, dsuid: string -> string): set<string> {
    set key | key in store.devices :: dsuid(Identity(key))
  }

  predicate Membership(u: Update) {
    u.kind == Init || u.kind == Remove
  }

  function Notify(conns: map<ConnId, Conn>, up: Option<Update>): map<ConnId, Conn> {
    match up
    case None => conns
    case Some(u) =>
      map c | c in conns ::
        conns[c].(queue := Enqueue(conns[c].queue, u),
                  lossy := conns[c].lossy || (|conns[c].queue| >= QUEUE_CAPACITY && Membership(u)))
  }

  function Shut(conns: map<ConnId, Conn>, owner: Option<ConnId>, c: ConnId): map<ConnId, Conn> {
    if owner.Some? && owner.value != c && owner.value in conns
    then conns[owner.value := conns[owner.value].(open := false)]
    else conns
  }

  ghost function Next(s: State, step: Step, dsuid: string -> string): State {
    match step
    case Connect(c) =>
      if c in s.conns then s else s.(conns := s.conns[c := Conn(false, true, false, [])])
    case DeviceEvent(e) =>
      var (store, up) := Handle(s.store, e);
      s.(store := store, conns := Notify(s.conns, up))
    case ReAnnounce(uid) =>
      s.(conns := Notify(s.conns, Reannounced(s.store, uid)))
    case Hello(c, stale, order) =>
      var current := Present(s.store, dsuid);
      if c !in s.conns || !s.conns[c].open then s
      else if !Enumerates(stale, s.announced - current) || !Enumerates(order, current) then s
      else
        var conn := s.conns[c].(active := true, lossy := s.conns[c].lossy && s.conns[c].queue != []);
        s.(announced := current,
           view := View(s.view, Reconciliation(stale, order)),
           owner := Some(c),
           conns := Shut(s.conns, s.owner, c)[c := conn])
    case Pump(c) =>
      if c !in s.conns || s.conns[c].queue == [] then s
      else
        var conn, u := s.conns[c], s.conns[c].queue[0];
        var popped := s.(conns := s.conns[c := conn.(queue := conn.queue[1..])]);
        if !conn.active || !conn.open then popped
        else
          popped.(announced := AfterUpdate(s.announced, u.kind, dsuid(Identity(u.key))),
                  view := View(s.view, PumpFrames(u.kind, dsuid(Identity(u.key)))))
    case Bye(c) =>
      if c !in s.conns then s else s.(conns := s.conns[c := s.conns[c].(active := false, open := false)])
    case Disconnect(c) =>
      s.(conns := s.conns - {c}, owner := if s.owner == Some(c) then None else s.owner)
  }

  ghost function Run(s: State, steps: seq<Step>, dsuid: string -> string): State
    decreases |steps|
  {
    if steps == [] then s
    else Next(Run(s, steps[..|steps| - 1], dsuid), steps[|steps| - 1], dsuid)
  }

  // -------------------------------------------------- announced set = dSS view

  /** After an accepted hello the dSS has exactly the present devices, whatever it had before
      that agreed with the announced set. */
  lemma HelloView(s: State, step: Step, dsuid: string -> string)
    requires step.Hello? && s.announced == s.view
    ensures var s' := Next(s, step, dsuid);
            s' == s || s'.view == s'.announced == Present(s.store, dsuid)
  {
    ReconciliationView(s.view, step.stale, step.order);
    var current := Present(s.store, dsuid);
    if Enumerates(step.stale, s.announced - current) && Enumerates(step.order, current) {
      assert Elements(step.stale) == s.announced - current;
      assert Elements(step.order) == current;
    }
  }

  /** Over every run, whatever the derivation, whatever was dropped: the persisted set is what
      the dSS derived from the frames. */
  lemma {:induction false} AnnouncedIsView(known: set<string>, steps: seq<Step>, dsuid: string -> string)
    ensures var s := Run(Initial(known), steps, dsuid); s.announced == s.view
    decreases |steps|
  {
    if steps != [] {
      AnnouncedIsView(known, steps[..|steps| - 1], dsuid);
      var s, step := Run(Initial(known), steps[..|steps| - 1], dsuid), steps[|steps| - 1];
      if step.Hello? {
        HelloView(s, step, dsuid);
      } else if step.Pump? && step.c in s.conns && s.conns[step.c].queue != [] {
        var u := s.conns[step.c].queue[0];
        PumpFramesView(s.view, u.kind, dsuid(Identity(u.key)));
      }
    }
  }

  // ------------------------------------------------------- the queue invariant

  /** The last word of the queue on a device: Init, Remove, or nothing. */
  function LastWord(q: seq<Update>, key: string): Option<EventKind>
    decreases |q|
  {
    if q == [] then None
    else
      var u := q[|q| - 1];
      if u.key == key && Membership(u) then Some(u.kind) else LastWord(q[..|q| - 1], key)
  }

  lemma LastWordSnoc(q: seq<Update>, u: Update, key: string)
    ensures LastWord(q + [u], key) ==
            if u.key == key && Membership(u) then Some(u.kind) else LastWord(q, key)
  {
    assert (q + [u])[..|q|] == q;
  }

  lemma {:induction false} LastWordPop(q: seq<Update>, key: string)
    requires q != []
    ensures LastWord(q, key) ==
            if LastWord(q[1..], key).Some? then LastWord(q[1..], key)
            else if q[0].key == key && Membership(q[0]) then Some(q[0].kind) else None
    decreases |q|
  {
    if |q| > 1 {
      LastWordPop(q[..|q| - 1], key);
      assert q[..|q| - 1][1..] == q[1..][..|q| - 2];
    } else {
      assert q[..0] == [] && q[1..] == [];
    }
  }

  /** What a reader of the queue will come to believe about a device. */
  predicate Foretold(q: seq<Update>, key: string, believed: bool) {
    match LastWord(q, key)
    case None => believed
    case Some(kind) => kind == Init
  }

  /** No two of these keys have the same dSUID. */
  ghost predicate InjectiveOn(keys: set<string>, dsuid: string -> string) {
    forall k, l :: k in keys && l in keys && dsuid(Identity(k)) == dsuid(Identity(l)) ==> k == l
  }

  /** The devices a step can add to the store are among `keys`. */
  predicate Adds(step: Step, keys: set<string>) {
    step.DeviceEvent? && step.e.kind == Init ==> EventKey(step.e) in keys
  }

  predicate AddsOnly(steps: seq<Step>, keys: set<string>) {
    forall i :: 0 <= i < |steps| ==> Adds(steps[i], keys)
  }

  predicate Speaks(q: seq<Update>, keys: set<string>) {
    forall i :: 0 <= i < |q| ==> q[i].key in keys
  }

  ghost predicate QueueTells(conn: Conn, store: Store) {
    forall key :: LastWord(conn.queue, key).Some? ==>
                    (LastWord(conn.queue, key) == Some(Init) <==> key in store.devices)
  }

  ghost predicate RestAgrees(conn: Conn, s: State, keys: set<string>, dsuid: string -> string) {
    && (forall key :: key in keys && LastWord(conn.queue, key) == None ==>
                        (dsuid(Identity(key)) in s.view <==> key in s.store.devices))
    && (forall d :: d in s.view ==> exists key :: key in keys && dsuid(Identity(key)) == d)
  }

  ghost predicate Live(s: State, c: int) {
    c >= 0 && c in s.conns && s.conns[c].active && s.conns[c].open
  }

  ghost predicate Inv(s: State, keys: set<string>, dsuid: string -> string) {
    && s.announced == s.view
    && s.store.devices <= keys
    && (forall c :: c in s.conns ==> Speaks(s.conns[c].queue, keys))
    && (forall c :: Live(s, c) ==> s.owner == Some(c))
    && (forall c :: c in s.conns && !s.conns[c].lossy ==> QueueTells(s.conns[c], s.store))
    && (forall c :: Live(s, c) && !s.conns[c].lossy ==> RestAgrees(s.conns[c], s, keys, dsuid))
  }

  /** One queue and one honest update. */
  lemma NotifiedConn(s: State, s': State, c: ConnId, u: Update, keys: set<string>, dsuid: string -> string)
    requires c in s.conns && c in s'.conns && s'.view == s.view
    requires s'.conns == Notify(s.conns, Some(u))
    requires s'.store.devices - {u.key} == s.store.devices - {u.key}
    requires Membership(u) ==> (u.kind == Init <==> u.key in s'.store.devices)
    requires !Membership(u) ==> s'.store.devices == s.store.devices
    requires !s'.conns[c].lossy
    requires QueueTells(s.conns[c], s.store)
    ensures QueueTells(s'.conns[c], s'.store)
    ensures RestAgrees(s.conns[c], s, keys, dsuid) ==> RestAgrees(s'.conns[c], s', keys, dsuid)
  {
    var q, q' := s.conns[c].queue, s'.conns[c].queue;
    forall key
      ensures LastWord(q', key) == if u.key == key && Membership(u) then Some(u.kind) else LastWord(q, key)
    {
      LastWordSnoc(q, u, key);
    }
    forall key | key != u.key || !Membership(u)
      ensures key in s'.store.devices <==> key in s.store.devices
    {
      assert key != u.key ==> (key in s.store.devices <==> key in s.store.devices - {u.key});
      assert key != u.key ==> (key in s'.store.devices <==> key in s'.store.devices - {u.key});
    }
  }

  lemma NotifyKeepsInv(s: State, s': State, up: Option<Update>, keys: set<string>, dsuid: string -> string)
    requires Inv(s, keys, dsuid)
    requires s' == s.(store := s'.store, conns := Notify(s.conns, up))
    requires match up
             case None => s'.store.devices == s.store.devices
             case Some(u) =>
               && s'.store.devices - {u.key} == s.store.devices - {u.key}
               && (Membership(u) ==> (u.kind == Init <==> u.key in s'.store.devices))
               && (!Membership(u) ==> s'.store.devices == s.store.devices)
               && u.key in keys
    requires s'.store.devices <= keys
    ensures Inv(s', keys, dsuid)
  {
    if up.Some? {
      forall c | c in s'.conns && !s'.conns[c].lossy
        ensures QueueTells(s'.conns[c], s'.store)
        ensures Live(s', c) ==> RestAgrees(s'.conns[c], s', keys, dsuid)
      {
        assert Live(s', c) ==> Live(s, c);
        assert Speaks(s.conns[c].queue, keys);
        NotifiedConn(s, s', c, up.value, keys, dsuid);
      }
      assert forall c :: Live(s', c) ==> Live(s, c);
    } else {
      assert forall c :: Live(s', c) <==> Live(s, c);
      forall c | Live(s', c) && !s'.conns[c].lossy
        ensures RestAgrees(s'.conns[c], s', keys, dsuid)
      {
        assert RestAgrees(s.conns[c], s, keys, dsuid);
      }
    }
  }

  lemma HelloKeepsInv(s: State, step: Step, keys: set<string>, dsuid: string -> string)
    requires step.Hello? && Inv(s, keys, dsuid) && InjectiveOn(keys, dsuid)
    ensures Inv(Next(s, step, dsuid), keys, dsuid)
  {
    var c, s' := step.c, Next(s, step, dsuid);
    HelloView(s, step, dsuid);
    hide View, Reconciliation, Enumerates;
    if s' != s {
      assert s'.view == Present(s.store, dsuid);
      forall d | Live(s', d) ensures d == c {
        assert Live(s, d) ==> s.owner == Some(d);
      }
      if !s'.conns[c].lossy {
        forall key | key in keys ensures dsuid(Identity(key)) in s'.view <==> key in s.store.devices {
        }
        assert s.conns[c].queue == [] || !s.conns[c].lossy;
        assert QueueTells(s'.conns[c], s'.store) by {
          if s.conns[c].queue != [] { assert QueueTells(s.conns[c], s.store); }
        }
      }
      forall d | d in s'.conns && !s'.conns[d].lossy && d != c
        ensures QueueTells(s'.conns[d], s'.store)
      {
        assert QueueTells(s.conns[d], s.store);
      }
    }
  }

  /** What popping the first update of a queue does to what is left to tell. */
  lemma PoppedWords(q: seq<Update>, keys: set<string>)
    requires q != [] && Speaks(q, keys)
    ensures Speaks(q[1..], keys) && q[0].key in keys
    ensures forall key :: LastWord(q, key) == if LastWord(q[1..], key).Some? then LastWord(q[1..], key)
                                             else if q[0].key == key && Membership(q[0]) then Some(q[0].kind) else None
  {
    forall key ensures LastWord(q, key) == if LastWord(q[1..], key).Some? then LastWord(q[1..], key)
                                           else if q[0].key == key && Membership(q[0]) then Some(q[0].kind) else None
    {
      LastWordPop(q, key);
    }
  }

  /** A live session works off one update. */
  lemma PumpedAgrees(s: State, s': State, c: ConnId, keys: set<string>, dsuid: string -> string)
    requires InjectiveOn(keys, dsuid) && c in s.conns && c in s'.conns && s'.store == s.store
    requires var q := s.conns[c].queue;
             && q != [] && Speaks(q, keys) && s'.conns[c].queue == q[1..]
             && s'.view == AfterUpdate(s.view, q[0].kind, dsuid(Identity(q[0].key)))
    requires QueueTells(s.conns[c], s.store) && RestAgrees(s.conns[c], s, keys, dsuid)
    ensures RestAgrees(s'.conns[c], s', keys, dsuid)
  {
    var q := s.conns[c].queue;
    PoppedWords(q, keys);
    hide LastWord, Identity;
    forall key | key in keys && LastWord(q[1..], key) == None
      ensures dsuid(Identity(key)) in s'.view <==> key in s'.store.devices
    {
      assert dsuid(Identity(key)) == dsuid(Identity(q[0].key)) ==> key == q[0].key;
    }
  }

  lemma PumpKeepsInv(s: State, c: ConnId, keys: set<string>, dsuid: string -> string)
    requires Inv(s, keys, dsuid) && InjectiveOn(keys, dsuid)
    ensures Inv(Next(s, Pump(c), dsuid), keys, dsuid)
  {
    var s' := Next(s, Pump(c), dsuid);
    if s' != s {
      var q, u := s.conns[c].queue, s.conns[c].queue[0];
      PumpFramesView(s.view, u.kind, dsuid(Identity(u.key)));
      PoppedWords(q, keys);
      hide View, PumpFrames, LastWord, Identity, AfterUpdate;
      assert forall d :: Live(s', d) <==> Live(s, d);
      forall d | d in s'.conns && !s'.conns[d].lossy
        ensures QueueTells(s'.conns[d], s'.store)
      {
        assert QueueTells(s.conns[d], s.store);
      }
      forall d | Live(s', d) && !s'.conns[d].lossy
        ensures RestAgrees(s'.conns[d], s', keys, dsuid)
      {
        assert s.owner == Some(d) && RestAgrees(s.conns[d], s, keys, dsuid);
        if d == c {
          assert QueueTells(s.conns[c], s.store);
          PumpedAgrees(s, s', c, keys, dsuid);
        } else {
          assert !Live(s, c);
        }
      }
    }
  }

  lemma StepKeepsInv(s: State, step: Step, keys: set<string>, dsuid: string -> string)
    requires Inv(s, keys, dsuid) && InjectiveOn(keys, dsuid) && Adds(step, keys)
    ensures Inv(Next(s, step, dsuid), keys, dsuid)
  {
    var s' := Next(s, step, dsuid);
    match step {
      case DeviceEvent(e) =>
        HandleIsHonest(s.store, e);
        NotifyKeepsInv(s, s', Handle(s.store, e).1, keys, dsuid);
      case ReAnnounce(uid) =>
        NotifyKeepsInv(s, s', Reannounced(s.store, uid), keys, dsuid);
      case Hello(_, _, _) => HelloKeepsInv(s, step, keys, dsuid);
      case Pump(c) => PumpKeepsInv(s, c, keys, dsuid);
      case _ =>
        forall c | Live(s', c) ensures Live(s, c) && s'.conns[c] == s.conns[c] {
        }
        forall c | Live(s', c) && !s'.conns[c].lossy ensures RestAgrees(s'.conns[c], s', keys, dsuid) {
          assert RestAgrees(s.conns[c], s, keys, dsuid);
        }
        forall c | c in s'.conns && !s'.conns[c].lossy ensures QueueTells(s'.conns[c], s'.store) {
          if c in s.conns { assert QueueTells(s.conns[c], s.store); }
        }
    }
  }

  /** Over every run: on a queue that dropped nothing the last word on each device agrees with
      the store, and in a live session the devices it is silent on agree already, even when
      it still holds updates from before the hello. */
  lemma {:induction false} RunKeepsInv(known: set<string>, steps: seq<Step>, keys: set<string>, dsuid: string -> string)
    requires InjectiveOn(keys, dsuid) && AddsOnly(steps, keys)
    ensures Inv(Run(Initial(known), steps, dsuid), keys, dsuid)
    decreases |steps|
  {
    if steps != [] {
      assert Adds(steps[|steps| - 1], keys);
      RunKeepsInv(known, steps[..|steps| - 1], keys, dsuid);
      StepKeepsInv(Run(Initial(known), steps[..|steps| - 1], dsuid), steps[|steps| - 1], keys, dsuid);
    }
  }

  // ------------------------------------------------------------------ draining

  /** The pump of one connection running until its queue is empty. */
  ghost function Drain(s: State, c: ConnId, dsuid: string -> string): State
    requires c in s.conns
    decreases |s.conns[c].queue|
  {
    if s.conns[c].queue == [] then s else Drain(Next(s, Pump(c), dsuid), c, dsuid)
  }

  /** Draining a live session, with no assumption on what was dropped: a device is believed
      in afterwards exactly when the queue foretold it. */
  lemma {:induction false} DrainBelief(s: State, c: ConnId, key: string, keys: set<string>, dsuid: string -> string)
    requires Live(s, c) && InjectiveOn(keys, dsuid) && key in keys && Speaks(s.conns[c].queue, keys)
    ensures var t := Drain(s, c, dsuid);
            && t.store == s.store && Live(t, c) && t.conns[c].queue == []
            && (dsuid(Identity(key)) in t.view <==>
                Foretold(s.conns[c].queue, key, dsuid(Identity(key)) in s.view))
    decreases |s.conns[c].queue|
  {
    if s.conns[c].queue != [] {
      var u := s.conns[c].queue[0];
      PumpFramesView(s.view, u.kind, dsuid(Identity(u.key)));
      hide View, PumpFrames;
      LastWordPop(s.conns[c].queue, key);
      assert u.key in keys;
      DrainBelief(Next(s, Pump(c), dsuid), c, key, keys, dsuid);
    }
  }

  lemma {:induction false} DrainLive(s: State, c: ConnId, dsuid: string -> string)
    requires Live(s, c)
    ensures var t := Drain(s, c, dsuid); t.store == s.store && Live(t, c) && t.conns[c].queue == []
    decreases |s.conns[c].queue|
  {
    if s.conns[c].queue != [] {
      hide View, PumpFrames;
      DrainLive(Next(s, Pump(c), dsuid), c, dsuid);
    }
  }

  lemma {:induction false} DrainKeepsInv(s: State, c: ConnId, keys: set<string>, dsuid: string -> string)
    requires c in s.conns && Inv(s, keys, dsuid) && InjectiveOn(keys, dsuid)
    ensures Inv(Drain(s, c, dsuid), keys, dsuid)
    ensures c in Drain(s, c, dsuid).conns && Drain(s, c, dsuid).conns[c].lossy == s.conns[c].lossy
    decreases |s.conns[c].queue|
  {
    if s.conns[c].queue != [] {
      PumpKeepsInv(s, c, keys, dsuid);
      DrainKeepsInv(Next(s, Pump(c), dsuid), c, keys, dsuid);
    }
  }

  /** In a live session whose queue dropped nothing, draining the queue makes the dSS view, the
      announced set and the store the same. */
  lemma DrainedIsMirror(known: set<string>, steps: seq<Step>, c: ConnId, keys: set<string>, dsuid: string -> string)
    requires InjectiveOn(keys, dsuid) && AddsOnly(steps, keys)
    requires var s := Run(Initial(known), steps, dsuid); Live(s, c) && !s.conns[c].lossy
    ensures var s := Run(Initial(known), steps, dsuid);
            var t := Drain(s, c, dsuid);
            t.store == s.store && t.view == t.announced == Present(t.store, dsuid)
  {
    var s := Run(Initial(known), steps, dsuid);
    RunKeepsInv(known, steps, keys, dsuid);
    DrainKeepsInv(s, c, keys, dsuid);
    DrainLive(s, c, dsuid);
    var t := Drain(s, c, dsuid);
    assert RestAgrees(t.conns[c], t, keys, dsuid);
    forall d ensures d in t.view <==> d in Present(t.store, dsuid) {
      if d in t.view {
        var key :| key in keys && dsuid(Identity(key)) == d;
        assert LastWord(t.conns[c].queue, key) == None;
      }
    }
  }

  /** A full queue is where this ends: remove a device the queue and the view still speak of,
      and the dSS keeps it after every queued update has been worked off. */
  lemma OverflowLosesRemoval(s: State, c: ConnId, e: Event, keys: set<string>, dsuid: string -> string)
    requires Inv(s, keys, dsuid) && InjectiveOn(keys, dsuid) && Live(s, c) && !s.conns[c].lossy
    requires e.kind == Remove && ResolveKey(s.store, e).Some?
    ensures var key, t := ResolveKey(s.store, e).value, Drain(Next(s, DeviceEvent(e), dsuid), c, dsuid);
            && key !in t.store.devices
            && (dsuid(Identity(key)) in t.view <==> |s.conns[c].queue| >= QUEUE_CAPACITY)
  {
    var key := ResolveKey(s.store, e).value;
    var s' := Next(s, DeviceEvent(e), dsuid);
    LastWordSnoc(s.conns[c].queue, Update(Remove, key), key);
    assert RestAgrees(s.conns[c], s, keys, dsuid) && QueueTells(s.conns[c], s.store);
    assert Live(s', c);
    DrainBelief(s', c, key, keys, dsuid);
  }

  /** Distinct devices must have distinct dSUIDs: after the removal of a device is worked off,
      another one that was believed in is still believed in exactly when its dSUID is another. */
  lemma RemovalSparesIff(s: State, c: ConnId, e: Event, other: string, dsuid: string -> string)
    requires Live(s, c) && s.conns[c].queue == []
    requires e.kind == Remove && ResolveKey(s.store, e).Some?
    requires other in s.store.devices && other != ResolveKey(s.store, e).value && dsuid(Identity(other)) in s.view
    ensures var t, removed := Drain(Next(s, DeviceEvent(e), dsuid), c, dsuid), ResolveKey(s.store, e).value;
            && other in t.store.devices
            && (dsuid(Identity(other)) in t.view <==> dsuid(Identity(other)) != dsuid(Identity(removed)))
  {
    var key := ResolveKey(s.store, e).value;
    var s' := Next(s, DeviceEvent(e), dsuid);
    var s'' := Next(s', Pump(c), dsuid);
    PumpFramesView(s.view, Remove, dsuid(Identity(key)));
    assert s'.conns[c].queue == [Update(Remove, key)];
    assert s''.conns[c].queue == [];
    assert Drain(s', c, dsuid) == s'';
  }

  /** Goodbye or loss ends a connection's session, and no other's; once it is gone, nobody owns
      the session it owned. */
  lemma LeavingEndsSession(s: State, c: ConnId, other: ConnId, dsuid: string -> string)
    requires other != c
    ensures var t := Next(s, Bye(c), dsuid);
            && !Live(t, c) && (Live(t, other) <==> Live(s, other))
            && t.store == s.store && t.announced == s.announced && t.view == s.view
    ensures var t := Next(s, Disconnect(c), dsuid);
            && c !in t.conns && t.owner != Some(c) && (s.owner != Some(c) ==> t.owner == s.owner)
            && (Live(t, other) <==> Live(s, other))
            && t.store == s.store && t.announced == s.announced && t.view == s.view
  {
  }

  // ------------------------------------------------ the machine is what the stores do

  /** The stores' fields are the state's: each connection's queue is its subscriber channel. */
  ghost predicate Reflects(s: State, store: StateStore, config: ConfigStore)
    reads store, config
  {
    && store.Contents() == s.store && config.announcedDsuids == s.announced
    && store.subscribers.Keys == s.conns.Keys
    && forall c :: c in s.conns ==> store.subscribers[c] == s.conns[c].queue
  }

  /** A device event handled by the store leaves the queues the machine's step leaves. */
  method PerformEvent(store: StateStore, config: ConfigStore, e: Event, ghost s: State, ghost dsuid: string -> string)
    requires Reflects(s, store, config)
    modifies store
    ensures Reflects(Next(s, DeviceEvent(e), dsuid), store, config)
  {
    store.HandleEvent(e);
  }

  method PerformReAnnounce(store: StateStore, config: ConfigStore, uniqueId: string,
                           ghost s: State, ghost dsuid: string -> string)
    requires Reflects(s, store, config)
    modifies store
    ensures Reflects(Next(s, Step.ReAnnounce(uniqueId), dsuid), store, config)
  {
    store.ReAnnounce(uniqueId);
  }

  method PerformConnect(store: StateStore, config: ConfigStore, ghost s: State, ghost dsuid: string -> string)
    returns (c: ConnId)
    requires Reflects(s, store, config) && store.nextSubId !in s.conns
    modifies store
    ensures c == old(store.nextSubId) && Reflects(Next(s, Connect(c), dsuid), store, config)
  {
    c := store.Subscribe();
  }

  method PerformDisconnect(store: StateStore, config: ConfigStore, c: ConnId, ghost s: State,
                           ghost dsuid: string -> string)
    requires Reflects(s, store, config)
    modifies store
    ensures Reflects(Next(s, Disconnect(c), dsuid), store, config)
  {
    store.Unsubscribe(c);
  }

  /** The frames of an accepted hello, and what the dSS believes behind them. */
  method PerformHello(store: StateStore, config: ConfigStore, c: ConnId, current: set<string>,
                      ghost s: State, ghost dsuid: string -> string)
    returns (frames: seq<Frame>, ghost step: Step)
    requires Reflects(s, store, config) && c in s.conns && s.conns[c].open && current == Present(s.store, dsuid)
    modifies config
    ensures step.Hello? && step.c == c
    ensures Reflects(Next(s, step, dsuid), store, config) && Next(s, step, dsuid).view == View(s.view, frames)
    ensures Next(s, step, dsuid).conns[c].active && Next(s, step, dsuid).owner == Some(c)
  {
    ghost var stale, order;
    frames, stale, order := config.HelloFrames(current, s.view);
    step := Hello(c, stale, order);
  }

  /** One turn of the update pump of connection c, its session live. */
  method PerformPump(store: StateStore, config: ConfigStore, c: ConnId, derive: string -> string,
                     ghost s: State, ghost dsuid: string -> string)
    returns (frames: seq<Frame>)
    requires Reflects(s, store, config) && Live(s, c) && s.conns[c].queue != []
    requires forall key :: derive(key) == dsuid(Identity(key))
    modifies store, config
    ensures Reflects(Next(s, Pump(c), dsuid), store, config) && Next(s, Pump(c), dsuid).view == View(s.view, frames)
  {
    var u := store.Receive(c);
    frames := config.PumpUpdate(u.kind, derive(u.key), s.view);
  }

  // --------------------------------------------------- runs that show the edges

  const LAMP := Event(Init, "lamp", "", "")
  const LAMP_KEY := "uid:lamp"

  /** A lamp is announced while connection 0 is in session; then n changes of it. */
  function LampRun(n: nat): seq<Step> {
    [Connect(0), Hello(0, [], []), DeviceEvent(LAMP)] + seq(n, _ => DeviceEvent(LAMP.(kind := Change)))
  }

  function LampQueue(n: nat): seq<Update> {
    [Update(Init, LAMP_KEY)] + seq(n, _ => Update(Change, LAMP_KEY))
  }

  lemma LampKey()
    ensures EventKey(LAMP) == LAMP_KEY && Identity(LAMP_KEY) == "lamp"
  {
    assert TrimSpace("lamp") == "lamp";
  }

  lemma RunSnoc(s: State, steps: seq<Step>, step: Step, dsuid: string -> string)
    ensures Run(s, steps + [step], dsuid) == Next(Run(s, steps, dsuid), step, dsuid)
  {
    assert (steps + [step])[..|steps|] == steps;
  }

  lemma AfterLampInit(dsuid: string -> string)
    ensures Run(Initial({}), LampRun(0), dsuid)
         == State(Store({LAMP_KEY}, map[]), {}, {}, Some(0), map[0 := Conn(true, true, false, LampQueue(0))])
  {
    LampKey();
    var s0 := Initial({});
    var s1 := Next(s0, Connect(0), dsuid);
    var s2 := Next(s1, Hello(0, [], []), dsuid);
    HelloView(s1, Hello(0, [], []), dsuid);
    assert Present(s1.store, dsuid) == {};
    assert s2 == State(Store({}, map[]), {}, {}, Some(0), map[0 := Conn(true, true, false, [])]);
    var s3 := Next(s2, DeviceEvent(LAMP), dsuid);
    assert LampQueue(0) == [] + [Update(Init, LAMP_KEY)];
    assert s3 == State(Store({LAMP_KEY}, map[]), {}, {}, Some(0), map[0 := Conn(true, true, false, LampQueue(0))]);
    assert Run(s0, [], dsuid) == s0;
    RunSnoc(s0, [], Connect(0), dsuid);
    RunSnoc(s0, [Connect(0)], Hello(0, [], []), dsuid);
    RunSnoc(s0, [Connect(0), Hello(0, [], [])], DeviceEvent(LAMP), dsuid);
    assert [] + [Connect(0)] == [Connect(0)];
    assert [Connect(0)] + [Hello(0, [], [])] == [Connect(0), Hello(0, [], [])];
    assert [Connect(0), Hello(0, [], [])] + [DeviceEvent(LAMP)] == LampRun(0);
  }

  /** Where that run leads: the queue holds the announcement and as many changes as fit. */
  lemma {:induction false} AfterLampRun(n: nat, dsuid: string -> string)
    ensures Run(Initial({}), LampRun(n), dsuid)
         == State(Store({LAMP_KEY}, map[]), {}, {}, Some(0),
                  map[0 := Conn(true, true, false, LampQueue(if n < QUEUE_CAPACITY then n else QUEUE_CAPACITY - 1))])
  {
    hide Next, Run, LampRun, LampQueue;
    if n == 0 {
      AfterLampInit(dsuid);
    } else {
      var change := DeviceEvent(LAMP.(kind := Change));
      AfterLampRun(n - 1, dsuid);
      LampRunNext(n);
      RunSnoc(Initial({}), LampRun(n - 1), change, dsuid);
      AfterChange(Run(Initial({}), LampRun(n - 1), dsuid), dsuid);
    }
  }

  lemma LampRunNext(n: nat)
    requires n > 0
    ensures LampRun(n) == LampRun(n - 1) + [DeviceEvent(LAMP.(kind := Change))]
    ensures LampQueue(n) == LampQueue(n - 1) + [Update(Change, LAMP_KEY)] && |LampQueue(n - 1)| == n
    ensures |LampQueue(QUEUE_CAPACITY - 1)| == QUEUE_CAPACITY
  {
  }

  /** One change of a device that exists. */
  lemma AfterChange(s: State, dsuid: string -> string)
    requires LAMP_KEY in s.store.devices && s.conns.Keys == {0} && !s.conns[0].lossy
    ensures Next(s, DeviceEvent(LAMP.(kind := Change)), dsuid)
         == s.(conns := map[0 := s.conns[0].(queue := Enqueue(s.conns[0].queue, Update(Change, LAMP_KEY)))])
  {
    LampKey();
  }

  lemma LampAddsOnly(n: nat, keys: set<string>)
    requires LAMP_KEY in keys
    ensures AddsOnly(LampRun(n), keys)
  {
    LampKey();
  }

  /** Runs as DrainedIsMirror asks for exist, with more than one device name in play. */
  lemma MirrorHasRuns(n: nat)
    ensures var keys := {LAMP_KEY, "uid:blind"};
            var dsuid: string -> string := id => id;
            var s := Run(Initial({}), LampRun(n), dsuid);
            && InjectiveOn(keys, dsuid) && AddsOnly(LampRun(n), keys)
            && Live(s, 0) && !s.conns[0].lossy && s.view != Present(s.store, dsuid)
  {
    var dsuid: string -> string := id => id;
    LampKey();
    assert Identity("uid:blind") == "blind";
    LampAddsOnly(n, {LAMP_KEY, "uid:blind"});
    AfterLampRun(n, dsuid);
    var s := Run(Initial({}), LampRun(n), dsuid);
    assert dsuid(Identity(LAMP_KEY)) in Present(s.store, dsuid);
  }

  /** The queue overflowing in a run: with the announcement and 15 or more changes of the lamp
      still queued, its removal is lost on the dSS; with fewer it is not. */
  lemma LampRemovedAfterChanges(n: nat, dsuid: string -> string)
    ensures var s := Run(Initial({}), LampRun(n) + [DeviceEvent(LAMP.(kind := Remove))], dsuid);
            && 0 in s.conns
            && var t := Drain(s, 0, dsuid);
            && LAMP_KEY !in t.store.devices
            && (dsuid("lamp") in t.view <==> n >= QUEUE_CAPACITY - 1)
  {
    var remove := LAMP.(kind := Remove);
    LampKey();
    AfterLampRun(n, dsuid);
    LampAddsOnly(n, {LAMP_KEY});
    RunSnoc(Initial({}), LampRun(n), DeviceEvent(remove), dsuid);
    RunKeepsInv({}, LampRun(n), {LAMP_KEY}, dsuid);
    OverflowLosesRemoval(Run(Initial({}), LampRun(n), dsuid), 0, remove, {LAMP_KEY}, dsuid);
  }

  const ANONYMOUS := Event(Init, "", "", "")
  const NAMESAKE := Event(Init, "anon:sample", "", "")

  /** Two such devices the store does tell apart: one without any name, and one whose unique id
      is the key the nameless one gets. Whatever the derivation, their dSUIDs are the same. */
  lemma NamesakeOfAnonymous(dsuid: string -> string)
    ensures EventKey(ANONYMOUS) != EventKey(NAMESAKE)
    ensures dsuid(Identity(EventKey(ANONYMOUS))) == dsuid(Identity(EventKey(NAMESAKE)))
  {
    assert TrimSpace("anon:sample") == "anon:sample";
    assert EventKey(NAMESAKE)[4..] == "anon:sample";
  }
}
