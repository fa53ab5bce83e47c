/** Plugin lifecycle (pkg/bridge/registry.go, mapping_store.go): configs, running instances,
    retry backoff, bridge mappings and the devices they have in the state store. Operations
    run one at a time; whether a plugin's Init succeeds is arbitrary. dSUIDs are non-blank and
    trimmed, so the store finds a device under the dSUID it was announced with. */
module Registry {
  type PluginId = string
  type Dsuid = string
  type Instance = nat

  datatype PluginConfig = PluginConfig(id: PluginId, pluginType: string, disabled: bool)

  datatype Mapping = Mapping(pluginId: PluginId, remote: string, dsuid: Dsuid)

  datatype Retry = Retry(nextAt: int, delay: nat)

  // ------------------------------------------------------------------ backoff

  function Pow2(n: nat): nat {
    if n == 0 then 1 else 2 * Pow2(n - 1)
  }

  function Min(a: nat, b: nat): nat {
    if a < b then a else b
  }

  /** The delay after k consecutive failures. */
  function Backoff(interval: nat, max: nat, k: nat): nat
    requires k > 0
  {
    Min(max, interval * Pow2(k - 1))
  }

  /** What recordStartFailure makes of the previous delay, 0 when there was none. */
  function NextDelay(interval: nat, max: nat, delay: nat): nat {
    var d := delay * 2;
    var floored := if d < interval then interval else d;
    Min(max, floored)
  }

  lemma NextDelayDoubles(interval: nat, max: nat, x: nat)
    requires x >= interval
    ensures NextDelay(interval, max, Min(max, x)) == Min(max, 2 * x)
  {
  }

  lemma TwiceAsMuch(interval: nat, n: nat)
    requires n > 0
    ensures interval * Pow2(n) == 2 * (interval * Pow2(n - 1))
  {
    assert interval * (2 * Pow2(n - 1)) == 2 * (interval * Pow2(n - 1));
  }

  lemma BackoffDoubles(interval: nat, max: nat, k: nat)
    ensures NextDelay(interval, max, if k == 0 then 0 else Backoff(interval, max, k)) == Backoff(interval, max, k + 1)
  {
    if k == 0 {
      assert interval * Pow2(0) == interval;
    } else {
      PowPositive(interval, k - 1);
      TwiceAsMuch(interval, k);
      hide Pow2, NextDelay, Min;
      NextDelayDoubles(interval, max, interval * Pow2(k - 1));
    }
  }

  lemma {:induction false} PowPositive(interval: nat, n: nat)
    ensures interval * Pow2(n) >= interval
  {
    if n > 0 {
      PowPositive(interval, n - 1);
      TwiceAsMuch(interval, n);
    }
  }

  ghost predicate FailedOnceMore(before: map<PluginId, nat>, after: map<PluginId, nat>, id: PluginId) {
    id in after && after[id] == if id in before then before[id] + 1 else 1
  }

  /** The maps agree on every key outside `except`. */
  ghost predicate SameBut<V>(before: map<PluginId, V>, after: map<PluginId, V>, except: set<PluginId>) {
    forall k :: k !in except ==> (k in before <==> k in after) && (k in before ==> after[k] == before[k])
  }

  lemma SameButTrans<V>(a: map<PluginId, V>, b: map<PluginId, V>, c: map<PluginId, V>,
                        x: set<PluginId>, y: set<PluginId>)
    requires SameBut(a, b, x) && SameBut(b, c, y)
    ensures SameBut(a, c, x + y)
  {
  }

  /** The ids that run after a relaunch of `id`. */
  function Kept(running: set<PluginId>, id: PluginId, ok: bool): set<PluginId> {
    if ok then running + {id} else running - {id}
  }

  lemma KeysAfter(m: map<PluginId, Instance>, m': map<PluginId, Instance>, id: PluginId)
    requires SameBut(m, m', {id})
    ensures m'.Keys == Kept(m.Keys, id, id in m')
  {
    forall k ensures k in m' <==> k in Kept(m.Keys, id, id in m') {
      if k != id { assert k in m <==> k in m'; }
    }
  }

  ghost predicate Injective(m: map<PluginId, Instance>) {
    forall i, j :: i in m && j in m && i != j ==> m[i] != m[j]
  }

  /** Overwriting an entry of an injective map takes the old value out. */
  lemma ValuesAfterPut(m: map<PluginId, Instance>, k: PluginId, v: Instance)
    requires v !in m.Values && Injective(m)
    ensures m[k := v].Values == (if k in m then m.Values - {m[k]} else m.Values) + {v}
    ensures Injective(m[k := v]) && (k in m ==> m[k] in m.Values)
  {
    var m' := m[k := v];
    assert k in m' && forall i :: i in m && i != k ==> i in m' && m'[i] == m[i];
    forall y ensures y in m'.Values <==> y == v || (y in m.Values && (k in m ==> y != m[k])) {
      if y in m.Values && (k in m ==> y != m[k]) {
        var i :| i in m && m[i] == y;
        assert m'[i] == y;
      }
    }
  }

  /** A new instance under `id`: the live ones are exactly the entries again if no other went by it. */
  lemma LiveAfterPut(m: map<PluginId, Instance>, live: set<Instance>, made: nat, id: PluginId)
    requires m.Values <= live && Injective(m) && forall x :: x in live ==> x < made
    ensures m[id := made].Values <= live + {made} && Injective(m[id := made])
    ensures live <= m.Values ==> (live + {made} <= m[id := made].Values <==> id !in m)
  {
    assert made !in m.Values;
    hide Injective;
    ValuesAfterPut(m, id, made);
  }

  lemma SameButNothing<V>(m: map<PluginId, V>)
    ensures SameBut(m, m, {})
  {
  }

  lemma RemovalSparesOthers<V>(m: map<PluginId, V>, id: PluginId)
    ensures SameBut(m, m - {id}, {id})
  {
  }

  /** One more plugin tried: what is known of the ones tried before stays. */
  lemma TriedOneMore(f0: map<PluginId, nat>, f1: map<PluginId, nat>, f2: map<PluginId, nat>,
                     tried: set<PluginId>, id: PluginId, up: set<PluginId>, up': set<PluginId>)
    requires id !in tried && SameBut(f0, f1, tried) && SameBut(f1, f2, {id})
    requires forall i :: i in tried && i !in up ==> FailedOnceMore(f0, f1, i)
    requires up <= up' && (id !in up' ==> FailedOnceMore(f1, f2, id))
    ensures SameBut(f0, f2, tried + {id})
    ensures forall i :: i in tried + {id} && i !in up' ==> FailedOnceMore(f0, f2, i)
  {
  }

  // ----------------------------------------------------------------- registry

  function MappedTo(mappings: map<Dsuid, Mapping>, id: PluginId): set<Dsuid> {
    set d | d in mappings && mappings[d].pluginId == id
  }

  /** The plugin runs, every mapping of it has its device, and its instance is subscribed to it. */
  predicate Serves(mappings: map<Dsuid, Mapping>, present: set<Dsuid>, instances: map<PluginId, Instance>,
                   subscribed: set<(Instance, Dsuid)>, id: PluginId)
  {
    && id in instances
    && forall d :: d in mappings && mappings[d].pluginId == id ==> d in present && (instances[id], d) in subscribed
  }

  /** Every plugin tried so far that runs is served, and only their devices are new. */
  predicate AllServed(mappings: map<Dsuid, Mapping>, before: set<Dsuid>, present: set<Dsuid>,
                      instances: map<PluginId, Instance>, subscribed: set<(Instance, Dsuid)>, tried: set<PluginId>)
  {
    && (forall i :: i in tried && i in instances ==> Serves(mappings, present, instances, subscribed, i))
    && forall d :: d in present && d !in before ==>
         d in mappings && mappings[d].pluginId in tried && mappings[d].pluginId in instances
  }

  /** Those of the plugins tried that come up. */
  function ComeUp(configs: map<PluginId, PluginConfig>, factories: set<string>, tried: set<PluginId>,
                  inits: set<PluginId>): set<PluginId>
  {
    set i | i in tried && i in configs && configs[i].pluginType in factories && i in inits
  }

  lemma ComeUpNext(configs: map<PluginId, PluginConfig>, factories: set<string>, tried: set<PluginId>,
                   inits: set<PluginId>, id: PluginId)
    requires id in configs
    ensures ComeUp(configs, factories, tried + {id}, inits)
         == ComeUp(configs, factories, tried, inits) +
            if configs[id].pluginType in factories && id in inits then {id} else {}
  {
  }

  lemma OneMoreServed(mappings: map<Dsuid, Mapping>, before: set<Dsuid>, present: set<Dsuid>, present': set<Dsuid>,
                      instances: map<PluginId, Instance>, instances': map<PluginId, Instance>,
                      subscribed: set<(Instance, Dsuid)>, subscribed': set<(Instance, Dsuid)>,
                      tried: set<PluginId>, id: PluginId)
    requires AllServed(mappings, before, present, instances, subscribed, tried) && id !in tried
    requires SameBut(instances, instances', {id}) && subscribed <= subscribed'
    requires id in instances' ==> Serves(mappings, present', instances', subscribed', id)
    requires present' == present + if id in instances' then MappedTo(mappings, id) else {}
    ensures AllServed(mappings, before, present', instances', subscribed', tried + {id})
  {
  }

  /** What a round of the supervisor changes. */
  datatype Standing = Standing(instances: map<PluginId, Instance>, backoff: map<PluginId, Retry>,
                               failures: map<PluginId, nat>, present: set<Dsuid>,
                               subscribed: set<(Instance, Dsuid)>)

  /** From `a` to `b` these plugins have been tried. */
  ghost predicate RoundSoFar(a: Standing, b: Standing, mappings: map<Dsuid, Mapping>,
                             configs: map<PluginId, PluginConfig>, factories: set<string>, tried: set<PluginId>,
                             inits: set<PluginId>)
  {
    && SameBut(a.instances, b.instances, tried) && SameBut(a.backoff, b.backoff, tried)
    && SameBut(a.failures, b.failures, tried)
    && b.instances.Keys == a.instances.Keys + ComeUp(configs, factories, tried, inits)
    && AllServed(mappings, a.present, b.present, b.instances, b.subscribed, tried)
    && (forall i :: i in tried && i !in b.instances ==> FailedOnceMore(a.failures, b.failures, i))
    && a.present <= b.present
  }

  lemma RoundBegins(a: Standing, mappings: map<Dsuid, Mapping>, configs: map<PluginId, PluginConfig>,
                    factories: set<string>, inits: set<PluginId>)
    ensures RoundSoFar(a, a, mappings, configs, factories, {}, inits)
  {
  }

  lemma RoundGoesOn(a: Standing, b: Standing, c: Standing, mappings: map<Dsuid, Mapping>,
                    configs: map<PluginId, PluginConfig>, factories: set<string>, tried: set<PluginId>,
                    inits: set<PluginId>, id: PluginId)
    requires RoundSoFar(a, b, mappings, configs, factories, tried, inits) && id in configs && id !in tried
    requires SameBut(b.instances, c.instances, {id}) && SameBut(b.backoff, c.backoff, {id})
    requires SameBut(b.failures, c.failures, {id}) && b.subscribed <= c.subscribed
    requires c.instances.Keys == b.instances.Keys +
               if configs[id].pluginType in factories && id in inits then {id} else {}
    requires c.present == b.present + if id in c.instances then MappedTo(mappings, id) else {}
    requires if id in c.instances then Serves(mappings, c.present, c.instances, c.subscribed, id)
             else FailedOnceMore(b.failures, c.failures, id)
    ensures RoundSoFar(a, c, mappings, configs, factories, tried + {id}, inits)
  {
    hide SameBut, FailedOnceMore, AllServed, Serves, ComeUp, MappedTo;
    SameButTrans(a.instances, b.instances, c.instances, tried, {id});
    SameButTrans(a.backoff, b.backoff, c.backoff, tried, {id});
    TriedOneMore(a.failures, b.failures, c.failures, tried, id, b.instances.Keys, c.instances.Keys);
    OneMoreServed(mappings, a.present, b.present, c.present, b.instances, c.instances, b.subscribed, c.subscribed,
                  tried, id);
    ComeUpNext(configs, factories, tried, inits, id);
  }

  function Pairs(x: Instance, ds: set<Dsuid>): set<(Instance, Dsuid)> {
    set d | d in ds :: (x, d)
  }

  function Without(subscribed: set<(Instance, Dsuid)>, x: Instance): set<(Instance, Dsuid)> {
    set p | p in subscribed && p.0 != x
  }

  /** What a bridged entity's dSUID is derived from. */
  function Identity(id: PluginId, remote: string): string {
    id + ":" + remote
  }

  /** Two entities of different plugins with one identity: bridging the second takes the
      mapping of the first. */
  lemma ColonConfusesEntities(m: string)
    ensures Identity("a", m + ":c") == Identity("a:" + m, "c")
  {
  }

  predicate NothingLost(before: map<Dsuid, Mapping>, after: map<Dsuid, Mapping>) {
    forall m :: m in before.Values ==> m in after.Values
  }

  /** A mapping put under a dSUID pushes another one out exactly when the dSUID is taken. */
  lemma MappingLostIff(mappings: map<Dsuid, Mapping>, d: Dsuid, m: Mapping)
    requires forall e :: e in mappings ==> mappings[e].dsuid == e
    requires forall e :: e in mappings ==> mappings[e] != m
    ensures NothingLost(mappings, mappings[d := m]) <==> d !in mappings
  {
    var after := mappings[d := m];
    if d in mappings {
      assert mappings[d] in mappings.Values;
      assert forall e :: e in after ==> after[e] != mappings[d];
    } else {
      forall x | x in mappings.Values ensures x in after.Values {
        var e :| e in mappings && mappings[e] == x;
        assert after[e] == x;
      }
    }
  }

  predicate Starts(pc: PluginConfig, inits: bool, factories: set<string>) {
    pc.pluginType in factories && inits
  }

  /** The plugins of these configs that a Start makes run. */
  function StartedOf(pcs: seq<PluginConfig>, inits: set<PluginId>, factories: set<string>): set<PluginId> {
    set i | 0 <= i < |pcs| && !pcs[i].disabled && pcs[i].pluginType in factories && pcs[i].id in inits :: pcs[i].id
  }

  lemma StartedNext(pcs: seq<PluginConfig>, k: nat, inits: set<PluginId>, factories: set<string>)
    requires k < |pcs|
    ensures StartedOf(pcs[..k + 1], inits, factories)
         == StartedOf(pcs[..k], inits, factories) +
            if !pcs[k].disabled && Starts(pcs[k], pcs[k].id in inits, factories) then {pcs[k].id} else {}
  {
    var a, b := pcs[..k], pcs[..k + 1];
    assert forall i :: 0 <= i < k ==> a[i] == b[i];
    assert b[k] == pcs[k];
  }

  /** What trying to start one plugin has come to; b and f are backoff and failures before. */
  ghost predicate Outcome(pc: PluginConfig, inits: set<PluginId>, factories: set<string>,
                          b: map<PluginId, Retry>, f: map<PluginId, nat>,
                          instances: map<PluginId, Instance>, backoff: map<PluginId, Retry>,
                          failures: map<PluginId, nat>)
  {
    if pc.disabled then Untouched(pc.id, b, f, instances, backoff, failures)
    else if Starts(pc, pc.id in inits, factories) then pc.id in instances && pc.id !in backoff
    else pc.id !in instances && pc.id in backoff && FailedOnceMore(f, failures, pc.id)
  }

  ghost predicate Untouched(id: PluginId, b: map<PluginId, Retry>, f: map<PluginId, nat>,
                            instances: map<PluginId, Instance>, backoff: map<PluginId, Retry>,
                            failures: map<PluginId, nat>)
  {
    && id !in instances && (id in backoff <==> id in b)
    && (id in failures <==> id in f) && (id in f ==> failures[id] == f[id])
  }

  /** The first k of the configs have been dealt with, the others not. */
  ghost predicate Outcomes(pcs: seq<PluginConfig>, k: nat, inits: set<PluginId>, factories: set<string>,
                           b: map<PluginId, Retry>, f: map<PluginId, nat>,
                           instances: map<PluginId, Instance>, backoff: map<PluginId, Retry>,
                           failures: map<PluginId, nat>)
    requires k <= |pcs|
  {
    && (forall i :: 0 <= i < k ==> Outcome(pcs[i], inits, factories, b, f, instances, backoff, failures))
    && (forall i :: k <= i < |pcs| ==> Untouched(pcs[i].id, b, f, instances, backoff, failures))
  }

  lemma NothingStarted(pcs: seq<PluginConfig>, inits: set<PluginId>, factories: set<string>,
                       instances: map<PluginId, Instance>, b: map<PluginId, Retry>, f: map<PluginId, nat>)
    requires forall i :: 0 <= i < |pcs| ==> pcs[i].id !in instances
    ensures Outcomes(pcs, 0, inits, factories, b, f, instances, b, f) && StartedOf(pcs[..0], inits, factories) == {}
  {
  }

  lemma NotTriedYet(pcs: seq<PluginConfig>, k: nat, inits: set<PluginId>, factories: set<string>,
                    b: map<PluginId, Retry>, f: map<PluginId, nat>,
                    instances: map<PluginId, Instance>, backoff: map<PluginId, Retry>, failures: map<PluginId, nat>)
    requires k < |pcs| && Outcomes(pcs, k, inits, factories, b, f, instances, backoff, failures)
    ensures Untouched(pcs[k].id, b, f, instances, backoff, failures)
  {
  }

  /** Config k dealt with on its own leaves the outcomes of the others as they were. */
  lemma OutcomesNext(pcs: seq<PluginConfig>, k: nat, inits: set<PluginId>, factories: set<string>,
                     b: map<PluginId, Retry>, f: map<PluginId, nat>,
                     i0: map<PluginId, Instance>, b0: map<PluginId, Retry>, f0: map<PluginId, nat>,
                     i1: map<PluginId, Instance>, b1: map<PluginId, Retry>, f1: map<PluginId, nat>)
    requires k < |pcs| && forall i, j :: 0 <= i < j < |pcs| ==> pcs[i].id != pcs[j].id
    requires Outcomes(pcs, k, inits, factories, b, f, i0, b0, f0)
    requires SameBut(i0, i1, {pcs[k].id}) && SameBut(b0, b1, {pcs[k].id}) && SameBut(f0, f1, {pcs[k].id})
    requires Outcome(pcs[k], inits, factories, b0, f0, i1, b1, f1)
    ensures Outcomes(pcs, k + 1, inits, factories, b, f, i1, b1, f1)
  {
    forall i | 0 <= i < |pcs| && i != k ensures pcs[i].id != pcs[k].id {
      assert i < k ==> pcs[i].id != pcs[k].id;
    }
    forall i | 0 <= i < k ensures Outcome(pcs[i], inits, factories, b, f, i1, b1, f1) {
      assert Outcome(pcs[i], inits, factories, b, f, i0, b0, f0);
    }
    assert Untouched(pcs[k].id, b, f, i0, b0, f0);
  }

  lemma SpellOut(pcs: seq<PluginConfig>, inits: set<PluginId>, factories: set<string>,
                 b: map<PluginId, Retry>, f: map<PluginId, nat>,
                 instances: map<PluginId, Instance>, backoff: map<PluginId, Retry>, failures: map<PluginId, nat>)
    requires Outcomes(pcs, |pcs|, inits, factories, b, f, instances, backoff, failures)
    ensures forall i :: 0 <= i < |pcs| && !pcs[i].disabled ==>
              if pcs[i].pluginType in factories && pcs[i].id in inits then pcs[i].id !in backoff
              else
                && pcs[i].id in backoff && pcs[i].id in failures
                && failures[pcs[i].id] == 1 + if pcs[i].id in f then f[pcs[i].id] else 0
    ensures forall i :: 0 <= i < |pcs| && pcs[i].disabled ==>
              pcs[i].id !in instances && (pcs[i].id in backoff <==> pcs[i].id in b)
    ensures StartedOf(pcs, inits, factories)
         == set i | 0 <= i < |pcs| && !pcs[i].disabled && pcs[i].pluginType in factories && pcs[i].id in inits
              :: pcs[i].id
  {
    forall i | 0 <= i < |pcs| ensures Outcome(pcs[i], inits, factories, b, f, instances, backoff, failures) {
    }
  }

  class Registry {
    const interval: nat
    const backoffMax: nat
    const factories: set<string>
    const deriveDsuid: string -> Dsuid
    var instances: map<PluginId, Instance>
    var configs: map<PluginId, PluginConfig>
    var backoff: map<PluginId, Retry>
    var mappings: map<Dsuid, Mapping>
    /** The state store: the devices that exist, and whether each is active. */
    var devices: map<Dsuid, bool>
    /** Initialised and not closed. */
    ghost var live: set<Instance>
    /** Instances made so far; the next one gets this identity. */
    var made: nat
    /** Consecutive failures since the last success. */
    ghost var failures: map<PluginId, nat>
    /** Announcements of a device the store had already. */
    ghost var reannounced: nat
    /** The devices each instance is subscribed to; one that is closed is so no more. */
    ghost var subscribed: set<(Instance, Dsuid)>

    /** What holds whatever is asked of the registry. */
    ghost predicate Booked()
      reads this`live, this`instances, this`made, this`configs, this`backoff, this`failures, this`mappings
    {
      && instances.Values <= live
      && Injective(instances)
      && (forall x :: x in live ==> x < made)
      && (forall i :: i in instances ==> i in configs)
      && (forall i :: i in configs ==> configs[i].id == i)
      && failures.Keys == backoff.Keys
      && (forall i :: i in backoff ==> failures[i] > 0)
      && (forall i :: i in backoff ==> backoff[i].delay == Backoff(interval, backoffMax, failures[i]))
      && (forall d :: d in mappings ==> mappings[d].dsuid == d)
    }

    /** No live instance has lost its entry, and nothing that runs is due for a retry. */
    ghost predicate Exclusive()
      reads this`live, this`instances, this`backoff
    {
      live <= instances.Values && forall i :: i in instances ==> i !in backoff
    }

    ghost predicate Valid()
      reads this`live, this`instances, this`made, this`configs, this`backoff, this`failures, this`mappings
    {
      Booked() && Exclusive()
    }

    ghost predicate RunningAreEnabled()
      reads this`instances, this`configs
    {
      forall i :: i in instances && i in configs ==> !configs[i].disabled
    }

    /** Starting comes off: there is a factory for the type, and Init succeeds. */
    predicate CanStart(pc: PluginConfig, inits: bool) {
      pc.pluginType in factories && inits
    }

    ghost predicate Restored(id: PluginId)
      reads this`mappings, this`devices, this`instances, this`subscribed
    {
      Serves(mappings, devices.Keys, instances, subscribed, id)
    }

    constructor (interval: nat, backoffMax: nat, factories: set<string>, derive: string -> Dsuid,
                 stored: map<Dsuid, Mapping>, present: map<Dsuid, bool>)
      requires forall d :: d in stored ==> stored[d].dsuid == d
      ensures Valid() && instances == map[] && configs == map[] && backoff == map[]
      ensures mappings == stored && devices == present && reannounced == 0 && subscribed == {}
      ensures this.factories == factories
    {
      this.interval, this.backoffMax, this.factories, this.deriveDsuid := interval, backoffMax, factories, derive;
      instances, configs, backoff := map[], map[], map[];
      mappings, devices := stored, present;
      live, made, failures, reannounced, subscribed := {}, 0, map[], 0, {};
    }

    method RecordStartFailure(id: PluginId, now: int)
      requires Booked()
      modifies this`backoff, this`failures
      ensures Booked() && (old(Valid()) ==> (Valid() <==> id !in instances))
      ensures failures == old(failures)[id := if id in old(failures) then old(failures)[id] + 1 else 1]
      ensures backoff == old(backoff)[id := backoff[id]] && backoff[id].nextAt == now + backoff[id].delay
      ensures var twice := if id in old(backoff) then 2 * old(backoff)[id].delay else 0;
              backoff[id].delay == if backoffMax < twice || backoffMax < interval then backoffMax
                                   else if twice < interval then interval else twice
    {
      ghost var k := if id in failures then failures[id] else 0;
      var delay := NextDelay(interval, backoffMax, if id in backoff then backoff[id].delay else 0);
      BackoffDoubles(interval, backoffMax, k);
      backoff := backoff[id := Retry(now + delay, delay)];
      failures := failures[id := k + 1];
    }

    /** The config is kept whatever happens. An instance that runs under the id already is not
        closed: it stays live without an entry, or it runs on beside a pending retry. */
    method StartPlugin(pc: PluginConfig, now: int, inits: bool) returns (ok: bool)
      requires Booked()
      modifies this`instances, this`configs, this`backoff, this`failures, this`live, this`made
      ensures Booked() && (old(Valid()) ==> (Valid() <==> pc.id !in old(instances)))
      ensures configs == old(configs)[pc.id := pc]
      ensures ok <==> CanStart(pc, inits)
      ensures ok ==> pc.id in instances
      ensures SameBut(old(instances), instances, {pc.id})
      ensures SameBut(old(backoff), backoff, {pc.id}) && SameBut(old(failures), failures, {pc.id})
      ensures ok ==> instances[pc.id] == old(made) && pc.id !in backoff
      ensures !ok ==> instances == old(instances) && pc.id in backoff
      ensures !ok ==> FailedOnceMore(old(failures), failures, pc.id)
      ensures old(RunningAreEnabled()) ==>
                (RunningAreEnabled() <==> !(pc.disabled && (pc.id in old(instances) || CanStart(pc, inits))))
    {
      hide Booked, Exclusive, Valid;
      StoreConfig(pc);
      if pc.pluginType !in factories {
        RecordStartFailure(pc.id, now);
        return false;
      }
      if !inits {
        RecordStartFailure(pc.id, now);
        return false;
      }
      RegisterInstance(pc.id);
      return true;
    }

    method StoreConfig(pc: PluginConfig)
      requires Booked()
      modifies this`configs
      ensures Booked() && (old(Valid()) <==> Valid())
      ensures configs == old(configs)[pc.id := pc]
      ensures old(RunningAreEnabled()) ==> (RunningAreEnabled() <==> !(pc.disabled && pc.id in instances))
    {
      hide Injective, Backoff;
      configs := configs[pc.id := pc];
      assert pc.id in configs && configs[pc.id] == pc;
    }

    method RegisterInstance(id: PluginId)
      requires Booked() && id in configs
      modifies this`instances, this`backoff, this`failures, this`live, this`made
      ensures Booked() && (old(Valid()) ==> (Valid() <==> id !in old(instances)))
      ensures instances == old(instances)[id := old(made)]
      ensures backoff == old(backoff) - {id} && failures == old(failures) - {id}
    {
      hide Injective, Backoff;
      LiveAfterPut(instances, live, made, id);
      instances := instances[id := made];
      live, made := live + {made}, made + 1;
      backoff, failures := backoff - {id}, failures - {id};
    }

    /** Host.AnnounceDevice: the device exists afterwards and is active. */
    method AnnounceDevice(d: Dsuid)
      modifies this`devices, this`reannounced
      ensures devices == old(devices)[d := true]
      ensures reannounced == old(reannounced) + if d in old(devices) then 1 else 0
    {
      if d in devices { reannounced := reannounced + 1; }
      devices := devices[d := true];
    }

    /** Announces a device the store lacks, and only then. */
    method EnsureAnnounced(d: Dsuid)
      modifies this`devices, this`reannounced
      ensures devices == if d in old(devices) then old(devices) else old(devices)[d := true]
      ensures reannounced == old(reannounced)
    {
      if d in devices { return; }
      AnnounceDevice(d);
    }

    /** A plugin's Subscribe may push any state for the device it subscribes. */
    method SubscribePlugin(x: Instance, d: Dsuid)
      modifies this`devices, this`subscribed
      ensures devices.Keys == old(devices).Keys && subscribed == old(subscribed) + {(x, d)}
      ensures forall e :: e in devices && e != d ==> devices[e] == old(devices)[e]
    {
      var active: bool := *;
      if d in devices { devices := devices[d := active]; }
      subscribed := subscribed + {(x, d)};
    }

    /** Re-establishes every mapping of the plugin, in any order: its device exists, the instance
        that runs is subscribed to it; a device that exists already is not announced again. */
    method RestoreMappings(id: PluginId)
      requires id in instances
      modifies this`devices, this`reannounced, this`subscribed
      ensures Restored(id)
      ensures forall d :: d in mappings && mappings[d].pluginId == id ==>
                d in devices && (instances[id], d) in subscribed
      ensures subscribed == old(subscribed) + Pairs(instances[id], MappedTo(mappings, id))
      ensures devices.Keys == old(devices).Keys + MappedTo(mappings, id)
      ensures forall d :: d in old(devices) && d !in MappedTo(mappings, id) ==> devices[d] == old(devices)[d]
      ensures reannounced == old(reannounced)
    {
      var all := MappedTo(mappings, id);
      var todo := all;
      while todo != {}
        invariant todo <= all
        invariant devices.Keys == old(devices).Keys + (all - todo)
        invariant subscribed == old(subscribed) + Pairs(instances[id], all - todo)
        invariant forall d :: d in old(devices) && d !in all ==> devices[d] == old(devices)[d]
        invariant reannounced == old(reannounced)
      {
        var d :| d in todo;
        EnsureAnnounced(d);
        SubscribePlugin(instances[id], d);
        todo := todo - {d};
      }
    }

    method CloseInstance(id: PluginId)
      requires Booked() && id in instances
      modifies this`instances, this`live, this`subscribed
      ensures Booked() && (old(Valid()) ==> Valid()) && instances == old(instances) - {id}
      ensures live == old(live) - {old(instances)[id]} && subscribed == Without(old(subscribed), old(instances)[id])
    {
      ghost var x := instances[id];
      subscribed := Without(subscribed, x);
      live := live - {x};
      ghost var before := instances;
      instances := instances - {id};
      assert forall i :: i in instances ==> instances[i] == before[i];
      assert instances.Values == before.Values - {x} by {
        forall y ensures y in instances.Values <==> y in before.Values && y != x {
          if y in before.Values && y != x {
            var i :| i in before && before[i] == y;
            assert i in instances && instances[i] == y;
          }
        }
      }
    }

    method CloseIfRunning(id: PluginId)
      requires Booked()
      modifies this`instances, this`live, this`subscribed
      ensures Booked() && (old(Valid()) ==> Valid())
      ensures instances == old(instances) - {id}
      ensures subscribed == if id in old(instances) then Without(old(subscribed), old(instances)[id])
                            else old(subscribed)
      ensures id in old(instances) ==> old(instances)[id] < made
      ensures old(RunningAreEnabled()) ==> RunningAreEnabled()
    {
      assert id in instances ==> instances[id] in live;
      if id in instances { CloseInstance(id); } else { assert instances == instances - {id}; }
    }

    /** Start. Exactly the enabled plugins that can start run afterwards, and the other enabled
        ones await a retry. No device that exists is announced again. */
    method Start(pcs: seq<PluginConfig>, now: int, inits: set<PluginId>)
      requires Booked() && RunningAreEnabled()
      requires forall i, j :: 0 <= i < j < |pcs| ==> pcs[i].id != pcs[j].id
      requires forall i :: 0 <= i < |pcs| ==> pcs[i].id !in instances
      modifies this`instances, this`configs, this`backoff, this`failures, this`live, this`made, this`devices,
          this`reannounced, this`subscribed
      ensures Booked() && (old(Valid()) ==> Valid()) && RunningAreEnabled()
      ensures forall i :: 0 <= i < |pcs| ==> pcs[i].id in configs && configs[pcs[i].id] == pcs[i]
      ensures instances.Keys == old(instances).Keys +
                set i | 0 <= i < |pcs| && !pcs[i].disabled && pcs[i].pluginType in factories && pcs[i].id in inits
                  :: pcs[i].id
      ensures forall i :: 0 <= i < |pcs| && !pcs[i].disabled ==>
                if pcs[i].pluginType in factories && pcs[i].id in inits then pcs[i].id !in backoff
                else
                  && pcs[i].id in backoff && pcs[i].id in failures
                  && failures[pcs[i].id] == 1 + if pcs[i].id in old(failures) then old(failures)[pcs[i].id] else 0
      ensures forall i :: 0 <= i < |pcs| && pcs[i].disabled ==>
                pcs[i].id !in instances && (pcs[i].id in backoff <==> pcs[i].id in old(backoff))
      ensures forall d :: d in mappings && mappings[d].pluginId in configs ==>
                d in devices && (mappings[d].pluginId !in instances ==> !devices[d])
      ensures forall d :: d in devices && d !in old(devices) ==> d in mappings && mappings[d].pluginId in configs
      ensures forall d :: d in mappings && mappings[d].pluginId in instances ==>
                (instances[mappings[d].pluginId], d) in subscribed
      ensures reannounced == old(reannounced)
    {
      StartConfigured(pcs, now, inits);
      RestoreAll();
    }

    method StartConfigured(pcs: seq<PluginConfig>, now: int, inits: set<PluginId>)
      requires Booked() && RunningAreEnabled()
      requires forall i, j :: 0 <= i < j < |pcs| ==> pcs[i].id != pcs[j].id
      requires forall i :: 0 <= i < |pcs| ==> pcs[i].id !in instances
      modifies this`instances, this`configs, this`backoff, this`failures, this`live, this`made
      ensures Booked() && (old(Valid()) ==> Valid()) && RunningAreEnabled()
      ensures forall i :: 0 <= i < |pcs| ==> pcs[i].id in configs && configs[pcs[i].id] == pcs[i]
      ensures instances.Keys == old(instances).Keys +
                set i | 0 <= i < |pcs| && !pcs[i].disabled && pcs[i].pluginType in factories && pcs[i].id in inits
                  :: pcs[i].id
      ensures forall i :: 0 <= i < |pcs| && !pcs[i].disabled ==>
                if pcs[i].pluginType in factories && pcs[i].id in inits then pcs[i].id !in backoff
                else
                  && pcs[i].id in backoff && pcs[i].id in failures
                  && failures[pcs[i].id] == 1 + if pcs[i].id in old(failures) then old(failures)[pcs[i].id] else 0
      ensures forall i :: 0 <= i < |pcs| && pcs[i].disabled ==>
                pcs[i].id !in instances && (pcs[i].id in backoff <==> pcs[i].id in old(backoff))
    {
      hide Booked, Exclusive, Valid, RunningAreEnabled, Outcomes, StartedOf, Injective;
      NothingStarted(pcs, inits, factories, instances, backoff, failures);
      for k := 0 to |pcs|
        invariant Booked() && (old(Valid()) ==> Valid()) && RunningAreEnabled()
        invariant forall i :: 0 <= i < k ==> pcs[i].id in configs && configs[pcs[i].id] == pcs[i]
        invariant Outcomes(pcs, k, inits, factories, old(backoff), old(failures), instances, backoff, failures)
        invariant instances.Keys == old(instances).Keys + StartedOf(pcs[..k], inits, factories)
      {
        ghost var i0, b0, f0 := instances, backoff, failures;
        NotTriedYet(pcs, k, inits, factories, old(backoff), old(failures), instances, backoff, failures);
        if pcs[k].disabled {
          StoreConfig(pcs[k]);
        } else {
          var _ := StartPlugin(pcs[k], now, pcs[k].id in inits);
        }
        StartedNext(pcs, k, inits, factories);
        KeysAfter(i0, instances, pcs[k].id);
        OutcomesNext(pcs, k, inits, factories, old(backoff), old(failures), i0, b0, f0, instances, backoff, failures);
      }
      assert pcs[..|pcs|] == pcs;
      SpellOut(pcs, inits, factories, old(backoff), old(failures), instances, backoff, failures);
    }

    /** The restore loop of Start over all mappings, in any order. */
    method RestoreAll()
      requires forall i :: i in instances ==> i in configs
      modifies this`devices, this`reannounced, this`subscribed
      ensures forall d :: d in mappings && mappings[d].pluginId in configs ==>
                d in devices && (mappings[d].pluginId !in instances ==> !devices[d])
      ensures forall d :: d in devices && d !in old(devices) ==> d in mappings && mappings[d].pluginId in configs
      ensures forall d :: d in mappings && mappings[d].pluginId in instances ==>
                (instances[mappings[d].pluginId], d) in subscribed
      ensures old(devices).Keys <= devices.Keys && reannounced == old(reannounced)
    {
      var todo := mappings.Keys;
      while todo != {}
        invariant todo <= mappings.Keys
        invariant forall d :: d in mappings && d !in todo && mappings[d].pluginId in configs ==>
          d in devices && (mappings[d].pluginId !in instances ==> !devices[d])
        invariant forall d :: d in devices && d !in old(devices) ==> d in mappings && mappings[d].pluginId in configs
        invariant forall d :: d in mappings && d !in todo && mappings[d].pluginId in instances ==>
          (instances[mappings[d].pluginId], d) in subscribed
        invariant old(devices).Keys <= devices.Keys && reannounced == old(reannounced)
      {
        var d :| d in todo;
        todo := todo - {d};
        var m := mappings[d];
        if m.pluginId !in instances && m.pluginId !in configs { continue; }
        EnsureAnnounced(d);
        if m.pluginId !in instances {
          devices := devices[d := false];
          continue;
        }
        SubscribePlugin(instances[m.pluginId], d);
      }
    }

    /** One round of the supervisor: exactly the enabled plugins that do not run and whose
        backoff is over are tried, and those that come up have their mappings restored. */
    method SuperviseOnce(now: int, inits: set<PluginId>)
      requires Booked()
      modifies this`instances, this`configs, this`backoff, this`failures, this`live, this`made, this`devices,
          this`reannounced, this`subscribed
      ensures Booked() && (old(Valid()) ==> Valid()) && configs == old(configs)
              && (old(RunningAreEnabled()) ==> RunningAreEnabled())
      ensures SameBut(old(instances), instances, old(DueIds(now)))
      ensures forall i :: i in instances <==>
                || i in old(instances)
                || (&& i in configs && !configs[i].disabled && !(i in old(backoff) && now < old(backoff)[i].nextAt)
                    && configs[i].pluginType in factories && i in inits)
      ensures instances.Keys == old(instances).Keys + set i | i in old(DueIds(now)) && CanStart(configs[i], i in inits)
      ensures SameBut(old(backoff), backoff, old(DueIds(now))) && SameBut(old(failures), failures, old(DueIds(now)))
      ensures forall i :: i in old(DueIds(now)) ==>
                if i in instances then Restored(i) else FailedOnceMore(old(failures), failures, i)
      ensures old(devices).Keys <= devices.Keys && reannounced == old(reannounced)
      ensures forall d :: d in devices && d !in old(devices) ==>
                d in mappings && mappings[d].pluginId in instances && mappings[d].pluginId !in old(instances)
    {
      var due := DueIds(now);
      hide Booked, Exclusive, Valid, RunningAreEnabled, SameBut, FailedOnceMore, Serves;
      RetryAll(due, now, inits);
    }

    method RetryAll(due: set<PluginId>, now: int, inits: set<PluginId>)
      requires Booked() && due !! instances.Keys
      requires forall i :: i in due ==> i in configs && !configs[i].disabled
      modifies this`instances, this`configs, this`backoff, this`failures, this`live, this`made, this`devices,
          this`reannounced, this`subscribed
      ensures Booked() && (old(Valid()) ==> Valid()) && configs == old(configs)
              && (old(RunningAreEnabled()) ==> RunningAreEnabled())
      ensures RoundSoFar(old(Now()), Now(), mappings, configs, factories, due, inits)
      ensures reannounced == old(reannounced)
    {
      var todo := due;
      ghost var tried := {};
      hide Booked, Exclusive, Valid, RunningAreEnabled, SameBut, FailedOnceMore, Serves, MappedTo, RoundSoFar;
      RoundBegins(Now(), mappings, configs, factories, inits);
      while todo != {}
        invariant tried + todo == due && tried !! todo
        invariant Booked() && (old(Valid()) ==> Valid()) && configs == old(configs)
                  && (old(RunningAreEnabled()) ==> RunningAreEnabled())
        invariant instances.Keys !! todo
        invariant RoundSoFar(old(Now()), Now(), mappings, configs, factories, tried, inits)
        invariant reannounced == old(reannounced)
      {
        var id :| id in todo;
        ghost var before := Now();
        RetryPlugin(id, now, id in inits);
        RoundGoesOn(old(Now()), before, Now(), mappings, configs, factories, tried, inits, id);
        todo, tried := todo - {id}, tried + {id};
      }
      assert tried == due;
    }

    ghost function Now(): Standing
      reads this`instances, this`backoff, this`failures, this`devices, this`subscribed
    {
      Standing(instances, backoff, failures, devices.Keys, subscribed)
    }

    function DueIds(now: int): set<PluginId>
      reads this`instances, this`configs, this`backoff
    {
      set i | i in configs && !configs[i].disabled && i !in instances && !(i in backoff && now < backoff[i].nextAt)
    }

    method RetryPlugin(id: PluginId, now: int, inits: bool)
      requires Booked() && id in configs && !configs[id].disabled && id !in instances
      modifies this`instances, this`configs, this`backoff, this`failures, this`live, this`made, this`devices,
          this`reannounced, this`subscribed
      ensures Booked() && (old(Valid()) ==> Valid()) && configs == old(configs)
              && (old(RunningAreEnabled()) ==> RunningAreEnabled())
      ensures SameBut(old(instances), instances, {id}) && SameBut(old(backoff), backoff, {id})
              && SameBut(old(failures), failures, {id})
      ensures instances.Keys == old(instances).Keys + if CanStart(configs[id], inits) then {id} else {}
      ensures if id in instances then Restored(id) else FailedOnceMore(old(failures), failures, id)
      ensures devices.Keys == old(devices).Keys + if id in instances then MappedTo(mappings, id) else {}
      ensures id !in instances ==> devices == old(devices)
      ensures reannounced == old(reannounced) && old(subscribed) <= subscribed
    {
      hide MappedTo, Serves, Pairs, Injective, Backoff;
      var pc := configs[id];
      assert pc.id == id;
      hide Booked, Exclusive, Valid, RunningAreEnabled, FailedOnceMore, SameBut, Restored;
      var ok := StartPlugin(pc, now, inits);
      KeysAfter(old(instances), instances, id);
      assert configs == old(configs);
      if ok { RestoreMappings(id); }
    }

    /** Nothing here looks at pc.disabled: an added plugin is started either way. */
    method AddPlugin(pc: PluginConfig, now: int, inits: bool) returns (ok: bool)
      requires Booked()
      modifies this`instances, this`configs, this`backoff, this`failures, this`live, this`made
      ensures Booked() && (old(Valid()) ==> Valid())
      ensures ok <==> pc.id != "" && pc.id !in old(instances) && CanStart(pc, inits)
      ensures instances.Keys == old(instances).Keys + if ok then {pc.id} else {}
      ensures pc.id == "" || pc.id in old(instances) ==>
                configs == old(configs) && backoff == old(backoff) && failures == old(failures)
      ensures pc.id != "" && pc.id !in old(instances) ==>
                && configs == old(configs)[pc.id := pc]
                && (ok <==> pc.id !in backoff)
                && (!ok ==> FailedOnceMore(old(failures), failures, pc.id))
      ensures SameBut(old(instances), instances, {pc.id})
      ensures old(RunningAreEnabled()) ==>
                (RunningAreEnabled() <==>
                 !(pc.disabled && pc.id != "" && pc.id !in old(instances) && CanStart(pc, inits)))
    {
      if pc.id == "" { return false; }
      if pc.id in instances { return false; }
      ok := StartPlugin(pc, now, inits);
      KeysAfter(old(instances), instances, pc.id);
    }

    method RemovePlugin(id: PluginId) returns (ok: bool)
      requires Booked()
      modifies this
      ensures Booked() && (old(Valid()) ==> Valid()) && (old(RunningAreEnabled()) ==> RunningAreEnabled())
      ensures ok <==> id in old(instances) || id in old(configs)
      ensures instances == old(instances) - {id} && configs == old(configs) - {id} && backoff == old(backoff) - {id}
      ensures ok ==> mappings == old(mappings) - MappedTo(old(mappings), id)
      ensures ok ==> devices == old(devices) - MappedTo(old(mappings), id)
      ensures ok ==> forall d :: d in mappings <==> d in old(mappings) && old(mappings)[d].pluginId != id
      ensures ok ==> forall d :: d in devices <==>
                d in old(devices) && !(d in old(mappings) && old(mappings)[d].pluginId == id)
      ensures !ok ==> mappings == old(mappings) && devices == old(devices)
      ensures reannounced == old(reannounced)
    {
      hide Valid;
      ok := id in instances || id in configs;
      CloseIfRunning(id);
      Forget(id);
      if !ok { return; }
      RemoveMappings(id);
    }

    method Forget(id: PluginId)
      requires Booked() && id !in instances
      modifies this`configs, this`backoff, this`failures
      ensures Booked() && (old(Valid()) ==> Valid())
      ensures configs == old(configs) - {id} && backoff == old(backoff) - {id} && failures == old(failures) - {id}
    {
      configs, backoff, failures := configs - {id}, backoff - {id}, failures - {id};
    }

    method RemoveMappings(id: PluginId)
      requires Booked()
      modifies this`mappings, this`devices
      ensures Booked() && (old(Valid()) ==> Valid())
      ensures mappings == old(mappings) - MappedTo(old(mappings), id)
      ensures devices == old(devices) - MappedTo(old(mappings), id)
    {
      var all := MappedTo(mappings, id);
      var todo := all;
      while todo != {}
        invariant todo <= all
        invariant mappings == old(mappings) - (all - todo)
        invariant devices == old(devices) - (all - todo)
      {
        var d :| d in todo;
        devices := devices - {d};
        mappings := mappings - {d};
        todo := todo - {d};
      }
      assert forall d :: d in mappings ==> mappings[d] == old(mappings)[d];
    }

    method UpdatePlugin(pc: PluginConfig, now: int, inits: bool) returns (ok: bool)
      requires Booked()
      modifies this
      ensures Booked() && (old(Valid()) ==> Valid()) && mappings == old(mappings)
      ensures var known := pc.id in old(instances) || pc.id in old(configs);
              && (ok <==> known && CanStart(pc, inits))
              && configs == (if known then old(configs)[pc.id := pc] else old(configs))
              && instances.Keys == (if known then Kept(old(instances).Keys, pc.id, ok) else old(instances).Keys)
              && (!known ==> instances == old(instances) && backoff == old(backoff) && devices == old(devices))
              && (old(RunningAreEnabled()) ==>
                    (RunningAreEnabled() <==> !(pc.disabled && known && CanStart(pc, inits))))
      ensures SameBut(old(instances), instances, {pc.id})
      ensures ok ==> forall d :: d in mappings && mappings[d].pluginId == pc.id ==>
                d in devices && (instances[pc.id], d) in subscribed
      ensures devices.Keys == old(devices).Keys + if ok then MappedTo(mappings, pc.id) else {}
      ensures !ok ==> devices == old(devices)
      ensures ok ==> (pc.id in old(instances) ==> instances[pc.id] != old(instances)[pc.id])
      ensures reannounced == old(reannounced)
    {
      if pc.id !in instances && pc.id !in configs { return false; }
      ok := Relaunch(pc, now, inits);
    }

    /** Closes the running instance, if any, and starts a fresh one. */
    method Relaunch(pc: PluginConfig, now: int, inits: bool) returns (ok: bool)
      requires Booked() && (pc.id in instances || pc.id in configs)
      modifies this
      ensures Booked() && (old(Valid()) ==> Valid()) && mappings == old(mappings)
      ensures configs == old(configs)[pc.id := pc] && (ok <==> CanStart(pc, inits))
      ensures instances.Keys == Kept(old(instances).Keys, pc.id, ok)
      ensures SameBut(old(instances), instances, {pc.id})
      ensures ok ==> forall d :: d in mappings && mappings[d].pluginId == pc.id ==>
                d in devices && (instances[pc.id], d) in subscribed
      ensures devices.Keys == old(devices).Keys + if ok then MappedTo(mappings, pc.id) else {}
      ensures !ok ==> devices == old(devices)
      ensures ok ==> (pc.id in old(instances) ==> instances[pc.id] != old(instances)[pc.id])
      ensures old(RunningAreEnabled()) ==> (RunningAreEnabled() <==> !(pc.disabled && CanStart(pc, inits)))
      ensures reannounced == old(reannounced)
    {
      hide Booked, Exclusive, Valid, RunningAreEnabled, Restored;
      CloseIfRunning(pc.id);
      RemovalSparesOthers(old(instances), pc.id);
      hide SameBut, FailedOnceMore;
      ghost var closed := instances;
      ok := StartPlugin(pc, now, inits);
      KeysAfter(closed, instances, pc.id);
      SameButTrans(old(instances), closed, instances, {pc.id}, {pc.id});
      if ok { RestoreMappings(pc.id); }
    }

    method RestartPlugin(id: PluginId, now: int, inits: bool) returns (ok: bool)
      requires Booked()
      modifies this
      ensures Booked() && (old(Valid()) ==> Valid()) && mappings == old(mappings) && configs == old(configs)
      ensures var may := id in configs && !configs[id].disabled;
              && (ok <==> may && CanStart(configs[id], inits))
              && instances.Keys == (if may then Kept(old(instances).Keys, id, ok) else old(instances).Keys)
              && (!may ==> instances == old(instances) && devices == old(devices))
      ensures SameBut(old(instances), instances, {id})
      ensures ok ==> forall d :: d in mappings && mappings[d].pluginId == id ==>
                d in devices && (instances[id], d) in subscribed
      ensures devices.Keys == old(devices).Keys + if ok then MappedTo(mappings, id) else {}
      ensures !ok ==> devices == old(devices)
      ensures ok && id in old(instances) ==> instances[id] != old(instances)[id]
      ensures old(RunningAreEnabled()) ==> RunningAreEnabled()
      ensures reannounced == old(reannounced)
    {
      if id !in configs || configs[id].disabled { return false; }
      ok := Relaunch(configs[id], now, inits);
      assert configs == old(configs);
    }

    /** Disabling ends the plugin, unless its config says disabled already: one that was added or
        updated as disabled and runs keeps running. Enabling such a one starts it a second time
        without closing it. */
    method SetEnabled(id: PluginId, enabled: bool, now: int, inits: bool) returns (ok: bool)
      requires Booked()
      modifies this
      ensures Booked() && (old(RunningAreEnabled()) ==> RunningAreEnabled()) && mappings == old(mappings)
      ensures old(Valid()) ==>
                (Valid() <==> !(enabled && id in old(instances) && id in old(configs) && old(configs)[id].disabled))
      ensures if id !in old(configs) then !ok && instances == old(instances) && configs == old(configs)
              else
                var pc := old(configs)[id];
                && configs == old(configs)[id := pc.(disabled := !enabled)]
                && (ok <==> pc.disabled == !enabled || !enabled || CanStart(pc, inits))
                && (pc.disabled == !enabled ==> instances == old(instances) && devices == old(devices))
                && instances.Keys == (if pc.disabled == !enabled then old(instances).Keys
                                      else if !enabled then old(instances).Keys - {id}
                                      else old(instances).Keys + if ok then {id} else {})
                && (pc.disabled != !enabled && enabled && ok ==>
                      forall d :: d in mappings && mappings[d].pluginId == id ==>
                        d in devices && (instances[id], d) in subscribed)
                && devices.Keys == old(devices).Keys +
                     (if pc.disabled && enabled && ok then MappedTo(mappings, id) else {})
                && (!pc.disabled && !enabled && id in old(instances) ==>
                      subscribed == Without(old(subscribed), old(instances)[id]))
      ensures SameBut(old(instances), instances, {id})
      ensures reannounced == old(reannounced)
    {
      if id !in configs { return false; }
      var pc := configs[id];
      if pc.disabled == !enabled {
        assert configs == configs[id := pc];
        return true;
      }
      pc := pc.(disabled := !enabled);
      if enabled {
        ok := StartAndRestore(pc, now, inits);
      } else {
        CloseIfRunning(id);
        configs := configs[id := pc];
        ok := true;
      }
    }

    method StartAndRestore(pc: PluginConfig, now: int, inits: bool) returns (ok: bool)
      requires Booked()
      modifies this
      ensures Booked() && mappings == old(mappings) && configs == old(configs)[pc.id := pc]
      ensures old(Valid()) ==> (Valid() <==> pc.id !in old(instances))
      ensures SameBut(old(instances), instances, {pc.id}) && reannounced == old(reannounced)
      ensures (ok <==> CanStart(pc, inits)) && (ok ==> Restored(pc.id))
      ensures devices.Keys == old(devices).Keys + if ok then MappedTo(mappings, pc.id) else {}
      ensures instances.Keys == old(instances).Keys + if ok then {pc.id} else {}
      ensures old(RunningAreEnabled()) && !pc.disabled ==> RunningAreEnabled()
    {
      hide Booked, Exclusive, Valid, RunningAreEnabled, FailedOnceMore, SameBut;
      ok := StartPlugin(pc, now, inits);
      KeysAfter(old(instances), instances, pc.id);
      if ok { RestoreMappings(pc.id); }
    }

    predicate Bridged(pluginId: PluginId, remote: string)
      reads this
    {
      exists d :: d in mappings && mappings[d].pluginId == pluginId && mappings[d].remote == remote
    }

    /** MappingStore.Add. */
    method AddMapping(m: Mapping)
      requires Booked() && forall e :: e in mappings ==> mappings[e] != m
      modifies this`mappings
      ensures Booked() && (old(Valid()) ==> Valid())
      ensures mappings == old(mappings)[m.dsuid := m]
      ensures NothingLost(old(mappings), mappings) <==> m.dsuid !in old(mappings)
    {
      hide NothingLost, Backoff, Injective;
      MappingLostIff(mappings, m.dsuid, m);
      mappings := mappings[m.dsuid := m];
    }

    method CreateBridge(pluginId: PluginId, remote: string) returns (ok: bool)
      requires Booked()
      modifies this`mappings, this`devices, this`reannounced, this`subscribed
      ensures Booked() && (old(Valid()) ==> Valid())
      ensures ok <==> && pluginId in instances
                      && forall d :: d in old(mappings) ==>
                           old(mappings)[d].pluginId != pluginId || old(mappings)[d].remote != remote
      ensures !ok ==> mappings == old(mappings) && devices == old(devices)
      ensures ok ==> var d := deriveDsuid(pluginId + ":" + remote);
                && mappings == old(mappings)[d := Mapping(pluginId, remote, d)]
                && devices.Keys == old(devices).Keys + {d}
                && subscribed == old(subscribed) + {(instances[pluginId], d)}
                && (forall e :: e in old(devices) && e != d ==> devices[e] == old(devices)[e])
                && (NothingLost(old(mappings), mappings) <==> d !in old(mappings))
    {
      hide NothingLost, Booked, Exclusive, Valid, Injective;
      if pluginId !in instances { return false; }
      if Bridged(pluginId, remote) { return false; }
      var d := deriveDsuid(Identity(pluginId, remote));
      AddMapping(Mapping(pluginId, remote, d));
      AnnounceDevice(d);
      SubscribePlugin(instances[pluginId], d);
      return true;
    }

    method RemoveBridge(d: Dsuid) returns (ok: bool)
      requires Booked()
      modifies this`mappings, this`devices, this`subscribed
      ensures Booked() && (old(Valid()) ==> Valid())
      ensures ok <==> d in old(mappings)
      ensures subscribed == if ok && old(mappings)[d].pluginId in instances
                            then old(subscribed) - {(instances[old(mappings)[d].pluginId], d)} else old(subscribed)
      ensures mappings == old(mappings) - {d}
      ensures devices == if ok then old(devices) - {d} else old(devices)
    {
      if d !in mappings { return false; }
      if mappings[d].pluginId in instances {
        subscribed := subscribed - {(instances[mappings[d].pluginId], d)};
      }
      devices := devices - {d};
      mappings := mappings - {d};
      return true;
    }
  }

  // ------------------------------------------------------------ any run of operations

  /** `inits` says whether Init of the plugin started succeeds, or of which plugins. */
  datatype Op =
    | Add(pc: PluginConfig, inits: bool)
    | Remove(id: PluginId)
    | Update(pc: PluginConfig, inits: bool)
    | Restart(id: PluginId, inits: bool)
    | SetEnabled(id: PluginId, enabled: bool, inits: bool)
    | Supervise(now: int, up: set<PluginId>)
    | CreateBridge(id: PluginId, remote: string)
    | RemoveBridge(d: Dsuid)

  /** The plugins at one moment of a run, when the failed ones may be retried, and whether the live
      instances are then exactly the entries, none of them awaiting a retry. */
  datatype Moment = Moment(running: set<PluginId>, configs: map<PluginId, PluginConfig>,
                           retryAt: map<PluginId, int>, exact: bool)

  predicate Enabled(m: Moment) {
    forall i :: i in m.running && i in m.configs ==> !m.configs[i].disabled
  }

  /** The operation makes a plugin run whose config says it is disabled. */
  predicate StartsDisabled(m: Moment, op: Op, factories: set<string>) {
    match op
    case Add(pc, inits) => pc.disabled && pc.id != "" && pc.id !in m.running && Starts(pc, inits, factories)
    case Update(pc, inits) => pc.disabled && (pc.id in m.running || pc.id in m.configs) && Starts(pc, inits, factories)
    case _ => false
  }

  /** The operation starts a plugin that runs already. */
  predicate StartsTwice(m: Moment, op: Op) {
    op.SetEnabled? && op.enabled && op.id in m.running && op.id in m.configs && m.configs[op.id].disabled
  }

  function ConfigsAfter(m: Moment, op: Op): map<PluginId, PluginConfig> {
    match op
    case Add(pc, _) => if pc.id == "" || pc.id in m.running then m.configs else m.configs[pc.id := pc]
    case Remove(id) => m.configs - {id}
    case Update(pc, _) => if pc.id in m.running || pc.id in m.configs then m.configs[pc.id := pc] else m.configs
    case SetEnabled(id, enabled, _) =>
      if id in m.configs then m.configs[id := m.configs[id].(disabled := !enabled)] else m.configs
    case _ => m.configs
  }

  predicate RunningAfter(m: Moment, op: Op, factories: set<string>, running: set<PluginId>) {
    match op
    case Add(pc, inits) =>
      running == m.running + if pc.id != "" && Starts(pc, inits, factories) then {pc.id} else {}
    case Remove(id) => running == m.running - {id}
    case Update(pc, inits) =>
      running == if pc.id in m.running || pc.id in m.configs then Kept(m.running, pc.id, Starts(pc, inits, factories))
                 else m.running
    case Restart(id, inits) =>
      running == if id in m.configs && !m.configs[id].disabled
                 then Kept(m.running, id, Starts(m.configs[id], inits, factories)) else m.running
    case SetEnabled(id, enabled, inits) =>
      running == if id !in m.configs || m.configs[id].disabled == !enabled then m.running
                 else if enabled then m.running + (if Starts(m.configs[id], inits, factories) then {id} else {})
                 else m.running - {id}
    case Supervise(now, up) =>
      running == m.running +
                 set i | && i in m.configs && !m.configs[i].disabled && !(i in m.retryAt && now < m.retryAt[i])
                         && Starts(m.configs[i], i in up, factories)
    case _ => running == m.running
  }

  /** What one operation makes of a moment, and exactly when it spoils what was in order. */
  predicate Follows(m: Moment, op: Op, m': Moment, factories: set<string>) {
    && m'.configs == ConfigsAfter(m, op)
    && RunningAfter(m, op, factories, m'.running)
    && (Enabled(m) ==> (Enabled(m') <==> !StartsDisabled(m, op, factories)))
    && (m.exact ==> (m'.exact <==> !StartsTwice(m, op)))
  }

  predicate IsRun(trace: seq<Moment>, ops: seq<Op>, factories: set<string>) {
    && |trace| == |ops| + 1
    && Enabled(trace[0]) && trace[0].exact
    && forall k :: 0 <= k < |ops| ==> Follows(trace[k], ops[k], trace[k + 1], factories)
  }

  ghost function At(r: Registry): Moment
    reads r
  {
    Moment(r.instances.Keys, r.configs, map i | i in r.backoff :: r.backoff[i].nextAt, r.Valid())
  }

  /** Over a whole run: running plugins are enabled all along exactly if no operation starts a
      disabled one, and the instances stay exact all along exactly if none starts one twice. */
  lemma {:induction false} InOrderIff(trace: seq<Moment>, ops: seq<Op>, factories: set<string>)
    requires IsRun(trace, ops, factories)
    ensures (forall k :: 0 <= k < |trace| ==> Enabled(trace[k])) <==>
            (forall k :: 0 <= k < |ops| ==> !StartsDisabled(trace[k], ops[k], factories))
    ensures (forall k :: 0 <= k < |trace| ==> trace[k].exact) <==>
            (forall k :: 0 <= k < |ops| ==> !StartsTwice(trace[k], ops[k]))
    decreases |ops|
  {
    if ops != [] {
      var n := |ops| - 1;
      var trace', ops' := trace[..n + 1], ops[..n];
      assert forall k :: 0 <= k <= n ==> trace'[k] == trace[k];
      assert forall k :: 0 <= k < n ==> ops'[k] == ops[k];
      InOrderIff(trace', ops', factories);
      assert Follows(trace[n], ops[n], trace[n + 1], factories);
    }
  }

  /** A plugin that has been removed neither runs nor has a config as long as it is not added. */
  lemma {:induction false} RemovedStaysAway(trace: seq<Moment>, ops: seq<Op>, factories: set<string>, id: PluginId,
                                            k: nat, j: nat)
    requires IsRun(trace, ops, factories) && k < j < |trace| && ops[k] == Remove(id)
    requires forall i :: k < i < j ==> !(ops[i].Add? && ops[i].pc.id == id)
    ensures id !in trace[j].running && id !in trace[j].configs
  {
    assert Follows(trace[j - 1], ops[j - 1], trace[j], factories);
    if j > k + 1 { RemovedStaysAway(trace, ops, factories, id, k, j - 1); }
  }

  /** The operation adds, updates or enables the plugin. */
  predicate Wakes(op: Op, id: PluginId) {
    match op
    case Add(pc, _) => pc.id == id
    case Update(pc, _) => pc.id == id
    case SetEnabled(i, enabled, _) => i == id && enabled
    case _ => false
  }

  /** A plugin that has been disabled stays so, and does not run, until it is added, updated or
      enabled: neither the supervisor nor a restart starts it. */
  lemma {:induction false} DisabledStaysDown(trace: seq<Moment>, ops: seq<Op>, factories: set<string>, id: PluginId,
                                             k: nat, j: nat)
    requires IsRun(trace, ops, factories) && k <= j < |trace|
    requires id !in trace[k].running && id in trace[k].configs && trace[k].configs[id].disabled
    requires forall i :: k <= i < j ==> !Wakes(ops[i], id)
    ensures id !in trace[j].running && (id in trace[j].configs ==> trace[j].configs[id].disabled)
  {
    if j > k {
      DisabledStaysDown(trace, ops, factories, id, k, j - 1);
      assert Follows(trace[j - 1], ops[j - 1], trace[j], factories);
    }
  }

  /** Adding and updating pass on a config that is not disabled; the HTTP API builds no others. */
  predicate PassesEnabled(op: Op) {
    (op.Add? || op.Update?) ==> !op.pc.disabled
  }

  /** So under the HTTP API everything stays in order, whatever fails. */
  lemma {:induction false} ApiKeepsOrder(trace: seq<Moment>, ops: seq<Op>, factories: set<string>)
    requires IsRun(trace, ops, factories) && forall k :: 0 <= k < |ops| ==> PassesEnabled(ops[k])
    ensures forall k :: 0 <= k < |trace| ==> Enabled(trace[k]) && trace[k].exact
  {
    InOrderIff(trace, ops, factories);
    forall k | 0 <= k < |ops| ensures !StartsDisabled(trace[k], ops[k], factories) {
      assert PassesEnabled(ops[k]);
    }
    forall k | 0 <= k < |ops| ensures !StartsTwice(trace[k], ops[k]) {
      assert Enabled(trace[k]);
    }
  }

  method PerformAdd(r: Registry, pc: PluginConfig, now: int, inits: bool)
    requires r.Booked()
    modifies r
    ensures r.Booked() && Follows(old(At(r)), Add(pc, inits), At(r), r.factories)
  {
    var _ := r.AddPlugin(pc, now, inits);
  }

  method PerformRemove(r: Registry, id: PluginId)
    requires r.Booked()
    modifies r
    ensures r.Booked() && Follows(old(At(r)), Remove(id), At(r), r.factories)
  {
    var _ := r.RemovePlugin(id);
  }

  method PerformUpdate(r: Registry, pc: PluginConfig, now: int, inits: bool)
    requires r.Booked()
    modifies r
    ensures r.Booked() && Follows(old(At(r)), Update(pc, inits), At(r), r.factories)
  {
    var _ := r.UpdatePlugin(pc, now, inits);
  }

  method PerformRestart(r: Registry, id: PluginId, now: int, inits: bool)
    requires r.Booked()
    modifies r
    ensures r.Booked() && Follows(old(At(r)), Restart(id, inits), At(r), r.factories)
  {
    var _ := r.RestartPlugin(id, now, inits);
  }

  method PerformSetEnabled(r: Registry, id: PluginId, enabled: bool, now: int, inits: bool)
    requires r.Booked()
    modifies r
    ensures r.Booked() && Follows(old(At(r)), SetEnabled(id, enabled, inits), At(r), r.factories)
  {
    var _ := r.SetEnabled(id, enabled, now, inits);
  }

  lemma SupervisedFollows(m: Moment, m': Moment, now: int, up: set<PluginId>, factories: set<string>)
    requires m'.configs == m.configs && (Enabled(m) ==> Enabled(m')) && (m.exact ==> m'.exact)
    requires forall i :: i in m'.running <==>
               || i in m.running
               || (&& i in m.configs && !m.configs[i].disabled && !(i in m.retryAt && now < m.retryAt[i])
                   && Starts(m.configs[i], i in up, factories))
    ensures Follows(m, Supervise(now, up), m', factories)
  {
  }

  method PerformSupervise(r: Registry, now: int, up: set<PluginId>)
    requires r.Booked()
    modifies r
    ensures r.Booked() && Follows(old(At(r)), Supervise(now, up), At(r), r.factories)
  {
    hide r.Booked, r.Exclusive, r.Valid, r.RunningAreEnabled, SameBut, FailedOnceMore, Serves, Follows;
    ghost var before := At(r);
    EnabledThere(r);
    r.SuperviseOnce(now, up);
    EnabledThere(r);
    SupervisedFollows(before, At(r), now, up, r.factories);
  }

  lemma EnabledThere(r: Registry)
    ensures Enabled(At(r)) <==> r.RunningAreEnabled()
  {
  }

  method PerformBridge(r: Registry, op: Op)
    requires r.Booked() && (op.CreateBridge? || op.RemoveBridge?)
    modifies r
    ensures r.Booked() && Follows(old(At(r)), op, At(r), r.factories)
  {
    if op.CreateBridge? {
      var _ := r.CreateBridge(op.id, op.remote);
    } else {
      var _ := r.RemoveBridge(op.d);
    }
  }

  method Perform(r: Registry, op: Op, now: int)
    requires r.Booked()
    modifies r
    ensures r.Booked() && Follows(old(At(r)), op, At(r), r.factories)
  {
    hide Follows;
    match op {
      case Add(pc, inits) => PerformAdd(r, pc, now, inits);
      case Remove(id) => PerformRemove(r, id);
      case Update(pc, inits) => PerformUpdate(r, pc, now, inits);
      case Restart(id, inits) => PerformRestart(r, id, now, inits);
      case SetEnabled(id, enabled, inits) => PerformSetEnabled(r, id, enabled, now, inits);
      case Supervise(at, up) => PerformSupervise(r, at, up);
      case CreateBridge(id, remote) => PerformBridge(r, op);
      case RemoveBridge(d) => PerformBridge(r, op);
    }
  }

  /** A start and any operations, at any times and with any outcomes of Init. */
  method RunOperations(r: Registry, pcs: seq<PluginConfig>, up: set<PluginId>, ops: seq<Op>, times: seq<int>)
    returns (ghost trace: seq<Moment>)
    requires r.Valid() && r.instances == map[]
    requires forall i, j :: 0 <= i < j < |pcs| ==> pcs[i].id != pcs[j].id
    requires |times| == |ops| + 1
    modifies r
    ensures r.Booked() && IsRun(trace, ops, r.factories) && trace[|ops|] == At(r)
    ensures forall i :: i in r.backoff ==>
              && i in r.failures && r.failures[i] > 0
              && r.backoff[i].delay == Backoff(r.interval, r.backoffMax, r.failures[i])
    ensures trace[0].running ==
            set i | 0 <= i < |pcs| && !pcs[i].disabled && pcs[i].pluginType in r.factories && pcs[i].id in up
              :: pcs[i].id
    ensures forall i :: 0 <= i < |pcs| ==> pcs[i].id in trace[0].configs && trace[0].configs[pcs[i].id] == pcs[i]
  {
    hide At, Follows;
    r.Start(pcs, times[0], up);
    trace := [At(r)];
    StartInOrder(r);
    ghost var first := trace[0];
    for k := 0 to |ops|
      invariant r.Booked() && IsRun(trace, ops[..k], r.factories) && trace[k] == At(r) && trace[0] == first
    {
      ghost var before := trace;
      Perform(r, ops[k], times[k + 1]);
      trace := trace + [At(r)];
      assert forall i :: 0 <= i <= k ==> trace[i] == before[i];
    }
    assert ops[..|ops|] == ops;
  }

  lemma StartInOrder(r: Registry)
    requires r.Valid() && r.RunningAreEnabled()
    ensures Enabled(At(r)) && At(r).exact && At(r).running == r.instances.Keys && At(r).configs == r.configs
  {
  }

  /** A disabled plugin is added and runs; then it is enabled, and runs a second time. */
  method AddDisabledThenEnable() returns (r: Registry, ghost between: Moment)
    ensures fresh(r) && between.exact && !Enabled(between)
    ensures r.Booked() && r.instances.Keys == {"p"} && !r.Valid()
  {
    r := new Registry(1, 1, {"light"}, s => s, map[], map[]);
    var pc := PluginConfig("p", "light", true);
    var added := r.AddPlugin(pc, 0, true);
    between := At(r);
    assert "p" in between.running && between.configs["p"] == pc;
    var enabled := r.SetEnabled("p", true, 0, true);
  }
}
