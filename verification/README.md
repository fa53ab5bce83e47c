# A model of the digitalSTROM vDC bridge

The bridge presents devices of Zigbee2MQTT, Home Assistant, WLED, Shelly and other systems to a
digitalSTROM server (dSS) as a virtual device connector (vDC). A vdSM connects over TCP and speaks
length-framed protobuf; plugins feed a device state store; a registry runs the plugins. This project
models the logic behind that and proves what it keeps.

| file | what it models |
|---|---|
| `Wire.dfy`, `PropertyCodec.dfy` | varints, tags and length-delimited records of the Protocol Buffers encoding; property element trees over them |
| `Framing.dfy` | the two-byte length frames of the TCP stream, and the message envelope |
| `PropertyQuery.dfy` | answering a getProperty query from a property tree, down to the bytes |
| `Session.dfy` | competing connections and ownership of the one vDC session |
| `Announce.dfy`, `Mirror.dfy` | state store, announced set, update queues; the dSS's view over whole runs |
| `DimRamp.dfy` | the dim ramp manager under interleaving, and the values of one ramp |
| `HoldLatch.dfy` | the hold-release latch with its watchdog |
| `MqttTopics.dfy`, `MqttBroker.dfy` | topic filters; the fan-out of one client subscription to many handlers |
| `Registry.dfy` | plugin lifecycle, retry backoff, bridge mappings |
| `Secrets.dfy` | scrubbing secrets out of plugin configs and merging them back |
| `Siblings.dfy` | clustering bridged entries of one physical device in the web UI |
| `ButtonClicks.dfy` | multi-click and hold recognition |
| `Scenes.dfy`, `SceneService.dfy` | saving, editing and recalling scenes |
| `EventLog.dfy` | the bounded event logs against the full history |
| `HueSat.dfy` | hue/saturation and RGB conversion |
| `Options.dfy`, `Text.dfy`, `SeqFacts.dfy` | shared small definitions |

Code that changes fields is a class whose methods are proved against a pure function of the old state
or an invariant; protocols with concurrency are step functions, and theorems range over all sequences
of steps. Loops over Go maps take their keys in an arbitrary order.

## What the proofs brought out

- `buildPbufFrame` writes the payload length modulo 2^16 and never refuses. A frame reads back as its
  payload exactly for payloads of 1 to 16384 bytes (`Framing.FrameReadsBackIff`).
- The update queue of a connection holds 16 entries and drops what does not fit. A removal that meets a
  full queue is never told to the dSS by draining it (`Mirror.OverflowLosesRemoval`, in both directions;
  `Mirror.LampRemovedAfterChanges` is a run, for any number of changes in the queue).
- A device is told apart from others by its dSUID alone: removing one makes the dSS forget another exactly
  if they share it (`Mirror.RemovalSparesIff`). The store itself admits such a pair: a nameless device and
  one whose unique id is `anon:sample` (`Mirror.NamesakeOfAnonymous`). The results on draining ask that no
  two of the devices a run announces share a dSUID.
- A watchdog that expired just before its hold was released can still end the next hold of the same
  button (`HoldLatch.StaleWatchdogEndsNewHold`); when any watchdog runs, it releases exactly if the button
  is held. The count of releases nevertheless always matches the count of holds.
- `AddPlugin` and `UpdatePlugin` start a plugin whose config says it is disabled. Disabling it then does
  nothing, and enabling it starts it a second time without closing it. `Registry.InOrderIff` says, for any
  run, that running plugins are enabled all along exactly if no operation starts a disabled one, and that
  the live instances are the entries, none awaiting a retry, exactly if none is started twice; both are
  conditions on the state and the arguments before the call. `Registry.AddDisabledThenEnable` is such a run.
  The HTTP handlers never pass a disabled config, so under them all is well (`Registry.ApiKeepsOrder`).
- Two entities of different plugins can have one dSUID, because plugin and entity id are joined with a
  colon; bridging the second then takes the mapping of the first (`Registry.MappingLostIff`).
- `scrubSecrets` leaves out of its report a secret below another secret path. That needs a schema where
  sibling fields share a key: `Secrets.ReportedIff` is the exact rule, `Secrets.ReportIsExact` the promise
  for distinct keys, `Secrets.ClashingKeysLoseReport` the example. Merging restores the original for
  every schema all the same.
- Two plugins have entries that share a sibling key exactly if one plugin id is the other followed by `|`
  and a rest without a colon (`Siblings.PluginsClashIff`).
- MQTT filters are never validated. On valid filters matching is that of section 4.7.1 of MQTT 3.1.1;
  an inner `#` ignores whatever follows it (`MqttTopics.InnerHashIgnoresRest`).
- A scene is stored under the spelling of the dSUID that the caller used, although the device is found
  under any. It is recallable under another spelling exactly if that is the same string and something in
  it is eligible (`SceneService.SpellingDecidesRecall`; `SceneService.TwoSpellings` is a lamp that is set to
  100 % instead of the saved 40 %).
- White has no hue, so hue/saturation survives RGB exactly when the saturation is positive or the hue 0;
  a colour survives hue/saturation exactly when its largest component is 255, and otherwise comes back
  scaled to full brightness.

## Model

| member | source | states |
|---|---|---|
| Wire.VarintRoundTrip | pkg/vdcapi/pbuf_encode.go:266-311 | every 64-bit number written as a varint reads back, whatever follows, and the reader stops right behind it |
| Wire.VarintIsShortest | pkg/vdcapi/pbuf_decode.go:205-276 | no accepted varint of the same value is shorter than the written one |
| Wire.VarintIsBase128 | pkg/vdcapi/pbuf_encode.go:266-311 | the bytes of a varint are its base-128 digits, lowest first, all but the last at 128 or more |
| Wire.TagRoundTrip | pkg/vdcapi/pbuf_encode.go:245-264 | field number and wire type of every legal tag read back |
| Wire.BytesRoundTrip | pkg/vdcapi/pbuf_encode.go:245-264 | a length-delimited record reads back as its bytes and leaves the rest |
| Wire.SkipLeavesRest | pkg/vdcapi/pbuf_decode.go:195-199 | skipping a well-formed field of any wire type, groups of groups included, leaves exactly what follows it |
| Wire.BadGroups | pkg/vdcapi/pbuf_decode.go:195-199 | a group closed under another number, one nested too deep and a stray end tag are malformed |
| PropertyCodec.EncodePropertyElement | pkg/vdcapi/pbuf_encode.go:245-264 | the appending loop writes name, value and the children in order, each left out when empty |
| PropertyCodec.ParsePropertyValue | pkg/vdcapi/pbuf_decode.go:205-276 | terminates on every byte string; the first known field decides, unknown ones before it are skipped, malformed input is an error |
| PropertyCodec.ParsePropertyElement | pkg/vdcapi/pbuf_decode.go:147-203 | terminates on every byte string with the element or the error the field-by-field reading gives |
| PropertyCodec.ValueRoundTrip | pkg/vdcapi/pbuf_encode.go:266-311 | any value parses back as its normal form: non-negative integers unsigned, negative ones as int64 in two's complement |
| PropertyCodec.ElementRoundTrip | pkg/vdcapi/pbuf_decode.go:147-203 | any element tree, of any depth and width, parses back as its normal form |
| PropertyCodec.NormalIsCanonical | pkg/vdcapi/pbuf_encode.go:245-311 | a tree and its normal form have the same bytes, and the normal form is a fixed point |
| PropertyCodec.EncodingDistinguishes | pkg/vdcapi/pbuf_encode.go:245-311 | two trees have the same bytes if and only if they have the same normal form |
| PropertyCodec.ValueBytes | pkg/vdcapi/pbuf_encode.go:266-311 | the bytes of every kind of value |
| PropertyCodec.ElementBytes | pkg/vdcapi/pbuf_encode.go:245-264 | the name in field 1, the value in field 2, each left out when empty, byte by byte |
| PropertyCodec.ChildBytes | pkg/vdcapi/pbuf_encode.go:245-264 | a child appended is its bytes in field 3 at the end |
| PropertyCodec.UnknownFieldIsSkipped | pkg/vdcapi/pbuf_decode.go:195-199 | a field the message does not define, of whatever type, changes nothing wherever a field may begin |
| Framing.FrameReadsBackIff | pkg/vdcapi/pbuf_encode.go:79-84 | a frame followed by anything reads back as its payload if and only if the payload has 1 to 16384 bytes |
| Framing.ReadFails | pkg/vdcapi/pbuf_server.go:320-334 | exactly when a read fails and for which reason: the stream ends between frames or right behind a header, anywhere else, or the size is outside 1..16384 |
| Framing.HeaderIsBigEndian | pkg/vdcapi/pbuf_encode.go:79-84 | the header is the length, high byte first |
| Framing.ReadIsBuild | pkg/vdcapi/pbuf_server.go:320-334 | whatever frame is read, writing it again gives exactly the bytes consumed |
| Framing.SplitIsUnique | pkg/vdcapi/pbuf_server.go:320-334 | a stream splits into readable frames and an unreadable tail in one way only |
| Framing.ReadFrames | pkg/vdcapi/pbuf_server.go:250-275 | the read loop returns all frames up to the first error, and the stream is their concatenation and the tail |
| Framing.TransmitAll | pkg/vdcapi/pbuf_server.go:320-334 | payloads of 1 to 16384 bytes written one after another are read as exactly those payloads, then a clean end |
| Framing.EnvelopeRoundTrip | pkg/vdcapi/pbuf_decode.go:12-63 | a built message parses back to its type, its id if it had one, and its one sub-message |
| Framing.EnvelopeRefuses | pkg/vdcapi/pbuf_decode.go:12-63 | no message without a type or with a type or id that is no varint; other fields are skipped |
| Framing.PayloadBytes | pkg/vdcapi/pbuf_encode.go:122-139 | type, id and sub-message 103 of a response, byte by byte |
| PropertyQuery.AppendMembers | pkg/vdcapi/pbuf_encode.go:11-37 | appends every member of the map exactly once, each rendered whole, and with that exactly the facts of the map |
| PropertyQuery.SelectMembers | pkg/vdcapi/pbuf_encode.go:11-37 | the answer is, element by element and repeats included, what each query element asks for in turn: the whole map for the names "", " " and "*", else the member of that name; it holds a value at a path exactly when the query selects it |
| PropertyQuery.ConvertValueToProperty | pkg/vdcapi/pbuf_encode.go:39-77 | the element stands for its node narrowed by the nested query; lists are taken whole and indexed |
| PropertyQuery.AnswersProject | pkg/vdcapi/pbuf_encode.go:11-77 | whatever has the shape of an answer, order and repeats aside, holds exactly what the query selects |
| PropertyQuery.SelectedIsInTree | pkg/vdcapi/pbuf_encode.go:11-77 | what any query selects the empty query selects too: nothing outside the tree appears |
| PropertyQuery.WildcardSelectsAll | pkg/vdcapi/pbuf_encode.go:11-37 | one element named "", " " or "*" anywhere in a query makes it select exactly what the empty query selects |
| PropertyQuery.NameSelectsMember | pkg/vdcapi/pbuf_encode.go:11-37 | an element of any other name selects the member of that name alone, and of it what its own elements select |
| PropertyQuery.NestedWildcard | pkg/vdcapi/pbuf_encode.go:39-77 | such a name inside a named element opens the whole of the named member |
| PropertyQuery.NamesDecide | pkg/vdcapi/pbuf_encode.go:11-37 | whatever answers a query with one such name holds the whole map; if all names are others, every path it holds begins with one of them |
| PropertyQuery.SelectedIsFunctional | pkg/vdcapi/pbuf_encode.go:39-77 | a path leads to at most one value, list indices included |
| PropertyQuery.PropertiesRoundTrip | pkg/vdcapi/pbuf_encode.go:122-139 | the repeated property field decodes to the list of normal forms, in order |
| PropertyQuery.BuildGetPropertyResponse | pkg/vdcapi/pbuf_encode.go:122-139 | the loop's frame is that of the response message with the encoded list |
| PropertyQuery.HandleGetProperty | pkg/vdcapi/pbuf_encode.go:122-139 | what a receiver rebuilds from the response bytes (message 5, sub-message 103) is the answer element by element, and holds exactly what the query selects from the tree, integers normalised; with a "", " " or "*" in the query that is the whole tree |
| Session.PbufServer.ClaimSessionOwner | pkg/vdcapi/pbuf_server.go:277-300 | granted to a free session, the owner itself or the same vdSM on another connection, which it names as replaced; refused without change otherwise; without a connection granted and not recorded |
| Session.PbufServer.PassesGate | pkg/vdcapi/pbuf_dispatch.go:172-175 | the check before every session-bound message lets a connection through exactly when the machine's gate does: idle, active and the recorded owner |
| Session.PbufServer.ReleaseSessionOwner | pkg/vdcapi/pbuf_server.go:311-318 | clears the session for its owner and changes nothing for anyone else |
| Session.PbufServer.ProcessHello | pkg/vdcapi/pbuf_dispatch.go:88-128 | the hello case is the machine's claim and activate steps and accepts exactly when the machine does; it names the connection replaced, if another one owned the session; each refusal is given exactly for its own reason: version outside 2..3, empty dSUID, the connection's own other vdSM or the session's |
| Session.StepsInTurn | pkg/vdcapi/pbuf_dispatch.go:88-128 | only an idle connection takes a hello, a goodbye or a loss, and only one on its way out releases |
| Session.HelloOpensGate | pkg/vdcapi/pbuf_dispatch.go:115-128 | whoever's hello is accepted passes the gate and speaks for the vdSM it named |
| Session.SessionComesAndGoes | pkg/vdcapi/pbuf_dispatch.go:88-128 | a free session accepts the first proper hello, its owner passes the gate, and goodbye or loss with the release frees it |
| Session.RunKeepsInv | pkg/vdcapi/pbuf_dispatch.go:111-128 | over every interleaving of the steps of any number of connections an active owner's own dSUID folds to the recorded one, and an idle owner is active |
| Session.GateIsExclusive | pkg/vdcapi/pbuf_dispatch.go:172-175 | whoever passes the session gate speaks for the recorded vdSM, and no second connection passes it |
| Session.OwnershipStaysWithVdsm | pkg/vdcapi/pbuf_server.go:277-300 | no step hands the session from one vdSM to a different one while it is owned |
| Session.NewVdsmNeedsRelease | pkg/vdcapi/pbuf_server.go:277-318 | over a whole stretch of a run the vdSM changes only if the owner of some moment in between released the session at that moment |
| Session.LateReleaseIsHarmless | pkg/vdcapi/pbuf_server.go:311-318 | the release of a replaced connection leaves the new owner and every other connection as they are |
| Session.OwnerNeedsOwnHello | pkg/vdcapi/pbuf_dispatch.go:115-128 | a connection that does not own the session owns it later only after an accepted hello of its own |
| Session.GateNeedsOwnHello | pkg/vdcapi/pbuf_dispatch.go:172-175 | a replaced connection passes the gate again only after its own new accepted hello |
| Session.TakeoverReplaces | pkg/vdcapi/pbuf_dispatch.go:115-125 | a second connection is let in over an active owner exactly when it is the same vdSM, and then the first is shut out |
| Announce.HandleIsHonest | pkg/vdcapi/state_store.go:90-283 | a broadcast update tells the truth about the device it names, and the event touched no other device |
| Announce.KeysSpelledOut | pkg/vdcapi/state_store.go:90-146 | the key of a device: by trimmed unique id, else connection and tag, else the anonymous one; how an event finds the device it means |
| Announce.StateStore.HandleEvent | pkg/vdcapi/state_store.go:90-283 | the store after an event; the subscribers stay the same, each queue shorter than 16 takes the update that belongs to the event at its end, a queue of 16 stays, and an event without an update changes none |
| Announce.StateStore.ReAnnounce | pkg/vdcapi/state_store.go:342-355 | each queue shorter than 16 takes the announcement of a present device, no other queue changes, and an absent device is announced to none |
| Announce.StateStore.Broadcast | pkg/vdcapi/state_store.go:357-366 | the subscribers stay the same; each queue shorter than 16 takes the update at its end, a queue of 16 stays |
| Announce.StateStore.Subscribe | pkg/vdcapi/state_store.go:285-293 | a fresh id with an empty queue; the others as before |
| Announce.StateStore.Unsubscribe | pkg/vdcapi/state_store.go:295-302 | that queue goes, the others stay |
| Announce.StateStore.Receive | pkg/vdcapi/pbuf_server.go:178-243 | the pump takes the oldest update of its queue |
| Announce.StateStore.Has | pkg/vdcapi/state_store.go:79-88 | whether a device of that trimmed unique id exists; never for a blank one |
| Announce.ConfigStore.StaleAnnouncedDsuids | pkg/vdcapi/config_store.go:107-123 | returns once each what was announced and is not current, and makes the current set the announced one |
| Announce.ConfigStore.MarkDsuidAdded | pkg/vdcapi/config_store.go:126-131 | the announced set grows by that dSUID |
| Announce.ConfigStore.MarkDsuidRemoved | pkg/vdcapi/config_store.go:134-139 | the announced set loses that dSUID |
| Announce.ReconciliationView | pkg/vdcapi/pbuf_dispatch.go:140-170 | in whatever order the maps are walked, the frames of a hello leave the dSS without the stale devices and with the current ones |
| Announce.ReconciliationFrames | pkg/vdcapi/pbuf_dispatch.go:140-170 | the frames of a hello one by one: a vanish for each stale device, then vanish, announce and push for each current one |
| Announce.ConfigStore.HelloFrames | pkg/vdcapi/pbuf_dispatch.go:130-170 | writes those frames, every stale and every current device once, and sets the announced set |
| Announce.ConfigStore.PumpUpdate | pkg/vdcapi/pbuf_server.go:178-243 | one turn of the pump changes the announced set and, through its frames, the dSS view alike |
| Mirror.AnnouncedIsView | pkg/vdcapi/pbuf_server.go:159-248 | over every run, with any losses, the persisted announced set equals the set folded from the vanish and announce frames |
| Mirror.RunKeepsInv | pkg/vdcapi/pbuf_server.go:159-248 | over every run whose announced devices have distinct dSUIDs, on a queue that dropped nothing the last word on each device agrees with the store, and in a live session devices it is silent on agree already |
| Mirror.DrainBelief | pkg/vdcapi/pbuf_server.go:159-248 | whatever was dropped, after draining a device is believed in exactly if the queue's last word, or else the old view, said so |
| Mirror.DrainedIsMirror | pkg/vdcapi/pbuf_server.go:159-248 | in a live session without overflow draining makes dSS view, announced set and store equal, stale pre-hello updates included |
| Mirror.PerformEvent | pkg/vdcapi/state_store.go:90-283 | handling an event leaves store and queues as the machine's device step does |
| Mirror.PerformReAnnounce | pkg/vdcapi/state_store.go:342-366 | re-announcing leaves the queues as the machine's step does |
| Mirror.PerformConnect | pkg/vdcapi/state_store.go:285-293 | subscribing is the machine's connect step |
| Mirror.PerformDisconnect | pkg/vdcapi/state_store.go:295-302 | unsubscribing is the machine's disconnect step |
| Mirror.PerformHello | pkg/vdcapi/pbuf_dispatch.go:130-170 | the hello frames and the announced set are those of a machine's hello step |
| Mirror.PerformPump | pkg/vdcapi/pbuf_server.go:178-243 | one turn of the pump leaves queue, announced set and view as the machine's pump step does |
| Mirror.OverflowLosesRemoval | pkg/vdcapi/state_store.go:357-366 | a removed device is still believed in after draining if and only if the queue was full |
| Mirror.RemovalSparesIff | pkg/vdcapi/pbuf_server.go:218-227 | after a removal is worked off, another device that was believed in still is exactly if its dSUID is another |
| Mirror.LeavingEndsSession | pkg/vdcapi/pbuf_server.go:159-248 | goodbye or loss ends a connection's session and no other's |
| Mirror.NamesakeOfAnonymous | pkg/vdcapi/state_store.go:90-146 | a nameless device and one with the unique id `anon:sample` have different keys and the same dSUID, whatever the derivation |
| Mirror.MirrorHasRuns | pkg/vdcapi/pbuf_server.go:159-248 | runs that meet all that DrainedIsMirror asks for, with the view still to catch up |
| Mirror.LampRemovedAfterChanges | pkg/vdcapi/state_store.go:357-366 | connect, hello, announcement, n changes, removal: the dSS keeps the device after draining if and only if n is 15 or more |
| DimRamp.RunKeepsInv | pkg/vdcapi/dim_ramp.go:53-135 | in every interleaving a ramp that is neither finished nor cancelled is its device's registered one or has a cancel pending |
| DimRamp.OneDriverPerDevice | pkg/vdcapi/dim_ramp.go:53-135 | with no cancel pending for ramps of that device at most one ramp drives it, and it is the registered one |
| DimRamp.StartTakesOver | pkg/vdcapi/dim_ramp.go:53-100 | after any run a start with a fresh ramp makes it the device's and driving; every other ramp still driving the device has its cancel pending; other devices are not touched |
| DimRamp.UndisturbedStays | pkg/vdcapi/dim_ramp.go:53-135 | a registered ramp stays its device's and goes on driving through any steps but its own finish, and starts and stops of that device or of all |
| DimRamp.FinishSparesOthers | pkg/vdcapi/dim_ramp.go:105-111 | a finishing ramp removes its own registration or none |
| DimRamp.StopEndsDevice | pkg/vdcapi/dim_ramp.go:114-124 | after a stop and its cancel no ramp drives the device |
| DimRamp.DimRampManager.Start | pkg/vdcapi/dim_ramp.go:53-100 | a start at the bound or without direction changes nothing; otherwise the new ramp is the device's and drives it, the one it replaces is cancelled and drives no more, and other devices keep theirs |
| DimRamp.DimRampManager.Finish | pkg/vdcapi/dim_ramp.go:105-111 | the ramp is over, and its entry goes exactly if it is its own |
| DimRamp.DimRampManager.Stop | pkg/vdcapi/dim_ramp.go:114-124 | the locked half: the device's entry goes and no other, its cancel is still to come |
| DimRamp.DimRampManager.StopAll | pkg/vdcapi/dim_ramp.go:127-135 | all entries go, each with its cancel to come |
| DimRamp.RampValues | pkg/vdcapi/dim_ramp.go:57-98 | from any start in 0..100, for any positive tick and sweep, the values are strictly monotone, stay between start and target, and end on the target after ceil(distance / step) ticks |
| HoldLatch.ReleasesMatchHolds | pkg/bridge/zigbee2mqtt/zigbee2mqtt.go:874-939 | over every interleaving, stale watchdogs included, holds and releases of a button alternate; releases, unsubscribed holds and a current hold add up to the holds begun; a watchdog entry exists exactly for held buttons |
| HoldLatch.RunKeepsInv | pkg/bridge/homeassistant/ha.go:572-630 | the invariant behind it, kept from any state that has it |
| HoldLatch.WatchdogReleasesIff | pkg/bridge/zigbee2mqtt/zigbee2mqtt.go:923-939 | over every run a firing watchdog forwards a release exactly when its button is held; a stale one cuts a current hold short, and the watchdog meant for that hold then releases nothing |
| HoldLatch.StaleWatchdogEndsNewHold | pkg/bridge/homeassistant/ha.go:614-630 | hold, release, hold: an expired first watchdog ends the second hold |
| HoldLatch.Latch.DispatchButtonAction | pkg/bridge/zigbee2mqtt/zigbee2mqtt.go:874-917 | the handler is the machine's step and forwards its calls |
| HoldLatch.Latch.AutoReleaseHold | pkg/bridge/homeassistant/ha.go:614-630 | the watchdog's function is the machine's firing step |
| HoldLatch.Latch.Unsubscribe | pkg/bridge/homeassistant/ha.go:227-243 | drops a hold without forwarding a release |
| MqttTopics.SplitRoundTrip | pkg/bridge/mqtt/mqtt.go:435-440 | joining the levels of a topic gives the topic back, and no level holds a slash |
| MqttTopics.TopicMatches | pkg/bridge/mqtt/mqtt.go:412-433 | the loop decides level by level matching, for every filter and topic |
| MqttTopics.MatchesIsStandard | pkg/bridge/mqtt/mqtt.go:412-433 | for valid filters and nonempty topics it is the matching of section 4.7.1 of MQTT 3.1.1, both ways |
| MqttTopics.EmptyHasNoLevel | pkg/bridge/mqtt/mqtt.go:412-440 | an empty topic matches only the empty filter and those with a leading `#`; an empty filter matches nothing else |
| MqttTopics.InnerHashIgnoresRest | pkg/bridge/mqtt/mqtt.go:412-433 | on an invalid filter whatever follows an inner `#` plays no part |
| MqttBroker.RunKeepsInv | pkg/bridge/mqtt/mqtt.go:331-357 | over every sequence of subscribes, closes, connects and losses the flat set is the disjoint union of the nonempty, duplicate-free per-topic lists, and while connected the client holds exactly their topics |
| MqttBroker.CloseUndoesSubscribe | pkg/bridge/mqtt/mqtt.go:498-519 | closing a fresh subscription restores the state before it |
| MqttBroker.Broker.Subscribe | pkg/bridge/mqtt/mqtt.go:331-357 | the registration, or the state of before when the client refuses |
| MqttBroker.Broker.Close | pkg/bridge/mqtt/mqtt.go:498-519 | removes the subscription once; a second close changes nothing |
| MqttBroker.Broker.Dispatch | pkg/bridge/mqtt/mqtt.go:379-397 | calls every live handler whose filter matches, each exactly once, and no other |
| Registry.BackoffDoubles | pkg/bridge/registry.go:361-372 | after k failures in a row the delay is min(max, interval * 2^(k-1)) |
| Registry.Registry.RecordStartFailure | pkg/bridge/registry.go:361-372 | one more failure, the delay of that count, the next attempt that much later |
| Registry.Registry.StartPlugin | pkg/bridge/registry.go:318-356 | succeeds exactly if the type has a factory and Init succeeds; a fresh instance and no backoff, or a backoff and no new instance; other plugins untouched; the bookkeeping stays exact if and only if nothing ran under the id; when "running implies enabled" survives |
| Registry.Registry.RestoreMappings | pkg/bridge/registry.go:308-315 | every mapping of the plugin has its device and the running instance is subscribed to it; no other subscription is made, no existing device is announced again |
| Registry.Registry.Start | pkg/bridge/registry.go:216-275 | exactly the enabled plugins with a factory and a succeeding Init run in addition, without a backoff; every other enabled one has a backoff and has failed once more; a disabled one gets neither; every mapping whose plugin has a config has its device, inactive if the plugin does not run; only missing devices are announced; the instance of every running plugin is subscribed to all its mappings |
| Registry.Registry.SuperviseOnce | pkg/bridge/registry.go:403-436 | exactly the enabled, stopped plugins that are due are tried once; exactly those that can start run, with their mappings restored, the others have failed once more; the only new devices are those of plugins that came up |
| Registry.Registry.AddPlugin | pkg/bridge/registry.go:440-460 | succeeds exactly for a nonblank id that does not run, with a factory and a succeeding Init; a disabled plugin then runs exactly under that condition; refused without change for a blank or running id; no device is announced and nothing subscribed |
| Registry.Registry.RemovePlugin | pkg/bridge/registry.go:463-496 | the plugin, its backoff, all its mappings and their devices go, nothing else does |
| Registry.Registry.UpdatePlugin | pkg/bridge/registry.go:501-534 | succeeds exactly for a known plugin with a factory and a succeeding Init, with a fresh instance and all mappings restored and subscribed; never the old instance; a disabled plugin then runs exactly under that condition |
| Registry.Registry.RestartPlugin | pkg/bridge/registry.go:539-571 | refused for unknown and disabled plugins; succeeds exactly if the plugin can start, with a different instance and every mapping restored and subscribed |
| Registry.Registry.SetEnabled | pkg/bridge/registry.go:576-624 | disabling closes an enabled plugin, enabling a stopped one starts it and restores its mappings, setting the flag to what it is does nothing; no live instance loses its entry unless a plugin that runs with a disabled config is enabled |
| Registry.Registry.CreateBridge | pkg/bridge/registry.go:706-749 | succeeds exactly for a running plugin and an entity not bridged yet; stores its mapping and its device and subscribes the instance; an existing mapping is lost exactly if its dSUID is the derived one |
| Registry.Registry.RemoveBridge | pkg/bridge/registry.go:752-783 | removes exactly that mapping, its device and its subscription |
| Registry.RunOperations | pkg/bridge/registry.go:216-372 | a start and any operations with any Init outcomes: what runs at first, the plugins and configs after each, a round of the supervisor starting exactly those that are due and can start, and for each step exactly whether running plugins stay enabled and the instances stay exact; every backoff fits its failure count |
| Registry.InOrderIff | pkg/bridge/registry.go:440-624 | over a whole run, running plugins are enabled at every moment if and only if no operation starts a disabled one, and no live instance loses its entry if and only if none is started twice |
| Registry.ApiKeepsOrder | pkg/bridge/registry.go:403-624 | if no disabled config is added or passed to an update, both hold throughout, whatever fails |
| Registry.RemovedStaysAway | pkg/bridge/registry.go:440-624 | a removed plugin neither runs nor has a config until it is added |
| Registry.DisabledStaysDown | pkg/bridge/registry.go:403-624 | a stopped, disabled plugin stays so until it is added, updated or enabled, whatever else happens |
| Registry.AddDisabledThenEnable | pkg/bridge/registry.go:440-460 | a run in which a disabled plugin is added and runs, and is then started a second time by enabling it |
| Registry.MappingLostIff | pkg/bridge/mapping_store.go:68-82 | storing a mapping takes another one away exactly if its dSUID is taken |
| Secrets.DeepCopy | pkg/httpapi/plugins.go:316-340 | the copy equals the input |
| Secrets.StripSecrets | pkg/httpapi/plugins.go:263-284 | the loop deletes and reports as the specification says, report prefixes included |
| Secrets.MergeSecrets | pkg/httpapi/plugins.go:289-313 | the loop fills in stored secrets as the specification says |
| Secrets.StripIsDeleteAll | pkg/httpapi/plugins.go:263-284 | stripping by a schema is deleting its secret paths one after another |
| Secrets.MergeUndoesScrub | pkg/httpapi/plugins.go:256-313 | for every schema and config, merging the scrubbed config with the original gives the original |
| Secrets.MergeKeeps | pkg/httpapi/plugins.go:295-313 | merging never overrides a value the caller supplied |
| Secrets.MergeSource | pkg/httpapi/plugins.go:295-313 | every leaf of the merged config is the caller's, or is the stored one and stands at or below a secret path |
| Secrets.ScrubLeavesNoSecret | pkg/httpapi/plugins.go:256-284 | no key remains at any secret path of the schema |
| Secrets.ReportedIff | pkg/httpapi/plugins.go:256-284 | exactly which paths are reported, for every schema |
| Secrets.ReportIsExact | pkg/httpapi/plugins.go:256-284 | with distinct sibling keys exactly the secret paths that held a non-empty string |
| Secrets.ClashingKeysLoseReport | pkg/httpapi/plugins.go:263-284 | a schema with clashing keys under which a removed secret is not reported |
| Siblings.KeyIsDevice | web/src/lib/siblings.ts:27-35 | two entries share a key if and only if they share plugin and device prefix, unless one plugin id extends the other by a bar and a rest without a colon |
| Siblings.HasKeyIff | web/src/lib/siblings.ts:27-35 | an entry has a key exactly if its id has a colon with something before the first one |
| Siblings.PluginsClashIff | web/src/lib/siblings.ts:27-35 | different plugins have entries that share a key if and only if one id extends the other so |
| Siblings.ExtensionClashes | web/src/lib/siblings.ts:27-35 | builds the two entries that clash |
| Siblings.BarConfusesDevices | web/src/lib/siblings.ts:27-35 | two devices of different plugins that share a key |
| Siblings.ClusterSiblings | web/src/lib/siblings.ts:63-107 | the Map-filling loops compute the clustered order and the exact index and size of every member of a group of two or more |
| Siblings.ClusterIsPermutation | web/src/lib/siblings.ts:63-107 | no item is lost or doubled |
| Siblings.ClusterIsContiguous | web/src/lib/siblings.ts:63-107 | every group is one block of its members in original order |
| Siblings.ClusterKeepsGroups | web/src/lib/siblings.ts:63-107 | within a group the original order is kept |
| Siblings.ClusterKeepsHeads | web/src/lib/siblings.ts:63-107 | group heads and ungrouped items keep their relative order |
| Siblings.ClusterIsIdempotent | web/src/lib/siblings.ts:63-107 | clustering a clustered list changes nothing |
| Siblings.RecordedIndexIsOffset | web/src/lib/siblings.ts:63-107 | the recorded index and size are the item's offset in its block of the result and the block's length |
| ButtonClicks.KeyIsInjective | pkg/server/connector_button_actions.go:22-27 | no two buttons share a state entry, whatever their tags contain |
| ButtonClicks.EdgesAlternate | pkg/server/connector_button_actions.go:28-41 | the inputs that count alternate between press and release |
| ButtonClicks.EdgesAreChanges | pkg/server/connector_button_actions.go:28-41 | an input counts exactly if it changes the level, which is down to begin with |
| ButtonClicks.PressIsPair | pkg/server/connector_button_actions.go:28-41 | every press is the pair of a level change up and the next one down |
| ButtonClicks.ModeIsLastNamed | pkg/server/connector_button_actions.go:25-27 | a button's mode is the last of the four that an input which counted named |
| ButtonClicks.RunIsMaximal | pkg/server/connector_button_actions.go:62-71 | the run of a press is the one maximal block of short presses within the window, broken by holds and by modes without multi-click |
| ButtonClicks.RepeatsFillTheHold | pkg/server/connector_button_actions.go:130-136 | the number of dim repeats r has 700 + 350(r-1) <= d < 700 + 350r for a hold of d ms |
| ButtonClicks.Connector.EmitHold | pkg/server/connector_button_actions.go:43-61 | a hold emits one mapped hold except in a dimmer, and the dim repeats outside scene and single mode |
| ButtonClicks.Connector.EmitButtonAction | pkg/server/connector_button_actions.go:22-83 | after any inputs to any buttons, the events of each button are exactly those its presses stand for: a click of multiplicity min(4, run length) per short press, a hold with its repeats per long one |
| Scenes.SceneStore.SaveScene | pkg/vdcapi/scene_store.go:143-160 | updates only the values of the channels given; flags, other channels, scenes and devices stay |
| Scenes.SceneStore.SetSceneChannelValue | pkg/vdcapi/scene_store.go:190-200 | that value and nothing else |
| Scenes.SceneStore.SetSceneChannelDontCare | pkg/vdcapi/scene_store.go:203-213 | that flag and nothing else |
| Scenes.SceneStore.SetSceneDontCare | pkg/vdcapi/scene_store.go:227-235 | that flag and nothing else |
| Scenes.SceneStore.GetScene | pkg/vdcapi/scene_store.go:163-172 | the entry under that very string, if there is one |
| Scenes.WritesElsewhere | pkg/vdcapi/scene_store.go:143-257 | a write to one scene of one device leaves every other entry as it was |
| Scenes.SavedValuesSurvive | pkg/vdcapi/scene_store.go:143-246 | a saved value stays in force over any writes that store no value for that channel of that scene |
| Scenes.AbsentUnlessWritten | pkg/vdcapi/scene_store.go:163-172 | a scene is found only if something wrote it under that very string |
| SceneService.MethodService.ResolveNotificationTargets | pkg/vdcapi/method_service.go:527-581 | all lights for a blank, root or vDC target, else the named lights, each unique id once |
| SceneService.MethodService.HandleSaveSceneNotification | pkg/vdcapi/method_service.go:682-702 | the writes made, one per target that names a device, under the caller's spelling |
| SceneService.MethodService.HandleCallSceneNotification | pkg/vdcapi/method_service.go:606-655 | each target in turn is answered by its stored scene if that is present, not flagged and has an unflagged channel, and by the static table exactly otherwise |
| SceneService.RecallDrives | pkg/vdcapi/method_service.go:606-639 | to one light a recall is exactly one command per unflagged channel, channel 0 clamped to 0..100 |
| SceneService.ActionSetsLevel | pkg/vdcapi/pbuf_scene_actions.go:18-51 | the scene actions and their table, turned round: which scenes set which brightness |
| SceneService.MethodService.SaveEditRecall | pkg/vdcapi/method_service.go:606-702 | save, any edits that leave the saved values alone, recall: the light gets exactly the saved value of every unflagged channel; the static table answers only if the scene or every channel is flagged |
| SceneService.OtherSpellingIsMissed | pkg/vdcapi/method_service.go:606-655 | a scene saved for a device is not recalled under another spelling of its dSUID: the static table answers |
| SceneService.SpellingDecidesRecall | pkg/vdcapi/method_service.go:606-702 | the device is found under any spelling, and the scene just saved is recallable under one exactly if it is the same string and the scene has something eligible |
| SceneService.TwoSpellings | pkg/vdcapi/method_service.go:606-702 | one lamp, one saved scene, two spellings: the saved 40 % under the one, the table's 100 % under the other |
| EventLog.EventBuffer.Publish | pkg/bridge/event_buffer.go:45-76 | after any publishes the global log is the last globalCap events of the history and each plugin's log the last perCap of its own, numbered 1, 2, 3, ... |
| EventLog.EventBuffer.Snapshot | pkg/bridge/event_buffer.go:83-108 | the last `limit` of the retained events after `since` at the level; nothing but published events of that plugin, number and level; without limit and level, all newer events of the history if and only if no more than the capacity are newer |
| EventLog.NewestCommutes | pkg/bridge/event_buffer.go:83-108 | dropping old events before or after selecting newer ones is the same |
| EventLog.PollerMissesNothingIff | pkg/bridge/event_buffer.go:83-108 | a poller that asks for what is after the last event it saw has received the whole log, in order, if and only if never more than the capacity came between two polls |
| EventLog.OfIsIncreasing | pkg/bridge/event_buffer.go:45-76 | the log of one plugin keeps the strictly increasing numbers of the whole |
| HueSat.HueComesBackIff | pkg/bridge/wled/mapper.go:60-111 | every hue in [0,360) and saturation in [0,100] survives RGB if and only if the saturation is positive or the hue 0, all sector boundaries and tied maxima included |
| HueSat.Primaries | pkg/bridge/wled/mapper.go:60-111 | red, green, blue and yellow are hues 0, 120, 240 and 60, whichever way they are converted |
| HueSat.BackAtFullBrightness | pkg/bridge/wled/mapper.go:60-111 | any colour but black comes back scaled to full brightness |
| HueSat.ColorComesBackIff | pkg/bridge/wled/mapper.go:60-111 | a colour comes back unchanged if and only if its largest component is 255 |

## Left out

- Sockets, HTTP and WebSocket handlers, mDNS, the Paho client, JSON persistence, logging and the web pages: input and output, or libraries that are not shown.
- dSUID derivation (SHA-1): a function parameter; that distinct devices have distinct dSUIDs is a hypothesis where it is used.
- `protowire`: not shown; modelled after "Base 128 Varints", "Length-Delimited Records" and the group wire types of the Protocol Buffers encoding, groups nesting at most 10000 deep.
- Announce: one `HandleEvent` with its broadcast is one step, and one hello with the writing of its frames is one step, though the source gives its locks back in between; frame writes to an open connection succeed; `ClearAnnouncedDSUIDs` is not modelled.
- Announce.StateStore.HandleEvent: channel values, descriptors and metadata of a device and the copy of them each update carries, which play no part in which devices exist.
- `statusSession`: any closing connection marks it disconnected, so it does not track the owner.
- Text: letter case and white space are those of ASCII.
- PropertyQuery.HandleGetProperty: responses of 2^64 bytes and more, whose lengths no varint holds.
- Secrets: configs are values, so sharing between a config and its copy is not captured; nil configs are left out.
- Registry: operations run one at a time, whether Init succeeds is given with each operation, announcing and subscribing succeed, dSUIDs are non-blank and trimmed; `Stop`, the supervisor's timer and mapping metadata are left out.
- HoldLatch: the locked part of a handler and its host calls are one step.
- MqttBroker: QoS, retained messages, failing re-installs on connect, and the topics beginning with `$` of section 4.7.2 of MQTT 3.1.1, for which the source has no rule.
- Siblings: colours and the plugin id and prefix repeated in the recorded info.
- ButtonClicks: time is whole nanoseconds given with each input; the connector's parsing of messages.
- SceneService: a service without store, state or commander (nil checks), errors of the commander (only logged); the order in which a device map is walked is any, but the same throughout one call.
- EventLog: the device activity log of `device_activity.go`, whose rings follow the same steps; wall-clock times, the fan-out channels, `ClearPlugin`, concurrent publishes (a number is drawn before the lock is taken), wrap-around of the 64-bit counter.
- HueSat: floating point and the final rounding to integers; components outside 0..255.
- DimRamp: floating point; the goroutine's timer; values applied by a ramp after its cancel, between a tick and the next look at its context.
- Shelly's shared-client counts, the generic response parser, dim channel and control value notifications, the property-tree builders and descriptor tables.
