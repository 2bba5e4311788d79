# Call broker and handset: a verified model

`signald` brokers calls between phones. This project models its state machines and the
handset firmware's, and proves what they promise over every run. Time is a number that never
goes back, the database is rows whose writes may fail at any step, Redis is an atomic key
store with at-most-once pub/sub.

| files | what they model |
|---|---|
| `CallModel`, `CallSteps` | calls, conferences, the Redis mirror and the database as values; the tracker operations and relay handlers as steps |
| `CallRoles`, `CallMirror`, `CallRows`, `CallRuns`, `CallTheorems`, `CallEnds` | one role per number, Redis against memory, rows against memory, all of it over runs, and what can end a call |
| `CallStores`, `CallTracker`, `CallRelay` | the same operations on mutable maps, loops included, each equal to its step |
| `Presence`, `Hub`, `Sends` | device presence across pods, one pod's connection registry with closable channels, and line sends across the fleet |
| `Grace`, `GraceCalls` | reconnect timers whose callback takes the lock, rechecks and tears down as three steps; and those timers acting on a replica's calls |
| `Timeline`, `History`, `HistoryCursor`, `Base64`, `Instants`, `Uuids`, `Decimals` | the paged call history and its cursor tokens |
| `RateLimit` | the in-process and the Redis limiter |
| `LinkHealth`, `HealthStore` | telemetry rings, fan-out and flush across pods; sessions and subscribers of one pod |
| `Hook`, `PhoneFsm`, `UartProto` | firmware: hook switch, phone state machine, command framing |
| `QuietHours` | a line's weekly silent window |

## Assumptions

- Handlers do not interleave inside one replica; the busy test and the insert at
  `server/internal/signaling/relay.go:337-345` are one step here.
- Runs contain no self-dial and no merge of a peer with itself. The server checks neither:
  `CallRuns.DialKeepsIff` and `CallRuns.MergeKeepsIff` show that these are exactly the
  requests that break the invariant.
- The DEV_MODE endpoints that seed calls without the relay's guards
  (`server/internal/web/handler_ws.go:297-358`) are not used.
- Calls are keyed by their pair of numbers; the code's concatenated key
  (`server/internal/calls/tracker.go:146-148`) names one pair because no number contains the
  separator.
- Redis TTLs of call, conference and device keys never lapse. A rate-limit counter is gone
  from the instant its window ends; Redis may keep a key through that last millisecond, and a
  request at exactly that instant is the one the comparison of the backends assumes away.
- Pods have distinct, non-empty names; numbers are non-empty, hold no NUL and are not renamed
  mid-call. Heartbeats come from registered connections.
- A hub mutation and its Redis call are one step; pods interleave freely between steps.
- The newest call row is the one with the highest id, ids being handed out in start order.
- A send's publication is one event with its start, and every other pod may receive it at any
  later time: `SendTo`, which publishes after its local pass, is a run in which the receipts
  come after the pass.
- A hook poll and an update each read the clock once.

## Where code and documentation disagree

The model follows the code.

- `server/internal/signaling/state_redis.go:130-133` says a device record exists exactly while
  the device is connected. It exists exactly while the newest connection is registered
  (`Presence.RecordExactlyWhileNewest`, `Presence.ConnectedButUnrecorded`).
- `firmware/src/hook.c:26-33` says an on-hook spell past 600 ms emits a hang-up. If the first
  poll past 600 ms is the one that debounces the hook up again, nothing is emitted
  (`Hook.SpellEvents`, `Hook.LateReleaseIsLost`).
- `server/internal/calls/linkhealth.go:186-200` says only the ingesting pod writes a sample.
  It stays so through every step but one: finishing a flush that another pod's newer sample
  has overtaken rewinds `lastFlushed`, and the next flush writes that sample too
  (`LinkHealth.OwnWorkIff`, `LinkHealth.RewindingLeadsToAForeignWrite`,
  `LinkHealth.AForeignWrite`). It takes an endpoint that moved between pods
  (`LinkHealth.OnePublisherWritesItsOwn`); the row is a genuine sample all the same
  (`LinkHealth.RowsAreIngestedSamples`).

## Model

| member | source | states |
|---|---|---|
| `CallTheorems.RolesInEveryRun` | server/internal/signaling/relay.go:332-345 | In every state of every run of dials, hang-ups, merges, kicks, disconnects, grace expiries and force-ends, with any database failures, each number is exactly one of idle, callee of one call, caller of one or two, or member of one three-member conference |
| `CallRoles.EveryNumberHasOneRole` | server/internal/calls/tracker.go:348-392 | The call-by-call facts the guards keep give each number exactly one role |
| `CallRoles.RolesFromEachNumber` | server/internal/calls/tracker.go:348-392 | Conversely, one role per number implies those facts |
| `CallRoles.MergeShape` | server/internal/signaling/conference.go:17-41 | At merge time two in-call tests suffice: the host dialled both peers, those are its only calls, nobody else calls any of the three |
| `CallRoles.CreateThenEndRestores` | server/internal/calls/conference.go:93-134 | Creating a conference and ending it restores `active` and `memberIndex` exactly |
| `CallTheorems.StepKeeps` | server/internal/signaling/relay.go:206-299 | Every handler keeps roles, mirror and database agreement; with Redis attached it does what it would do without |
| `CallRuns.DialKeepsIff` | server/internal/signaling/relay.go:332-345 | A dial keeps the whole invariant exactly if it is refused or names two different phones (the caller is idle, so only a self-dial gets through wrongly) |
| `CallRuns.SelfDialBreaksTheRoles` | server/internal/signaling/relay.go:337-345 | The concrete self-dial after which a phone is caller and callee of one call |
| `CallRuns.MergeKeepsIff` | server/internal/signaling/conference.go:12-77 | A merge keeps the invariant exactly if it is refused, rolled back, or names two different peers |
| `CallRuns.FailedMergeRestores` | server/internal/calls/tracker.go:589-645 | A merge whose transaction fails leaves calls, conferences, index, Redis and rows exactly as before |
| `CallRuns.MergeIs` | server/internal/signaling/conference.go:12-77 | When the handler's chain of checks lets a merge through, read off memory alone |
| `CallTheorems.MergeJoinsThree` | server/internal/calls/tracker.go:577-660 | A committed merge turns exactly the host's two calls into one conference of the three and closes exactly those two rows |
| `CallTheorems.DialIff` | server/internal/signaling/relay.go:332-345 | handleCall connects exactly if the callee is idle and the caller is idle or caller of a single call, and adds that one call under a fresh id; otherwise nothing changes |
| `CallTheorems.HangUpFrees` | server/internal/signaling/relay.go:476-510 | After a handled hang-up the number is in no call and no conference, whatever the database does |
| `CallTheorems.HangUpEndsAllCalls` | server/internal/signaling/relay.go:536-562 | Outside a conference a hang-up ends all of the number's calls (both of an unmerged host's) and no other; the dialled ends are idle |
| `CallTheorems.HostHangUpFreesAll` | server/internal/signaling/conference.go:97-117 | A host's hang-up leaves all three members idle |
| `CallTheorems.DropFreesTheLeaver` | server/internal/calls/tracker.go:742-819 | The leaver or kicked member is idle; a committed drop leaves exactly one new call joining the other two under the sorted key, a failed one leaves all three idle |
| `CallTheorems.LeavingIsADrop` | server/internal/signaling/conference.go:119-181 | A member's hang-up and any kick drop exactly that member |
| `CallTheorems.DisconnectEndsOnlyConferences` | server/internal/signaling/relay.go:805-835 | The last device leaving ends a conference for all members but keeps a two-party call for the grace window |
| `CallTheorems.MemoryIsTheOpenRows` | server/internal/calls/tracker.go:160-191 | Without database errors the ids in memory are exactly the open call and conference rows after every step |
| `CallTheorems.MemoryIsAlwaysBacked` | server/internal/calls/tracker.go:215-256 | However writes fail, every call and conference in memory has an open row |
| `CallRows.OpenRowsAreTheCalls` | server/internal/calls/tracker.go:268-316 | Both directions of row agreement make the ids in memory the open rows |
| `CallTheorems.RedisRefinesMemory` | server/internal/calls/tracker.go:348-488 | A run with Redis attached is, without its mirror, a run of one replica: no handler decides differently for asking Redis |
| `CallMirror.QueriesAgree` | server/internal/calls/state_redis.go:121-228 | Busy, CanAddAsHost, InCall, CallIDForPair, peers, conference busy and membership answer the same from Redis as from memory |
| `CallMirror.CanAddAgrees` | server/internal/calls/state_redis.go:211-228 | One field on the caller side means caller of one call and callee of none |
| `CallMirror.ActiveAgrees` | server/internal/calls/state_redis.go:233-278 | The calls read off every hash are exactly the calls in memory |
| `CallMirror.AnyPeerIsLegitimate` | server/internal/calls/state_redis.go:133-184 | Whatever field PeerOf and CallIDFor pick names a number sharing that call |
| `CallMirror.ConferencesAgree` | server/internal/calls/conference_state_redis.go:67-104 | Conference containment and membership are the same in both |
| `CallMirror.MergeMirrored` | server/internal/calls/tracker.go:636-654 | Removing the host-member links in Redis mirrors removing every member's calls in memory, given the roles |
| `CallMirror.StartMirrored` | server/internal/calls/state_redis.go:46-70 | Adding the two-sided fields mirrors inserting the call |
| `CallMirror.EndMirrored` | server/internal/calls/state_redis.go:74-86 | Deleting both fields and pruning mirrors ending the call |
| `CallMirror.ClearMirrored` | server/internal/calls/state_redis.go:92-117 | Clearing a number's hash and its peers' fields mirrors clearing its calls |
| `CallStores.CallState.ClearByNumber` | server/internal/calls/state_redis.go:92-117 | The loops over peers leave exactly the hashes without the number, empty keys pruned |
| `CallStores.CallState.OnCallEnded` | server/internal/calls/state_redis.go:74-86 | Both sides of the pair go and empty keys are pruned |
| `CallStores.CallState.Active` | server/internal/calls/state_redis.go:233-278 | The scan returns each call once |
| `CallStores.CallState.PeerOf` | server/internal/calls/state_redis.go:133-143 | Returns some number that shares a call with this one, exactly if there is one |
| `CallStores.CallState.CallIDFor` | server/internal/calls/state_redis.go:170-184 | Returns the id of some call of the number, exactly if it has one |
| `CallStores.ConfState.Contains` | server/internal/calls/conference_state_redis.go:93-104 | Both phones are members of that conference |
| `CallStores.ConfState.End` | server/internal/calls/conference_state_redis.go:114-123 | The detail key and every listed member key are gone |
| `CallTracker.ConferenceTracker.CreateConference` | server/internal/calls/conference.go:93-134 | Refuses or inserts the conference with all members indexed, in memory and Redis |
| `CallTracker.ConferenceTracker.DropMember` | server/internal/calls/conference.go:192-228 | Returns the members that remain, ends the conference and clears its index |
| `CallTracker.Tracker.OnCallInitiated` | server/internal/calls/tracker.go:160-191 | Row, memory and mirror change together, or nothing on a failed insert |
| `CallTracker.Tracker.OnCallEnded` | server/internal/calls/tracker.go:215-264 | Memory and mirror end the call whatever the database does |
| `CallTracker.Tracker.ClearByNumber` | server/internal/calls/tracker.go:268-316 | The collecting and deleting loops remove exactly the number's calls |
| `CallTracker.Tracker.CreateConferencePersistent` | server/internal/calls/tracker.go:577-660 | The imperative merge is the step whose properties are proved, rollback included |
| `CallTracker.Tracker.DropMemberPersistent` | server/internal/calls/tracker.go:742-819 | The imperative drop is the step whose properties are proved |
| `CallTracker.Tracker.CanAddAsHost` | server/internal/calls/tracker.go:373-392 | The counting loop finds caller of one call, callee of none, no conference |
| `CallRelay.Relay.HandleCall` | server/internal/signaling/relay.go:301-361 | The guard sequence is the dial step |
| `CallRelay.Relay.HandleHangup` | server/internal/signaling/relay.go:476-510 | The handler is the hang-up step |
| `CallRelay.Relay.EndActiveCallsAsHangup` | server/internal/signaling/relay.go:536-562 | The loop over peers ends each call once, in some order of all peers |
| `CallRelay.Relay.HandleConferenceMerge` | server/internal/signaling/conference.go:12-77 | The handler is the merge step |
| `CallRelay.Relay.OnDisconnect` | server/internal/signaling/relay.go:805-835 | The handler is the disconnect step |
| `Presence.NewestIsOnline` | server/internal/signaling/state_redis.go:52-118 | Over any interleaving of connects, renumbers and late unwinds on any pods: while a device's newest connection is registered, its record names that pod and number and the line set contains it |
| `Presence.OnlineIsBacked` | server/internal/signaling/state_redis.go:120-128 | Every line-set membership is backed by a connection registered on that line on some pod |
| `Presence.GoneIsGone` | server/internal/signaling/state_redis.go:108-118 | Once no pod holds a connection of the device, its record and memberships are gone |
| `Presence.RecordExactlyWhileNewest` | server/internal/signaling/state_redis.go:130-141 | A record naming a line exists exactly while the newest connection is registered; without heartbeats there are no other records |
| `Presence.ConnectedButUnrecorded` | server/internal/signaling/state_redis.go:130-141 | The documented "exactly while the device is connected" fails for this run: the newest connection unwinds before an older one |
| `Presence.LateUnwindIsNoOp` | server/internal/signaling/hub.go:432-449 | A displaced connection's unwind changes nothing, whatever happened since |
| `Presence.StepKeeps` | server/internal/signaling/hub.go:380-448 | Every connect, late unwind and heartbeat, on any pod, keeps the presence invariant |
| `Hub.Registry.Register` | server/internal/signaling/hub.go:361-428 | Exactly the device's previous connection leaves, closed; the new one is in both indexes; presence is announced; a draining hub refuses and changes nothing |
| `Hub.Registry.Unregister` | server/internal/signaling/hub.go:432-449 | Removes exactly this connection and takes it offline, or changes nothing if it was displaced |
| `Hub.Registry.RemoveLocked` | server/internal/signaling/hub.go:453-479 | Closes and removes the connection from bucket, index and voicemail counts; emptied buckets go |
| `Hub.Registry.OneConnectionPerDevice` | server/internal/signaling/hub.go:361-428 | A hardware id has at most one connection across all lines |
| `Hub.Registry.ClosedIsGone` | server/internal/signaling/hub.go:453-479 | A closed connection is in no bucket and no index, so its late close and unregister do nothing |
| `Hub.RegisterRefines` | server/internal/signaling/hub.go:361-428 | The hub mutation and its Redis calls are the fleet's connect step |
| `Hub.UnregisterRefines` | server/internal/signaling/hub.go:432-449 | The hub mutation and its Redis call are the fleet's unwind step |
| `Hub.IndexedWithout` | server/internal/signaling/hub.go:453-479 | Removing a connection keeps both indexes describing the same connections, no bucket empty or with a duplicate |
| `Hub.Registry.DeliverFromRedis` | server/internal/signaling/hub.go:184-252 | Each envelope reaches exactly its targets' open channels; a missing payload is refused except by the close types |
| `Hub.OnlyClosingAddsSentinels` | server/internal/signaling/hub.go:184-252 | Only close envelopes queue the nil sentinel; queues only grow at the end |
| `Hub.Registry.Broadcast` | server/internal/signaling/hub.go:866-888 | Every registered connection is offered the frame exactly once |
| `Hub.Registry.SendLocal` | server/internal/signaling/hub.go:729-762 | Every connection of the line, and no other, is offered the frame |
| `Hub.Registry.SendPass` | server/internal/signaling/hub.go:803-826 | One retry pass offers to those without a copy and reports pending exactly if one is left |
| `Hub.Registry.CloseLocalLine` | server/internal/signaling/hub.go:540-546 | Farewell and sentinel go to exactly the line's connections |
| `Hub.Registry.OfferClose` | server/internal/signaling/hub.go:620-632 | Done exactly if the sentinel fits or the connection is gone; nothing is sent to a closed channel |
| `Hub.CloseConn` | server/internal/signaling/hub.go:563-580 | Farewell then sentinel, each only if it fits |
| `Hub.Registry.HardwareOnlineOnLine` | server/internal/signaling/hub.go:1212-1230 | The single-instance bucket scan answers what the hardware index knows |
| `Hub.DeviceState.SetOffline` | server/internal/signaling/state_redis.go:83-118 | The script's step-by-step form is the fleet model's SetOffline |
| `Sends.AtMostOneCopy` | server/internal/signaling/hub.go:785-839 | Over any run of sends, retry passes, deliveries, losses, drains, joins and leaves, no connection takes two copies of one send |
| `Sends.PassDelivers` | server/internal/signaling/hub.go:803-826 | A pass puts one copy exactly on the line's local connections with room and without one |
| `Sends.OutcomeIsTruth` | server/internal/signaling/hub.go:785-839 | Nil means every local connection of the last pass has exactly one copy; a timeout or retry means a full one without any; not-connected means nobody here and no Redis |
| `Sends.RoomAtTheOfferMeansOneCopy` | server/internal/signaling/hub.go:729-762 | Amid joins, leaves, drains, losses and other sends, and whether published before or after the local pass: a connection with room when its pod passes or receives the send has exactly one copy from then on |
| `Sends.ReceiveDelivers` | server/internal/signaling/redis.go:151-189 | Another pod's delivery puts one copy on each of its connections of the line with room, and touches no other |
| `Sends.SendToReachesTheLine` | server/internal/signaling/hub.go:729-762 | One SendTo received everywhere puts exactly one copy on each connection of the line with room, fleet-wide, and none elsewhere |
| `Grace.TimersAreThePending` | server/internal/signaling/relay.go:1017-1047 | After every run the timers map holds exactly the armed, uncancelled entries, each under its key |
| `Grace.FiringDeletesOnlyItself` | server/internal/signaling/relay.go:1025-1033 | A firing timer's delete removes its own entry and no other |
| `Grace.CancelledNeverTearsDown` | server/internal/signaling/relay.go:1051-1064 | A cancelled or superseded entry never tears a call down, even if its callback already waits for the lock |
| `Grace.CancelDisarms` | server/internal/signaling/relay.go:1051-1064 | A cancel stops exactly the pending entry of that device and line on that pod |
| `Grace.ArmSupersedes` | server/internal/signaling/relay.go:1017-1047 | Arming leaves the new entry the only pending one under its key; the old one is cancelled |
| `Grace.TearsDownAtMostOnce` | server/internal/signaling/relay.go:1024-1043 | Each entry tears down at most once |
| `Grace.BackBeforeTheRecheck` | server/internal/signaling/relay.go:1034-1043 | A device back on its line before the recheck, on any pod, keeps its call for good, with or without the broadcast |
| `Grace.TeardownSawOffline` | server/internal/signaling/relay.go:1034-1043 | Every teardown in a run follows a recheck at which the device was not back on the line, or presence could not be read |
| `Grace.GraceKeyIsInjective` | server/internal/signaling/relay.go:151-153 | For numbers without NUL, a key names one number and one device |
| `Grace.LateCloseArmsNothing` | server/internal/signaling/relay.go:790-798 | After a reconnect the displaced connection's late close arms no timer |
| `Grace.GraceTimers.StartGraceTimer` | server/internal/signaling/relay.go:1017-1047 | Cancels exactly the entry it replaces |
| `Grace.GraceTimers.CancelGraceLocal` | server/internal/signaling/relay.go:1051-1064 | Reports and removes exactly the pending entry under the key |
| `Grace.GraceTimers.Fire` | server/internal/signaling/relay.go:1025-1033 | Goes on exactly if not cancelled, and then deletes this very entry |
| `GraceCalls.TimersEndOnlyOfflineCalls` | server/internal/signaling/relay.go:1024-1043 | With timers and call handlers interleaved: a timer step ends a call only by an entry for one of its two numbers whose own recheck found the device not back, or presence unreadable |
| `CallEnds.OnlyItsEndsEndACall` | server/internal/signaling/relay.go:206-299 | A call outlives, with its id, every dial, disconnect and kick, others' hang-ups and clearings, other calls' merges and forced ends |
| `GraceCalls.TeardownEndsItsCalls` | server/internal/signaling/relay.go:1041-1043 | A teardown ends exactly its number's calls and no conference |
| `GraceCalls.BackInTimeKeepsTheCall` | server/internal/signaling/relay.go:1034-1040 | A device back on its line before the recheck keeps its call, with its id, amid any timers and handlers, until a handler ends that call or another timer of its two numbers tears down |
| `History.RecentHistoryForPhones` | server/internal/calls/history.go:60-108 | A page is exactly the first limit+1 entries strictly after the cursor in the merged order; a cursor id that does not parse is an error |
| `History.RecentCalls` | server/internal/calls/history.go:112-162 | The filtered, cursored and limited calls query |
| `History.RecentConferences` | server/internal/calls/history.go:166-217 | The filtered, cursored and limited conferences query |
| `History.CursorConditions` | server/internal/calls/history.go:121-141 | The two different SQL cursor conditions both say "strictly after the cursor" |
| `History.ComparatorIsNewer` | server/internal/calls/history.go:91-103 | The server's comparator on UUID text and the database's on UUID values are one order |
| `Timeline.MergeOfLimited` | server/internal/calls/history.go:60-108 | Limiting each source before merging loses nothing of the page |
| `Timeline.ListingIsUnique` | server/internal/calls/history.go:89-103 | A set has one newest-first listing |
| `Timeline.SortSlice` | server/internal/calls/history.go:91-103 | Sorting distinct entries gives that listing |
| `Timeline.TakeThenAfter` | server/internal/calls/history.go:104-107 | What follows a page is the listing of what is after its last entry |
| `History.HandleCalls` | server/internal/web/handler_calls.go:20-64 | The web page shows the page of its token and links to the older one exactly if there is one |
| `History.NextPage` | server/internal/web/handler_calls.go:60-64 | Following a page's token leaves exactly the entries after that page |
| `History.WalkVisitsEverythingOnce` | server/internal/web/handler_calls.go:60-64 | Following older links ends and shows every entry exactly once, newest first |
| `HistoryCursor.CursorRoundTrip` | server/internal/calls/history_cursor.go:31-65 | A cursor survives its token exactly if it names an id and its year has four digits; otherwise the token is refused, never misread |
| `HistoryCursor.EntryRoundTrip` | server/internal/calls/history_cursor.go:69-80 | An entry's token leads back to that entry's position |
| `Base64.RoundTrip` | server/internal/calls/history_cursor.go:104-106 | URL-safe base64 (section 5 of RFC 4648) decodes what it encodes, for every byte string |
| `Base64.EncodeIsUrlSafe` | server/internal/calls/history_cursor.go:104-106 | Tokens use only the URL-safe alphabet |
| `Instants.FormatRoundTrip` | server/internal/calls/history_cursor.go:31-37 | RFC 3339 text with trimmed nanoseconds parses back to the same instant exactly up to year 9999 |
| `Decimals.IntRoundTrip` | server/internal/calls/history_cursor.go:69-80 | A call id parses back exactly if it is a 64-bit integer |
| `Uuids.TextRoundTrip` | server/internal/calls/history_cursor.go:69-80 | A UUID's text parses back to it |
| `Uuids.TextOrder` | server/internal/calls/history.go:91-103 | UUID text order is UUID value order |
| `RateLimit.BackendsAgreeIff` | server/internal/ratelimit/ratelimit.go:161-275 | The two backends decide every trace alike exactly if the limit is at least one |
| `RateLimit.TokensAreLimitMinusCount` | server/internal/ratelimit/ratelimit.go:161-275 | After every time-ordered trace, sweeps included: each address's live bucket has a live counter over the same window, and its remaining tokens are the positive part of limit minus count |
| `RateLimit.SweepNeverChangesADecision` | server/internal/ratelimit/ratelimit.go:165-190 | The lazy eviction sweep never changes a decision, in any trace |
| `RateLimit.BurstBound` | server/internal/ratelimit/ratelimit.go:161-190 | Any half-open interval one window long sees at most twice the limit less one allowed requests of an address |
| `RateLimit.BurstBoundIsTight` | server/internal/ratelimit/ratelimit.go:161-190 | For every limit, a time-ordered trace whose allowed requests in one interval reach that bound |
| `RateLimit.ResetsAreAWindowApart` | server/internal/ratelimit/ratelimit.go:170-174 | Resets of an address are at least one window apart |
| `RateLimit.MemoryChecker.Allow` | server/internal/ratelimit/ratelimit.go:161-180 | The method on the buckets map, sweep included, is the modelled step |
| `RateLimit.MemoryChecker.EvictExpired` | server/internal/ratelimit/ratelimit.go:184-190 | The loop deletes exactly the lapsed buckets |
| `RateLimit.RedisChecker.Allow` | server/internal/ratelimit/ratelimit.go:266-275 | Counts and compares, and lets a request through unchanged when Redis fails |
| `LinkHealth.RingIsTheLastSixty` | server/internal/calls/linkhealth.go:106-113 | Over any run on any pods each ring is the last at most 60 samples it was given since its session opened, in order |
| `LinkHealth.OnlyIngestingPodsWrite` | server/internal/calls/linkhealth.go:201-217 | A pod that never ingests an endpoint never writes a row for it |
| `LinkHealth.RowsAreIngestedSamples` | server/internal/calls/linkhealth.go:508-587 | Over every run each row is exactly a sample some pod ingested, and no two rows share endpoint and time |
| `LinkHealth.WireKeepsReceived` | server/internal/signaling/relay.go:1209-1210 | The relay builds every sample from whole milliseconds, so the wire form a remote pod gets is the very sample |
| `LinkHealth.OwnWorkIff` | server/internal/calls/linkhealth.go:186-200 | A step keeps "only the ingesting pod collects and writes a sample" exactly if it does not finish a flush that another pod's newer sample overtook |
| `LinkHealth.WithoutRewindsPodsWriteTheirOwn` | server/internal/calls/linkhealth.go:186-200 | In a run without such a step every pod writes only samples it ingested |
| `LinkHealth.RewindingLeadsToAForeignWrite` | server/internal/calls/linkhealth.go:541-549 | After such a step some continuation (the pod's next flush, no write failing) writes a sample the pod did not ingest |
| `LinkHealth.AForeignWrite` | server/internal/calls/linkhealth.go:186-200 | The concrete run, with current sessions and whole milliseconds, in which a pod writes a sample only another ingested |
| `LinkHealth.OnePublisherWritesItsOwn` | server/internal/calls/linkhealth.go:186-200 | While one pod ingests an endpoint no other writes it, and that one writes only what it ingested |
| `LinkHealth.DueAfterFlushIff` | server/internal/calls/linkhealth.go:541-549 | After a flush of any number of endpoints, each is due exactly if its ring's latest sample is newer than the collected one, whichever pod ingested it |
| `LinkHealth.RetryAddsNoDuplicate` | server/internal/calls/linkhealth.go:553-587 | Sending a written row again adds nothing |
| `LinkHealth.OnlyIngestPublishes` | server/internal/calls/linkhealth_redis.go:153-175 | Applying a remote event publishes nothing; what is published is an ingested sample |
| `LinkHealth.RunKeeps` | server/internal/calls/linkhealth.go:201-217 | The invariant over rings, flushes in progress and rows holds after every run |
| `HealthStore.RingBuffer.Append` | server/internal/calls/linkhealth.go:106-113 | The in-place shift keeps the last 60 in order |
| `HealthStore.RingBuffer.Latest` | server/internal/calls/linkhealth.go:115-121 | The last sample given, exactly if there is one |
| `HealthStore.Store.NotifyDisconnected` | server/internal/calls/linkhealth.go:437-447 | Exactly the session's registered subscribers are told; an unknown session is not created |
| `HealthStore.HealthSession.CloseAll` | server/internal/calls/linkhealth.go:243-268 | Every open subscriber gets the last notice if it fits and is closed once; none stays registered |
| `HealthStore.HealthSession.Attach` | server/internal/calls/linkhealth.go:275-299 | A new subscriber is registered and open, on an evicted session too |
| `HealthStore.HealthSession.Detach` | server/internal/calls/linkhealth.go:289-297 | Close is idempotent, before or after an eviction: never a second close of a channel |
| `HealthStore.HealthSession.Broadcast` | server/internal/calls/linkhealth.go:453-464 | Exactly the registered subscribers are offered the event; no closed channel is |
| `HealthStore.HealthSession.CollectDue` | server/internal/calls/linkhealth.go:508-531 | Collects exactly the endpoints with something newer than their last flush |
| `HealthStore.HealthSession.AdvanceFlushed` | server/internal/calls/linkhealth.go:542-549 | Advances exactly the written endpoints |
| `HealthStore.Store.EvictSession` | server/internal/calls/linkhealth.go:243-268 | Evicts one session and touches no other's subscribers; unknown keys change nothing |
| `HealthStore.Store.SubscribeSession` | server/internal/calls/linkhealth.go:275-299 | Opens the session if needed and registers an open subscriber |
| `HealthStore.Store.Register` | server/internal/calls/linkhealth.go:275-287 | A subscribe that lands on an already evicted session keeps every subscriber registered exactly while open |
| `HealthStore.Store.RecordSession` | server/internal/calls/linkhealth.go:201-217 | Keeps the sample in the right ring and notifies that session's subscribers only |
| `HealthStore.Store.SweepIdleSessions` | server/internal/calls/linkhealth.go:649-671 | Evicts exactly the sessions long idle without subscribers or silent far longer |
| `HealthStore.KeyRoundTrip` | server/internal/calls/linkhealth_redis.go:83-104 | A session key survives the wire exactly if it names one thing, a call or a conference |
| `Hook.FlashIsASpell` | firmware/src/hook.c:73-162 | Whatever is polled, forced, inverted or switched, FLASH is emitted only for a debounced on-hook spell of 100 to 600 ms begun, and throughout, with flash enabled |
| `Hook.WindowOutcome` | firmware/src/hook.c:122-161 | What each poll makes of an open window, exactly |
| `Hook.SpellEvents` | firmware/src/hook.c:134-161 | A spell whose release is the first poll past 600 ms emits nothing, otherwise one FLASH in range |
| `Hook.LateReleaseIsLost` | firmware/src/hook.c:26-33 | A lifted, flash-enabled handset polled every 10 ms: a 610 ms spell that is neither FLASH nor ON, against the comment there |
| `Hook.DebouncedMeansSteady` | firmware/src/hook.c:81-95 | The debounced state flips only if every sample of the 50 ms before read the same |
| `Hook.PlainPollReports` | firmware/src/hook.c:117-150 | Outside a window a poll reports a pickup, or a hang-up when flash is off, exactly when it debounces one |
| `Hook.OverridesReportEdges` | firmware/src/hook.c:177-227 | Overrides end an open window and report exactly how the effective state moved |
| `Hook.EmittedIsTheChange` | firmware/src/hook.c:164-244 | What a step emits is in the event slot after it; otherwise the slot is kept or cleared, never set to anything else |
| `Hook.Switch.PollPin` | firmware/src/hook.c:73-162 | The poll on the static variables is the modelled step |
| `PhoneFsm.HandsetUpIff` | firmware/src/phone_fsm.c:444-538 | After every normal update without an open window, whatever the commands did, the handset is up exactly in DIAL_TONE, DIALING, CONNECTED or BUSY |
| `PhoneFsm.ConnectedThroughoutIff` | firmware/src/phone_fsm.c:487-506 | Without commands a connected phone stays CONNECTED after every main-loop turn exactly if no poll emits a hang-up; a flash emits none |
| `PhoneFsm.FlashKeepsTheCall` | firmware/src/hook.c:117-161 | Over the main loop's inputs, whatever the keys: through an on-hook spell that polls open and release, the phone is CONNECTED after every turn, and the last turn reports a flash exactly if the spell lasted 100 to 600 ms |
| `PhoneFsm.OneTurn` | firmware/src/phone_fsm.c:464-506 | One turn keeps a call up, or goes idle on a hang-up |
| `PhoneFsm.UpdateKeepsDigits` | firmware/src/phone_fsm.c:403-433 | The digit buffer never overruns and every number sent has seven digits, whatever the commands |
| `PhoneFsm.DialGoesOutAtTheSeventh` | firmware/src/phone_fsm.c:418-432 | The number goes out at the seventh digit, once |
| `PhoneFsm.PhoneDriver.Enter` | firmware/src/phone_fsm.c:104-153 | set_state on the static variables |
| `PhoneFsm.PhoneDriver.UpdateOnce` | firmware/src/phone_fsm.c:444-538 | The command loop and the turn are the modelled update |
| `UartProto.AnySplitGivesTheLines` | firmware/src/uart_proto.c:50-84 | For any bytes however split across calls, the lines are exactly the CR/LF pieces of length 1 to 127, in order; longer ones are dropped whole |
| `UartProto.FeedIsLines` | firmware/src/uart_proto.c:54-81 | From any unfinished piece, the rest of the stream gives the lines of both together |
| `UartProto.Framer.Inject` | firmware/src/uart_proto.c:36-41 | A console command is cut to the buffer, and dropped while another is pending |
| `UartProto.Framer.Recv` | firmware/src/uart_proto.c:43-85 | One call consumes bytes up to the first line they complete, with the index in bounds; an injected command comes first |
| `QuietHours.ActiveAtIsWeekly` | server/internal/line/quiethours.go:70-99 | ActiveAt is: some selected day's window, starting that day and lasting (end - start) mod 1440 minutes, covers the minute of the circular week |
| `QuietHours.WeekIsDaysTimesLength` | server/internal/line/quiethours.go:70-99 | An enabled valid window is active for exactly selected days times its length per week |
| `QuietHours.NormalizeIsSafe` | server/internal/line/quiethours.go:110-129 | Normalize is idempotent, its enabled results have a window and a day, and it changes what is silenced only for a window without days |
| `QuietHours.MergeIsAssociative` | server/internal/line/quiethours.go:135-145 | Applying two patches in turn is applying their merge |

## Left out

- Sends.AtMostOneCopy: SendToHardware's fallback to Redis is not modelled; it has no retry.
- Hub.Registry.SendPass: the heap pass and the fleet model's pass (`Sends.PassOver`) are separate models over the same `Offered`.
- History.WalkVisitsEverythingOnce: the tables stay fixed while the pages are walked.
- Link-health measurements: one opaque number per sample.
- Hub.Registry.Register: a connection's number is a constant of the connection, since Register writes it once before anything reads it; dashboard notifications are left out.
- HistoryCursor.CursorRoundTrip: parsing accepts the UTC form with a point before the fraction and two-digit fields; numeric offsets, comma fractions and one-digit hours, which Go also takes, are refused by the model.
- Uuids.TextRoundTrip: only canonical lower-case text is read; other spellings PostgreSQL accepts are errors here.
- UartProto.Framer.Recv: lines are byte sequences; a C string with an embedded NUL byte would end there.
- CallTheorems.RolesInEveryRun: one replica with its mirror; conferences created on another replica are not torn down here, as the code consults only its own map.
- Call answering, renaming, force-end attribution, conference member rows, left-at times and started-at display: they change no role, id or open row.
- Extension pickup, its cleanup, call-return retries, signaling forwards and the messages sent to phones.
- Sub-step races between a hub mutation and its Redis call on one pod, and the order of a sibling count and Unregister.
- Retry intervals, timeouts and WebSocket pumps: passes, deadlines and drains happen at any time.
- The Redis limiter's log throttle, limiter names and proxy handling.
- LED and ringer patterns, board profiles, reboot, and commands that only answer.
- Draining beyond the refusal of new connections; single-connection reads such as `Get` and `GetAll`.
- HTTP handlers other than the history page, sessions, mail, metrics, audio tools.
