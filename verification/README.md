# A verified model of the Aul server and web client protocols

This project models the stateful protocols of Aul, a self-hosted, end-to-end encrypted location-sharing
service, and proves what they keep over every run. Each component is written in the form its code has: the
parts that change state in place are classes whose methods are proved against functions on values, and what
the code promises is proved about those functions for all inputs and all runs.

| component | files |
|---|---|
| realtime hub: two indexes, bounded queues, eviction, admission | `HubSpec`, `HubRuns`, `HubListeners`, `Hub`, `HubAdmission` |
| refresh-token rotation, and the browser's single-flight refresh | `Sessions`, `RefreshRuns`, `TokenLifetimes`, `AuthService`, `BrowserRefresh` |
| circle-key rotation by envelopes | `KeyEnvelopes`, `KeyPass`, `KeyCatchUp`, `KeyRings`, `KeyDelivery`, `KeyArrival`, `KeyCatchUpRuns`, `KeyOrder`, `KeyRaces`, `KeyCatchUpLink` |
| keyed token bucket with a janitor | `RateLimit`, `RateLimitBounds`, `RateLimitExact` |
| ping retention against the latest-ping query | `RetentionSpec`, `Retention`, `PingRuns` |
| SQLite timestamp text (sections 5.1 and 5.6 of RFC 3339) | `Decimals`, `Calendar`, `Timestamps`, `TimestampOrder`, `CalendarText` |
| PHC hash strings (base64 of section 3.2 and section 4 of RFC 4648) | `Base64`, `Base64Groups`, `PasswordHash` |
| geofence tracker and position store of the web client | `Geofence`, `GeofenceRuns`, `GeofenceLooks`, `Positions` |
| login lockout | `Lockout`, `LockoutCounts`, `LockoutRuns`, `LockoutInFlight` |
| launcher supervisor | `Supervisor`, `SupervisorRuns` |
| live-share links | `ShareLinks`, `ShareRuns`, `ShareFetch`, `ShareLives` |
| circles, members and invites | `Membership`, `MembershipRuns`, `InviteRaces`, `MembershipOutcomes` |

Small arithmetic and datatypes that several components use are in `Arithmetic` and `Prelude`.

Where handlers run concurrently, one SQL statement (or one transaction, also of the browser's IndexedDB) is one
step of a state machine, and a run is any sequence of steps: a step that is not enabled changes nothing, so the
theorems quantify over all sequences. A handler's method is then proved to make its steps in the order of the
code. Tokens, keys and ids are drawn fresh, and the peppered hash is taken to be injective, so a row stores the
token itself. Clocks, random salts, failing statements and what other processes do are inputs.

Some properties hold only under a condition, which is proved exactly: a key ring keeps its keys if and only if no
save falls between another save's read and write; a device that was offline catches up on every key if and only if
no two distributions to it resolved to one epoch; an accept spends a use on a taken seat if and only if another
accept of the same user took it after the check; pruning is invisible on the map if and only if no forgotten retry
becomes a newest ping; the janitor is invisible if and only if the ttl covers a full refill; a one-day prune is
invisible if and only if the window is at most a day; the delivery order of fixes is invisible if and only if no
device has two different fixes at its greatest capture time; a text window decides as the time window unless both
times share a millisecond, and text order is time order exactly below year 10000; an invite lifetime is granted as
asked if and only if the wrap at 64 bits does not matter; a release keeps the connection total right if and only if
the user holds a slot. The main operations are also pinned from outside: the limiter refuses an event only for the
throughput bound, tokens work exactly for their lifetimes, links and invites live exactly until something named ends
them, and the calendar, the alphabet and the counts are given by tables and rows. Some surprises are proved as well: two refreshes in flight always end the session, a pass and
a rotation on one device can lose a key whose envelope is consumed, rotations that bump before either distributes
lose a key, racing accepts of one user spend two uses, an invite lifetime of 18446744074 seconds wraps round and is
accepted, a lock never escalates in sequential logins, and an owner can never leave a circle.

Where code and comments disagree the code is followed: `web/src/data/keyManager.ts` says a device "catches up
on every intermediate key", which fails when two distributions resolve to one epoch before the device has saved the
first key (`OfflineCatchesUpIff`, `EveryKeyIff`), and when saves cross; the accept handler says that a member's
accept consumes no use, which fails exactly when the seat is taken between its check and its commit
(`SpendsOnTakenSeatIff`); the leave handler speaks of transferring ownership, which no handler offers; the lockout
comment promises an escalating Retry-After.

## Model

| member | source | states |
|---|---|---|
| HubImpl.Client.constructor | server/internal/realtime/hub.go:54-69 | A new client holds an open, empty channel with the default buffer of 64 when none is given, and its set of subscriptions. |
| HubImpl.Client.TrySend | server/internal/realtime/hub.go:235-243 | A non-blocking send puts the frame on the channel exactly when the buffer is not full; it needs an open channel. |
| HubImpl.Client.Close | server/internal/realtime/hub.go:208-221 | A channel is closed once, only while it is open, and keeps its log. |
| HubImpl.Hub.AddClient | server/internal/realtime/hub.go:196-206 | Registering puts the client into exactly the circles it subscribes to, creating missing sets. |
| HubImpl.Hub.RemoveClient | server/internal/realtime/hub.go:208-221 | Removing takes the client out of both indexes, drops emptied sets, and closes its channel once; a stranger is left alone. |
| HubImpl.Hub.Dispatch | server/internal/realtime/hub.go:224-244 | Offering a frame to every subscriber while full ones are removed from the set being iterated ends in the abstract dispatch. |
| HubImpl.Hub.DoEvict | server/internal/realtime/hub.go:251-271 | The eviction loop, deleting while iterating, ends in the abstract eviction; nothing happens for a circle with no set. |
| HubImpl.Hub.Shutdown | server/internal/realtime/hub.go:172-180 | Cancelling the loop closes every registered channel exactly once and empties both indexes. |
| HubRuns.StepOnClient | server/internal/realtime/hub.go:224-271 | One step gives a client that listens to a circle before and after it exactly the dispatched event, one that does not listen nothing, and nobody starts listening later. |
| HubRuns.GapFreeDelivery | server/internal/realtime/hub.go:196-271 | In every run, the event frames a still listening client got for a circle are exactly the events dispatched since it registered, in order; for any client they are an initial part of them. |
| HubRuns.SilentAfterLeaving | server/internal/realtime/hub.go:246-271 | Once a client was evicted from a circle or removed, no later event of that circle ever reaches its channel. |
| HubRuns.EvictionIsExact | server/internal/realtime/hub.go:251-271 | An eviction takes the circle from exactly the matching clients, leaves every other subscription, and removes nobody. |
| HubRuns.DispatchDropsExactlyFull | server/internal/realtime/hub.go:224-244 | A dispatch removes exactly the subscribers whose buffer is full, closing their channel with no frame skipped; every other subscriber gets the frame. |
| HubRuns.ClosedForGood | server/internal/realtime/hub.go:208-221 | A closed channel is never reopened or sent to again, and its client never returns to either index. |
| HubRuns.Reachable | server/internal/realtime/hub.go:95-96 | In every reachable state the two indexes are inverse, no inner set is empty, open means registered, and no queue exceeds its buffer. |
| HubListeners.NewClientListens | server/internal/realtime/hub.go:54-69 | A new client listens to exactly the circles it subscribes to, on an empty channel of 64 frames unless it asks for another size. |
| HubListeners.ListensUntil | server/internal/realtime/hub.go:208-271 | A listener keeps listening through a step exactly unless it unregisters, a dispatch to one of its circles finds its buffer full, it is evicted from this circle, or the hub shuts down. |
| HubListeners.FramesAreExact | server/internal/realtime/hub.go:224-271 | A dispatch puts its event on the channels of the circle's subscribers, an eviction tells exactly the evicted clients which circle they lost, each unless the buffer is full, and nothing else is ever put on a channel. |
| HubListeners.SilentAfterShutdown | server/internal/realtime/hub.go:172-180 | Once the loop is cancelled nobody is ever registered again and no channel gets another frame. |
| HubAdmission.ConnLimits.SetConnLimits | server/internal/realtime/hub.go:130-140 | A limit is replaced only by a positive value. |
| HubAdmission.ConnLimits.Admit | server/internal/realtime/hub.go:144-153 | A slot is given exactly below both ceilings, and counted for the user and in total. |
| HubAdmission.ConnLimits.Release | server/internal/realtime/hub.go:156-168 | A slot is given back; a count that reaches zero disappears and the total never goes below zero. |
| HubAdmission.ReleaseKeepsSum | server/internal/realtime/hub.go:156-168 | A release keeps "total is the sum of the counts" exactly when the user holds a slot or none are held. |
| HubAdmission.AdmitsExactly | server/internal/realtime/hub.go:144-153 | After every run of matched admits and releases, an admit gives a slot exactly when its user holds fewer than the limit per user and all users together fewer than the limit in total. |
| HubAdmission.CeilingsHold | server/internal/httpapi/ws.go:51-80 | In every run of matched admits and releases each count is what the user holds, the total is their sum, and neither ceiling is exceeded. |
| AuthService.Service.IssueSession | server/internal/auth/service.go:293-326 | A new session gets two freshly drawn tokens, the newest of its two chains. |
| AuthService.Service.GetSessionByRefreshHash | server/internal/store/sessions.sql.go:126-132 | The lookup by current hash returns the one live, unexpired session with that token. |
| AuthService.Service.GetSessionByPrevRefreshHash | server/internal/store/sessions.sql.go:99-105 | The lookup by previous hash returns the one live session that token was rotated out of last. |
| AuthService.Service.RotateSession | server/internal/store/sessions.sql.go:240-252 | The compare-and-swap succeeds exactly when the row still holds the presented token and is not revoked; it moves current to previous. |
| AuthService.Service.Refresh | server/internal/auth/service.go:330-390 | With any steps of other requests between its statements, the handler makes the lookup, the swap or the look at previous tokens, and the revocation in this order and answers what they decide; an empty token touches nothing. |
| AuthService.Service.DetectReplay | server/internal/auth/service.go:341-348 | A token that was nobody's current one revokes the session it is the previous one of, and is only refused otherwise; other requests may come before the revocation. |
| AuthService.Service.Exchange | server/internal/auth/service.go:351-389 | A swap that matches no row revokes the session, after any steps of others, and answers reuse; otherwise the new pair is handed out. |
| AuthService.Service.Resolve | server/internal/auth/service.go:393-405 | An access token resolves to the live, unexpired session holding it, and an empty one to none. |
| AuthService.Service.Logout | server/internal/auth/service.go:408-414 | Logging out revokes the session, keeping an earlier revocation time. |
| AuthService.Service.RevokeDevice | server/internal/auth/service.go:418-432 | Only the owner's device is revoked, and then all its live sessions. |
| RefreshRuns.ExchangedAtMostOnce | server/internal/auth/service.go:330-390 | Under any interleaving of concurrent calls each refresh token is exchanged at most once. |
| RefreshRuns.RowHoldsLastTwo | server/internal/store/sessions.sql.go:240-266 | A stored row always holds the newest access token and the last two refresh tokens of its session's chain. |
| RefreshRuns.DeadForGood | server/internal/store/sessions.sql.go:211-218 | A revoked or deleted session stays so, is never rotated again, and no token ever finds it again. |
| RefreshRuns.ReuseKillsSession | server/internal/auth/service.go:341-379 | Every call that answers "reuse detected" leaves its session revoked for the rest of every run. |
| RefreshRuns.SwapWinsExactlyOnce | server/internal/auth/service.go:363-380 | A call that found its session wins exactly when no other call exchanged the token first and the session lives; a loser revokes it. |
| RefreshRuns.PresentedTokenDecides | server/internal/auth/service.go:336-389 | Of all tokens a live session ever had, the newest is exchanged if unexpired, the one before revokes, and any older one is refused and changes nothing. |
| RefreshRuns.GapsDecide | server/internal/auth/service.go:330-390 | Whatever other requests do between a call's statements: new tokens exactly if the token was a live session's current one at the lookup and still is at the swap; reuse, with the session dead, if the swap is lost or the token is then a live session's previous one; otherwise refused. |
| RefreshRuns.MissedPreviousRevokes | server/internal/auth/service.go:341-348 | Also with other requests in between, a call presenting the previous token ends by revoking the session for good. |
| RefreshRuns.OnlyNewestAccessResolves | server/internal/auth/service.go:393-405 | Of all access tokens ever given out exactly the newest of each live, unexpired session resolves. |
| TokenLifetimes.RotatedPairWorks | server/internal/store/sessions.sql.go:240-252 | The pair a swap hands out at clock n works whatever happens next, while the session lives and is not rotated again: the access token resolves exactly before n + accessTTL, the refresh token is found exactly before n + refreshTTL. |
| TokenLifetimes.AnsweredPairWorks | server/internal/auth/service.go:351-389 | The same for the pair a whole call is answered with, with other requests between its statements and after it. |
| TokenLifetimes.IssuedPairWorks | server/internal/auth/service.go:293-326 | The same for the pair of a new session. |
| TokenLifetimes.DiesExactly | server/internal/store/sessions.sql.go:208-238 | A live session ends exactly by reuse of its tokens, a logout, the removal of its device or its user, or a prune a day past its refresh expiry. |
| TokenLifetimes.KeepsItsOwner | server/internal/auth/service.go:293-326 | A session stays with the user and the device it was issued to for as long as it lives. |
| BrowserRefresh.HonestTabIsNeverRevoked | web/src/data/api.ts:71-87 | One tab with any number of concurrent requests and single-flight refresh never triggers reuse detection: unless somebody logs the session out it is never revoked and no refresh loses its swap, meets a replayed token or is answered as reuse; and the tab ends with the newest token. |
| BrowserRefresh.DoubleFlightRevokes | web/src/data/api.ts:71-87 | Without single flight, two refreshes that both look the token up first always revoke the session. |
| KeyEnvelopes.Server.PostEnvelopes | server/internal/httpapi/keyenvelopes.go:74-169 | A batch is stored whole or not at all: the owner, 1 to 200 items, every recipient a member's device and every box valid; the first bad item is named. |
| KeyEnvelopes.Server.Consume | server/internal/store/key_envelopes.sql.go:59-67 | Only the envelope of that id, addressed to that device and unconsumed, is marked. |
| KeyEnvelopes.PostAllKeeps | server/internal/store/key_envelopes.sql.go:14-35 | A row once there keeps its slot and id through any batch. |
| KeyEnvelopes.PostAllElsewhere | server/internal/store/key_envelopes.sql.go:14-35 | A batch leaves every slot it does not address as it was. |
| KeyEnvelopes.LastItemWins | server/internal/httpapi/keyenvelopes.go:126-155 | A slot a batch addresses holds the last item for it, unconsumed and newly dated. |
| KeyEnvelopes.SameEpochLosesFirstKey | server/internal/store/key_envelopes.sql.go:14-35 | Two boxes put into one slot, one after the other, leave the first one's key in no row of that device and circle; `KeyRaces.SharedEpochLosesAKey` has the run. |
| KeyEnvelopes.Keystore.SameKey | web/src/data/keystore.ts:78-82 | The loop answers whether two keys are equal. |
| KeyEnvelopes.Keystore.SaveCircleKey | web/src/data/keystore.ts:88-92 | The ring put back is the one that was read, with the key appended unless it was in it, whatever other tabs stored in between; other rings are as they left them. |
| KeyEnvelopes.SavedKeepsIff | web/src/data/keystore.ts:88-92 | A save drops no stored key exactly when every other key stored by the time it writes was there when it read. |
| KeyEnvelopes.Keystore.LoadCircleKey | web/src/data/keystore.ts:94-97 | The current key is the last of the ring, none for an empty one. |
| KeyEnvelopes.AppendKeeps | web/src/data/keystore.ts:88-92 | A save loses and moves no key, stores none twice, and the saved key is there. |
| KeyEnvelopes.OpenPending | web/src/data/keyManager.ts:18-34 | With any changes by others between its awaits, the loop saves, then consumes, each letter that opens; a failing request leaves its envelope and reports nothing for it. |
| KeyEnvelopes.PassSavesWhatItConsumes | web/src/data/keyManager.ts:24-32 | If others drop no key, slip none into the gap of a save and do not overwrite the envelope, a pass consumes it only with its key in the ring, and every ring keeps its keys. |
| KeyPass.PendingListExists | server/internal/store/key_envelopes.sql.go:74-80 | The pending query has an answer for every table. |
| KeyPass.PendingListIs | server/internal/store/key_envelopes.sql.go:74-80 | It lists pending rows of the device only, at most 500, all of them if there are fewer, and none older is left out. |
| KeyPass.PassConsumesItsLetters | web/src/data/keyManager.ts:24-32 | If others never disarm a consumed row, at the end of a pass the row of every letter sealed to the device whose request goes through is consumed, and every row its last letter is not about is as others left it. |
| KeyPass.AlonePassConsumes | web/src/data/keyManager.ts:24-32 | Nobody else acting, a pass consumes exactly the rows of the letters it opens whose request goes through, and changes nothing else. |
| KeyPass.AlonePassSaves | web/src/data/keyManager.ts:24-27 | Nobody else acting, a pass leaves in every ring what was there, first and in its order, and exactly the keys of the letters it opened besides. |
| KeyPass.AlonePassDrains | web/src/data/keyManager.ts:18-34 | A pass over a list shorter than the limit, all of it opened and every request going through, leaves nothing pending. |
| KeyDelivery.NextInv | web/src/data/keyManager.ts:18-66 | Every step, of any number of rotations and passes, keeps rows, deliveries, letters in hand and fresh keys consistent. |
| KeyDelivery.RowsStay | server/internal/store/key_envelopes.sql.go:14-67 | Rows are never deleted and keep their ids; what one holds is changed only by a distribution to the same device at the same epoch. |
| KeyDelivery.GivenUpIsNeverDistributed | web/src/data/keyManager.ts:60-66 | In every run the key of a rotation that was given up is never distributed, not even later. |
| KeyRings.RingsGrowIff | web/src/data/keystore.ts:88-92 | In every run a device's ring keeps all its keys exactly when no save of another new key falls between the read and the write of a save of that ring. |
| KeyArrival.CarriedIff | web/src/data/keyManager.ts:18-34 | Through one step a copy of a distributed key survives, in the ring, a pending envelope or a pass's hands, exactly when the step is none of four: an overwriting distribution, a consume of an overwritten envelope, and a skip or an end of the last pass that fetched it. |
| KeyArrival.ConsumedMeansSavedIff | web/src/data/keyManager.ts:24-29 | In every run, rings keep their keys and no envelope is ever consumed while its key is not in the ring, exactly when saves do not cross and no envelope is consumed that was overwritten, since it was fetched, by a key the ring lacks. |
| KeyCatchUpRuns.EveryKeyIff | web/src/data/keyManager.ts:52-59 | In every run after which a device is drained, its ring kept all its keys and has the key of every distribution that reached it, exactly when saves do not cross and no step takes the last copy of a key the device has not saved. |
| KeyCatchUpRuns.ConsumedMeansSaved | web/src/data/keyManager.ts:24-29 | If distributions to a device resolve to different epochs and saves do not cross, no envelope is consumed before its key is in the ring. |
| KeyCatchUpRuns.DrainedRingHasEveryKey | web/src/data/keyManager.ts:52-59 | Under the same two conditions a device with nothing pending has every key distributed to it, however rotations overlapped, whatever was cut off, skipped or given up, and however many passes ran at once. |
| KeyCatchUpRuns.SharedEpochLost | web/src/data/keyManager.ts:55-57 | Of two keys distributed to an offline device at one epoch, the first never arrives, whatever the device does later, unless saves cross. |
| KeyCatchUpRuns.OfflineCatchesUpIff | web/src/data/keyManager.ts:55-59 | A device that was offline and then drains its envelopes without crossing saves has every key exactly when no two of the distributions to it resolved to the same epoch. |
| KeyOrder.DrainedRingEndsWithLatest | web/src/data/keyManager.ts:60-66 | With rotations one after the other, envelopes created at later and later times, own rotations only with nothing pending and no letter skipped unsaved, a drained device's ring ends with the latest distributed key exactly when it holds no newer key of a rotation that was given up or is under way. |
| KeyRaces.CrossedSavesLoseAKey | web/src/features/Dashboard.tsx:80-105 | From any state before the first rotation: a pass and a rotation on one device read the ring, both write it, the pass consumes; the distributed key is in no ring and its envelope is consumed. |
| KeyRaces.SharedEpochLosesAKey | web/src/data/keyManager.ts:60-66 | Two rotations that both bump before either distributes resolve to one epoch, and a device offline meanwhile never gets the first key. |
| KeyRaces.OverlapAtTwoEpochsArrives | web/src/data/keyManager.ts:60-66 | Two rotations that overlap but resolve to two epochs both arrive. |
| KeyCatchUpLink.PostIsDistribute | web/src/data/keyManager.ts:38-50 | Posting the batch distributeKey builds does to that circle's rows what one post step of the protocol does. |
| KeyCatchUpLink.ConsumeIsConsume | server/internal/store/key_envelopes.sql.go:59-67 | Marking an envelope consumed is one consume step of the protocol. |
| KeyCatchUpLink.PendingIsFetch | server/internal/store/key_envelopes.sql.go:74-80 | The pending list over all circles, oldest first and cut at 500, is an answer the protocol's fetch step allows. |
| RateLimit.KeyedLimiter.Allow | server/internal/ratelimit/ratelimit.go:58-69 | An event is let through exactly when the key's bucket holds a whole token, which it spends; a refused one changes only lastSeen; other keys are untouched. |
| RateLimit.KeyedLimiter.Cleanup | server/internal/ratelimit/ratelimit.go:72-81 | Exactly the buckets idle since before the cutoff are deleted. |
| RateLimit.IdleIsFull | server/internal/ratelimit/ratelimit.go:72-81 | A bucket idle for longer than the ttl is full again when the ttl covers a full refill. |
| RateLimit.SameAnswers | server/internal/ratelimit/ratelimit.go:58-81 | For any operations with non-decreasing time the limiter answers exactly as one that never evicts, when the ttl covers a full refill. |
| RateLimitBounds.JanitorInvisibleIff | server/internal/ratelimit/ratelimit.go:58-81 | The janitor changes no answer in any run exactly when a bucket idle past the ttl must have refilled; otherwise a burst, a cleanup and a burst show it. |
| RateLimitBounds.ShortTtlShows | server/internal/ratelimit/ratelimit.go:58-81 | With a ttl too short for a full refill, that run is answered differently with and without the janitor. |
| RateLimitBounds.ServerLimitersAreTransparent | server/cmd/aul/main.go:115-122 | Every limiter the server builds, per minute with ten minutes of ttl or per hour with two hours, has an invisible janitor. |
| RateLimitBounds.ThroughputBound | server/internal/ratelimit/ratelimit.go:58-81 | Between any two operations the events of one key let through number at most the burst plus rate times the time between, whatever other keys do and whenever cleanup runs. |
| RateLimitBounds.AtMostTwiceAMinute | server/internal/ratelimit/ratelimit.go:47-50 | A limiter of n per minute lets at most 2n events of one key through in any minute. |
| RateLimitExact.AllowedExactly | server/internal/ratelimit/ratelimit.go:58-81 | With the janitor of a long enough ttl, an event is let through exactly when the burst allows any and no window from an earlier operation up to it would go over the burst plus what the rate gives in it. |
| RateLimitExact.GrantedExactly | server/internal/ratelimit/ratelimit.go:58-69 | The same without a janitor, for any ttl. |
| RateLimitExact.FreshBurst | server/internal/ratelimit/ratelimit.go:58-69 | Of the events at one instant of a key not seen before exactly the first burst pass. |
| RateLimitExact.ServerBursts | server/cmd/aul/main.go:115-122 | A limiter of n per minute, or per hour, lets n events of a new key through at once and not one more. |
| RateLimitExact.AtMostTwiceAnHour | server/internal/ratelimit/ratelimit.go:52-55 | A limiter of n per hour lets at most 2n events of one key through in any hour. |
| RetentionSpec.LatestExists | server/internal/store/pings.sql.go:72-77 | The latest-ping query has an answer for every table and circle. |
| RetentionSpec.LatestIs | server/internal/store/pings.sql.go:72-77 | It shows, for exactly the devices with a ping in the circle, one of their pings captured last. |
| RetentionSpec.PruningKeepsTheReader | server/internal/store/pings.sql.go:72-77 | The two prunes leave exactly the possible answers of the latest-ping query possible, with the same rows. |
| RetentionSpec.ThinnedKeepsNewest | server/internal/store/misc.sql.go:300-309 | Deleting superseded rows leaves each device's set of newest rows unchanged and takes no device off the map. |
| RetentionSpec.PruneThenPrune | server/internal/retention/retention.go:131-143 | Deletions one after the other delete exactly what one deletion with all their bounds deletes. |
| RetentionSpec.PrunesCommute | server/internal/retention/retention.go:131-143 | The two prune steps may run in either order. |
| RetentionSpec.PruneIsIdempotent | server/internal/retention/retention.go:131-143 | Running a prune again deletes nothing more. |
| RetentionSpec.WhicheverDeletesMore | server/internal/store/misc.sql.go:78-81 | The global prune followed by the per-circle loop is one deletion at the later of the two cutoffs. |
| RetentionSpec.AnyOrderIsTheSnapshot | server/internal/store/sqlite_queries.go:966-978 | Visiting the rows one by one, in any order and judging each against what is left, deletes what the snapshot deletes. |
| RetentionSpec.HorizonForTheReader | server/internal/store/store.go:168-177 | Past the horizon a device leaves the map exactly when its newest ping is that old; otherwise its newest rows stay as they are. |
| Retention.Store.DeleteSuperseded | server/internal/store/misc.sql.go:300-309 | The row-by-row loop leaves the snapshot's result and counts the rows it deleted. |
| Retention.Store.PruneAllPingsBefore | server/internal/store/store.go:173-177 | Every ping before the cutoff goes, newest or not; a failing statement changes nothing. |
| Retention.Store.PruneStalePings | server/internal/store/sqlite_queries.go:1067-1078 | Superseded pings older than the ping window go, all others stay. |
| Retention.Store.DeleteExpiredPingsForCircle | server/internal/store/sqlite_queries.go:966-978 | Superseded pings of one circle older than its retention days go, all others stay. |
| Retention.Worker.constructor | server/internal/retention/retention.go:58-71 | A ping window that is not positive becomes six hours. |
| Retention.Worker.DeleteExpiredPings | server/internal/retention/retention.go:204-225 | A circle whose deletion fails is skipped, the rest go on, and the total is the rows deleted. |
| Retention.Worker.RunOnce | server/internal/retention/retention.go:100-143 | A pass is the horizon deletion followed by one deletion with every bound whose statement went through; a failing step stops none of the others. |
| Retention.PassesKeepNewest | server/internal/retention/retention.go:11-14 | Through any number of passes with any failures, and no ping arriving between them, a device whose newest ping is inside the horizon keeps exactly its newest rows, however old they are against the shorter windows. |
| Retention.RowLeft | server/internal/retention/retention.go:100-143 | After a pass without failures exactly these pings are left: inside the horizon, and either the newest of their device in their circle or neither older than the ping window nor than their circle's retention days. |
| Retention.LeavesOnlyPastTheHorizon | server/internal/retention/retention.go:16-19 | A pass takes a device off the map exactly when all its pings are past the horizon and the horizon deletion went through. |
| PingRuns.PruningInvisibleIff | server/internal/store/pings.sql.go:26-47 | Over every interleaving of inserts with their retry rule, prunes and horizon deletions, the map always shows what it would had no prune run, exactly when no retry that the full table drops is taken by the pruned one as a newest ping. |
| PingRuns.OneCircleInvisible | server/internal/store/pings.sql.go:26-47 | So if no device, client id and capture time is used in two circles, pruning is never seen on the map, however pings arrive and are retried. |
| PingRuns.SecondCircleShows | server/internal/store/pings.sql.go:26-32 | A key used again in a second circle after its superseded first row was pruned is dropped by the full table and shown by the pruned one. |
| PingRuns.PassIsOps | server/internal/retention/retention.go:100-143 | A pass of the worker is a horizon deletion, unless that fails, followed by one prune. |
| TimestampOrder.TextOrderIsTimeOrder | server/internal/store/sqlite.go:57-67 | For years 0 to 9999 comparing two printed texts is comparing the instants at millisecond precision, and equal texts are equal milliseconds. |
| TimestampOrder.WindowsDecideAlike | server/internal/store/sqlite.go:57-63 | A window predicate on texts decides as the one on instants exactly unless both lie in one millisecond the wrong way round. |
| Timestamps.ParseOfFmt | server/internal/store/sqlite.go:67-77 | Parsing a printed time gives it back truncated to the millisecond. |
| TimestampOrder.CanonicalIsPrinted | server/internal/store/sqlite.go:52-63 | Every fixed-width text the parser accepts is the printer's text of the instant it denotes. |
| TimestampOrder.StoredTextsInOrder | server/internal/store/sqlite.go:57-63 | Two fixed-width texts, whoever wrote them, compare as the instants they denote. |
| TimestampOrder.EpochIsTheFloor | server/internal/store/sqlite.go:79-82 | The sentinel text is below exactly the times past the first millisecond of year 1. |
| TimestampOrder.ParsesExactlyFourDigitYears | server/internal/store/sqlite.go:64-77 | A printed time parses back exactly up to year 9999. |
| Calendar.DateOfIsTabled | server/internal/store/sqlite.go:64-77 | The date of a day is the one the Gregorian table of month lengths and leap years gives, and only that one. |
| CalendarText.PrintsTheCalendar | server/internal/store/sqlite.go:64-67 | The printed text of an instant is its date by the table, its time of day and its milliseconds. |
| CalendarText.ReadsTheCalendar | server/internal/store/sqlite.go:67-77 | The text of a date by the table and a time of day is read as that instant. |
| CalendarText.ReadsDecimals | server/internal/store/sqlite.go:67-77 | And with a fraction behind it as that many nanoseconds more. |
| CalendarText.EastIsEarlier | server/internal/store/sqlite.go:67-77 | A zone of h hours and m minutes east makes the instant that much earlier in UTC. |
| CalendarText.WestIsLater | server/internal/store/sqlite.go:67-77 | And one to the west that much later. |
| TimestampOrder.OrderedExactlyBelow10000 | server/internal/store/sqlite.go:57-67 | Text order is time order for all times below a bound exactly when the bound is at most year 10000. |
| TimestampOrder.FiveDigitYearsSortEarly | server/internal/store/sqlite.go:57-67 | A year from 10000 to 19999 prints wider and sorts before the years 2000 to 9999 it follows. |
| TimestampOrder.OffsetsShift | server/internal/store/sqlite.go:69-77 | A text with an offset denotes the instant of the same text in UTC, earlier by the offset. |
| Timestamps.FourDigits | server/internal/store/sqlite.go:57-64 | The years that keep the text at fixed width are exactly those before the instant 3652425 days after year 0 begins. |
| Base64.RoundTrip | server/internal/crypto/password.go:68-71 | Unpadded base64 decodes to the bytes that were encoded. |
| Base64.ReencodesIff | server/internal/crypto/password.go:117-123 | An accepted text is the encoder's own exactly when it has no line breaks and no spare bits set. |
| Base64Groups.EncodesExactly | server/internal/crypto/password.go:70-73 | The sextets of bytes are those that spell the same 24-bit numbers, filled up with zero bits, as section 4 of RFC 4648 has it. |
| Base64Groups.EncodesByTable | server/internal/crypto/password.go:70-73 | And they are printed as the characters of the standard alphabet. |
| Base64Groups.DecodesTo | server/internal/crypto/password.go:116-124 | Sextets decode to exactly the bytes they spell, spare bits aside. |
| Base64Groups.DecodesExactly | server/internal/crypto/password.go:116-124 | A text decodes exactly when, line breaks apart, its characters are the alphabet's and not one too many. |
| PasswordHash.DecodePrinted | server/internal/crypto/password.go:58-131 | The printed string decodes exactly for 1 to 1024 bytes of salt and of key, and then to the very parameters, salt and key. |
| PasswordHash.DecodedIsStable | server/internal/crypto/password.go:100-131 | Whatever decodes is within the field widths and size limits, and printing and decoding it again changes nothing. |
| PasswordHash.VerifiesExactlyTheSameKey | server/internal/crypto/password.go:77-98 | Against a hash exactly the passwords with the same derived key verify; a rehash is asked for exactly when a parameter is weaker than the default. |
| PasswordHash.RehashesExactly | server/internal/crypto/password.go:92-102 | A password that verifies asks for a rehash exactly when the stored memory is below 64 MiB, the passes below 3, the lanes below 4, or the key shorter than 32 bytes. |
| PasswordHash.OwnHashVerifies | server/internal/crypto/password.go:52-91 | A password verifies against its own default hash and is never asked to rehash. |
| Geofence.GeofenceTracker.LookAt | web/src/data/geofence.ts:67-80 | One look updates both sets and emits an event exactly for a change that is not the first look. |
| Geofence.GeofenceTracker.Update | web/src/data/geofence.ts:62-101 | The nested loops and the two pruning loops are the fold of their looks followed by one prune, with the events in order. |
| Geofence.GeofenceTracker.PruneKeys | web/src/data/geofence.ts:93-99 | Exactly the keys of places still listed are kept in both sets. |
| Geofence.GeofenceTracker.InsidePlaceIds | web/src/data/geofence.ts:104-111 | The result lists exactly the places the device is inside of, each once. |
| GeofenceRuns.KeyIsAPair | web/src/data/geofence.ts:48-58 | For device ids without the separator the flattened key is unambiguous and gives the place back. |
| GeofenceRuns.Projects | web/src/data/geofence.ts:62-101 | The string-keyed sets refine pairs: what the tracker holds and says of a pair is the run of that pair's own automaton, whatever else it is fed. |
| GeofenceRuns.TransitionsAlternate | web/src/data/geofence.ts:28-39 | While a place stays listed the events of each pair strictly alternate, the first look is silent, and the inside flag is the first look's flag toggled once per event. |
| GeofenceRuns.EventsAreEarned | web/src/data/geofence.ts:28-30 | An exit is emitted only beyond radius plus hysteresis and an arrival only within the radius. |
| GeofenceRuns.QuietDeviceKeepsItsStanding | web/src/data/geofence.ts:87-92 | An update without a device changes nothing about it and emits nothing for it. |
| GeofenceRuns.DelistingErases | web/src/data/geofence.ts:60-61 | Delisting a place forgets its pairs with no event. |
| GeofenceRuns.PruningErasesExactly | web/src/data/geofence.ts:93-99 | Pruning erases exactly the pairs of delisted places. |
| GeofenceLooks.LookDecides | web/src/data/geofence.ts:66-85 | After any run a look leaves the pair inside exactly when the distance is at most the radius, or radius and hysteresis if it was inside; it reports an exit exactly when an inside device is beyond both, an arrival exactly when an outside one is within the radius, and nothing otherwise or on a first look. |
| GeofenceLooks.UpdateDecides | web/src/data/geofence.ts:62-101 | A whole update with one position of a device and a place listed once decides that pair by them alone, and reports it once at most. |
| GeofenceLooks.WalkingAwayIsSeen | web/src/data/geofence.ts:70-79 | Seen at 50 m and then at 500 m of a radius of 100 m with 30 m of hysteresis, a device leaves once. |
| Positions.Store.Upsert | web/src/store/positions.ts:17-22 | Only a strictly newer capture replaces a device's position. |
| Positions.Store.Bulk | web/src/store/positions.ts:23-31 | A bulk load is its fixes offered one after another. |
| Positions.GroupingIsInvisible | web/src/store/positions.ts:15-33 | How fixes are grouped into calls does not matter. |
| Positions.KeepsFirstNewest | web/src/store/positions.ts:13-14 | Each device is at its greatest capture time, at the first fix delivered with it. |
| Positions.DeliveryOrderIsInvisibleIff | web/src/store/positions.ts:13-33 | Every delivery of the same fixes, reordered, regrouped or repeated, ends in the same map exactly when no device has two different fixes at its greatest capture time. |
| Positions.CallsCommute | web/src/store/positions.ts:13-33 | Two sequences of calls delivering the same fixes end in the same store, up to the local stamp. |
| Lockout.BackoffIsCappedDoubling | server/internal/auth/lockout.go:38-50 | The shift with its guards is the capped doubling, for every policy whose doublings fit 64 bits and reach the cap. |
| Lockout.DefaultBackoff | server/internal/auth/lockout.go:23-50 | Under the default policy the backoff is min(30 s doubled n - 1 times, 15 min), monotone and free of overflow. |
| Lockout.Service.CheckLockout | server/internal/auth/lockout.go:54-83 | The email count decides before the address count; an empty address is not counted; a count query that is reached and fails is an error. |
| Lockout.Service.RecordAttempt | server/internal/auth/lockout.go:85-98 | One row is appended, with the address only when addresses are logged; a failing insert is ignored. |
| Lockout.Service.TryLogin | server/internal/auth/service.go:183-227 | Check, verify, record: a locked attempt, a failing count and a store error record nothing, every other outcome one row. |
| Lockout.Service.PruneLoginAttempts | server/internal/store/misc.sql.go:284-287 | Exactly the rows of the last day are kept. |
| LockoutCounts.CountsAreRows | server/internal/store/misc.sql.go:15-44 | The counts are the numbers of failed rows inside the window, for an email also later than each of its successes. |
| LockoutCounts.LocksExactly | server/internal/auth/lockout.go:54-83 | A check locks for the account exactly when at least the threshold of rows counts for the email, and otherwise for the network exactly when the address is known and at least its threshold counts for it. |
| LockoutCounts.SuccessClears | server/internal/store/misc.sql.go:15-30 | A recorded success forgets every failure of its email that is not later, and no other. |
| LockoutCounts.SuccessUnlocks | server/internal/auth/lockout.go:54-83 | Right after a success the account is not locked at any time until it fails again. |
| LockoutRuns.ThresholdsHold | server/internal/auth/lockout.go:52-83 | Over sequential logins, at every instant an email's and an address's counted failures are at most their thresholds, pruning or not. |
| LockoutRuns.RetryAfterNeverEscalates | server/internal/auth/lockout.go:64-80 | In sequential runs every lock asks for the first backoff, because locked attempts are not counted. |
| LockoutInFlight.CountsBoundedInFlight | server/internal/auth/lockout.go:52-98 | In every run with at most k logins of an email, and from an address, between check and record, counted failures and logins in flight together are at most the threshold plus k - 1, pruning or not. |
| LockoutInFlight.BoundIsReached | server/internal/auth/lockout.go:52-98 | For every positive threshold and k, some run with k logins in flight reaches that bound. |
| LockoutInFlight.LoginIsTwoSteps | server/internal/auth/service.go:183-227 | A login with nothing between its check and its record is those two steps. |
| LockoutRuns.PruneInvisibleIff | server/internal/store/misc.sql.go:15-44 | A one-day prune changes no later count of any table exactly when the window is at most a day and a tick. |
| LockoutRuns.PruningChangesNoDecision | server/internal/retention/retention.go:145-152 | In every sequential run with prunes in between, each check decides as if nothing had been deleted. |
| Supervisor.Process.Stop | server/internal/launcher/supervise.go:82-98 | Interrupt, kill after the grace (at once on Windows), and one drain that reaps the child. |
| Supervisor.Process.OneRound | server/internal/launcher/supervise.go:30-76 | One turn of the loop: a failed start, a shutdown, a clean exit, or a crash that backs off, with the backoff reset after a stable run. |
| Supervisor.Process.Run | server/internal/launcher/supervise.go:28-77 | The loop over any script of starts and endings ends in the fold of its rounds and returns what the first returning round returns. |
| SupervisorRuns.OneChildAtATime | server/internal/launcher/supervise.go:28-98 | At every moment of every run at most one child is alive, and each is reaped before the next attempt, any sleep, and the return. |
| SupervisorRuns.DelaysDouble | server/internal/launcher/supervise.go:100-107 | The j-th delay since the last reset is min(minBackoff doubled j times, maxBackoff). |
| SupervisorRuns.DelayOfRound | server/internal/launcher/supervise.go:65-76 | The delay of a round that sleeps is the least backoff if it is the first or its child crashed after a stable run, and otherwise the delay before it doubled, up to the greatest. |
| SupervisorRuns.AttemptsAreRare | server/internal/launcher/supervise.go:28-77 | Attempts within any elapsed time T number at most 1 + T / minBackoff. |
| SupervisorRuns.NilExactlyAfterCleanExit | server/internal/launcher/supervise.go:25-63 | The loop returns nil exactly after a started child exits cleanly while nothing is cancelled. |
| ShareLinks.Server.CreateShare | server/internal/httpapi/share.go:93-115 | A link is made with the clamped lifetime and no viewer. |
| ShareLinks.Server.BindShareViewer | server/internal/store/share.sql.go:15-20 | The compare-and-swap writes the viewer hash exactly when it was still empty. |
| ShareLinks.Server.GetShare | server/internal/httpapi/share.go:214-259 | The fetch makes its statements in order with any steps of other requests between them, and ends served, refused, gone or not found. |
| ShareLinks.Server.BindViewer | server/internal/httpapi/share.go:268-311 | An unbound link is bound or, if the race is lost, reloaded and judged by the cookie; a bound one is judged by the cookie. |
| ShareLinks.Server.RevokeShare | server/internal/httpapi/share.go:137-154 | Only the owner revokes; a second revoke changes nothing. |
| ShareRuns.BoundAtMostOnce | server/internal/store/share.sql.go:15-30 | Over all interleavings a link's viewer hash is written at most once, and the row holds what was written. |
| ShareRuns.ViewerStays | server/internal/store/share.sql.go:15-30 | Once written, the viewer hash never changes while the link has a row. |
| ShareRuns.ServedOnlyToTheDevice | server/internal/httpapi/share.go:261-311 | Every position served goes to the request that won the link's only binding, or to one presenting the token drawn for it. |
| ShareRuns.DeadForGood | server/internal/httpapi/share.go:360-362 | A link once revoked, expired or deleted stays dead in every run. |
| ShareRuns.NeverSeenLiveAgain | server/internal/httpapi/share.go:230-234 | After a link was dead no fetch gets past the load and no ping is taken. |
| ShareRuns.RevocationTimeStays | server/internal/store/share.sql.go:188-200 | The first revocation's time is the one that stays. |
| ShareFetch.BoundDeviceIsServed | server/internal/httpapi/share.go:214-311 | After any run and with any steps of others, a fetch that finds a live link bound to a token is served that link's last position exactly when its cookie is that token, and is refused otherwise. |
| ShareFetch.FirstDeviceIsServed | server/internal/httpapi/share.go:268-283 | A fetch that finds a live link unbound at its load and at its swap is served and binds it to a new token. |
| ShareFetch.LoserIsJudged | server/internal/httpapi/share.go:284-310 | One that lost the swap is judged by its cookie against the reloaded row, and answered gone without a row. |
| ShareFetch.DeadLinkIsGone | server/internal/httpapi/share.go:214-234 | A link that is not there is not found, and one that is revoked or past its time is gone. |
| ShareFetch.PositionIsLastPing | server/internal/httpapi/share.go:239-252 | A link shows the last blob a ping wrote for it, and nothing without a row. |
| ShareLives.LivesExactly | server/internal/httpapi/share.go:360-362 | Over any steps a live link is live afterwards exactly when its owner has not revoked it and its time is not up. |
| ShareLives.PingTakenExactly | server/internal/httpapi/share.go:161-190 | A ping is taken exactly from the owner of a live link. |
| ShareLives.PingIsShown | server/internal/httpapi/share.go:161-207 | Once taken, its blob is what the link shows, whatever came in between. |
| ShareRuns.ClampIsInRange | server/internal/httpapi/share.go:70-91 | Any 64-bit request is granted 60 s to 3600 s, exactly what it asks for when that is in range, 15 minutes when it asks for none, and monotonically. |
| ShareRuns.AnHourAtMost | server/internal/httpapi/share.go:14-21 | In every run a link is dead an hour after it was made, and live for its first minute unless revoked. |
| Membership.Server.ConsumeInvite | server/internal/store/invites.sql.go:15-26 | A use is consumed exactly while the invite is active, unexpired and not used up. |
| Membership.Server.AcceptInvite | server/internal/httpapi/invites.go:152-198 | The invite read, the seat check and the transaction run in order with any steps of other requests between them. |
| Membership.Server.LeaveCircle | server/internal/httpapi/circles.go:314-329 | A member leaves at once; an owner counts the owners first and is refused at one or fewer. |
| MembershipOutcomes.NothingToAccept | server/internal/httpapi/invites.go:160-177 | An unknown invite, and a user who has a seat already, are told so, and nothing is spent. |
| MembershipOutcomes.AcceptedExactly | server/internal/httpapi/invites.go:170-206 | After any run, with any steps of others, a user without a seat when checked gets it, with the invite's role and for one use, exactly when at the commit the invite still has a use to give and the transaction does not fail; otherwise no seat and no invite changes. |
| MembershipOutcomes.MembersLeave | server/internal/httpapi/circles.go:314-329 | A member who is not the owner leaves, and nobody else's seat changes. |
| MembershipOutcomes.OthersStay | server/internal/httpapi/circles.go:314-329 | The owner is refused and a stranger finds no circle; neither changes anything. |
| MembershipOutcomes.SeatStays | server/internal/httpapi/circles.go:218-329 | A seat is kept through a step exactly unless its circle is deleted, the owner removes its user, or the user leaves; its role changes only by joining again. |
| MembershipOutcomes.InviteGivesUntil | server/internal/store/invites.sql.go:15-26 | An invite keeps having uses to give exactly until it expires, is revoked, is used up, or its circle is deleted. |
| MembershipOutcomes.InviteIsMade | server/internal/httpapi/invites.go:77-90 | An invite is made with the granted role, uses and lifetime, into its maker's circle. |
| MembershipRuns.ExactlyOneOwner | server/internal/httpapi/circles.go:139-154 | In every run, with handlers acting on stale membership reads, each existing circle has exactly one owner, its creator. |
| MembershipRuns.OwnersNeverLeave | server/internal/httpapi/circles.go:312-328 | An owner's leave is always refused: no handler ever makes a second owner. |
| MembershipRuns.InvitesAreBounded | server/internal/store/invites.sql.go:15-26 | An invite's committed accepts number exactly its uses, never more than max_uses, and bound the distinct users it let in. |
| MembershipRuns.DoubleAcceptSpendsTwo | server/internal/httpapi/invites.go:150-198 | Two accepts of one user racing past the membership check spend two uses on one seat. |
| InviteRaces.SpendsOnTakenSeatIff | server/internal/httpapi/invites.go:170-198 | From any reachable state in which a request has just found its seat free, through any steps of others, its commit spends a use on an occupied seat exactly when another accept of the same user committed in between and the seat was not vacated, the invite is still usable, and the transaction does not fail. |
| InviteRaces.AloneTakesAFreeSeat | server/internal/httpapi/invites.go:170-173 | With no other accept of the same user in between, no use is ever spent on an occupied seat. |
| MembershipRuns.GrantsAreBounded | server/internal/httpapi/invites.go:53-76 | A created invite has 1 to 1000 uses, at most 30 days, and never the owner role. |
| MembershipRuns.GrantedAsAsked | server/internal/httpapi/invites.go:53-76 | For all terms, with defaults and any lifetime, the handler grants what the request means exactly when the lifetime in nanoseconds survives the 64-bit wrap, or the request is refused anyway, or the wrapped lifetime is refused or defaulted as the asked one would be. |
| MembershipRuns.InRangeAsAsked | server/internal/httpapi/invites.go:53-76 | A lifetime that fits 64 bits as nanoseconds is treated as asked; then exactly the owner role, over 1000 uses and over 30 days are refused. |
| MembershipRuns.NegativeTtlWraps | server/internal/httpapi/invites.go:69-76 | A lifetime of -18446744073 seconds, which should mean the default week, is granted as 709551616 nanoseconds. |
| MembershipRuns.HugeTtlWraps | server/internal/httpapi/invites.go:69-76 | A lifetime of 18446744074 seconds wraps round and is granted as 290448384 nanoseconds. |

## Left out

- HTTP routing, JSON, cookies, WebSocket transport, push, UI, configuration and audit writes: input and output around the modelled logic.
- Argon2, hashing of tokens, sealing and opening of envelopes: a parameter, an injective identity, and a box that opens for its recipient only; `argon2.IDKey` panics for zero iterations or zero parallelism, which the parameter does not.
- Realtime hub: `Publish` and the evict requests drop when their buffers are full, so the theorems start from dispatched events and processed evictions; progress after shutdown (`Unregister` sends to a loop that has returned) is not claimed; statistics are left out.
- Hub.CommitEviction: writes the shrunk subscriber set back where the code shrinks the shared inner map while it iterates over it.
- Refresh rotation: replaying a token two rotations old is only refused (`PresentedTokenDecides`), since one previous hash is kept; a revoke whose statement fails is ignored by the code and taken to succeed here; registration and the device upsert at login are left out.
- The browser: promises are modelled as moves of a state machine over values, not as a class, and every response is taken to be delivered; one tab only.
- Key catch-up: keys saved from an invite link or by creating the circle are in the ring from the start; the removal of a circle's keys and the 30-day prune of envelopes; two stored keys that are equal by chance; a circle is followed alone, and the link to the shared table is proved.
- KeyOrder.DrainedRingEndsWithLatest: creation times that increase from one distribution to the next are a hypothesis; `created_at` can tie within a millisecond or step back, and then the list may offer envelopes in another order.
- Retention.Worker.RunOnce: the SQLite branch and the ping steps of a pass only.
- Retention.PassesKeepNewest: no pings arrive between the passes; `PingRuns` has the runs with arrivals.
- Pings: a batch is its inserts one after another, and its rollback is left out; deleting a circle or a device takes its pings from every table alike.
- The token bucket is exact: the floating-point rounding of the rate library and its saturation of very long durations are left out; the mutex makes each operation one step.
- Retention on Postgres: pre-creating and dropping monthly partitions; a day is 24 hours, so daylight-saving shifts of the session's or host's zone are left out, and so are the steps that prune other tables.
- ParseTime: reads the strict grammar of section 5.6 of RFC 3339; the extra leniency of Go's fallback parser (one-digit hours, a comma before the fraction, offsets of 24 hours) is left out, as are instants before year 0.
- DecodeHash: blanks that the number scanner skips are the ASCII ones.
- Geofence: coordinates are reals and the distance any function of two points; the ETA and arrival texts are left out; JavaScript's iteration order of a set is any order.
- Positions: capture times are integers, so a NaN capture time is left out.
- LockoutRuns.ThresholdsHold: logins are sequential there; `LockoutInFlight` has the bound for logins in flight.
- Supervisor: time passes only while a child runs and while the loop sleeps; the waiter goroutine is the one drain of the wait channel.
- Share links: a link revoked between load and bind may still mint a cookie, since liveness is not checked again; the window check on a ping's capture time and the cookie's attributes are left out.
- Memberships: profiles, precision, places and renaming; users are never deleted, as no handler deletes one.
- The pidfile lock of the launcher: no mutual exclusion is claimed.
