# Cloudcoil controller runtime: models and proofs

Cloudcoil is a Kubernetes controller runtime. This project models its stateful and algorithmic
core and proves what that core is relied on for. `dafny verify dfyconfig.toml` checks everything.

- **Leader election** (`LeaderElection`, `LeaderProtocol`, `LeaderSafety`, `LeaderStamps`,
  `LeaderProgress`, `LeaderRuns`). One participant is a class whose methods are the stretches of code
  between two awaits. The protocol runs any number of participants against one versioned Lease:
  requests are served late, lost, or served after their sender gave up, and participants stop and
  release at any time.
- **JSON Patch and admission** (`Json`, `JsonPatch`, `JsonPatchProofs`, `JsonPatchPaths`, `Overlay`,
  `OverlayProofs`, `OverlayPlans`, `OverlayExact`, `OverlayKnown`, `Mutation`). The tree diff is undone by applying it according to
  section 4 of RFC 6902, with pointers according to sections 3 and 4 of RFC 6901. The overlay
  pushes a typed edit back into raw JSON that holds more than the type knows.
- **Commit and child convergence** (`Persist`, `Children`). Both send guarded patches to a server
  that keeps the history of one object while other writers interfere.
- **List/watch cache** (`Store`, `Informer`, `WatchManager`, `CacheProtocol`, `CacheSafety`,
  `CacheProgress`). The store with its indices, the informer that feeds subscribers, the watch loop, and all of them run
  against an append-only server log with a compaction floor.
- **Work queue** (`Queue`, `QueueWorkers`, `QueueKeys`, `QueueDrain`). The queue as a class, any number of
  workers on it in every interleaving, and the graceful drain.
- **Event recorder** (`Events`, `EventBounds`, `EventDecisions`). A token bucket over a bounded table of recent keys.
- **Schema compiler** (`Crd`, `CrdConvert`, `CrdCompile`, `CrdProofs`, `CrdStable`, `CrdFree`,
  `CrdMeaning`, `CrdNull`, `CrdKeep`, `CrdAccept`, `CrdMerge`, `CrdPreserve`, `CrdCorners`).
  JSON Schema with references and unions becomes a structural schema that accepts the same values.
- **Ordering** (`Ordering`), **Pod owners** (`OwnerLinks`, `Owners`), **log fan-in** (`FanIn`).

Where the source changes state, the model is a class or a loop proved against a function, and the
properties are proved about the function. Concurrent code is a state machine: a run is a sequence
of choices, a choice that is not possible changes nothing, and theorems hold for every sequence.

## What the proofs found

- The election needs that no stored record ever comes back: `_observe` compares whole records (UID
  and spec) and not the resourceVersion, so a write that stores a record seen before goes unnoticed.
  `RepeatedRecordBreaksExclusion` is a run with two leaders after such a write, `MutualExclusion`
  holds for every run without one, and `FreshStampsSuffice` says that runs in which no participant
  takes one of its own wall-clock stamps twice are among them.
- A resync timeout can cancel the handler of a deletion after the store forgot the object. The
  relist finds the object in neither the store nor the list, so subscribers keep it for ever
  (`MissedDeletion`). `RelistLeaves` and `RelistRestores` say exactly what a complete relist repairs,
  and `RelistAgreement` that it repairs everything in every run that cut off no deletion;
  `SubscriberAgreement` covers every run without any cut.
- Suppressed events really stay suppressed if and only if the table has room for
  `18 + 5 * interval` keys; reservations are never evicted early if and only if it has room for one
  more. The documentation names no such bound, and the default interval of 60 seconds with 1024
  keys satisfies both.
- An edit of a field that the raw object omits is dropped exactly when it assigns nothing, that is,
  when it only removes keys of objects (`OmittedField`, for every combination of explicitly set
  values; `EditShown` carries it through the whole document). Emptying such a field is therefore lost
  however it was assigned (`EmptiedLost`), although the comment at lines 50-51 of
  `cloudcoil/admission/_mutation.py` means to keep an explicit assignment of a default.
- `_convert` is not quite idempotent. An embedded resource with empty `properties` and an
  `additionalProperties` schema gets its metadata after the check that forbids the two together,
  and its own output is refused (`EmbeddedTwice`). `CompiledAgain` says exactly which outputs are
  fixed points, the normal form says that only such embedded nodes are not, and `FreeCompiledAgain`
  that every document without embedded resources compiles to a fixed point.
- Compiling a schema keeps which values it accepts, null included, through references and unions at
  every depth (`ConvertMeans`), with two exceptions in how `_merge` compares. Python calls `True` and
  `1` equal, so an exclusive bound of 1 beside a union is taken for the flag of the branch's own bound,
  and that bound is lost: `anyOf: [integer above 5]` beside `exclusiveMinimum: 1` compiles to "at
  least 5" (`TrueIsOne`). And a boolean `exclusiveMinimum` beside a union comes alive when the branch
  brings a minimum (`FlagComesAlive`). The theorem covers every document in which no exclusive bound
  that equals the flag stands in the untyped rest of such a union (`Clear`), no exclusive flag stands
  without its bound, and no resource is embedded, whose schema for `metadata` is replaced by design
  (`Clean`, `MetadataReplaced`). The null side (`NullExact`), preserved unknown fields (`OpenExact`) and what is
  said about a value (`SaysKept`) hold on all documents.
- Replacing the store with a list that repeats a key keeps the indices right exactly when the
  overwritten items are harmless (`ReplaceAgrees`); `RelabelledTwice` is a list where they are not.

## Model

| member | source | states |
|---|---|---|
| LeaderElection.LeaderElection.Observe | cloudcoil/controller/_leader.py:106-130 | The observation timer restarts exactly when UID or spec differ from what was seen before; a Lease without identity changes nothing. |
| LeaderElection.LeaderElection.BeginAttempt | cloudcoil/controller/_leader.py:132-141 | An attempt of an active leader is possible exactly while it still leads, and its time budget never runs past its renewal deadline. |
| LeaderElection.LeaderElection.OnGet | cloudcoil/controller/_leader.py:142-196 | What follows the read: create, conditional update at once for a Lease that names no holder or this one, waiting out another holder's own duration, loss of leadership, or an error; see also AttemptSends. |
| LeaderElection.LeaderElection.OnWrite | cloudcoil/controller/_leader.py:197-212 | A stored write renews from the time the attempt started; anything else renews nothing. |
| LeaderElection.LeaderElection.OnReleaseGet | cloudcoil/controller/_leader.py:223-248 | The release writes only a Lease that still has this holder and this UID. |
| LeaderSafety.InvRun | cloudcoil/controller/_leader.py:132-315 | The protocol invariant holds after every run of every choice in which no stored record comes back. |
| LeaderSafety.MutualExclusion | cloudcoil/controller/_leader.py:77-99 | Over every run in which no stored record comes back, two participants that both count themselves leader are the same one. |
| LeaderSafety.LeaderHoldsLease | cloudcoil/controller/_leader.py:97-212 | Over every such run a leader is the holder that the server has stored. |
| LeaderSafety.TakeoverWaits | cloudcoil/controller/_leader.py:174-201 | Over every such run a write that replaces another holder takes effect only after that holder's own duration since its last stored write, when it no longer leads. |
| LeaderSafety.ReleaseClearsOnlyOwn | cloudcoil/controller/_leader.py:223-248 | Over every such run a release, however late it is served, clears only the stopped releaser's own ownership. |
| LeaderStamps.FreshStampsSuffice | cloudcoil/controller/_leader.py:145-196 | When no participant takes one of its own wall-clock stamps twice, no stored record comes back. |
| LeaderProgress.AttemptSends | cloudcoil/controller/_leader.py:142-196 | From every cluster the protocol can reach, a participant on standby asks for the Lease exactly when there is none, it names no holder or this one, or its record has been in sight for at least the duration it states; otherwise it waits. |
| LeaderProgress.Acquires | cloudcoil/controller/_leader.py:132-212 | Whoever may take the Lease leads after one undisturbed attempt, with holder, duration, renewal time, acquire time and transitions as they must be: the last two change exactly with the holder. |
| LeaderProgress.Renews | cloudcoil/controller/_leader.py:132-221 | In every run a leader whose attempt begins before its deadline goes on leading from the start of that attempt. |
| LeaderProgress.Releases | cloudcoil/controller/_leader.py:223-248 | In every run a leader that stops and releases leaves a Lease that names no holder. |
| LeaderProgress.HandsOver | cloudcoil/controller/_leader.py:132-248 | After a release whoever stands by leads after one attempt, in the same moment. |
| LeaderProgress.KeepsTrying | cloudcoil/controller/_leader.py:202-212 | Which status codes end the election: the client errors other than 404, 408, 409 and 429; every other failed request leaves the participant as it was. |
| LeaderRuns.HandOver | cloudcoil/controller/_leader.py:250-315 | A run with fresh stamps exists in which leadership passes to another participant. |
| LeaderRuns.HandOverByRelease | cloudcoil/controller/_leader.py:223-315 | A run exists in which leadership passes at once through a release. |
| LeaderRuns.RepeatedRecordBreaksExclusion | cloudcoil/controller/_leader.py:106-130 | A run exists in which a stored record comes back and which ends with two leaders. |
| JsonPatch.ComputePatch | cloudcoil/patches.py:10-36 | The loops append exactly the operations of the recursive diff, in key order. |
| JsonPatchProofs.EscapeRoundTrip | cloudcoil/patches.py:25-25 | Unescaping an escaped key gives the key back, and an escaped key holds no slash. |
| JsonPatchProofs.PointerRoundTrip | cloudcoil/patches.py:10-36 | A pointer built from a key path decodes to that path, whatever the keys hold. |
| JsonPatchProofs.RoundTrip | cloudcoil/patches.py:10-36 | Applying the diff of any two trees to the first gives exactly the second. |
| JsonPatchProofs.EmptyIffEqual | cloudcoil/patches.py:10-36 | The diff is empty if and only if the trees are equal. |
| JsonPatchPaths.OperationsExact | cloudcoil/patches.py:10-36 | An operation is in the diff if and only if some path of keys lies below two objects and holds different values that are not both objects: it removes, adds or replaces accordingly, at the pointer of that path. |
| Mutation.FindSources | cloudcoil/admission/_mutation.py:120-133 | New unnamed elements are matched with the first unused equal old ones, and the search refuses when their raw forms differ. |
| Mutation.ComputePlan | cloudcoil/admission/_mutation.py:79-154 | The three regimes of array matching and their refusals, whose exact conditions ItemsRefusedExact and PlanExact state. |
| Mutation.ComputeOverlay | cloudcoil/admission/_mutation.py:48-170 | The loops that fill objects and arrays compute the overlay. |
| OverlayPlans.ItemsRefusedExact | cloudcoil/admission/_mutation.py:79-162 | An array edit is refused if and only if: the lengths differ; or, with names throughout, the names differ or a new one would push out an element with unknown data; or, otherwise, an element disagrees with the typed one, equal old elements with different raw forms cannot be told apart, several elements changed in place over unknown data, or a new one stands beside an unused one with unknown data. |
| OverlayPlans.PlanExact | cloudcoil/admission/_mutation.py:79-169 | Which raw and old element a new one is: by name, or by its place in an edit in place, or the same occurrence of an equal value. |
| OverlayExact.RefusedExact | cloudcoil/admission/_mutation.py:48-170 | The overlay refuses if and only if an array edit is refused at some level that the edit touches. |
| OverlayProofs.MatchesIsRestrict | cloudcoil/admission/_mutation.py:29-38 | Matching with every key present is equality after dropping what the type does not know. |
| OverlayProofs.PutGet | cloudcoil/admission/_mutation.py:29-170 | The edit arrives: a raw value that matched `before` becomes one that matches `after`, completely if it matched completely. |
| OverlayExact.OmittedField | cloudcoil/admission/_mutation.py:48-77 | An omitted field stays omitted if and only if its edit assigns nothing at any depth, whatever was set explicitly before and after. |
| OverlayExact.EmptiedLost | cloudcoil/admission/_mutation.py:49-77 | Emptying an omitted object is lost, explicitly assigned or not. |
| OverlayExact.EditShown | cloudcoil/admission/_mutation.py:48-170 | The whole result, at every field and through every corresponding element: what the edit leaves alone is the raw value, what was omitted and edited silently stays omitted, removed keys are gone, keys that neither side knows stay, and everything else is the new value. |
| OverlayProofs.PlanSafe | cloudcoil/admission/_mutation.py:79-169 | No raw element is used twice, and a new element leaves out only fully known ones. |
| OverlayProofs.Conservation | cloudcoil/admission/_mutation.py:21-170 | Raw keys unknown to both sides survive unchanged, at every depth and through every matched array element. |
| OverlayKnown.NothingUnknown | cloudcoil/admission/_mutation.py:21-38 | A complete match without unknown data is equality, and conversely. |
| OverlayKnown.KnownEdit | cloudcoil/admission/_mutation.py:48-170 | Where the raw value holds nothing unknown, the overlay never refuses and its result is the edit. |
| OverlayKnown.RefusalProtects | cloudcoil/admission/_mutation.py:48-170 | A refusal means that the raw value disagrees with the typed one or holds more. |
| Mutation.MutationPatch | cloudcoil/admission/_mutation.py:173-190 | Each refusal exactly when it is due, an unsafe edit if and only if an array edit is blocked at some level; otherwise a patch that applies to the raw object, conserves what nobody knows, and carries the edit out but for omitted fields whose edit assigns nothing. |
| Persist.GuardedDiff | cloudcoil/patches.py:39-69 | Identity changes, snapshots that were not fetched and version changes are refused, each exactly when it is due; equal snapshots give no operations; otherwise two guards on UID and resourceVersion precede the diff. |
| Persist.GuardsHold | cloudcoil/patches.py:65-69 | Guarded operations apply to a document if and only if it has the guarded UID and version. |
| Persist.HalvesCommute | cloudcoil/controller/_mutations.py:89-133 | Main and status operations of one diff give the desired object in either order. |
| Persist.GuardedPatch | cloudcoil/controller/_mutations.py:89-133 | A guarded request served after other writers takes effect if and only if its base is still the current version. |
| Persist.Persist | cloudcoil/controller/_mutations.py:89-133 | The commit succeeds if and only if no other version falls between the snapshot and the main patch or between the two patches; then exactly its own versions were added and the last is the desired object. After a conflict all versions of the others are there, behind the main half if that took effect, and no other. |
| Children.Merge | cloudcoil/controller/_children.py:17-24 | The loop edits the current fields into the merge of both. |
| Children.UpdatedAgain | cloudcoil/controller/_children.py:17-24 | Merging and dropping nulls is idempotent. |
| Children.StripExact | cloudcoil/controller/_children.py:78-80 | Dropping nulls leaves none, and changes a value if and only if it holds one. |
| Children.OmittedKept | cloudcoil/controller/_children.py:17-24 | Every path that the desired child omits keeps its value. |
| Children.SuppliedHolds | cloudcoil/controller/_children.py:17-24 | At every path that the desired child supplies: null removes, an object is merged where there is one and put in place where there is none, and any other value is there afterwards. |
| Children.Ensure | cloudcoil/controller/_children.py:75-82 | One pass is refused, empty, or one guarded patch that takes effect if and only if nobody else wrote; after success the next pass has nothing to do, after a conflict exactly the versions of the others were added. |
| Store.ConcurrentStore.AddIndex | cloudcoil/caching/_store.py:59-87 | A new index agrees with the items, and nothing else changes. |
| Store.ConcurrentStore.GetByIndex | cloudcoil/caching/_store.py:89-109 | A lookup finds exactly the stored objects that map to the key, none for the empty key. |
| Store.ConcurrentStore.Add | cloudcoil/caching/_store.py:146-166 | Adding or updating keeps order and indices, drops the oldest item of a full store first, and never takes a store within capacity above it. |
| Store.ConcurrentStore.UpdateIndices | cloudcoil/caching/_store.py:168-185 | In every index the key leaves the bucket of its old object and enters that of its new one. |
| Store.ConcurrentStore.Delete | cloudcoil/caching/_store.py:259-264 | Deleting removes the object's key and keeps every index in agreement. |
| Store.ConcurrentStore.Replace | cloudcoil/caching/_store.py:284-304 | The store holds the list, the last item of a key winning; its indices agree if and only if overwritten duplicates are harmless. |
| Store.ReplaceAgrees | cloudcoil/caching/_store.py:284-304 | A rebuilt index agrees with the items if and only if every overwritten item has no bucket or the bucket of the item that replaced it; distinct keys suffice. |
| Store.RelabelledTwice | cloudcoil/caching/_store.py:284-304 | A list with the old and the new form of one object leaves an index that disagrees. |
| Store.ConcurrentStore.Clear | cloudcoil/caching/_store.py:315-320 | Clearing leaves empty items and empty indices under the same names. |
| Informer.AsyncInformer.HandleInitialItems | cloudcoil/caching/_informer.py:317-336 | A relist replaces the store and dispatches deletions in old order, then arrivals in new order. |
| Informer.AsyncInformer.HandleWatchEvent | cloudcoil/caching/_informer.py:338-367 | One event changes the store and is passed on, an update with the object it replaces. |
| Informer.RelistShown | cloudcoil/caching/_informer.py:317-336 | A relist is a sound story: no update across UIDs, no add of a held object, and replaying it gives exactly the new contents. |
| Informer.RelistRepairs | cloudcoil/caching/_informer.py:317-336 | What a relist repairs for a subscriber with any copy: everything but objects in neither the store nor the list. |
| WatchManager.WatchClient.Watch | cloudcoil/client/_api_client.py:822-952 | The reconnecting loop leaves the version and the exception of the stream function, for any responses, lines and transport failures. |
| WatchManager.RaisedExact | cloudcoil/client/_api_client.py:847-952 | A stream ends at the first input that raises, with its exception and the version held so far: expired history where that raises, a client error, or a line that cannot be decoded; every other input is survived. |
| WatchManager.ResumeExact | cloudcoil/client/_api_client.py:847-918 | The version to resume from is the one last read since the history expired under a stream that does not raise, none if nothing was read since, and the starting one if neither happened. |
| WatchManager.RaisingKeeps | cloudcoil/client/_api_client.py:847-952 | A stream that raises on expiry never loses a version it holds. |
| WatchManager.TransientCodes | cloudcoil/client/_api_client.py:866-952 | Status and error lines with 408, 429 or any code outside 200 to 299 and 400 to 499 change nothing: the stream goes on from the version it had. |
| WatchManager.FinalCodes | cloudcoil/client/_api_client.py:883-943 | Every other code from 400 to 499, 410 aside, ends a running stream with that code. |
| WatchManager.ExpiredCodes | cloudcoil/client/_api_client.py:853-903 | Status 410 and lines that say the history expired are raised with the version kept, or start over from now. |
| WatchManager.VersionsRead | cloudcoil/client/_api_client.py:905-918 | A running stream takes over the version of every event and bookmark that has one. |
| WatchManager.FinalForManager | cloudcoil/caching/_watch_manager.py:96-114 | Exactly the codes 400 to 499 other than 408 and 429 are final for the manager; expiry and the resync timeout force a relist, and everything else changes nothing. |
| WatchManager.EndingExact | cloudcoil/caching/_watch_manager.py:96-114 | How a stream can end for its manager: expired history forces a relist although its status is a client error, a client error is final, and only a line that cannot be decoded is tried again from the same version. |
| CacheSafety.StepKeeps | cloudcoil/caching/_watch_manager.py:81-162 | Every step keeps the cache invariant and never moves the reflected position backwards. |
| CacheSafety.RunKeeps | cloudcoil/caching/_watch_manager.py:81-162 | So does every run, with disconnects, bookmarks, expiry, resync timeouts, stops and restarts anywhere. |
| CacheSafety.CacheAgreement | cloudcoil/caching/_watch_manager.py:81-162 | After every run the store is the server state at one position, which is the resume version of manager and client whenever one is held. |
| CacheSafety.SubscriberAgreement | cloudcoil/caching/_informer.py:317-367 | In runs where no dispatch was cancelled, the dispatched events are sound one by one and replaying them gives the store. |
| CacheSafety.RelistLeaves | cloudcoil/caching/_informer.py:317-336 | After a complete relist a key is in doubt if and only if it was before and is neither stored nor listed, and the subscriber is right about a key if and only if it is listed, was stored, or was not held. |
| CacheSafety.RelistRestores | cloudcoil/caching/_informer.py:317-336 | A complete relist restores agreement if and only if everything the subscriber holds is stored or listed. |
| CacheSafety.RelistAgreement | cloudcoil/caching/_watch_manager.py:81-162 | In every run that cut off no deletion, whatever else was cancelled, every complete relist restores agreement. |
| CacheSafety.MissedDeletion | cloudcoil/caching/_watch_manager.py:88-101 | A run exists in which a cancelled deletion is never reported. |
| CacheProgress.CatchesUp | cloudcoil/caching/_watch_manager.py:117-162 | From every running world whose version the server still has, the watch can connect and deliver until the store is the current server state, and an undisturbed subscriber holds the same. |
| CacheProgress.AlwaysRecovers | cloudcoil/caching/_watch_manager.py:50-135 | After every run whatsoever, a failure included, a stop, a start and a complete list make the informer running and current. |
| Queue.WorkQueue.Add | cloudcoil/controller/_queue.py:59-72 | An add cancels the timer of its key and makes it dirty, and ready unless in flight; it keeps the queue consistent. |
| Queue.WorkQueue.AddAfter | cloudcoil/controller/_queue.py:74-93 | A delay keeps the earliest deadline; a negative one is refused; a dirty key needs no timer. |
| Queue.WorkQueue.Release | cloudcoil/controller/_queue.py:95-97 | A fired timer is dropped and its key added. |
| Queue.WorkQueue.Retry | cloudcoil/controller/_queue.py:99-110 | The returned delay is the jittered backoff within the maximum, and the attempt is counted. |
| Queue.WorkQueue.Forget | cloudcoil/controller/_queue.py:112-114 | Only the failure count of the key is reset. |
| Queue.BackoffIsMinimum | cloudcoil/controller/_queue.py:105-108 | Cutting the exponent at the rounded-up logarithm loses nothing: the delay is the smaller of doubled base and maximum, and never shrinks. |
| Queue.CapIsFirst | cloudcoil/controller/_queue.py:106-107 | The cap is the first attempt whose doubled delay reaches the maximum. |
| Queue.WorkQueue.Get | cloudcoil/controller/_queue.py:120-130 | The first ready key moves from dirty to in flight; otherwise the getter waits or learns that the queue is closed. |
| Queue.WorkQueue.Done | cloudcoil/controller/_queue.py:132-140 | A key dirty again becomes ready, and the queue is idle exactly when nothing is left. |
| Queue.WorkQueue.Shutdown | cloudcoil/controller/_queue.py:146-166 | Timers and retries are dropped, ready work only on an immediate shutdown. |
| QueueWorkers.StepKeeps | cloudcoil/controller/_queue.py:59-166 | Every interleaved step keeps: ready is dirty minus in flight without repeats, timers and dirty keys are disjoint, idle is exact, each key in flight has one holder, nobody sleeps while the event is set. |
| QueueWorkers.Serialised | cloudcoil/controller/_queue.py:120-140 | In every run two workers never hold one key, and nobody sleeps on ready work or after a shutdown. |
| QueueWorkers.NoLostUpdate | cloudcoil/controller/_queue.py:59-140 | A dirty key stays dirty until it is taken, in every run without an immediate shutdown. |
| QueueWorkers.AddIsServed | cloudcoil/controller/_queue.py:59-72 | An add to an open queue is followed by a take of that key or leaves it dirty. |
| QueueWorkers.EarliestKept | cloudcoil/controller/_queue.py:74-97 | Until it is taken, a delayed key never moves to a later deadline. |
| QueueKeys.LifeExact | cloudcoil/controller/_queue.py:59-166 | Key by key the queue is a small automaton: what every call, timer, worker and shutdown does to whether a key is wanted, held, due and how often it failed. |
| QueueKeys.DueExactly | cloudcoil/controller/_queue.py:74-97 | An accepted delay makes a key due at exactly the earlier of its deadline and now plus the delay: its timer can fire from then on and not before. |
| QueueKeys.FailuresCounted | cloudcoil/controller/_queue.py:99-118 | In every run the failures counted for a key are its retries since it was last forgotten. |
| QueueKeys.NextBackoff | cloudcoil/controller/_queue.py:99-110 | After n retries without a forget the next delay before jitter is the base doubled n times, up to the maximum. |
| QueueKeys.ServedInTurn | cloudcoil/controller/_queue.py:71-130 | Ready keys are served in order: with i keys in front of it, a key is among the next i + 1 handed out, in every run without an immediate shutdown. |
| QueueDrain.DrainStep | cloudcoil/controller/_queue.py:120-166 | While draining, every move of a worker uses up exactly one remaining move and nothing else changes anything. |
| QueueDrain.StuckIsDrained | cloudcoil/controller/_controller.py:462-468 | A drain can stop if and only if all workers returned and the queue is empty and idle. |
| QueueDrain.DrainCompletes | cloudcoil/controller/_controller.py:462-551 | From every draining state the remaining moves can be made, and lead there. |
| QueueDrain.GracefulDrain | cloudcoil/controller/_controller.py:607-628 | After a graceful shutdown with a live worker every schedule takes each dirty key exactly once and no other, keeps somebody for every dirty key, and ends empty, idle and with all workers returned. |
| Events.EventRecorder.Accept | cloudcoil/controller/_events.py:84-98 | The decision to send and the whole new state: refill, token, reservation, and eviction of the oldest keys. |
| EventBounds.WindowBound | cloudcoil/controller/_events.py:89-93 | Accepted events between two accepted ones w seconds apart number at most 20 + 5w, both included, whatever the table. |
| EventBounds.RunKeeps | cloudcoil/controller/_events.py:84-98 | Every run keeps the budget of each accepted emit and the rank of each remembered key. |
| EventBounds.SuppressionExact | cloudcoil/controller/_events.py:84-98 | Accepted emits of one key are at least the interval apart in every run if and only if the table has room for 18 + 5 * interval keys. |
| EventBounds.ReservationsKept | cloudcoil/controller/_events.py:94-98 | No reservation younger than the interval is ever evicted if and only if the table has room for 19 + 5 * interval keys. |
| EventDecisions.DecisionExact | cloudcoil/controller/_events.py:84-98 | After every run, an event is sent if and only if no event of its key was sent less than the interval ago and no window ending with it would hold more than 20 + 5w events, for tables of at least 18 + 5 * interval keys; with any table these are the only reasons to drop one. |
| Crd.Rank | cloudcoil/crd.py:307-320 | Every document has a least depth of nested unions, the middle of the recursion measure. |
| CrdConvert.Convert | cloudcoil/crd.py:290-412 | The rewrite terminates on every document and definitions, cyclic ones included, and its output has no union left to resolve; what it means is stated by ConvertMeans, NullExact, OpenExact and SaysKept. |
| CrdConvert.RankMerged | cloudcoil/crd.py:312-320 | What branch and rest are merged into is shallower than the node, which is why converting it again terminates. |
| CrdCompile.Merge | cloudcoil/crd.py:282-287 | The loop merges, or refuses exactly when a constraint conflicts. |
| CrdCompile.Prepare | cloudcoil/crd.py:331-388 | The keyword edits in place compute the prepared node. |
| CrdCompile.Compile | cloudcoil/crd.py:290-412 | The procedure that edits node copies computes the rewrite. |
| CrdProofs.ConvertNormal | cloudcoil/crd.py:290-412 | Every result is structural at every depth: no reference, const, examples or null union, boolean exclusive bounds, and valid extensions. |
| CrdMeaning.PreparedMeaning | cloudcoil/crd.py:331-354 | Rewriting type lists, const, enum and exclusive bounds keeps exactly which values a node accepts. |
| CrdStable.CompiledAgain | cloudcoil/crd.py:290-412 | Converting a result again returns it if and only if no node of it has both properties and additional properties, and is refused otherwise. |
| CrdStable.EmbeddedTwice | cloudcoil/crd.py:389-400 | The embedded resource that compiles once and not twice. |
| CrdFree.ConvertFree | cloudcoil/crd.py:290-412 | Embedded resources, properties, additional properties, exclusive flags without their bound and bounds that equal the flag are never introduced: a document and definitions free of one compile to a schema free of it. |
| CrdFree.FreeCompiledAgain | cloudcoil/crd.py:290-412 | A document and definitions without embedded resources, or without one of the two kinds of properties, compile to a fixed point. |
| CrdNull.NullExact | cloudcoil/crd.py:290-412 | On all documents a compiled node is nullable if and only if the document says so, lists null as a type or a variant, has a variant that accepts null, or says of no type; through every chain of references. |
| CrdNull.NullUnionNullable | cloudcoil/crd.py:307-330 | A union that lists null, or a reference that leads to one, compiles to `nullable: true`. |
| CrdKeep.OpenExact | cloudcoil/crd.py:382-408 | On all documents unknown fields are preserved after compiling if and only if they were before: flagged, any additional property, no type, or a variant that preserves them. |
| CrdKeep.SaysKept | cloudcoil/crd.py:282-330 | Title, description, default and printer column are those beside the reference or union, or else those of the definition or variant, on all documents. |
| CrdMerge.JoinAdmits | cloudcoil/crd.py:282-320 | A value other than null is admitted by the merged node if and only if the compiled branch and the rest both admit it. |
| CrdPreserve.ConvertMeans | cloudcoil/crd.py:290-412 | A compiled document accepts a value if and only if the document does, with its references, unions, types, lists, bounds, children at every depth and null, whatever the remaining keywords test. |
| CrdAccept.EqualityExists | cloudcoil/crd.py:282-287 | The laws of equality and order that the meaning theorems ask for can be met with any definitions. |
| CrdCorners.OptionalString | cloudcoil/crd.py:307-320 | A string or null compiles to a nullable string. |
| CrdCorners.TrueIsOne | cloudcoil/crd.py:282-354 | Where 1 equals true, an exclusive bound of 1 beside a union makes the branch lose its own. |
| CrdCorners.FlagComesAlive | cloudcoil/crd.py:282-354 | A boolean exclusive bound beside a union takes effect on the bound of the branch. |
| CrdCorners.MetadataReplaced | cloudcoil/crd.py:393-400 | The schema given for the metadata of an embedded resource is replaced. |
| Ordering.Order | cloudcoil/controller/_registry.py:37-61 | Success returns the only topological order; a cycle or unknown dependency means there is none; ambiguity means none or at least two; duplicates are refused exactly. |
| Ordering.Search | cloudcoil/controller/_registry.py:50-60 | On distinct handlers the loop returns the only order, or finds that there is none or another. |
| Ordering.FindUnknown | cloudcoil/controller/_registry.py:46-49 | A handler with an unknown dependency is found if and only if there is one. |
| Ordering.AnotherOrder | cloudcoil/controller/_registry.py:51-56 | With two ready handlers, any topological order has another beside it. |
| OwnerLinks.EdgeExact | cloudcoil/_log_owners.py:97-128 | One object owns another through a reference if and only if the reference is there with a UID, its kind is known or the only one discovered, and the server has the object of that name in the discovered scope under that UID. |
| OwnerLinks.FailureExact | cloudcoil/_log_owners.py:22-128 | Following a reference fails exactly for an invalid version or segment, an ambiguous kind, or a failed request. |
| OwnerLinks.NamesExact | cloudcoil/_log_owners.py:61-70 | A reference names the target if and only if UID, name, kind, the group of the version and, for a namespaced target, the namespace agree. |
| OwnerLinks.OwnedExact | cloudcoil/_log_owners.py:97-128 | Being owned is having a chain of verified answers from the Pod to an object that names the target. |
| Owners.OwnerTraversal.Get | cloudcoil/_log_owners.py:72-75 | The memo answers like the servers and never repeats a request. |
| Owners.OwnerTraversal.Mapped | cloudcoil/_log_owners.py:77-95 | The memoised mapping of a kind is the discovered one, ambiguity included. |
| Owners.OwnerTraversal.Follow | cloudcoil/_log_owners.py:111-127 | An owner is found if and only if the kind is known or discovered once, its scope fits, and the server answers that name in the discovered scope with an object of the reference's UID; each failure exactly for its reason. |
| Owners.OwnerTraversal.Trace | cloudcoil/_log_owners.py:97-128 | The search ends, on cycles too. True means a chain of objects in which each server answer carries the UID of the reference that leads to it, ending in a reference to the target; false means there is none, with references that agree by UID; an error is a reachable reference that failed. |
| FanIn.RunInOrder | cloudcoil/logs.py:745-787 | For every schedule at most 128 items are buffered and each source arrives in order. |
| FanIn.StepKeeps | cloudcoil/logs.py:745-787 | Every step of any schedule keeps the fan-in invariant: order, counted sentinels, announced failures, nothing behind the last sentinel. |
| FanIn.SomebodyMoves | cloudcoil/logs.py:745-787 | While the consumer waits, a step is possible: there is no deadlock. |
| FanIn.RunEnds | cloudcoil/logs.py:745-787 | Every schedule makes a bounded number of steps. |
| FanIn.FanInComplete | cloudcoil/logs.py:755-787 | A finished schedule ended normally if and only if no source fails, with every record of every source delivered once and in order; otherwise it raised a genuine failure. |

## Left out

- Leader election assumptions: clocks run at one rate, identities are unique, and nobody outside the protocol edits or deletes the Lease. Jitter and timeouts become attempts that can be abandoned at any time; a failed GET or PUT is an abandoned attempt or one that never returns.
- LeaderElection.LeaderElection.OnGet: malformed metadata is one case (missing UID or version); the exception texts are not modelled.
- JSON values: numbers are their text, so a non-finite number is never rejected; null metadata counts as absent in the identity check.
- Mutation.MutationPatch: the overlay's refusals are one error and their texts are not modelled; values explicitly set are a second JSON tree, and an index outside it counts as not set.
- Persist.Persist: versions are opaque texts, the main endpoint keeps the stored status, and the status endpoint changes nothing but the status; finalizer edits are not part of the model.
- Children.Ensure: the checks on owners and identity before the merge are not part of the model; creating a missing child is one request and left out.
- Cache: LIST is a consistent snapshot with a version, objects always have a key and a version, the store is unbounded, and callbacks are pure. Cancellation strikes while subscribers are being told or between steps; the resync timeout is one of the exceptions of the watch.
- WatchManager.WatchClient.Watch: waiting times between attempts are left out (the attempts are counted), and what a line yields is the manager's event.
- Informer: label and field filters, which are partial on purpose, and the synchronous twins, which repeat the same algorithm.
- Queue.WorkQueue.Retry: logarithms and powers are exact; a constructor argument that the source refuses is a precondition.
- QueueWorkers.StepKeeps: what a worker does with a key is any sequence of calls to the queue; the timeout of a reconcile only ends it.
- Events.EventRecorder.Accept: validation of reason, type and action, and the request itself, which changes nothing here.
- Crd: the message and path of a schema error; a keyword whose value has the wrong JSON type (an enum that is no list, properties that are no object) is refused.
- CrdPreserve.ConvertMeans: documents with embedded resources, with an exclusive flag that lacks its bound, or with an exclusive bound of 1 in the untyped rest of a union are excluded, with inputs for which it fails; null is accepted wherever a node is nullable, so that an enum beside `nullable` is not asked of null, and the keywords it does not name are any test of argument and value.
- CrdKeep.SaysKept: the example, which the compiler takes from a list of examples, is not covered.
- Owners.OwnerTraversal.Trace: the servers answer each request the same way during one discovery, as far as it is asked at all; UIDs that two different references share are excluded for the converse only.
- FanIn: a source is the records it yields before it ends or fails; a stream that is followed for ever is any prefix of a run.
- HTTP transport, kubeconfig, discovery caches, generated models, webhook serving, health, metrics, the command line and code generation: plumbing around the parts above.
