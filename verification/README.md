# GigaCorp support assistant: verified model

A Dafny model of the stateful algorithms inside the support assistant's backend and its
web client, with proofs of what they keep over whole runs. `dafny verify dfyconfig.toml`
checks everything.

| modules | what they model |
|---|---|
| `Sessions`, `SessionLemmas`, `SessionTheorems` | the session operations of both memory backends, each as the list of atomic actions its critical section performs |
| `StoreRuns`, `StoreTheorems` | those sections interleaved with the write coalescer's timer and flush threads, single saves, crashes and restarts, as a step system and theorems about all its runs |
| `Lives` | one session at a time: what it goes through by its operations alone, and that the backends do exactly that |
| `LoneSections`, `Linearization` | a critical section without interruption is a run of the step system; every interleaving is explained by its operations since the last restart, one at a time |
| `RestartWindow` | the message window across crashes and restarts: how far it is missed and exactly when |
| `SplitSaves` | saves taken apart into look and write: exactly when a deleted session comes back |
| `MemoryAdapter` | the backends and the coalescer as classes, each method proved to perform exactly its section of the step system |
| `Interchange` | a simulation between the two backends, and exactly which operation breaks it |
| `Lru`, `Caches` | the LRU cache with time-to-live: soundness, retention, the inclusion theorem; the class; the response, token and embedding caches on top of it |
| `Streaming` | tokenising, framing as `data:` lines (section 9.2 of the HTML Living Standard), arbitrary re-chunking, and the client that reassembles |
| `HistoryBudget` | the token-budgeted conversation history and the cached token estimate |
| `Windows`, `WindowTermination`, `Documents`, `Normalizer` | the overlapping-window chunkers, when their loop stops, whole documents, the text normaliser |
| `RateLimit` | the sliding-window limiter against a counter that forgets nothing |
| `Tracking`, `Orders`, `Migrations` | shipment simulation, order audit log, schema migrations |

## Reading guide

- Locks. `_ensure_active`, `_evict_oldest` and `cleanup_expired` call `delete_session` while
  they hold the backend's plain lock, which it takes again. The model runs the body of the
  deletion under the lock already held, as `_purge_expired` does.
- A critical section is a `Program`; `StoreRuns.Step` lets any other thread act between two
  of its actions. A threshold flush saves inside `mark_dirty` with the coalescer's lock held
  (`saving`); a flush by the timer, `flush_now` or `shutdown` saves with no lock (`flights`,
  one entry for each id of each batch). The save of one session is one step, except in
  `SplitSaves`.
- Python's dictionary order decides between equally old victims and the order of a purge;
  theorems quantify over every such `Choice`.
- An operation reads the clock once, and times are integers. The LRU clock is strictly
  increasing and SHA-256 is an injective function.
- JSON encoding is a parameter with three laws: decoding inverts encoding, tolerates a
  trailing CR, and encoded text has no raw newline.
- `generate`, `count_tokens` and the migrations' `up` and `down` are parameters; an exception
  is a value (`None`, or `ok = false`).

## Findings

Properties that fail as one would first state them, each with the exact condition proved:

- Sessions whose ids do not begin with `session_` are saved but never reloaded
  (`RestartAtRest`, `UnprefixedSessionLost`).
- `max_turns = 0` keeps every message (`WindowExactly`).
- A save between append and trim lets a restart load one message too many (`OverfullRestart`);
  it happens exactly when a step is such a save (`FilesWithinExactly`), and is possible exactly
  when the batch threshold is not 1 (`RestartsKeepTheWindowExactly`).
- A turn for a session that was not created is stored by one backend and dropped by the
  other (`SameStep`).
- Two questions of one session can share a response-cache entry when one contains `|`
  (`QueriesCollideExactly`, `KeysCollideWithinASession`).
- A deleted session comes back at a restart when a flush thread looked it up before the
  deletion and writes its file afterwards (`DeletedComesBack`); exactly such writes do it
  (`GhostsExactly`, `StaysGoneExactly`), and they are possible exactly when the batch threshold
  is not 1 (`DeletionsHoldExactly`).
- A history read around a change of the same session can be that of no moment
  (`HistoryOfOneMoment`, `HistoryOfNoMoment`).
- Error events that are framed before they are yielded never reach the user
  (`PreframedErrorIsLost`). `ARCHITECTURE.md` lines 283-286 show the sources after the tokens;
  the code sends them first, and the model follows the code.
- Lines dropped by the second shrinking are neither summarised nor returned
  (`SummaryAccountsForLines`, `LinesCanBeLost`); a stored summary is overwritten after a failed
  read (`OverwritesExactly`, `SecondSummary`).
- The chunking loop runs for ever on some text unless `chunk_size >= 1` and
  `0 <= chunk_overlap <= chunk_size // 2`, or the overlap is negative and less than the size
  (`TerminatesExactly`).
- A shipment first polled at 99999 minutes or later stays in pre-transit (`LatePollsAreLost`),
  and one delivered by an administrator has no delivery date (`AdminDeliveryHasNoDate`).
- `run("")` applies everything while `rollback("")` undoes everything
  (`InversionNeedsATarget`); rollback also undoes what a failed run never applied, exactly when
  a version above the target is registered (`RollbackIgnoresFailure`, `RollbackUndoesUnapplied`).

## Model

| member | source | states |
|---|---|---|
| `StoreRuns.StepInv` | backend/adapters/memory/langgraph_memory.py:46-222 | every step of every thread (operation entry, one action of a critical section, timer fire, flush, single save, shutdown, crash and reload) keeps the backend invariant: capacity, no lost change, no ghost file, no stranded mark |
| `StoreRuns.CrashInv` | backend/adapters/memory/langgraph_memory.py:213-222 | a crash at any instant reloads a state that satisfies the invariant, and every reloaded id was live, or was the one id whose file the lock holder was about to unlink |
| `StoreTheorems.ServiceInv` | backend/adapters/memory/langgraph_memory.py:164-222 | from an empty directory, every state of every run of operations, flushes, crashes and restarts satisfies the invariant |
| `StoreTheorems.NoUpdateLost` | backend/cache.py:152-174 | at every instant a live session whose file is missing or different is dirty, in some flush batch, or about to be marked; with no operation in progress it is in `_dirty` or in a batch |
| `StoreTheorems.WithinBounds` | backend/cache.py:152-174 | in every state the map is within `_max_sessions`, `_dirty` is below the threshold, and a non-empty `_dirty` has an armed timer or a flush call waiting for the lock |
| `StoreTheorems.MarkIsSaved` | backend/cache.py:152-185 | in every crash-free stretch that ends at rest, each `mark_dirty(id)` is followed by a later hand-over of id to the save function |
| `StoreTheorems.BacklogDecreases` | backend/cache.py:152-185 | each internal step strictly reduces a measure of the outstanding work, so no flush or critical section goes on for ever |
| `StoreTheorems.NotStuck` | backend/cache.py:152-185 | in every reachable state that is not at rest some internal step is possible |
| `StoreTheorems.Drains` | backend/cache.py:152-185 | every run can be continued by internal steps alone, no more than its backlog, to a state at rest |
| `StoreTheorems.DeletedStaysDeleted` | backend/adapters/memory/langgraph_memory.py:164-203 | with the save of one session taken as one step: once a deleting, evicting or purging operation is over, the id stays out of memory and of the loadable files through saves of batches still in flight, crashes and restarts until some operation stores it again |
| `SplitSaves.StaysGoneExactly` | backend/adapters/memory/langgraph_memory.py:205-211 | with a save taken apart into looking the session up and writing its file: a session that is gone stays so until some operation stores it again if and only if no flush thread writes its loadable file in between |
| `SplitSaves.GhostsExactly` | backend/adapters/memory/langgraph_memory.py:205-211 | in every run with split saves, no state has a file that a restart would load and memory does not know if and only if no thread writes the file of a session removed meanwhile |
| `SplitSaves.DeletionsHoldExactly` | backend/cache.py:154-174 | no run with split saves has such a file if and only if the batch threshold is 1 |
| `SplitSaves.DeletedComesBack` | backend/adapters/memory/langgraph_memory.py:164-172 | for every configuration with a threshold of 2 or more, a run from an empty directory in which a session is looked up, deleted, and then written |
| `SplitSaves.Refines` | backend/adapters/memory/langgraph_memory.py:205-211 | every run of the step system is a run with split saves, each save being a look and its write |
| `StoreTheorems.FilesWereLive` | backend/adapters/memory/langgraph_memory.py:205-211 | every file holds a value memory held under that id at some earlier instant of the run |
| `StoreTheorems.ReloadedWasLive` | backend/adapters/memory/langgraph_memory.py:213-222 | every session that a restart loads equals a value memory once held |
| `StoreTheorems.RestartAtRest` | backend/adapters/memory/langgraph_memory.py:205-222 | at rest nothing is dirty, reloading gives exactly the live sessions whose ids begin with `session_`, and the whole map is recovered if and only if all ids do |
| `StoreRuns.LoadableByName` | backend/adapters/memory/langgraph_memory.py:216 | a file is loaded if and only if its name begins with the eight characters `session_` |
| `Linearization.UnprefixedSessionLost` | backend/adapters/memory/langgraph_memory.py:216 | for every configuration and every id without the prefix, a run from an empty directory that comes to rest with the session live and saved, where a restart does not find it and its file stays |
| `SessionLemmas.SectionSafe` | backend/adapters/memory/langgraph_memory.py:46-203 | for every operation and every choice Python could make, the critical section keeps the map within capacity at every action, unlinks right after each delete, marks after each change, and amounts to the stated closed-form effect |
| `SessionTheorems.ReplaySound` | backend/adapters/memory/langgraph_memory.py:46-95 | after every run the map is within capacity and each session is stored under its own id |
| `SessionTheorems.WhoDisappears` | backend/adapters/memory/langgraph_memory.py:37-95 | a session leaves the map only by deletion, by expiry, or as a session with the least `last_active` of a full map that had to admit a new id |
| `SessionTheorems.OthersUntouched` | backend/adapters/memory/langgraph_memory.py:73-195 | no operation changes a session other than its own |
| `SessionTheorems.MessagesAreTheWindow` | backend/adapters/memory/langgraph_memory.py:73-95 | with `max_turns` other than 0, the messages are after every run exactly the last `2*max_turns` of all that was appended since creation or the last clear |
| `SessionTheorems.ZeroTurnsKeepsAll` | backend/adapters/memory/langgraph_memory.py:92-94 | a one-turn run in which `max_turns = 0` keeps the message, because `messages[-0:]` is the whole list |
| `SessionTheorems.WindowExactly` | backend/adapters/memory/langgraph_memory.py:92-94 | the window holds in every run if and only if `max_turns` is not 0 |
| `Lives.FollowsExactly` | backend/adapters/memory/langgraph_memory.py:31-195 | every operation makes of every session exactly what its own life says (times, messages, summary and state spelled out field by field, idle sessions gone once idle for longer than the timeout), unless the map is full and the session, active no later than any that stays, is evicted |
| `Lives.SectionsFollow` | backend/adapters/memory/langgraph_memory.py:31-195 | so does its critical section with the flushing it causes, which is what the methods perform |
| `Lives.LivesFollow` | backend/adapters/memory/langgraph_memory.py:31-195 | in every run that does not evict it, a session is what the operations on it alone make of it |
| `Lives.ActiveSinceLastTouch` | backend/adapters/memory/langgraph_memory.py:46-95 | after every run `last_active` is the time of the last operation that stored the session, spoke in it or cleared it |
| `Lives.KeptForTheTimeout` | backend/adapters/memory/langgraph_memory.py:31-44 | a session stays while nothing deletes or evicts it and every clock reading is at most its last touch plus the timeout; without a timeout nothing expires |
| `Lives.GoneAfterTheTimeout` | backend/adapters/memory/langgraph_memory.py:31-44 | the first visit or purge later than that removes it, and a turn starts an empty session in one backend and finds none in the other |
| `Lives.AnswersAreOfLives` | backend/adapters/memory/langgraph_memory.py:97-195 | what get_state, get_messages, get_summary, get_session_info, clear_history, delete_session, list_sessions and cleanup_expired return, in terms of the fields of the session and the time |
| `Lives.HistoryIsLabelled` | backend/adapters/memory/langgraph_memory.py:97-106 | the history line by line: the summary first if there is one, then every message in order under the customer's or the assistant's name |
| `Linearization.LinearizableSinceBoot` | backend/adapters/memory/langgraph_memory.py:46-222 | in every run from any directory, crashes included, the map is what the operations since the last restart, in the order in which they took the lock, make one at a time of the map that the restart loaded |
| `Linearization.Linearizable` | backend/adapters/memory/langgraph_memory.py:46-203 | in every crash-free run from an empty directory, the map is what the operations make of the empty map |
| `Linearization.WindowInEveryInterleaving` | backend/adapters/memory/langgraph_memory.py:87-95 | so the message window holds in every interleaving whenever no operation is in progress |
| `RestartWindow.WindowAcrossCrashes` | backend/adapters/memory/langgraph_memory.py:87-95 | with restarts a session at rest holds at most `2*max_turns` messages plus one for each crash so far, and a file at most one more |
| `RestartWindow.TightWithoutGapSaves` | backend/adapters/memory/langgraph_memory.py:87-95 | across any number of crashes, as long as no save falls between append and trim, every file is within the window and so is every session except between its append and its trim |
| `RestartWindow.FilesWithinExactly` | backend/adapters/memory/langgraph_memory.py:205-211 | in every run, all files of all states are within `2*max_turns` if and only if no step is a save of a session that the lock holder has appended to and not yet trimmed |
| `RestartWindow.RestartsKeepTheWindowExactly` | backend/cache.py:154-160 | the window holds at rest in every run with restarts if and only if the batch threshold is 1 |
| `RestartWindow.OverfullRestart` | backend/adapters/memory/langgraph_memory.py:213-222 | for every configuration with a threshold of 2 or more, a run from an empty directory whose restart loads one message more than the window |
| `RestartWindow.SaveInTheGap` | backend/adapters/memory/langgraph_memory.py:87-95 | any run that reaches a full session in a flush batch can be continued by a turn, and a save between its append and its trim, to a file with one message more than the window |
| `Interchange.SameStep` | backend/adapters/memory/json_file_memory.py:41-151 | one operation on similar stores gives equal answers, and leaves the stores similar if and only if it is not a turn for an absent or expired session or a state access that finds an expired one |
| `Interchange.SameRuns` | backend/adapters/memory/json_file_memory.py:41-151 | along every run of such operations the two backends hold the same sessions and answer every further read, list, delete and clear the same |
| `Interchange.CreatedFirstIsPortable` | backend/adapters/memory/json_file_memory.py:41-78 | creating each id before its first turn, with no expiry and no more ids than fit, is enough for the backends to be interchangeable |
| `LoneSections.AloneIsARun` | backend/adapters/memory/langgraph_memory.py:46-203 | running a critical section by itself is one of the runs of the step system, so the run theorems apply to the methods of the class |
| `LoneSections.AloneSessions` | backend/adapters/memory/langgraph_memory.py:46-203 | the map after a critical section is its outcome on the map, whatever flushing happens on the way |
| `MemoryAdapter.WriteCoalescer.MarkDirty` | backend/cache.py:152-160 | adds the id; at the threshold takes the whole set and cancels the timer, otherwise arms a timer that is not there |
| `MemoryAdapter.WriteCoalescer.Flush` | backend/cache.py:162-174 | takes exactly the dirty set, leaving none and no timer |
| `MemoryAdapter.WriteCoalescer.Shutdown` | backend/cache.py:179-185 | cancels the timer and takes exactly the dirty set |
| `MemoryAdapter.SessionMemory.constructor` | backend/adapters/memory/langgraph_memory.py:213-222 | for every directory: loads what LoadSessions loads; if the files are named after their sessions, this is the state the step system boots into |
| `MemoryAdapter.SessionMemory.LoadSessions` | backend/adapters/memory/langgraph_memory.py:213-222 | for every directory, files that do not parse or are misnamed included: each session comes from a decodable file whose name begins with `session_`, under its own session_id, and each such file has its session_id loaded |
| `MemoryAdapter.SessionMemory.SaveBatch` | backend/adapters/memory/langgraph_memory.py:205-211 | writes exactly the batch ids that are still live and no other file |
| `MemoryAdapter.SessionMemory.Oldest` | backend/adapters/memory/langgraph_memory.py:66-71 | finds a session whose `last_active` is least |
| `MemoryAdapter.SessionMemory.EvictIfFull` | backend/adapters/memory/langgraph_memory.py:53-54 | removes one least recently active session and its file if and only if the map is full |
| `MemoryAdapter.SessionMemory.EnsureActive` | backend/adapters/memory/langgraph_memory.py:37-44 | true exactly for a live, unexpired session; an expired one loses entry and file |
| `MemoryAdapter.SessionMemory.CreateSession` | backend/adapters/memory/langgraph_memory.py:46-64 | sessions, files, dirty set and timer change exactly as the critical section of the step system says |
| `MemoryAdapter.SessionMemory.AddTurn` | backend/adapters/memory/langgraph_memory.py:73-95 | likewise for both backends: expiry, eviction, creation, append, touch, trim and mark in the source order |
| `MemoryAdapter.SessionMemory.Summarize` | backend/adapters/memory/langgraph_memory.py:108-116 | likewise; an empty summary changes nothing at all |
| `MemoryAdapter.SessionMemory.UpdateState` | backend/adapters/memory/langgraph_memory.py:139-145 | likewise; the patch is merged into the state of an active session only |
| `MemoryAdapter.SessionMemory.GetState` | backend/adapters/memory/langgraph_memory.py:132-137 | returns the state of an active session, else the empty one, dropping an expired session |
| `MemoryAdapter.SessionMemory.ClearHistory` | backend/adapters/memory/langgraph_memory.py:174-183 | empties messages and summary, touches and marks an active session, and says whether there was one |
| `MemoryAdapter.SessionMemory.DeleteSession` | backend/adapters/memory/langgraph_memory.py:164-172 | removes entry and file and says whether the id was present |
| `MemoryAdapter.SessionMemory.GetMessages` | backend/adapters/memory/langgraph_memory.py:125-130 | the messages an outside observer of the old state would see |
| `MemoryAdapter.SessionMemory.GetSummary` | backend/adapters/memory/langgraph_memory.py:118-123 | the summary an outside observer of the old state would see |
| `MemoryAdapter.SessionMemory.GetSessionInfo` | backend/adapters/memory/langgraph_memory.py:152-162 | id, times and message count of an active session, else none |
| `MemoryAdapter.SessionMemory.GetHistory` | backend/adapters/memory/langgraph_memory.py:97-106 | when no other operation runs between the two locked reads, they give together the history of the old state, and drop an expired session once |
| `Linearization.HistoryOfOneMoment` | backend/adapters/memory/langgraph_memory.py:97-106 | when any operations on other sessions run between the two reads, and the session is still there for the second, the history is that of both moments |
| `Linearization.HistoryOfNoMoment` | backend/adapters/memory/langgraph_memory.py:97-106 | a session cleared between the two reads, whose history is that of no moment |
| `MemoryAdapter.SessionMemory.Format` | backend/adapters/memory/langgraph_memory.py:97-106 | the loop builds the summary line, if any, and one labelled line per message, joined by newlines |
| `MemoryAdapter.SessionMemory.PurgeExpired` | backend/adapters/memory/langgraph_memory.py:197-203 | removes exactly the expired sessions and their files |
| `MemoryAdapter.SessionMemory.ListSessions` | backend/adapters/memory/langgraph_memory.py:147-150 | purges, then lists exactly the remaining ids |
| `MemoryAdapter.SessionMemory.CleanupExpired` | backend/adapters/memory/langgraph_memory.py:185-195 | purges and counts exactly the expired sessions |
| `Lru.RunSane` | backend/cache.py:20-49 | on every trace `_cache` and `_access` keep equal key sets within `maxsize`, with pairwise different access times |
| `Lru.JustSetSurvives` | backend/cache.py:33-44 | a key just set is a hit whenever `maxsize >= 1` |
| `Lru.EntriesAreLastSets` | backend/cache.py:33-49 | every entry is the value and stamp of the latest set of its key since the last clear |
| `Lru.HitsAreSound` | backend/cache.py:20-31 | a value that get returns is the one last set for the key, and no older than the time-to-live |
| `Lru.FreshIsFound` | backend/cache.py:20-31 | a value set and not cleared is found as long as it is no older than the ttl and fewer than `maxsize` other keys have been looked up or set since |
| `Lru.RetainedExactly` | backend/cache.py:20-44 | with any ttl, a key used (set, or looked up and found) since it was last cleared or found expired stays cached as long as fewer than `maxsize` other keys have been used since its last use; with ttl 0 it is cached if and only if that holds |
| `Lru.SameVictim` | backend/cache.py:41-44 | a key that the larger cache evicts while the smaller holds it is evicted by the smaller too |
| `Lru.Inclusion` | backend/cache.py:20-49 | with any ttl, on every trace the size-n cache is contained in the size-m cache for n <= m, with equal values, stamps and access times, so each of its hits is the same hit there |
| `Caches.LRUCache.Get` | backend/cache.py:20-31 | result and new contents are those of the abstract cache on the recorded trace |
| `Caches.LRUCache.Set` | backend/cache.py:33-39 | new contents are those of the abstract cache; key sets stay equal and within `maxsize`; the key survives |
| `Caches.LRUCache.Evict` | backend/cache.py:41-44 | removes one key with the least access time from both dictionaries |
| `Caches.LRUCache.Clear` | backend/cache.py:46-49 | empties the cache |
| `Caches.KeysAgreeExactly` | backend/cache.py:91-93 | for valid session ids two requests share a key if and only if they have the same session and the same text "query, bar, context[:200]" |
| `Caches.KeysIdentifyBarFreeQueries` | backend/cache.py:91-93 | for queries without the separator the key identifies session, query and cut context |
| `Caches.QueriesCollideExactly` | backend/cache.py:91-93 | two queries of one session can share a key under some contexts if and only if they are equal or one goes on from the other after a separator by at most 200 characters |
| `Caches.KeysCollideWithinASession` | backend/cache.py:91-93 | two different requests of one session that share an entry |
| `Caches.ValidIdHasNoBar` | backend/models/schemas.py:28-33 | an id accepted by the schema, even with a trailing newline, contains no separator |
| `Caches.RepliesStayInTheirSession` | backend/cache.py:81-101 | a hit of the response cache is the reply most recently stored by the same session under the same key text, no older than the ttl |
| `Caches.RepliesAreFound` | backend/cache.py:95-101 | a stored reply is returned for the same question as long as it is no older than the ttl, not overwritten or cleared, and fewer than `maxsize` calls were made since |
| `Caches.HitsAreValues` | backend/cache.py:55-130 | on every trace whose sets store the value of a function under the digest of its argument, whatever is evicted or expires, every hit is the value |
| `Streaming.TokensRebuild` | backend/orchestration/graph.py:262-274 | the tokens concatenate to the answer, with one trailing space exactly when it is a single word |
| `Streaming.Tokenize` | backend/orchestration/graph.py:262-274 | the loop produces exactly these tokens |
| `Streaming.TokensAreFine` | backend/orchestration/graph.py:262-274 | the first word comes one character at a time and then a space, every other word in one token with at most the space after it |
| `Streaming.SplitAppend` | react-frontend/src/api/client.ts:289-291 | splitting a concatenation gives the pieces of the first part, its last piece running on into the second |
| `Streaming.JoinSplit` | backend/orchestration/graph.py:266 | joining the pieces of a split with the separator gives the text back |
| `Streaming.DeliveredAppend` | react-frontend/src/api/client.ts:285-306 | what one split of the whole delivers is what the first part delivers followed by what buffer plus rest delivers |
| `Streaming.StreamChat` | react-frontend/src/api/client.ts:285-306 | for every way to cut the stream into chunks the loop emits what one split of the whole stream delivers, and calls onComplete once per done event |
| `Streaming.Dispatch` | react-frontend/src/api/client.ts:293-305 | each complete `data: ` line that parses is emitted once and in order, all others are skipped |
| `Streaming.WireRoundTrip` | backend/orchestration/graph.py:227-260 | every event framed on the wire, with LF or CR LF line ends, reaches the client in order and once, whatever lines that are not data stand between the frames |
| `Streaming.EndToEnd` | react-frontend/src/hooks/useChat.ts:143-160 | with any keep-alive comments between the frames and however the stream is cut, the client sees sources, tokens, done; shows the answer (plus one space after a single word) and the sources; and completes exactly once |
| `Streaming.CutInOrder` | backend/orchestration/graph.py:237-260 | wherever the stream is cut, the text shown is the beginning of the answer, no text is shown before the sources are set, and a reported completion is last, is for this session and finds the whole answer shown |
| `Streaming.RenderExactly` | react-frontend/src/hooks/useChat.ts:143-160 | after any events the bubble shows the contents of the tokens in a row and the sources that came last |
| `Streaming.CutStreamGivesPrefix` | react-frontend/src/api/client.ts:285-306 | an abort or a cut connection leaves a prefix of the events |
| `Streaming.PreframedErrorIsLost` | backend/orchestration/graph.py:232 | the error that is framed before it is yielded is framed twice, and the client drops it |
| `HistoryBudget.TokenEstimator.Estimate` | backend/orchestration/nodes/generate.py:93-106 | whatever was computed, evicted or expired before, the cached estimate equals the uncached one |
| `HistoryBudget.ShrinkIsLongestFit` | backend/orchestration/nodes/generate.py:157-175 | shrinking keeps a non-empty suffix that fits or has at most two lines, drops whole exchanges, and stops as early as it can |
| `HistoryBudget.BuildIsWellBuilt` | backend/orchestration/nodes/generate.py:109-204 | the result is an optional summary line and a suffix of the message lines, non-empty when there are messages, that fits the budget with the query or has at most two lines; a summary is stored only over an empty one, for a long conversation that did not fit |
| `HistoryBudget.ReturnedTextFits` | backend/orchestration/nodes/generate.py:136-204 | more than two message lines are returned only if the text with the question and the note fits the budget; a whole conversation that fits so is returned whole; and shrinking starts always and only when it does not |
| `HistoryBudget.PathsByTurns` | backend/orchestration/nodes/generate.py:154-192 | with a stored summary and at least the threshold of turns only the last four lines, or all but the first six, are considered; below the threshold no summary is made |
| `HistoryBudget.SavedIsTheAnswer` | backend/orchestration/nodes/generate.py:175-190 | a stored summary is the stripped answer of the model to a whole number of exchanges from the beginning |
| `HistoryBudget.SummaryAccountsForLines` | backend/orchestration/nodes/generate.py:168-204 | a stored summary condenses exactly the lines dropped first; all others are returned if and only if they fit next to the new summary or are at most two |
| `HistoryBudget.BuildHistory` | backend/orchestration/nodes/generate.py:109-204 | the method computes this history and stores this summary, also when a read raises |
| `HistoryBudget.SummariseAndShrink` | backend/orchestration/nodes/generate.py:168-204 | the last path: shrink, condense what was dropped, shrink again |
| `HistoryBudget.FirstFit` | backend/orchestration/nodes/generate.py:168-174 | the loop over `n_keep` keeps exactly the longest fitting suffix |
| `HistoryBudget.ShrinkLoop` | backend/orchestration/nodes/generate.py:159-161 | the loop over `kept` keeps exactly the longest fitting suffix |
| `HistoryBudget.ShrinkTwice` | backend/orchestration/nodes/generate.py:194-198 | shrinking again with the same summary changes nothing |
| `HistoryBudget.SummarisedAtMostOnce` | backend/orchestration/nodes/generate.py:177-190 | along every conversation whose `get_summary` succeeds, a session is summarised at most once between clears, and has been exactly when its summary is not empty |
| `HistoryBudget.StoresExactly` | backend/orchestration/nodes/generate.py:154-192 | a summary is stored if and only if the one read is empty, the conversation is long, has more than one exchange and does not fit, and the model condenses what is dropped |
| `HistoryBudget.OverwritesExactly` | backend/orchestration/nodes/generate.py:116-120 | a stored, non-empty summary is replaced if and only if it could not be read, the session is found, and the same guards hold |
| `HistoryBudget.SecondSummary` | backend/orchestration/nodes/generate.py:116-120 | a conversation in which a failed read leads to two summaries without a clear between them |
| `HistoryBudget.LinesCanBeLost` | backend/orchestration/nodes/generate.py:194-198 | for every query, a conversation of six lines of which two are neither condensed nor returned |
| `Windows.RFind` | backend/knowledge_base/loader.py:64-68 | the last occurrence within the bounds, or -1 when there is none |
| `Windows.CutAt` | backend/knowledge_base/loader.py:64-70 | a window that is not the last ends at a newline or space in its second half, or at full size |
| `Windows.CutsAtLastBreak` | backend/knowledge_base/loader.py:64-70 | a window ends at the last newline of its second half if there is one, else at the last space of its second half if there is one, else at full size |
| `Windows.SpansTile` | backend/knowledge_base/loader.py:50-73 | the windows cover the text to its end, each non-empty and at most `chunk_size` long, neighbours share exactly `chunk_overlap` characters, starts advance by at least `chunk_size//2 + 1 - chunk_overlap`, and ends strictly increase |
| `Windows.SpansRebuild` | backend/knowledge_base/loader.py:50-73 | the unstripped windows without their overlaps rebuild the text |
| `Windows.SpansCount` | backend/knowledge_base/loader.py:50-73 | a bound on the number of windows |
| `Windows.ChunksCover` | backend/knowledge_base/loader.py:50-73 | every character that is not white space lies in a chunk that is a piece of the section |
| `Windows.ChunksFit` | backend/knowledge_base/loader.py:50-73 | no chunk is longer than `chunk_size`, and none is empty unless the section is |
| `Windows.ShortSectionsWhole` | backend/knowledge_base/loader.py:51-52 | a section is one chunk, as it is, if and only if it is at most `chunk_size` long |
| `Windows.ChunksAreTrimmed` | backend/knowledge_base/loader.py:57-73 | every chunk of a long section but the last is free of white space at its ends, and the last is the end of the section as it is |
| `Windows.ChunksFromSpans` | backend/ingestion/processors/text.py:65-97 | the emitted chunks are the stripped non-blank windows and then the last window as it is |
| `Windows.ChunkBySize` | backend/knowledge_base/loader.py:50-73 | the loop terminates and returns exactly the chunks |
| `Windows.ChunkSection` | backend/ingestion/processors/text.py:65-97 | the ingestion loop, which skips blank windows as they are cut, returns the same chunks |
| `WindowTermination.TerminatesExactly` | backend/ingestion/processors/text.py:71-95 | for all integers, with Python's own, possibly negative indices: the loop stops on every text if and only if `chunk_size >= 1` and `chunk_overlap <= chunk_size//2`, or the overlap is negative and less than the size |
| `WindowTermination.LoopingText` | backend/ingestion/processors/text.py:71-95 | for all other integers a text on which it never stops |
| `Documents.PiecesRebuild` | backend/knowledge_base/loader.py:32-33 | the pieces of the split at headings concatenate to the text |
| `Documents.SectionsRebuild` | backend/knowledge_base/loader.py:35-46 | the unstripped sections concatenate to the pieces, with what the splitter puts after each heading |
| `Documents.SplitByHeadings` | backend/knowledge_base/loader.py:31-48 | the loop returns exactly the stripped sections longer than 20 characters |
| `Documents.SectionsBeginAtHeadings` | backend/knowledge_base/loader.py:35-46 | with a heading spelled out as one to three `#` and white space: every heading begins a section, every section but a leading one begins with a heading, none holds two, and each is its heading, the glue and the pieces up to the next |
| `Documents.SectionsAreLong` | backend/knowledge_base/loader.py:48 | every section kept is longer than 20 characters and free of white space at its ends |
| `Documents.ChunkDocument` | backend/knowledge_base/loader.py:23-29 | the loader returns exactly the chunks of all its sections in order |
| `Documents.ChunkForIngestion` | backend/ingestion/processors/text.py:41-63 | so does the ingestion chunker, which adds a newline after each heading |
| `Documents.DocumentCovered` | backend/knowledge_base/loader.py:23-73 | unstripped sections concatenate to the document, and every character that is not white space of a section with more than 20 lies in an emitted chunk that is a piece of the section |
| `Normalizer.NormalizeIsNormal` | backend/ingestion/processors/text.py:6-14 | every output has no CR, no tab, no two adjacent blanks, no run of four newlines and no white space at either end |
| `Normalizer.NormalIsFixed` | backend/ingestion/processors/text.py:6-14 | a text is left as it is if and only if it has that form |
| `Normalizer.Idempotent` | backend/ingestion/processors/text.py:6-14 | normalising twice is normalising once |
| `Normalizer.LinesKept` | backend/ingestion/processors/text.py:6-14 | normalising keeps, in order, the words of every line that has any, whatever the line ends were |
| `Normalizer.WordsKept` | backend/ingestion/processors/text.py:6-14 | so it keeps the words of every text and their order |
| `Normalizer.LineEndsUnified` | backend/ingestion/processors/text.py:9-10 | CR LF, LF and CR alone each become one LF, and every other character stays |
| `Normalizer.NewlineRuns` | backend/ingestion/processors/text.py:11 | a run of newlines keeps its length up to three and is cut to three if longer |
| `Normalizer.WordsSeparate` | backend/orchestration/nodes/generate.py:104 | splitting a text at white space: the words before it and the words after it |
| `Normalizer.OneWord` | backend/orchestration/nodes/generate.py:104 | a text without white space is one word |
| `Normalizer.TextNormalizer.Apply` | backend/ingestion/processors/text.py:7-14 | the document is rewritten in place to its normal form with the same words on the same lines |
| `RateLimit.NoIntervalExceeds` | backend/security.py:28-41 | for every non-decreasing clock and mix of clients, no interval `(a, a+window]` contains more than `max_requests` accepted calls of one client |
| `RateLimit.AcceptedExactly` | backend/security.py:34-41 | a call is accepted if and only if fewer than `max_requests` calls of its client were accepted in the window that ends with it |
| `RateLimit.ClientsAreIndependent` | backend/security.py:34-41 | a client gets the decisions it would get if it were the only one |
| `RateLimit.CheckIsRight` | backend/security.py:34-41 | the pruned list decides like the full history and goes on to do so |
| `RateLimit.RateLimiter.Check` | backend/security.py:34-41 | the verdict is that of a counter that forgets nothing; the list holds the accepted times of the window, sorted and within the limit; other clients' lists do not change |
| `Tracking.AllTablesProgressive` | backend/customer/tracker.py:20-87 | all four tables have contiguous ranges from 0 to 99999 and statuses that never go back |
| `Tracking.StagesByCourier` | backend/customer/tracker.py:20-87 | for every courier the times at which a shipment goes in transit, out for delivery and delivered; unknown couriers are those of UPS |
| `Tracking.StageExactlyInRange` | backend/customer/tracker.py:165-166 | a time has a stage if and only if it is from 0 to the end of the table |
| `Tracking.StagesNeverRegress` | backend/customer/tracker.py:20-87 | a later time never has an earlier stage |
| `Tracking.PathIndependent` | backend/customer/tracker.py:150-198 | whatever the earlier polls, a new shipment ends in the stage of its last poll within range; added events climb strictly; the delivery date is set if and only if it is delivered |
| `Tracking.OnlyLastPollMatters` | backend/customer/tracker.py:150-198 | two poll sequences with the same last time, below 99999, end in the same status, the stage of that time |
| `Tracking.AtMostThreeEvents` | backend/customer/tracker.py:150-198 | the simulation adds at most three events |
| `Tracking.EventsAreTimely` | backend/customer/tracker.py:172-198 | every simulated event was due when it was polled and carries the time of that poll; the delivery date is that of the delivery event and the last update that of the newest |
| `Tracking.DeliveredIsFinal` | backend/customer/tracker.py:151-152 | a delivered shipment, whoever delivered it, is never changed by a poll |
| `Tracking.LatePollsAreLost` | backend/customer/tracker.py:165-166 | a shipment polled only from 99999 on never changes |
| `Tracking.WritesKeepNewest` | backend/admin/router.py:612-668 | with polls and administrator's writes in any order the newest event carries the current status, the log only grows, and the delivery date is set if and only if the simulation delivered |
| `Tracking.AdminWritesExactly` | backend/admin/router.py:650-660 | the named status and an event at that time, or nothing for an unknown name or none |
| `Tracking.NamesRoundTrip` | backend/customer/models.py:388-395 | exactly the names of the statuses are understood, each as its status |
| `Tracking.AdminDeliveryHasNoDate` | backend/admin/router.py:650-660 | an administrator's delivery leaves no delivery date |
| `Tracking.ShipmentRecord.SimulateProgress` | backend/customer/tracker.py:150-198 | the table scan with its early exits amounts to one poll |
| `Tracking.ShipmentRecord.AdminUpdate` | backend/admin/router.py:650-660 | status and event are written together, or nothing on an unknown status |
| `Orders.AuditTrail` | backend/customer/service.py:921-1084 | under every interleaving of customer and administrator operations the log is a chain from the first status to the current one, and returns plus exchanges, plus one if another is possible now, never exceed entries into shipped or delivered, plus one if the order began there |
| `Orders.RefusedExactly` | backend/customer/service.py:930-956 | which operations leave order and log as they are: exactly cancelling what is cancelled, refunded or delivered, returning or exchanging what is neither shipped nor delivered, returning after the last day, and unknown names |
| `Orders.CarriedOutExactly` | backend/customer/service.py:931-1083 | what every other operation changes, field by field, and that it logs the move from the old to the new status under its actor |
| `Orders.NamesRoundTrip` | backend/customer/models.py:26-38 | exactly the names of the statuses are understood, each as its status |
| `Orders.ChainReplays` | backend/customer/service.py:937-940 | a chained log alone replays to the current status |
| `Orders.RequestsNeedArrival` | backend/customer/service.py:944-1011 | the log of every run replays, and an order that was returned or exchanged passed through shipped or delivered |
| `Orders.OrderRecord.CancelOrder` | backend/customer/service.py:930-940 | refused when cancelled, refunded or delivered; otherwise status, dates, payment and log change together |
| `Orders.OrderRecord.Return` | backend/customer/service.py:954-970 | accepted exactly when shipped or delivered and within the return window |
| `Orders.OrderRecord.Exchange` | backend/customer/service.py:991-1003 | accepted exactly when shipped or delivered |
| `Orders.OrderRecord.UpdateStatus` | backend/customer/service.py:1071-1083 | an unknown status changes nothing; a delivery sets its date |
| `Orders.OrderRecord.UpdateStatusByAdmin` | backend/admin/router.py:332-347 | an unknown status changes nothing; otherwise status and log change together |
| `Migrations.Total` | backend/storage/migrations.py:17 | the order of version strings is total and antisymmetric |
| `Migrations.LexicographicOrder` | backend/storage/migrations.py:17 | a version is at most another if the other begins with it or, at the first difference, it has the smaller character |
| `Migrations.SortedKeys` | backend/storage/migrations.py:17 | exactly the registered versions, strictly increasing |
| `Migrations.PrefixApplied` | backend/storage/migrations.py:15-28 | a run applies exactly a prefix of the versions, all if and only if nothing failed, and a failing `up` is the one right after the prefix |
| `Migrations.DownsUndoUps` | backend/storage/migrations.py:30-45 | undoing what was just applied restores the state, in reverse order |
| `Migrations.RollbackUndoesRun` | backend/storage/migrations.py:15-45 | if every `down` inverts its `up`, `run()` then `rollback(v)` gives the state of `run(v)` for every non-empty v, registered or not, and rolls back the reverse of what was applied above v |
| `Migrations.InversionNeedsATarget` | backend/storage/migrations.py:15-45 | the inversion holds for v if and only if v is not empty |
| `Migrations.EmptyTargetUndoesAll` | backend/storage/migrations.py:19 | run with the empty target applies everything, rollback with it undoes everything |
| `Migrations.RollbackIgnoresFailure` | backend/storage/migrations.py:30-45 | when every `down` succeeds, rollback after any run, failed or not, undoes every registered version above the target; these are the applied ones if and only if the run did not fail or no version is above the target |
| `Migrations.RollbackUndoesUnapplied` | backend/storage/migrations.py:30-45 | a failed run after which rollback undoes a migration that never took effect |
| `Migrations.RegisterKeepsEarlierRuns` | backend/storage/migrations.py:11-28 | registering a version, new or again, changes no run to a target below it |
| `Migrations.MigrationManager.Run` | backend/storage/migrations.py:15-28 | the loop with its break and its re-raised exception computes the run |
| `Migrations.MigrationManager.Rollback` | backend/storage/migrations.py:30-45 | the descending loop computes the rollback |

## Left out

- Torn or partial JSON writes, a save function that raises, and the order of keys in files.
- The insertion order of the session dictionary: `list_sessions` gives a set, and ties
  between equally old sessions are left to an arbitrary choice.
- SessionTheorems.MessagesAreTheWindow: does not range over restarts, where the window is exact only up
  to one message for each crash (`RestartWindow`).
- StoreTheorems.DeletedStaysDeleted: takes the read of a session and the write of its file
  (lines 205-211) as one step; `SplitSaves` takes them apart. What a split write puts into the
  file is left open, since it serialises an object other threads may be changing.
- MemoryAdapter.SessionMemory.GetHistory: does not let another operation run between its two
  locked reads; `Linearization.HistoryOfOneMoment` does.
- Interchange.SameRuns: does not compare the conversation state, which only one backend has.
- Streaming.StreamChat: does not model `decoder.decode`, HTTP errors, or `onError`; chunks are character sequences.
- HistoryBudget.BuildHistory: takes the summarisation prompt as part of `generate`, and
  `count_tokens` as a function of its text.
- RateLimit.NoIntervalExceeds: takes clock readings as integers rather than floating-point seconds.
- The regular-expression engine: the spans that match the heading pattern are a parameter,
  any ordered, disjoint ones; the heading metadata of chunks is not modelled.
- Tracking.PathIndependent: takes `shipped_at` as fixed; the random location, descriptions and the
  estimated delivery of a shipment are not modelled, nor the `last_update` text an
  administrator may send.
- Orders.AuditTrail: takes each operation as one atomic step on one order that is found; the return
  and exchange records are counted, not stored.
- The early return of the `generate` node when an intent node has already answered: the
  history is modelled as called directly.
- HTTP routes, authentication, the database, Redis, mail, object storage and websockets.
- Vector stores, embedding and language-model adapters, intent tables, answer templates,
  permission and loyalty tables, metrics, retry, event bus and pipeline: foreign calls or
  finite tables that a reading settles.
- `CourierTracker.initialize_shipment`, which has no caller; shipments start from a
  pre-transit record.
- React components and the plain-JavaScript renderer.
