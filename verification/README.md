# Parson: verified models of its stateful cores

This project models the parts of Parson, a music server with a mobile client and a Windows host, that
keep state over long runs or rewrite data, and proves what they are there to guarantee. `dafny verify
dfyconfig.toml` checks everything. Code that works step by step in the original is a class or a loop
here, proved equal to a function or relation on values; the theorems are about those, mostly for
whole runs or every interleaving. Every lemma carries `{:induction false}`: its proof is the text.

| files | component |
|---|---|
| `Wrappers` | optional values and two facts about tables and sets |
| `PlaybackTables`, `PlaybackLog`, `Transitions`, `PlaybackStore`, `PlaybackStoreProofs`, `PlaybackEffects` | the backend's playback event store: idempotency log, preference tables, transition graph, retention |
| `Ranking`, `Selection`, `SelectionProofs`, `GreedySelection` | ranking recommendation candidates and picking a diverse list |
| `ShuffleQueue`, `QueueEdits`, `Player`, `PlayerProvider`, `PlayerProofs`, `PlayerOrder`, `PlayerRadio`, `PlayerEffects` | the mobile player's two queues and its asynchronous audio sources |
| `RestoreTree`, `RestoreSteps`, `RestoreSafety`, `StagedRestore`, `RestoreRuns`, `DataReset` | applying a staged backup, or a reset, on a disk that may stop after any file step |
| `ServerController` | the Windows host's controller loop and its server threads |
| `NonceRewriter` | adding the response's nonce to script tags |
| `DownloadGrouping`, `DownloadFolders` | downloaded songs shown as albums and single songs |
| `CatalogPager`, `CatalogEntries` | pages of the library catalogue |
| `Telemetry` | listened time and its thresholds |

## How the models read

* **Runs.** Stores, the player, the restore and the controller are step systems. A run starts from
  the empty state; each step is one call, callback, promise result, timer, command or file step. The
  class methods realise the same steps in place.
* **Effects.** `PlayerEffects`, `PlaybackEffects`, `GreedySelection`, `DownloadFolders` and
  `CatalogEntries` say what steps and lists come to, from the entries, rows and fields before them and
  with every number written out, without the functions that the methods are proved against.
* **Tables** are maps or sets of rows. Event weights are whole numbers. A transaction is one step; the
  clock, the random source, row ids and time stamps are parameters.
* **Numbers.** Scores and seconds are reals, counts are unbounded integers.
* **Disk.** A file copy creates its target and writes one chunk a step, so a stop leaves a torn copy;
  a rename or a removal is one step. What a given number of steps make of a disk is a function; the
  class realises it, and runs are made of it.
* **Threads.** Server threads boot, serve, report, send their exit notice and return, each in steps of
  their own. The generation attached to a status is for the proofs; the original sends none.
* **Search loops.** `NonceRewriter` passes on what is left of the document, which the original names
  by a cursor.

## Where the code promises less than it seems

The member named proves each of these: with the exact condition where its row below says "if and only
if", else for all inputs or with a concrete run.

* Playing a song from an empty list replaces the remembered order but not the queue
  (`PlayerProofs.PlaySongNeedsSongs`); the two lists agree again when both are next set
  (`PlayerProofs.SetListsAgree`).
* Cast sessions add to the listen history and schedule no cut, so it can grow past its limit
  (`PlaybackStoreProofs.RetentionBound`, `PlaybackStoreProofs.CastHistoryIsNeverCut`).
* With repeated ids, or without a current song, adding next can put an unshuffled queue out of order
  (`PlayerOrder.AddNextKeepsOrderExactly`).
* Ending the session takes no new radio number, so a late radio reply can still load its songs
  (`PlayerRadio.ReplyAfterResetExactly`, `PlayerRadio.LateReplyCanLoad`).
* A selection limit of zero still picks one song (`SelectionProofs.LimitIsRespected`).
* A replayed event is refused only while the first one is among the rows kept
  (`PlaybackStoreProofs.ReplaysAreRefusedExactly`, `PlaybackStoreProofs.OldReplaysCanBeAccepted`), and
  clearing the history forgets all of the user's (`PlaybackStoreProofs.ClearingForgetsExactly`).
* A staged file whose name is another file's temporary name is lost by the tree copy
  (`RestoreTree.CopyIsExactWithoutClash`).
* A restore stopped three times or more can drop the only copy of the original data
  (`RestoreRuns.OriginalsCanBeLostExactly`, `RestoreRuns.OriginalSurvivesExactly`), and a replaced
  database's journals are never saved
  (`RestoreRuns.JournalsAreNotKept`).
* A Start sent right after a server reported Stopped can be lost
  (`ServerController.StartIsActedOnExactly`, `ServerController.StartAfterStoppedCanBeLost`).
* A downloaded song is not shown when its album counts as complete by a list that omits it
  (`DownloadGrouping.NoSongIsLostExactly`, `DownloadGrouping.SongCanBeLost`).

## Model

| member | source | states |
|---|---|---|
| PlaybackStore.PlaybackStore.PersistPlaybackEvent | crates/backend/src/recommendation.rs:217-426 | One event: refused without any change when its key is still stored, otherwise exactly the combined effect on events, history, now-playing, track and entity preferences, transitions and retention counters |
| PlaybackStore.PlaybackStore.ApplyEvent | crates/backend/src/recommendation.rs:244-418 | The in-place updates of an accepted event add up to that combined effect |
| PlaybackStore.Previous | crates/backend/src/recommendation.rs:223-242 | The song of the newest qualified or completed play of another song in the session, for positive events and early skips; so no self-loop can arise |
| PlaybackStore.PlaybackStore.InsertRows | crates/backend/src/recommendation.rs:244-304 | The event row, and a history row exactly for a qualified play |
| PlaybackStore.PlaybackStore.ScoreTrack | crates/backend/src/recommendation.rs:306-346 | The track row of the event |
| PlaybackStore.PlaybackStore.CreditEvent | crates/backend/src/recommendation.rs:348-380 | Artist, album and genre rows are credited the positive or negative part of the weight |
| PlaybackStore.PlaybackStore.CreditEntities | crates/backend/src/recommendation.rs:348-380 | The artist, album and genre rows are credited in turn; which rows those are, EventIsCreditedExactly says over the song map |
| PlaybackStore.PlaybackStore.UpsertEntityPreferences | crates/backend/src/recommendation.rs:359-378 | Each key of the list is credited, a repeated key repeatedly |
| PlaybackStore.PlaybackStore.UpsertEntityPreference | crates/backend/src/recommendation.rs:529-554 | Insert or add to one entity row |
| PlaybackStore.PlaybackStore.ObserveTransition | crates/backend/src/recommendation.rs:383-418 | The edge from the previous song is counted and its group capped |
| PlaybackStore.PlaybackStore.SchedulePlaybackRetention | crates/backend/src/recommendation.rs:428-462 | Counters advance; a table is pruned and its counter reset exactly when the counter reaches the batch size |
| PlaybackStore.PlaybackStore.PrunePlaybackHistory | crates/backend/src/recommendation.rs:489-511 | Each log is pruned when asked for |
| PlaybackStore.PlaybackStore.PruneListenHistory | crates/backend/src/recommendation.rs:513-527 | The history part of it |
| PlaybackStore.PlaybackStore.ScheduleListenHistoryRetention | crates/backend/src/recommendation.rs:464-487 | The history counter alone advances and prunes |
| PlaybackStore.PlaybackStore.AddListen | crates/backend/src/api/user.rs:642-692 | The history endpoint inserts one row and schedules retention |
| PlaybackStore.PlaybackStore.AddCastListen | crates/backend/src/api/cast.rs:712-732 | A cast session that starts a song inserts one row and schedules nothing |
| PlaybackStore.PlaybackStore.ClearPersonalHistory | crates/backend/src/api/data.rs:1367-1408 | The user's rows leave every table, the retention counters too |
| PlaybackStore.PlaybackStore.ClearRows | crates/backend/src/api/data.rs:1379-1394 | The two logs |
| PlaybackStore.PlaybackStore.ClearPreferences | crates/backend/src/api/data.rs:1379-1394 | The preference tables and the transition graph |
| PlaybackTables.PruneIsExact | crates/backend/src/recommendation.rs:489-527 | Pruning leaves exactly min(cap, n) rows of the user, every one newer than every dropped row, and no other user's rows change |
| PlaybackTables.TopHasCapRows | crates/backend/src/recommendation.rs:496-526 | "Fewer than cap newer rows" selects exactly cap rows under the date-then-id order |
| PlaybackTables.PlaybackStaysBounded | crates/backend/src/recommendation.rs:428-462 | One accepted event keeps the bounds of RetentionBound for every user |
| PlaybackTables.ListenStaysBounded | crates/backend/src/recommendation.rs:464-487 | So does one call of the history endpoint |
| PlaybackTables.CastStaysBounded | crates/backend/src/api/cast.rs:712-732 | So does a cast row, which is counted apart |
| PlaybackTables.ClearStaysBounded | crates/backend/src/api/data.rs:1379-1408 | So does clearing a user's history |
| PlaybackStoreProofs.RetentionBound | crates/backend/src/recommendation.rs:428-527 | In every state of every run of the four calls, a user's events number at most 20000 plus the user's counter; the user's history is what the last cut left, at most 20000, plus the counter and the cast rows since, so it stays within 20000 plus the counter if and only if what was left and the cast rows do not pass 20000; both counters are below 256 |
| PlaybackStoreProofs.CastHistoryIsNeverCut | crates/backend/src/api/cast.rs:712-732 | For every n, casting n songs and nothing else leaves n history rows and counters at zero |
| PlaybackLog.InsertKeepsRemembering | crates/backend/src/recommendation.rs:244-266 | Inserting keeps exact which accepted events are still stored |
| PlaybackLog.PruneKeepsRemembering | crates/backend/src/recommendation.rs:489-511 | So does cutting the rows and resetting the counter, for each user whose clock never steps back |
| PlaybackLog.ClearKeepsRemembering | crates/backend/src/api/data.rs:1379-1408 | So does clearing a user's history, whose events then count as never accepted |
| PlaybackStoreProofs.ReplaysAreRefusedExactly | crates/backend/src/recommendation.rs:244-266 | In every run, under a clock that never steps back for the users of the key, an event is refused if and only if an accepted one has its key and its user has not cleared the history since and had fewer events since than 20000 plus the counter |
| PlaybackStoreProofs.ClearingForgetsExactly | crates/backend/src/api/data.rs:1379-1408 | Right after a user cleared the history, under any clock, an event is refused if and only if a row of another user has its key |
| PlaybackStoreProofs.OldReplaysCanBeAccepted | crates/backend/src/recommendation.rs:244-266 | A reachable state in which an accepted event is accepted again |
| PlaybackLog.TracksStayConserved | crates/backend/src/recommendation.rs:306-346 | Every track row stays the sum of the weights and counters of the user's accepted events |
| PlaybackLog.TracksStayConservedWithout | crates/backend/src/api/data.rs:1379-1394 | Clearing keeps that sum: nothing for the user, unchanged for everyone else |
| PlaybackLog.TrackCountsKinds | crates/backend/src/recommendation.rs:306-346 | A track's counters are the numbers of events of their kind; dislikes count as early skips |
| PlaybackLog.ScoreIsWeightedSum | crates/backend/src/recommendation.rs:145-157 | Its score is the weighted sum of the events by kind: 3 for a qualified play, 4 completed, 6 queued, 8 added to a playlist, 2 selected, less 5 for an early skip and 20 for a dislike |
| PlaybackStoreProofs.TracksCountEvents | crates/backend/src/recommendation.rs:306-346 | The same of the stored row and the accepted events in every state of every run |
| PlaybackLog.EntitiesStayConserved | crates/backend/src/recommendation.rs:348-380 | Every entity row stays the sum of the credits of the user's accepted events |
| PlaybackLog.EntitiesStayConservedWithout | crates/backend/src/api/data.rs:1379-1394 | Clearing keeps that sum too |
| PlaybackLog.CreditedAdds | crates/backend/src/recommendation.rs:348-380 | One event adds its positive or negative weight to a key once for each time the cache lists the key |
| PlaybackLog.EventIsCreditedExactly | crates/backend/src/recommendation.rs:348-380 | An event's positive and negative part go to artist row k if and only if the song's artist is k, to album row k if and only if its album is k, and to genre row k as often as that album lists k; nothing for another user or an unmapped song |
| PlaybackLog.WeightSplits | crates/backend/src/recommendation.rs:348-351 | The two parts make up the weight, and one of them is zero |
| PlaybackLog.UpsertedAllAdds | crates/backend/src/recommendation.rs:359-378 | A list of keys credits each key as often as it occurs |
| PlaybackLog.NetIsSumOfTracks | crates/backend/src/recommendation.rs:348-380 | Positive minus negative weight of an artist or album is the sum of the scores of its songs |
| PlaybackStoreProofs.PreferencesAgree | crates/backend/src/recommendation.rs:306-380 | The same between the two stored tables, in every state of every run with a fixed cache |
| Transitions.Cap | crates/backend/src/recommendation.rs:406-418 | The group is cut to 50 edges, or left whole, and no dropped edge ranks above a kept one |
| Transitions.ObservationKeepsInv | crates/backend/src/recommendation.rs:383-418 | Counting and capping keeps every group at 50, free of self-loops, with non-negative counts and a positive sum; at most one edge is dropped |
| Transitions.ClearKeepsInv | crates/backend/src/api/data.rs:1379-1394 | Clearing keeps the caps |
| PlaybackStoreProofs.TransitionsStayCapped | crates/backend/src/recommendation.rs:383-418 | That invariant in every state of every run |
| PlaybackEffects.ScheduleCuts | crates/backend/src/recommendation.rs:428-462 | A log is cut, and its counter restarts, exactly with the 256th row; a cut deletes exactly the user's rows that have 20000 newer ones of that user |
| PlaybackEffects.ListenCuts | crates/backend/src/recommendation.rs:464-487 | The same of the history alone |
| PlaybackEffects.ListenAddsRow | crates/backend/src/api/user.rs:642-692 | The history endpoint adds one row before that cut |
| PlaybackEffects.CastAddsRow | crates/backend/src/api/cast.rs:712-732 | A cast session adds one row and counts for no cut |
| PlaybackEffects.EventAddsRows | crates/backend/src/recommendation.rs:244-304 | An accepted event adds its row and, for a qualified play, a history row, before any cut |
| PlaybackEffects.EventShowsSong | crates/backend/src/recommendation.rs:268-277 | The song a user is playing changes exactly when one is started or selected |
| PlaybackEffects.PreviousIs | crates/backend/src/recommendation.rs:223-242 | The previous song is that of the newest qualified or completed play of another song by the user in the session, looked for by plays, additions and early skips only |
| PlaybackEffects.EventCountsEdge | crates/backend/src/recommendation.rs:383-418 | The edge from that song gains one play, or one skip for an early skip; of more than 50 edges of the song those stay that rank first by twice the plays less the skips, then by time; without a previous song no edge changes |
| PlaybackEffects.ClearingDeletesExactly | crates/backend/src/api/data.rs:1379-1408 | Clearing deletes the user's rows from all seven tables and no other row |
| PlaybackStoreProofs.RunKeepsInv | crates/backend/src/recommendation.rs:217-527 | All store invariants together, over every run of events, history calls, cast rows and clearings from empty tables |
| PlaybackStoreProofs.Serve | crates/backend/src/recommendation.rs:217-426 | The store object answers each call as the runs say |
| PlaybackStoreProofs.ServeAll | crates/backend/src/recommendation.rs:217-426 | Whatever calls a new store object serves, its states are a run and all invariants hold of it |
| Ranking.CollectIsExact | crates/backend/src/recommendation.rs:942-990 | The filter keeps exactly the mapped candidates that are no seed, not recent, not the seed's recording, and score at least 10 |
| Ranking.SortSorts | crates/backend/src/recommendation.rs:992-999 | The sort gives a strictly ordered permutation: score descending, then id |
| Ranking.SortedIsUnique | crates/backend/src/recommendation.rs:992-999 | Two strictly sorted lists with the same members are the same list |
| Ranking.RankIsExact | crates/backend/src/recommendation.rs:933-1000 | The ranked list holds exactly the recommendable candidates, each once with its weighted score, strictly sorted |
| Ranking.RankIgnoresOrder | crates/backend/src/recommendation.rs:933-1000 | The result is the same for every iteration order of the candidate map |
| Ranking.WalkExists | crates/backend/src/recommendation.rs:933-942 | Every map of candidates can be walked |
| Ranking.RankIsByScore | crates/backend/src/recommendation.rs:992-997 | Scores never rise along the list, and equal scores stand in lexicographic order of the ids |
| Ranking.RankMeans | crates/backend/src/recommendation.rs:942-990 | A song is listed if and only if it scores ten or more, is in the library, is neither seed nor recent, and shares no known seed's recording; five more for each source beyond the first, times 1.15 for an album and 0.7 for a remix |
| Ranking.StrongestSourceIsReason | crates/backend/src/recommendation.rs:961-977 | The reason is that of the strongest of the candidate's sources |
| Ranking.NoSourceIsPlayed | crates/backend/src/recommendation.rs:975-977 | Without a source that has one: played before |
| Selection.SelectCandidates | crates/backend/src/recommendation.rs:1010-1063 | The two loops with their count map, id set and artist list pick exactly the two passes, which SelectionIsGreedy characterises without them |
| Selection.Relax | crates/backend/src/recommendation.rs:1042-1061 | The second loop likewise |
| GreedySelection.SelectionIsGreedy | crates/backend/src/recommendation.rs:1010-1063 | Both passes are greedy: their picks stand in the order of the ranked list, each could be taken when it was, every candidate passed over had to be left for the picks made before it, and a pass stops with the pick that reaches the limit, else at the end of the list |
| GreedySelection.OneGreedyWalk | crates/backend/src/recommendation.rs:1010-1063 | No other list of picks is such a pass |
| GreedySelection.ChoicesAreNotLeft | crates/backend/src/recommendation.rs:1019-1055 | Left at first: unmapped, by an artist of the last three picks, or from an album that has two; left later: picked already, unmapped, or from an album that has three |
| GreedySelection.AlbumCountIsPlaces | crates/backend/src/recommendation.rs:1032-1034 | The count of an album is the number of its songs among the picks |
| SelectionProofs.FirstPassChooses | crates/backend/src/recommendation.rs:1019-1041 | Each first-pass pick respects the album limit of two and the artist spacing of three at its place |
| SelectionProofs.ShortMeansFull | crates/backend/src/recommendation.rs:1042-1061 | A result shorter than the limit leaves out only songs whose album already has three picks |
| SelectionProofs.SelectionIsDiverse | crates/backend/src/recommendation.rs:1010-1063 | At most limit distinct ranked songs, three per album, a spaced first part with two per album, and maximality when short |
| SelectionProofs.LimitIsRespected | crates/backend/src/recommendation.rs:1010-1063 | The length stays within the limit if and only if the limit is at least one or no candidate is mapped |
| SelectionProofs.RecommendationIsFresh | crates/backend/src/recommendation.rs:933-1063 | Ranking then selecting never gives a song twice, the seed, a recent song, another version of the seed's recording or a song scoring below 10 |
| ShuffleQueue.ShuffledQueue | apps/mobile/src/lib/shuffle-queue.ts:1-18 | The array swaps compute the functional shuffle, for any random source into [0, 1) |
| ShuffleQueue.Shuffle | apps/mobile/src/lib/shuffle-queue.ts:10-16 | The swap loop, in place, is the recursive Fisher-Yates shuffle |
| ShuffleQueue.TargetsAreEven | apps/mobile/src/lib/shuffle-queue.ts:10-13 | Each place a swap can choose is chosen for an equally wide part of the draws |
| ShuffleQueue.FisherYatesPermutes | apps/mobile/src/lib/shuffle-queue.ts:10-16 | Every outcome is a permutation |
| ShuffleQueue.ShufflePermutes | apps/mobile/src/lib/shuffle-queue.ts:1-18 | The shuffled queue is a permutation with the chosen song first and index 0 |
| ShuffleQueue.FisherYatesReaches | apps/mobile/src/lib/shuffle-queue.ts:10-16 | Every permutation is the outcome of some draws |
| ShuffleQueue.ShuffleReachesEveryOrder | apps/mobile/src/lib/shuffle-queue.ts:1-18 | Every order with the chosen song first can come out |
| ShuffleQueue.RestoredQueue | apps/mobile/src/lib/shuffle-queue.ts:20-29 | The original list comes back with the first match of the current id; a missing current song is put in front |
| ShuffleQueue.FisherYatesIsInjective | apps/mobile/src/lib/shuffle-queue.ts:10-16 | On distinct items, different swap targets give different orders: with the above, each order comes from exactly one choice of targets |
| ShuffleQueue.ShuffleRoundTrip | apps/mobile/src/lib/shuffle-queue.ts:1-29 | Shuffle then restore gives the same list and current id, and the same index exactly when no earlier entry has that id |
| QueueEdits.DropsSameIndex | apps/mobile/src/providers/player-provider.tsx:900-917 | Dropping the counted occurrence of an entry's id from its own list removes exactly that entry |
| QueueEdits.BagOfWithoutOccurrence | apps/mobile/src/providers/player-provider.tsx:904-912 | Dropping an occurrence that exists takes one copy of the id away |
| QueueEdits.BagOfKeepWithin | apps/mobile/src/providers/player-provider.tsx:927-932 | Filtering by remaining counts keeps the smaller count of every id |
| QueueEdits.KeepWithinOwnPrefix | apps/mobile/src/providers/player-provider.tsx:919-933 | Filtering a list by the id counts of its own prefix returns exactly that prefix, ids repeated or not |
| QueueEdits.InsertionsAgree | apps/mobile/src/providers/player-provider.tsx:872-891 | Inserting at two places gives one list if and only if all entries between them equal the inserted one |
| PlayerProofs.LoadKeepsInv | apps/mobile/src/providers/player-provider.tsx:778-842 | Loading keeps the index range and last-load-wins, whatever list and index are given |
| PlayerProofs.RemoveKeepsLists | apps/mobile/src/providers/player-provider.tsx:900-917 | Removing keeps the index in range and the current id, and both lists' id bags equal if they were |
| PlayerProofs.ClearKeepsLists | apps/mobile/src/providers/player-provider.tsx:919-933 | So does clearing what is upcoming |
| PlayerProofs.AddNextKeepsLists | apps/mobile/src/providers/player-provider.tsx:872-891 | So does adding next |
| PlayerProofs.AddToQueueKeepsLists | apps/mobile/src/providers/player-provider.tsx:893-898 | So does appending, which also keeps unshuffled order |
| PlayerProofs.ToggleKeepsLists | apps/mobile/src/providers/player-provider.tsx:1088-1106 | So does toggling shuffle; with equal bags an unshuffled queue then shows the original order |
| PlayerProofs.StepKeepsInv | apps/mobile/src/providers/player-provider.tsx:778-1153 | Every callback with any arguments, promise result, timer and reset keeps the index range and last-load-wins |
| PlayerProofs.RunKeepsInv | apps/mobile/src/providers/player-provider.tsx:778-1153 | Both hold in every state of every interleaving from the empty player |
| PlayerProofs.SourceIsCurrent | apps/mobile/src/providers/player-provider.tsx:820-842 | A non-null source always carries the newest number, belongs to the latest load and to the current song, and was retried at most twice |
| PlayerProofs.PlaySongNeedsSongs | apps/mobile/src/providers/player-provider.tsx:844-853 | After playing from a list the two lists have equal id bags if and only if the list is not empty or nothing was queued |
| PlayerProofs.SetListsAgree | apps/mobile/src/providers/player-provider.tsx:844-870 | A list played or shuffled, a radio reply that loads and the end of the session make the two lists agree, whatever they were before |
| PlayerProofs.OtherStepsKeepLists | apps/mobile/src/providers/player-provider.tsx:855-1153 | Playing, skipping, pausing, ending tracks, sources, timers and errors leave both lists alone |
| PlayerProofs.StepKeepsLists | apps/mobile/src/providers/player-provider.tsx:778-1153 | Every step but an empty list played over a queue keeps the id bags equal |
| PlayerProofs.RunKeepsLists | apps/mobile/src/providers/player-provider.tsx:778-1153 | From any state of a run in which both lists were set, their id bags stay equal for as long as no empty list is played over a queue |
| PlayerOrder.AddNextKeepsOrderExactly | apps/mobile/src/providers/player-provider.tsx:872-891 | Adding next keeps the ids of an unshuffled queue in order if and only if the entries between the first one with the current id and the insertion point carry the added id |
| PlayerOrder.AddNextKeepsSongsExactly | apps/mobile/src/providers/player-provider.tsx:872-891 | The same for the songs themselves: the lists stay equal if and only if shuffled or those entries are the added song |
| PlayerOrder.DistinctIdsLandInPlace | apps/mobile/src/providers/player-provider.tsx:872-891 | Distinct ids and a current song suffice |
| PlayerOrder.RunKeepsOrder | apps/mobile/src/providers/player-provider.tsx:778-1153 | Likewise, while shuffle is off the queue shows the ids of the original order for as long as additions also land in order, ids repeated or not |
| PlayerOrder.RemoveKeepsSongs | apps/mobile/src/providers/player-provider.tsx:900-917 | With distinct ids, removing takes the same song from both lists |
| PlayerOrder.ClearKeepsSongs | apps/mobile/src/providers/player-provider.tsx:919-933 | With distinct ids, clearing leaves the same songs in both lists |
| PlayerOrder.RunKeepsSongs | apps/mobile/src/providers/player-provider.tsx:778-1153 | Likewise, with distinct ids and additions next to a current song, both lists hold the same songs, and while shuffle is off they are equal element by element |
| PlayerOrder.TogglingTwiceRestores | apps/mobile/src/providers/player-provider.tsx:1088-1106 | Shuffle on and off gives back the ids, the songs if the lists were equal, and the current id |
| PlayerRadio.NumberIsTakenExactly | apps/mobile/src/providers/player-provider.tsx:778-1153 | A radio number is taken if and only if a step loads a song or asks for a radio queue |
| PlayerRadio.NumbersGrow | apps/mobile/src/providers/player-provider.tsx:778-1153 | Over all runs the number never goes back, and stays if and only if none was taken |
| PlayerRadio.StaleRepliesAreDropped | apps/mobile/src/providers/player-provider.tsx:1125-1141 | A reply to a pending question changes nothing once a number was taken |
| PlayerRadio.ReplyAfterResetExactly | apps/mobile/src/providers/player-provider.tsx:611-635 | In every run, the reply to a question pending when the session ended loads its songs if and only if it was the newest, no number was taken since, and it brings songs; else it changes nothing |
| PlayerRadio.LateReplyCanLoad | apps/mobile/src/providers/player-provider.tsx:611-635 | A reachable run in which such a reply loads a song into the emptied player |
| PlayerProofs.RemoveKeepsOrder | apps/mobile/src/providers/player-provider.tsx:900-917 | Removing keeps unshuffled order |
| PlayerProofs.ClearKeepsOrder | apps/mobile/src/providers/player-provider.tsx:919-933 | Clearing what is upcoming keeps unshuffled order |
| PlayerEffects.PlaySongLoads | apps/mobile/src/providers/player-provider.tsx:844-853 | The first entry with the song's id is loaded, or the first entry, and the whole list remembered; shuffled, that song leads a permutation of the list |
| PlayerEffects.PlayNothing | apps/mobile/src/providers/player-provider.tsx:844-853 | An empty list only empties the remembered order |
| PlayerEffects.PlayShuffledLoads | apps/mobile/src/providers/player-provider.tsx:860-870 | The chosen song, or the nearest one, leads a permutation of the list, which is remembered |
| PlayerEffects.ShuffleNothing | apps/mobile/src/providers/player-provider.tsx:860-870 | An empty list does nothing |
| PlayerEffects.PlayAtLoads | apps/mobile/src/providers/player-provider.tsx:855-858 | The entry asked for is loaded and both lists stay; an index that names none does nothing |
| PlayerEffects.PlayLoads | apps/mobile/src/providers/player-provider.tsx:935-972 | The current entry starts again if it has no source or failed, else it plays on |
| PlayerEffects.NextLoads | apps/mobile/src/providers/player-provider.tsx:1009-1026 | The next entry is loaded; behind the last, the first when all is repeated, else playing stops |
| PlayerEffects.PreviousLoads | apps/mobile/src/providers/player-provider.tsx:1041-1064 | The entry before is loaded, if there is one and the track has only begun |
| PlayerEffects.PauseAndStart | apps/mobile/src/providers/player-provider.tsx:511-983 | Pausing, and the output beginning to play, change nothing else |
| PlayerEffects.EndedLoads | apps/mobile/src/providers/player-provider.tsx:1108-1153 | The same entry again, the next, the first, or playing stops and a ready session asks for a radio queue |
| PlayerEffects.RadioReplyLoads | apps/mobile/src/providers/player-provider.tsx:1132-1141 | The newest request plays its songs from the first, unshuffled; any other reply is dropped |
| PlayerEffects.AddNextInserts | apps/mobile/src/providers/player-provider.tsx:872-891 | The song stands right behind the current entry, and in the remembered order right behind the first entry with the current id |
| PlayerEffects.AddNextInsertsLast | apps/mobile/src/providers/player-provider.tsx:872-891 | Without such an entry it stands last there, and without a current entry first in the queue |
| PlayerEffects.AddToQueueAppends | apps/mobile/src/providers/player-provider.tsx:893-898 | Both lists gain the songs at their end |
| PlayerEffects.RemoveDrops | apps/mobile/src/providers/player-provider.tsx:900-917 | An entry other than the current one goes and the rest keep their order; the index drops by one if and only if it was behind; the remembered order loses the entry of that id with the same count, if and only if it has one; any other index changes nothing |
| PlayerEffects.ClearCuts | apps/mobile/src/providers/player-provider.tsx:919-933 | The queue ends with the current entry; of the remembered order exactly those entries stay whose id occurs up to them no more often than in what is left of the queue |
| PlayerEffects.ToggleShuffles | apps/mobile/src/providers/player-provider.tsx:1088-1106 | Shuffling leads with the current song and remembers the queue if nothing was remembered |
| PlayerEffects.ToggleRestores | apps/mobile/src/providers/player-provider.tsx:1088-1106 | Unshuffling shows the remembered order at the first entry with the current id; a current song it lacks is put in front |
| PlayerEffects.ToggleOthers | apps/mobile/src/providers/player-provider.tsx:1088-1106 | Fewer than two entries keep their order; without a current entry the remembered order starts over |
| PlayerEffects.RepeatCycles | apps/mobile/src/providers/player-provider.tsx:1082-1086 | None, all, one, none |
| PlayerEffects.PromiseSettles | apps/mobile/src/providers/player-provider.tsx:824-841 | The newest promise installs its source or reports that it failed; an older one does nothing |
| PlayerEffects.ErrorStartsTimer | apps/mobile/src/providers/player-provider.tsx:276-305 | A wanted remote source that failed fewer than twice before gets a timer; any other failure ends playing |
| PlayerEffects.TimerRenews | apps/mobile/src/providers/player-provider.tsx:291-302 | The source that failed is renewed under the next number if it is still there and wanted |
| PlayerEffects.ResetEmpties | apps/mobile/src/providers/player-provider.tsx:611-635 | Lists, index, shuffle and source are as in an empty player; replies, promises and timers on their way stay |
| PlayerProvider.PlayerProvider.LoadAt | apps/mobile/src/providers/player-provider.tsx:778-842 | The callback does what the transition of the proofs says |
| PlayerProvider.PlayerProvider.BeginLoad | apps/mobile/src/providers/player-provider.tsx:805-822 | The state a load leaves before its source is there |
| PlayerProvider.PlayerProvider.PlaySong | apps/mobile/src/providers/player-provider.tsx:844-853 | The first entry with the id, or the first one |
| PlayerProvider.PlayerProvider.PlayAt | apps/mobile/src/providers/player-provider.tsx:855-858 | An entry of the shown queue |
| PlayerProvider.PlayerProvider.PlayShuffled | apps/mobile/src/providers/player-provider.tsx:860-870 | Remembers the list, shuffles it and loads the chosen song |
| PlayerProvider.PlayerProvider.AddNext | apps/mobile/src/providers/player-provider.tsx:872-891 | Inserts into both lists |
| PlayerProvider.PlayerProvider.AddToQueue | apps/mobile/src/providers/player-provider.tsx:893-898 | Appends to both lists |
| PlayerProvider.PlayerProvider.RemoveFromQueue | apps/mobile/src/providers/player-provider.tsx:900-917 | Removes one entry and the same occurrence of its id, in place; RemoveDrops says which entries stay |
| PlayerProvider.PlayerProvider.ClearUpcoming | apps/mobile/src/providers/player-provider.tsx:919-933 | Cuts the queue and filters the original order |
| PlayerProvider.PlayerProvider.ToggleShuffle | apps/mobile/src/providers/player-provider.tsx:1088-1106 | Shuffles or restores |
| PlayerProvider.PlayerProvider.Play | apps/mobile/src/providers/player-provider.tsx:935-972 | Resume or reload |
| PlayerProvider.PlayerProvider.Pause | apps/mobile/src/providers/player-provider.tsx:974-983 | Pause |
| PlayerProvider.PlayerProvider.OutputStarted | apps/mobile/src/providers/player-provider.tsx:511-515 | The output began to play |
| PlayerProvider.PlayerProvider.CycleRepeat | apps/mobile/src/providers/player-provider.tsx:1082-1086 | None, all, one, none |
| PlayerProvider.PlayerProvider.Next | apps/mobile/src/providers/player-provider.tsx:1009-1026 | Next entry, first entry or stop |
| PlayerProvider.PlayerProvider.Previous | apps/mobile/src/providers/player-provider.tsx:1041-1064 | Previous entry |
| PlayerProvider.PlayerProvider.HandleEnded | apps/mobile/src/providers/player-provider.tsx:1108-1153 | Repeat, advance, start over or ask for a radio queue |
| PlayerProvider.PlayerProvider.RadioReplied | apps/mobile/src/providers/player-provider.tsx:1132-1141 | Only the newest request with songs is honoured |
| PlayerProvider.PlayerProvider.SourceResolved | apps/mobile/src/providers/player-provider.tsx:824-833 | Only the newest number installs a source |
| PlayerProvider.PlayerProvider.SourceRejected | apps/mobile/src/providers/player-provider.tsx:834-841 | A failed source promise |
| PlayerProvider.PlayerProvider.SchedulePlaybackRetry | apps/mobile/src/providers/player-provider.tsx:276-305 | Retries remote sources twice at most |
| PlayerProvider.PlayerProvider.OutputFailed | apps/mobile/src/providers/player-provider.tsx:368-391 | A source that failed is retried or reported |
| PlayerProvider.PlayerProvider.RetryTimerFired | apps/mobile/src/providers/player-provider.tsx:291-302 | Renews the source under a new number if it is still the one that failed |
| PlayerProvider.PlayerProvider.ResetSession | apps/mobile/src/providers/player-provider.tsx:611-635 | Empties the player |
| PlayerProvider.PlayerProvider.Perform | apps/mobile/src/providers/player-provider.tsx:611-1153 | Each callback, promise result or timer is its step of the run |
| PlayerProvider.PlayerProvider.Run | apps/mobile/src/providers/player-provider.tsx:611-1153 | The object's methods, called in the order of any run from the empty player, reach its states, so what is proved of runs holds of the object |
| PlayerProvider.DropOccurrence | apps/mobile/src/providers/player-provider.tsx:904-912 | The filter that counts occurrences drops exactly the k-th one |
| PlayerProvider.CountIds | apps/mobile/src/providers/player-provider.tsx:921-925 | The count map holds how often each id occurs |
| PlayerProvider.KeepRemaining | apps/mobile/src/providers/player-provider.tsx:927-932 | The filter that uses counts up keeps the first occurrences the counts pay for |
| RestoreTree.CopyTreeIsExact | crates/backend/src/settings.rs:125-152 | Without a temporary-name clash a copy leaves the tree and exactly the staged entries |
| RestoreTree.ClashLosesInTree | crates/backend/src/settings.rs:125-152 | With a clash the copy fails or misses a path |
| RestoreTree.CopyIsExactWithoutClash | crates/backend/src/settings.rs:125-152 | A staged directory is copied entry for entry if and only if no file is read after a sibling bearing its temporary name |
| RestoreTree.TempNameIs | crates/backend/src/settings.rs:134-140 | The temporary name: the file name and .restore-tmp, with one more dot between them if the name has no extension |
| RestoreSteps.StoppedCopyIsTorn | crates/backend/src/settings.rs:144 | A stopped copy leaves no file or a beginning of it |
| StagedRestore.RestoreDisk.CopyRestoreTree | crates/backend/src/settings.rs:125-152 | The stepwise copy leaves exactly what its steps make of the tree |
| StagedRestore.RestoreDisk.PlaceFile | crates/backend/src/settings.rs:135-148 | Copy to a temporary name, remove, rename, stopped anywhere |
| StagedRestore.RestoreDisk.SaveDatabases | crates/backend/src/settings.rs:186-202 | The rollback of the databases, stopped anywhere |
| StagedRestore.RestoreDisk.SwapDatabase | crates/backend/src/settings.rs:208-222 | One database replaced, stopped anywhere |
| StagedRestore.RestoreDisk.SwapDatabases | crates/backend/src/settings.rs:204-222 | Both databases in turn |
| StagedRestore.RestoreDisk.RestoreDirectory | crates/backend/src/settings.rs:230-237 | One directory moved aside and copied anew, stopped anywhere |
| StagedRestore.RestoreDisk.RestoreDirectories | crates/backend/src/settings.rs:223-238 | The five directories in turn |
| StagedRestore.RestoreDisk.PruneRestoreRollbacks | crates/backend/src/settings.rs:154-171 | Drops the rollbacks past the third newest, newer ones first, stopped anywhere |
| StagedRestore.StampsNewestFirst | crates/backend/src/settings.rs:155-167 | Sorts the stamps newest first |
| StagedRestore.RestoreDisk.ApplyStagedRestore | crates/backend/src/settings.rs:177-243 | Nothing is staged if and only if the marker is missing, and the restore is incomplete if and only if it is there without manifest or staged music database; then disk and steps are as before. Else outcome, disk and steps left are exactly the function that the lemmas below speak of |
| RestoreSafety.CopiedTreeWorks | crates/backend/src/settings.rs:125-152 | The copy ends if and only if no file and directory meet and the steps suffice; it then is the recursive copy |
| RestoreSafety.SwappedFromIsSafe | crates/backend/src/settings.rs:204-222 | At any stop a live database is the old one, the staged one or missing, never torn, and other files are untouched |
| RestoreSafety.RestoredFromIsSafe | crates/backend/src/settings.rs:223-238 | At any stop a directory is the old one, or the old one is in the rollback and what is there is part of the fresh copy |
| RestoreSafety.PrunedKeepsNewest | crates/backend/src/settings.rs:154-171 | At any stop the newest three rollbacks are there, unchanged |
| RestoreSafety.PruningTakesNextNewest | crates/backend/src/settings.rs:154-171 | Each step removes the newest rollback that has three newer ones, so a stop leaves exactly the others |
| RestoreSafety.EveryStopIsSafe | crates/backend/src/settings.rs:177-243 | For any number of steps: while the marker is there everything replaced is saved, and once it is gone the restore is complete |
| RestoreSafety.RollbackIsTaken | crates/backend/src/settings.rs:186-237 | At any stop the rollback of the attempt holds nothing but beginnings of the databases and whole directories of the disk before it |
| RestoreSafety.RestoreEndsExactly | crates/backend/src/settings.rs:177-243 | The restore ends if and only if every staged directory can be copied and the steps reach its cost, a function of the disk |
| RestoreSafety.RestoreTakesItsCost | crates/backend/src/settings.rs:177-243 | It then has taken exactly that many file steps |
| RestoreSafety.EndIsClean | crates/backend/src/settings.rs:239-241 | An end has dropped the marker, the staged files and all but the newest three rollbacks |
| RestoreRuns.StoppedRestoresConverge | crates/backend/src/settings.rs:177-243 | After any number of stops under fresh stamps, an attempt that gets past the marker leaves the same database files and directories as an uninterrupted one |
| RestoreRuns.JournalsAreNotKept | crates/backend/src/settings.rs:220-221 | After any such run a journal is as before if and only if no file was staged for its database or there was none |
| RestoreRuns.NothingIsLost | crates/backend/src/settings.rs:191-238 | At every stop each original database and directory is live or in the rollback of some attempt |
| RestoreRuns.OriginalsSurvivePruning | crates/backend/src/settings.rs:154-241 | For any number of stops: an original still live and unchanged at the start of one of the last three attempts is in a kept rollback after the final pruning |
| RestoreRuns.OriginalSurvivesExactly | crates/backend/src/settings.rs:154-241 | For any number of stops: an original that is no part of what the backup makes is still on the final disk if and only if fewer than three rollbacks are newer than that of the last attempt that found it live |
| RestoreRuns.OriginalsCanBeLostExactly | crates/backend/src/settings.rs:154-241 | For every n: there is a run of the procedure with n stops that leaves an original nowhere if and only if n is at least three |
| DataReset.DataRoot.ApplyReset | crates/backend/src/settings.rs:245-276 | Done if and only if marked and the steps reach the cost of the root, and then exactly the listed names are gone; else stopped with the marker kept while any data is left |
| DataReset.DataRoot.Remove | crates/backend/src/settings.rs:263-269 | A removal takes away one entry, or stops having only shrunk it |
| DataReset.StoppedResetsConverge | crates/backend/src/settings.rs:245-276 | Resets stopped any number of times end where an uninterrupted one does; one that is not resumed has no data left |
| ServerController.Controller.Run | crates/windows-server/src/windows_host.rs:195-309 | The controller's methods, in any schedule with threads and senders, reach the states of the run, so all invariants hold of the object |
| ServerController.Controller.Turn | crates/windows-server/src/windows_host.rs:203-231 | Each turn of the controller is its step of the run |
| ServerController.Controller.Receive | crates/windows-server/src/windows_host.rs:203-231 | One command of the loop |
| ServerController.Controller.StopServer | crates/windows-server/src/windows_host.rs:302-309 | Reports Stopping and turns to stopping the kept server, if any; StopsAreReportedExactly says that none goes unreported |
| ServerController.StepKeepsServers | crates/windows-server/src/windows_host.rs:195-309 | Every step of controller, threads and senders keeps the one-server invariant |
| ServerController.StepKeepsNotices | crates/windows-server/src/windows_host.rs:195-309 | Every step keeps the invariant about exit notices |
| ServerController.StepKeepsStatuses | crates/windows-server/src/windows_host.rs:195-309 | Every step keeps the invariant about statuses |
| ServerController.RunKeepsInv | crates/windows-server/src/windows_host.rs:195-309 | All three in every reachable state |
| ServerController.OneServerAtATime | crates/windows-server/src/windows_host.rs:195-309 | At most one server thread exists, it is the one kept or waited for, and none once the controller has returned |
| ServerController.ExitNoticeClearsOnlyItsServer | crates/windows-server/src/windows_host.rs:217-225 | An exit notice clears a server only if that very thread is done serving; an older one changes nothing |
| ServerController.DeadServerIsNoticed | crates/windows-server/src/windows_host.rs:217-298 | A kept server is alive, or its exit notice is queued |
| ServerController.StatusesFollowGenerations | crates/windows-server/src/windows_host.rs:195-299 | Statuses come generation by generation; each starts once, runs at most once, ends at most once, which tells how far its thread is, and is told to stop at most once |
| ServerController.StopsAreReportedExactly | crates/windows-server/src/windows_host.rs:302-309 | In every reachable state a server's Stopping was sent exactly once if it was told to stop or is about to be, else never, and after its Starting |
| ServerController.ThreadsMoveOn | crates/windows-server/src/windows_host.rs:236-300 | Booting, serving, ended, noticed, gone: what each step makes of the threads, the queue and the server kept |
| ServerController.TakingReportsExactly | crates/windows-server/src/windows_host.rs:203-232 | Taking Stop, Restart or Exit with a server kept sends its Stopping and nothing else; taking anything else sends nothing |
| ServerController.NothingAfterExit | crates/windows-server/src/windows_host.rs:226-233 | After Exit nothing changes any more |
| ServerController.JoinIsNeverStuck | crates/windows-server/src/windows_host.rs:302-309 | A joined thread can always move on, a serving one because it was told to stop; each step brings it closer to its end and none sets it back |
| ServerController.TurnsComeCloser | crates/windows-server/src/windows_host.rs:203-309 | Each turn of the controller other than taking a command brings it one closer to being ready or returning; nobody else's step sets it back |
| ServerController.CommandsTakeEffect | crates/windows-server/src/windows_host.rs:203-231 | From taking Start, Stop, Restart or Exit until it is done, the controller does what was asked under every interleaving: nothing runs, the next generation runs, or it has returned |
| ServerController.StartIsActedOnExactly | crates/windows-server/src/windows_host.rs:203-231 | A Start sent in any reachable state launches a server when taken if and only if the commands queued at that time leave none; otherwise taking it changes only the queue |
| ServerController.StartAfterNoticesIsActedOnExactly | crates/windows-server/src/windows_host.rs:203-231 | Sent to a ready controller with only exit notices queued: if and only if no server is kept or the kept one has sent its notice |
| ServerController.StartAfterStoppedCanBeLost | crates/windows-server/src/windows_host.rs:205-232 | A run in which a Start sent after the server reported Stopped results in no server |
| NonceRewriter.NonceHtmlScripts | crates/backend/src/assets.rs:97-137 | The output is the document with a space, nonce=, and the quoted nonce put right behind the name of each script tag, and nothing else; deleting them gives back the input, and every script tag found in the output starts with it |
| NonceRewriter.CopyUpToScript | crates/backend/src/assets.rs:104-118 | One turn of the loop up to the next script tag |
| NonceRewriter.CopyTag | crates/backend/src/assets.rs:116-134 | One turn that found a script tag |
| NonceRewriter.CopyScript | crates/backend/src/assets.rs:119-133 | One script element, its body copied as it is |
| NonceRewriter.FindIsFirst | crates/backend/src/assets.rs:104-128 | The search gives the first occurrence |
| NonceRewriter.InsertsExactly | crates/backend/src/assets.rs:97-137 | The scanner's result over the places of the tags: the first one opened behind each body, until one never ends or its body is never closed |
| NonceRewriter.TagsStandSomewhere | crates/backend/src/assets.rs:104-134 | Every document has such a list of places |
| NonceRewriter.CountsTags | crates/backend/src/assets.rs:104-134 | The scanner finds exactly one tag at each of them |
| NonceRewriter.StripsToOriginal | crates/backend/src/assets.rs:97-137 | Deleting what was inserted returns the document exactly |
| NonceRewriter.EveryTagGetsOne | crates/backend/src/assets.rs:97-137 | The scanner finds the same script tags in the result, each with one nonce in front |
| NonceRewriter.OpensNothingNew | crates/backend/src/assets.rs:97-137 | The insertion opens no script tag where none was |
| NonceRewriter.BodyEndsThere | crates/backend/src/assets.rs:126-132 | A script body ends at the same closing tag in input and output |
| DownloadGrouping.GroupDownloadedLibrary | apps/mobile/src/lib/downloads.ts:118-202 | The loops over maps and sets compute the grouping that the lemmas speak of |
| DownloadGrouping.ShowItems | apps/mobile/src/lib/downloads.ts:192-201 | Each album is shown in the place of its first song, every other song in its own |
| DownloadGrouping.DeclaredAlbums | apps/mobile/src/lib/downloads.ts:122-132 | The last complete batch of each album |
| DownloadGrouping.LegacyAlbumFolders | apps/mobile/src/lib/downloads.ts:133-152 | The downloaded songs of each album by folder |
| DownloadGrouping.AddFolderAlbums | apps/mobile/src/lib/downloads.ts:153-169 | The largest folder of each album without a batch, in track order, if it holds more than one song |
| DownloadGrouping.CompleteAlbums | apps/mobile/src/lib/downloads.ts:170-190 | The first given song that completes an album settles its list |
| DownloadGrouping.KnownAlbumsAreWhole | apps/mobile/src/lib/downloads.ts:122-169 | Every list from a batch or folder is non-empty and names only songs that are here |
| DownloadFolders.LastBatchCounts | apps/mobile/src/lib/downloads.ts:122-132 | A list is declared for an album if and only if it is that of the last record whose batch names the album and some songs, all here |
| DownloadFolders.LastBatchIsKnown | apps/mobile/src/lib/downloads.ts:153-154 | An album with a batch keeps that list |
| DownloadFolders.FoldersAreExact | apps/mobile/src/lib/downloads.ts:133-152 | The table holds, for each album, the folders of its songs in the order first seen, each with its songs in record order |
| DownloadFolders.FullestFolderCounts | apps/mobile/src/lib/downloads.ts:153-169 | An album without a batch is known if and only if a folder holds more than one of its songs; its list is that of the fullest folder, the first seen of equals, sorted by track number, equal numbers in record order |
| DownloadFolders.ByTrackSorts | apps/mobile/src/lib/downloads.ts:161-167 | The sort ascends, keeps all ids, and is stable |
| DownloadFolders.TrackNumberIsLast | apps/mobile/src/lib/downloads.ts:121-167 | The number looked at is that of the last song given with the id |
| DownloadGrouping.CompleteExactly | apps/mobile/src/lib/downloads.ts:172-190 | An album is complete if and only if one of its given songs makes it so |
| DownloadFolders.CompletesWhen | apps/mobile/src/lib/downloads.ts:172-184 | A song makes its album complete if and only if the album's known list, or else its own track list, is not empty and names only given songs |
| DownloadGrouping.FirstSettlesList | apps/mobile/src/lib/downloads.ts:172-190 | The first such song settles the track list |
| DownloadGrouping.CompleteIsWhole | apps/mobile/src/lib/downloads.ts:172-190 | Every complete album's list is non-empty and all here |
| DownloadGrouping.TracksFollowList | apps/mobile/src/lib/downloads.ts:185-188 | Tracks are the given songs named by the list, in its order |
| DownloadGrouping.AlbumsShownExactly | apps/mobile/src/lib/downloads.ts:192-201 | The albums shown are exactly the complete ones of the songs given |
| DownloadGrouping.AlbumsShownOnce | apps/mobile/src/lib/downloads.ts:192-201 | Each album at most once, with the tracks of its list; single songs belong to no complete album |
| DownloadGrouping.ItemsStandInOrder | apps/mobile/src/lib/downloads.ts:192-201 | The items stand in the order of the songs: a single song in its own place, an album in that of its first song, and none is left out |
| DownloadGrouping.SinglesKeepOrder | apps/mobile/src/lib/downloads.ts:193-197 | Songs of no complete album appear once each, in input order |
| DownloadGrouping.SongAppearsExactly | apps/mobile/src/lib/downloads.ts:118-202 | A given song appears if and only if its album is not complete or some complete album lists it |
| DownloadGrouping.NoSongIsLostExactly | apps/mobile/src/lib/downloads.ts:118-202 | With distinct ids no song is lost if and only if every song of a complete album is named by the list of some complete album |
| DownloadGrouping.NoSongIsLost | apps/mobile/src/lib/downloads.ts:118-202 | So none is lost when every complete album's list covers the given songs of the album |
| DownloadGrouping.SongCanBeLost | apps/mobile/src/lib/downloads.ts:118-202 | A library in which that is not so and a song is lost |
| CatalogPager.CatalogAlbumPage | crates/backend/src/app.rs:185-224 | The early-exit scan is drop offset, take limit of the visible albums, for every limit |
| CatalogPager.ScanAlbums | crates/backend/src/app.rs:199-220 | One artist's albums, up to a full page |
| CatalogPager.CountIsLengthOfVisible | crates/backend/src/app.rs:226-237 | The count is the length of the visible list |
| CatalogEntries.VisibleAlbumsAre | crates/backend/src/app.rs:192-217 | The visible albums are those with a cover that is not blank, or all if there is none, each once in the order of the library, with every field of the entry |
| CatalogEntries.CoverIsNotBlank | crates/backend/src/app.rs:196-201 | A cover counts if and only if some character of it is no Unicode white space |
| CatalogPager.ConsecutivePagesConcatenate | crates/backend/src/app.rs:185-224 | Adjacent pages join to one page |
| CatalogPager.PagesArePrefix | crates/backend/src/app.rs:185-224 | The first n pages are the list's beginning |
| CatalogPager.PagesShowEveryAlbum | crates/backend/src/app.rs:185-237 | Enough pages show every visible album once, in order |
| CatalogPager.FullPageIsFinal | crates/backend/src/app.rs:218-220 | A full page does not depend on what follows, which justifies stopping |
| CatalogPager.CatalogPageOf | crates/backend/src/app.rs:406-463 | Albums and songs of one page under any flags: drop and take of the whole lists, with both totals |
| CatalogPager.ScanSongs | crates/backend/src/app.rs:432-447 | The songs of one album |
| CatalogEntries.AllSongsAre | crates/backend/src/app.rs:427-444 | The songs paged through are all songs of the library in its order, with every field of the entry |
| CatalogEntries.PageSizeIs | crates/backend/src/app.rs:418 | The page size is the limit within 1 and 200 |
| Telemetry.PlaybackTelemetry.UpdateListenedSeconds | apps/mobile/src/lib/playback-telemetry.ts:24-44 | One update of the accumulator |
| Telemetry.CountsExactlyPlayedTime | apps/mobile/src/lib/playback-telemetry.ts:30-39 | An update counts if and only if playing, the clock moved and the position moved ahead, not too far |
| Telemetry.CountsTheLesser | apps/mobile/src/lib/playback-telemetry.ts:30-43 | What counts is the way the position moved or 1.25 times the time, whichever is less; position and clock are remembered whether it counts or not |
| Telemetry.SteadyPlayCountsInFull | apps/mobile/src/lib/playback-telemetry.ts:24-44 | Steady play is counted in full |
| Telemetry.ListenedIsBounded | apps/mobile/src/lib/playback-telemetry.ts:24-44 | For any clock: never less, at most 1.25 times the time that passed, at most the forward movement |
| Telemetry.ListenedWithinWallTime | apps/mobile/src/lib/playback-telemetry.ts:24-44 | With a clock that never steps back, at most 1.25 times the wall time |
| Telemetry.ListenedNeverDecreases | apps/mobile/src/lib/playback-telemetry.ts:24-44 | Listened time only grows along a play |
| Telemetry.ThresholdsAre | apps/mobile/src/lib/playback-telemetry.ts:46-66 | Qualified from half the song or 240 seconds, completed from 85 percent, an early skip below 30 seconds and 30 percent; without a known length qualified at once and never the others |
| Telemetry.CountedPlaysAreNoSkips | apps/mobile/src/lib/playback-telemetry.ts:46-66 | A play that qualified or completed is never an early skip afterwards |

## Left out

- SQL text, connection pools, HTTP routing, Win32 calls, audio output and React rendering: only their effect on tables, lists and threads is modelled.
- Recommendation scoring before ranking (`recommend`, `search_affinities`, `add_candidate`): logarithms and time decay, bounded by a final minimum.
- The last-played and last-positive time stamps of preference rows, the position of a stored playback queue and the now-playing endpoint: written, never read by the modelled code.
- Cast sessions, searches and lyrics views: of a session only the history row it adds is modelled, and clearing the history deletes the other tables' rows as well.
- Deleting a user: takes the same rows away as clearing the history, with the account.
- Trimming of event keys, request validators, text normalisation of recording names and failure texts: each is one branch or a given function; keys and normalised names are inputs.
- Library cache construction and the song index: the cache is fixed and given.
- React's stale closures and double-run updaters: every callback sees the state it changes.
- Storing and restoring the player's state: it cuts both lists to 500 entries separately, which does not keep them equal.
- `session-provider.tsx` and `updater.rs`: the first commits without re-checking its generation, the second depends on the timing of two processes.
- PlaybackStoreProofs.ReplaysAreRefusedExactly: assumes that the clock never stepped back between events of a user with the key, because rows are ordered by time stamp first.
- RestoreRuns.OriginalSurvivesExactly: speaks of originals that are no beginning of the staged database and no part of the staged directory's copy, as otherwise a torn copy could equal them.
- PlayerOrder.RunKeepsSongs: requires distinct ids, as removing by id cannot tell two songs with one id apart; RunKeepsOrder covers repeated ids.
- PlaybackStoreProofs.PreferencesAgree: states artists and albums only, because a song can carry several genres.
- SelectionProofs.SelectionIsDiverse: requires a limit of at least one; LimitIsRespected says what a limit of zero does.
- RestoreRuns.OriginalsCanBeLostExactly: speaks of runs with time stamps later than those of older rollbacks, as the clock gives them.
- StagedRestore.RestoreDisk.ApplyStagedRestore: a time stamp already used on the disk is not modelled; failures other than stops and path collisions, such as a full disk, are not told apart; removing the staged files or one old rollback is one step.
- StagedRestore.RestoreDisk.DropJournals: a journal that cannot be removed is ignored by the code; here removal always succeeds.
- RestoreTree.CopyIsExactWithoutClash: symbolic links and special files among the staged entries are not part of this model.
- ServerController.DeadServerIsNoticed: panics are not modelled; the release profile aborts the whole process on one (`Cargo.toml:14`), while in a debug build the thread would return without a notice.
- ServerController.StatusesFollowGenerations: the order of Stopping and the server's own last status is left open, as the two race; wrap-around of the 64-bit generation is not modelled.
- NonceRewriter.NonceHtmlScripts: works on characters, after the lossy UTF-8 decoding; the random bytes and their encoding are a given nonce.
- DownloadGrouping.GroupDownloadedLibrary: ids are numbers with 0 for the empty id, the folder of a file is given, and of albums and songs only what the grouping looks at is kept; URI decoding errors are not modelled.
- DownloadGrouping.ByTrack: the library's stable sort is modelled by an insertion sort.
- Telemetry.PlaybackTelemetry.UpdateListenedSeconds: rounding, NaN and infinite positions are not modelled.
- CatalogPager.CatalogPageOf: `songsFlat` is taken as it is; that it lists the same songs is the cache's business.
