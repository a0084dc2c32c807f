# Navidrome: a verified model of its persistence and lyrics algorithms

Navidrome is a music server. This project models, in Dafny, the parts of it whose correctness does not
show in any one function, and proves what they promise for every input, every run and every
interleaving. The modules follow the program's own components:

| module | what it models |
|---|---|
| `Criteria`, `CriteriaMerge`, `CriteriaMergeMeaning`, `CriteriaCompile` | the smart-playlist compiler: a rule tree becomes one SQL condition, through batching of EXISTS subqueries and through dropping COALESCE; conditions have SQL's three truth values |
| `SmartPlaylistRefresh` | the recursion that refreshes a smart playlist after the playlists it references, on any reference graph, and the tracks it leaves |
| `PlaylistPositions`, `PlaylistTracks`, `PlaylistRepository` | the `playlist_tracks` table with its UNIQUE index: every UPDATE writes its rows one at a time, in any order, with the index checked after each row |
| `ArtworkTypes`, `ArtworkQueue`, `ArtworkProtocol` | the artwork queue as a table and as a protocol of concurrent workers, enqueuers and purgers |
| `ArtworkPrune` | image rows, item links and the prune with its grace period, in every interleaving |
| `ArtworkStreaming` | cursors by chunks of ids, hydration by batches, and consumers that stop when they like |
| `LyricsTypes`, `LyricsTrim`, `LyricsPieces`, `LyricsLyricsfile`, `LyricsVoices`, `LyricsLrc`, `LyricsTtml`, `LyricsNormalize` | byte-exact word cues through trimming, merging and joining; white-space collapse across pieces; voice assignment; cue ends |
| `FtsIndex` | the contentless full-text index and the triggers that keep it |
| `Maintenance` | remapping a missing file, and the garbage collection after it |
| `Sequences`, `Wrappers` | batching and flattening, optional values and results |

Operations that change state are classes and methods; each is proved against functions on plain values,
and the theorems are about those functions. Database errors are results of the operations, inputs that say which call
fails, or choices an operation makes at any point unless it is told that none fails. The clock is a parameter.

Where a property a reader would expect is false of the code, the model keeps the code, shows an input on
which it fails, and says when it holds. An exact condition is proved for each of these:

- merging conditions of one tag is exact, for every reading of a test on a value, if and only if they
  agree on the numeric flag (`BatchesFaithfulIff`); the alias `albumtype` of `releasetype` can make them
  differ, and then loses rows (`AliasedTagLosesRow`);
- dropping COALESCE is exact if and only if the value is not one of the text values `ExactValue`
  names (`AnnotationRewriteIff`); a rule with several fields loses the default altogether, which is right
  if and only if `BareIsExact` holds (`BareColumnIff`), and for a pattern rule if and only if the default
  does not match (`BareLikeIff`): "contains 0" loses the files without a play count, "contains abc" none
  (`ContainsRuleIff`);
- a period rule with several fields takes the one that the iteration over a map meets first, so its rows
  depend on that order whenever it can start with different fields (`PeriodOrderIff`);
- a refreshed playlist is up to date when the run is over, whatever the rules and the failures, if no cycle
  of references passes through it (`AcyclicIsConsistent`), and only then: on every cycle of every graph
  there are rules with which each run without failures from its first playlist leaves the last one out of
  date (`RefreshCycle`);
- reordering fails, in every row order, if and only if a shifted row meets the sentinel -999999
  (`Reorder`, `ReorderBound`);
- appending to a playlist of 2147483647 tracks wraps to position -2147483648 (`Add`);
- a worker's outcome applies right after a fresh request if and only if the request was stamped with the
  very time the worker saw (`StaleOutcomeIff`, `RepeatedReadingLosesRequest`), and over a whole run has no
  effect at any moment if and only if no step writes that time into the row again (`RunSupersededIff`);
- the cue of an empty word names one byte that is not its own (`WordCueExactIff`);
- TTML cues are placed by the lengths of pieces that are sanitized a second time. A cue is cut from its
  own piece's bytes, and these are its text, if and only if the second pass keeps the length of what comes
  before the piece and the piece itself (`OverItsOwnTextIff`); it then holds its own text in the finished
  line (`PlacedCueHoldsItsText`). An ampersand escaped twice loses the cue after it
  (`DoubleEscapeLosesCue`) and leaves the cue before it alone (`LaterEscapeIsHarmless`). A misplaced cue
  can still hold equal text by coincidence, where the line repeats itself;
- normalizing a document's cue ends twice is not the same as once if and only if some line does not settle
  (`LinesIdempotentIff`): its last cue has no end, no start follows it, and the first pass takes the line's
  end from its cues (`LastCueWithoutEndDoesNotSettle`);
- a cursor that fails drops the rows buffered for hydration, so batches equal single rows exactly when
  the failure falls on a batch boundary or past the point where the consumer stops
  (`BatchedIffRowByRow`);
- an image on its way to its link survives a prune if and only if the stamp that landed last is not older
  than the cutoff (`UnlinkedSurvivesIff`), so a late link (`LateLinkDangles`), or two writes whose stamps
  land out of order (`OutOfOrderStampsDangle`), can name a purged image.

For voices, the lines taken for busy are those that sound, at every start, if and only if no released
line comes back (`BusyIsSoundingIff`), and that is enough for no two overlapping lines to share a voice
(`GreedyIsConflictFree`); ordered starts are the usual case. It is not necessary: a line that comes back
can conflict (`UnorderedStartsConflict`) and need not (`ComeBackWithoutConflict`). The exact condition is
that no line that comes back meets its own voice (`ConflictFreeIff`), which depends on the voices the
lines in between took and so has no form in the times of the two lines alone.

## Model

| member | source | states |
|---|---|---|
| `CriteriaMerge.CollectGroups` | persistence/criteria_sql.go:506-530 | the grouping loop leaves, for every tag and role, exactly the positions and tests of its conditions of the wanted polarity, in order |
| `CriteriaMerge.MergeSameFieldConds` | persistence/criteria_sql.go:495-567 | the result is the conditions of fields with fewer than two mergeable ones, in order, followed by the batches of every other field, each field once and the fields in sorted order; merged is reported if and only if some field merged |
| `CriteriaMergeMeaning.MergePreservesMeaning` | persistence/criteria_sql.go:556-566 | inside OR, and inside AND by De Morgan, the merged list has the same truth value as the original on every row, U included, when each tag has one numeric flag |
| `CriteriaMergeMeaning.MergeJsonConds` | persistence/criteria_sql.go:476-481 | the merged OR has the truth value of the OR of its conditions on every row, when each tag has one numeric flag |
| `CriteriaMergeMeaning.MergeNegatedJsonConds` | persistence/criteria_sql.go:485-490 | the merged AND has the truth value of the AND of its conditions on every row, when each tag has one numeric flag |
| `CriteriaMergeMeaning.BatchesFaithfulIff` | persistence/criteria_sql.go:519-528 | a field's batches hit exactly the rows its conditions hit, for every row and every reading of a test on a value, if and only if its conditions agree on the numeric flag |
| `CriteriaMergeMeaning.AliasedTagLosesRow` | model/criteria/fields.go:97-98 | "albumtype is 8 or releasetype is 7", with releasetype numeric, selects a track whose type is written 07 before merging and not after |
| `CriteriaMergeMeaning.EachConditionInOneBatch` | persistence/criteria_sql.go:532-554 | a field with N >= 2 mergeable conditions gets ceil(N/350) batches of at most 350, which hold its tests once each and in order; any other field gets none |
| `CriteriaMergeMeaning.GroupsHit` | persistence/criteria_sql.go:571-624 | a batched group is hit by exactly the rows that one of its tests hits |
| `CriteriaCompile.AnnotationRewriteIff` | persistence/criteria_sql.go:719-759 | the bare comparison with its optional IS NULL selects the rows the COALESCE form selects, whatever the column holds, if and only if the value is not one of the listed texts; numbers and booleans always are exact |
| `CriteriaCompile.BareColumnIff` | persistence/criteria_sql.go:637-655 | a rule with several fields uses bare columns, which for a defaulted column selects the same rows, whatever it holds, if and only if the default fails the comparison and no text stands for a number: for lists under IN and NOT IN, for nulls and for single values |
| `CriteriaCompile.ComparisonExpr` | persistence/criteria_sql.go:699-717 | a comparison compiles if and only if it is valid, and for every value, exact or not, its condition is true on exactly the rows stated: one defaulted column with the default for NULL and a numeric text read as its number, several fields bare; these are the rows it describes if its values are exact; on a tag or role "is not" means that no value equals |
| `CriteriaCompile.NumberRuleSelects` | persistence/criteria_sql.go:670-759 | what each of the six operators selects from a column of numbers, written with < and =: the default standing for NULL on a defaulted column, NULL never selected on another, a text that reads as the number as good as the number |
| `CriteriaCompile.BooleanRuleSelects` | persistence/criteria_sql.go:738-747 | "is" and "is not" on a boolean column select by its value, the default standing for NULL |
| `CriteriaCompile.RangeExpr` | persistence/criteria_sql.go:293-316 | a range compiles if and only if it is a pair on a column, and selects the rows that meet both bounds, for every value as a comparison does; the rows between them, with the default standing for NULL, if the bounds are exact |
| `CriteriaCompile.LikeExpr` | persistence/criteria_sql.go:256-284 | a pattern rule compiles if and only if it is valid, and selects the rows that match all its fields, the default standing for NULL; with several fields it selects the rows whose columns all match, which are the same if no default matches its own pattern |
| `CriteriaCompile.PatternSelects` | persistence/criteria_sql.go:256-291 | LIKE selects the values that match and NOT LIKE those that do not; NULL is selected by neither, unless a default stands for it |
| `CriteriaCompile.BareLikeIff` | persistence/criteria_sql.go:261-271 | for every reading of LIKE, in which NULL is unknown, the bare LIKE or NOT LIKE of a rule with several fields selects the rows of a defaulted column, whatever it holds, if and only if the default does not match |
| `CriteriaCompile.ContainsRuleIff` | persistence/criteria_sql.go:256-284 | "title and play count contain v", for a text v without wildcards, selects what it describes if and only if v is neither empty nor "0" |
| `CriteriaCompile.PeriodExpr` | persistence/criteria_sql.go:318-341 | inTheLast and notInTheLast compile if and only if every field is a column and the days of the field met first are a number, and select by that field the rows after the first date, or before it or without a date |
| `CriteriaCompile.PeriodOrderIff` | persistence/criteria_sql.go:323-328 | two iteration orders of the rule's fields select the same rows if and only if they start with the same field |
| `CriteriaCompile.MissingExpr` | persistence/criteria_sql.go:208-254 | isMissing and isPresent compile if and only if the field can be missing, and select the rows whose value is absent or present |
| `CriteriaCompile.TagAndRoleSelect` | persistence/criteria_sql.go:393-473 | a tag rule looks at the tag's values, as numbers if it is numeric, a role rule at the role's names: some value passes, or none does; a missing rule asks for no value at all |
| `CriteriaCompile.MissingIsAbsent` | persistence/criteria_sql.go:236-250 | the OR of NULL and the empty encodings is true exactly on absent values, and the AND of their negations exactly on the others |
| `CriteriaCompile.ExprSQL` | persistence/criteria_sql.go:140-198 | for every rule tree, at every depth, compilation succeeds if and only if the tree is valid; if each tag has one numeric flag, the compiled condition is true on exactly the rows that the tree selects, whatever its values, and on exactly the rows on which the tree is true wherever no leaf is one that the rewrites change or that loses a matching default |
| `CriteriaCompile.SelectsMeaning` | persistence/criteria_sql.go:140-198 | at every depth a valid tree selects the rows on which it is true, wherever it is exact |
| `SmartPlaylistRefresh.Refresher.RefreshTree` | persistence/smart_playlist_repository.go:26-86 | terminates on every reference graph, attempts each playlist at most once and closes every attempt it opens; its log says all it changes: the tracks and evaluation times after the call are those before it changed by the attempts in the log, and playlists visited before are not among them; true is returned exactly when the playlist was stamped |
| `SmartPlaylistRefresh.Refresher.RefreshChildPlaylists` | persistence/smart_playlist_repository.go:106-148 | unless loading fails, every referenced playlist has finished its attempt or is still open further up the chain |
| `SmartPlaylistRefresh.RefreshSmartPlaylist` | persistence/smart_playlist_repository.go:21-23 | over a whole run every playlist visited has one attempt; only playlists that are smart, the user's own and due by the clock reading of their attempt lose or change tracks; without failures each one that is due is filled and stamped, whatever the others are; the final tracks and evaluation times are those of the attempts, and true is returned exactly when the root was stamped |
| `SmartPlaylistRefresh.Refresher.StoreTracks` | persistence/smart_playlist_repository.go:57-82 | stores what the rules select from the tracks at that moment and then the evaluation time, as far as no call fails; everything else stays |
| `SmartPlaylistRefresh.DueIff` | persistence/smart_playlist_repository.go:90-103 | the test of the code is: smart, the user's own, and never evaluated or evaluated at least the delay ago |
| `SmartPlaylistRefresh.LeftByAttempt` | persistence/smart_playlist_repository.go:40-82 | with one attempt per playlist, each leaves its playlist what it stored, or nothing when it failed after the deletion, and its own evaluation time |
| `SmartPlaylistRefresh.AcyclicReferencesFinished` | persistence/smart_playlist_repository.go:47-51 | whenever the tracks of a playlist on no cycle are computed, every playlist it references has finished its attempt, whatever cycles other playlists are on |
| `SmartPlaylistRefresh.AcyclicIsConsistent` | persistence/smart_playlist_repository.go:14-18 | when the run is over, the tracks every computation of a playlist on no cycle stored are what its rules select from the final tracks of the playlists it references |
| `SmartPlaylistRefresh.UnfinishedIsOnCycle` | persistence/smart_playlist_repository.go:25-31 | a reference that had not finished starts a cycle of references that ends in the playlist: only a cycle can cause it |
| `SmartPlaylistRefresh.CycleIsStale` | persistence/smart_playlist_repository.go:33-68 | when a run from the first playlist of a cycle stored all it visited, the last playlist was computed while the first had no tracks, and is out of date in the end, in every reference graph |
| `SmartPlaylistRefresh.RefreshCycle` | persistence/smart_playlist_repository.go:21-86 | the refresh itself, run without failures from the first playlist of any cycle on playlists that are all due, leaves the last one out of date, in whatever order it takes the references |
| `PlaylistPositions.RemoveTracks` | model/playlist.go:85-95 | the in-memory list keeps exactly the tracks whose index is not listed, in order |
| `PlaylistPositions.ReorderSteps` | persistence/playlist_track_repository.go:298-329 | the four position changes composed carry the list to the list with one element moved |
| `PlaylistPositions.MovedIsPermutation` | persistence/playlist_track_repository.go:281-283 | moving an element loses and duplicates nothing, puts it at the target, and leaves the others in their order |
| `PlaylistTracks.PlaylistTable.WriteRows` | persistence/playlist_track_repository.go:299-329 | row by row in any order, an UPDATE that can meet no occupied position succeeds and moves every row, one that must meet a row it does not move fails, and a failure changes nothing |
| `PlaylistTracks.PlaylistTable.Update` | persistence/playlist_track_repository.go:209-216 | an UPDATE of one playlist changes its positions by the SET function on the rows of the WHERE, says whether there were any, and leaves other playlists alone |
| `PlaylistTracks.PlaylistTable.AddTracks` | persistence/playlist_repository.go:286-307 | succeeds if and only if the positions are free, and then places the accessible ids from the start on, 200 a statement, in order and with duplicates; a collision fails and leaves what the statements before it placed |
| `PlaylistTracks.PlaylistTable.KeepAccessible` | persistence/playlist_repository.go:311-330 | exactly the readable ids, order and duplicates kept |
| `PlaylistTracks.PlaylistTable.Renumber` | persistence/playlist_repository.go:488-511 | any set of positive positions becomes 1..n in the same order, with no collision on the way in any row order |
| `PlaylistRepository.Add` | persistence/playlist_track_repository.go:183-198 | appends the accessible ids; at 2147483647 tracks the 32-bit counter wraps, the ids land from position -2147483648 on before all others and the playlist is no longer numbered from 1, unless they reach position 1 and fail; past that length the read fails |
| `PlaylistRepository.Insert` | persistence/playlist_track_repository.go:202-227 | the accessible ids from index pos-1 on, first for positions up to 1, last past the end, with the hole of filtered ids closed; at the 32-bit limit an append lands from position -2147483648 on, or the read fails, as for Add |
| `PlaylistRepository.InsertLands` | persistence/playlist_track_repository.go:202-227 | where inserted ids land and what stands before and after them, for every position |
| `PlaylistRepository.Reorder` | persistence/playlist_track_repository.go:283-330 | moves the element to the clamped target and nothing else; fails if and only if the shift meets the sentinel, whatever the row order; a position outside the list is not found |
| `PlaylistRepository.MoveLands` | persistence/playlist_track_repository.go:281-293 | a moved track ends at its new position, first for a smaller one, last for a larger one, and nothing is lost |
| `PlaylistRepository.ReorderTrack` | core/playlists/playlists.go:318-325 | inside its transaction a reorder either moves the element or changes nothing |
| `PlaylistRepository.ReorderBound` | persistence/playlist_track_repository.go:298-329 | every reorder of a list of up to 999998 tracks succeeds, and at 999999 one fails: the bound is tight |
| `PlaylistRepository.Delete` | persistence/playlist_track_repository.go:262-270 | deleting any positions in chunks and renumbering once leaves the other tracks, in order, at 1..n |
| `PlaylistRepository.DeleteIsRemoveTracks` | persistence/playlist_track_repository.go:262-270 | the tracks a delete keeps are those the in-memory RemoveTracks keeps |
| `PlaylistRepository.DeleteAll` | persistence/playlist_track_repository.go:272-279 | leaves the empty list and touches no other playlist |
| `PlaylistRepository.UpdatePlaylist` | persistence/playlist_repository.go:272-282 | replaces the list by the accessible ids |
| `PlaylistRepository.RemoveOrphans` | persistence/playlist_repository.go:452-483 | over any table of positive positions, gaps or not, a playlist with orphans ends at 1..n with its existing tracks in order, and every other playlist is unchanged |
| `PlaylistRepository.PositionedIffPositive` | persistence/playlist_repository.go:485-488 | every playlist of a table has an order of its tracks if and only if all positions are positive |
| `PlaylistRepository.Run` | persistence/playlist_track_repository.go:183-330 | over any run of replace, add, insert, delete, clear and reorder, by users with different access on different playlists, and of orphan removal, every playlist numbered 1..n stays so, and every playlist of the table holds what the same run makes of plain lists |
| `ArtworkQueue.QueueTable.Insert` | persistence/artwork_queue_repository.go:151-164 | chunks of 100 give what the upserts give one by one; per key: Enqueue leaves the stamp as enqueued_at and retry_at, no attempts, an empty trace and the largest of the old priority and those of all mentions; EnqueuePreservingBackoff raises the priority so and changes nothing else; keys not mentioned keep their rows |
| `ArtworkQueue.UpsertedKey` | persistence/artwork_queue_repository.go:46-64 | the same of the upserts one by one, for every list of items |
| `ArtworkQueue.QueueTable.EnqueueIfMissing` | persistence/artwork_queue_repository.go:71-103 | exactly the unresolved items that were not queued are added, due at once, without attempts, each with the priority of its first mention; queued rows stay |
| `ArtworkQueue.QueueTable.DequeueBatch` | persistence/artwork_queue_repository.go:166-177 | up to n due rows of the kinds asked for, largest priority first, then longest queued; no row left out comes before one returned, and fewer than n only when nothing due is left |
| `ArtworkQueue.QueueTable.MarkFailedIfUnchanged` | persistence/artwork_queue_repository.go:179-187 | one attempt more, the new retry_at and trace, if and only if retry_at is the one seen; every other row and field stays |
| `ArtworkQueue.QueueTable.DeleteIfUnchanged` | persistence/artwork_queue_repository.go:189-191 | the row goes if and only if its retry_at is the one seen; every other row stays |
| `ArtworkProtocol.RunKeepsInv` | persistence/artwork_queue_repository.go:48-57 | in every interleaving in which no retry_at that was read from a row is written into it again, attempts equals the failures applied since the row was last inserted or freshly enqueued, and no settled version is current |
| `ArtworkProtocol.FreshRequestSurvives` | persistence/artwork_queue_repository.go:179-191 | once Enqueue touches a row after a worker read it, with a stamp taken at any time that no worker has read from the row, that worker's later outcome has no effect, however the run goes on, delete and re-insert included |
| `ArtworkProtocol.ClockedRequestSurvives` | persistence/artwork_queue_repository.go:151-191 | the same from the clock alone, the request being a clocked step and what follows a clocked run |
| `ArtworkProtocol.AtMostOneOutcome` | persistence/artwork_queue_repository.go:179-191 | of any number of workers holding one row version at most one outcome is ever applied |
| `ArtworkProtocol.VersionSettledOnce` | persistence/artwork_queue_repository.go:179-191 | a version an outcome was applied to never becomes current again in the rest of the run |
| `ArtworkProtocol.PriorityNeverDecreases` | persistence/artwork_queue_repository.go:48-57 | while a row stays, its priority does not go down |
| `ArtworkProtocol.ClockedRunIsLegal` | persistence/artwork_queue_repository.go:151-177 | a clock that does not run back, every Enqueue stamped after the last reading of the rows it writes, however much later its statements land, and failures put off into the future are enough: no retry_at that was read is written again |
| `ArtworkProtocol.WritesOnceIsLegal` | persistence/artwork_queue_repository.go:151-177 | with no assumption on the clock: if no retry_at is ever written into a row twice, no retry_at that was read is written again |
| `ArtworkProtocol.StaleOutcomeIff` | persistence/artwork_queue_repository.go:151-164 | right after a fresh enqueue an outcome still applies if and only if the stamp is the very time the worker saw |
| `ArtworkProtocol.StepSupersededIff` | persistence/artwork_queue_repository.go:179-191 | whatever the step, a superseded copy stays superseded, deletion and re-insertion of its row included, if and only if the step does not write the retry_at it saw |
| `ArtworkProtocol.RunSupersededIff` | persistence/artwork_queue_repository.go:179-191 | over every run, legal or not, a superseded copy stays without effect at every moment if and only if no step writes that retry_at into its row again |
| `ArtworkProtocol.RepeatedReadingLosesRequest` | persistence/artwork_queue_repository.go:151-191 | a row due since 5 is read at 6, an Enqueue stamped 5 lands after it, and the worker deletes the fresh request |
| `ArtworkPrune.ArtworkTables.PurgeOrphans` | persistence/artwork_repository.go:76-82 | removes exactly the images older than the cutoff that no item names, and counts them |
| `ArtworkPrune.ArtworkTables.DeleteForItems` | persistence/artwork_repository.go:152-159 | removes exactly the rows of the kind with a listed id, 200 a statement |
| `ArtworkPrune.ArtworkTables.PurgeDanglingItems` | persistence/artwork_repository.go:93-112 | removes exactly the rows whose owner is gone, one statement per kind |
| `ArtworkPrune.NoRunDangles` | core/artwork/prune.go:11-45 | in every interleaving of image writes, in any order of stamps, links, unlinks and prunes with a cutoff one grace period old, no item names a purged image if each link follows a write of its image such that it and the writes landed since are within that period |
| `ArtworkPrune.NeverDangles` | core/artwork/prune.go:11-45 | started on empty tables at any time, no run has at any moment an item that names a purged image |
| `ArtworkPrune.StepKeepsInv` | persistence/artwork_repository.go:44-159 | each single write, link, unlink or prune keeps it that no item dangles and every young write has its image |
| `ArtworkPrune.UnlinkedSurvivesIff` | persistence/artwork_repository.go:44-58 | an image on its way to its link survives a prune if and only if its stamp is not older than the cutoff |
| `ArtworkPrune.LateLinkDangles` | core/artwork/prune.go:36-38 | one tick past the grace period a prune can take the image: the bound is tight |
| `ArtworkPrune.OutOfOrderStampsDangle` | persistence/artwork_repository.go:45-56 | when an older stamp of one image lands after a younger one, the younger write's link can name a purged image within its own grace period |
| `ArtworkPrune.KeptStampDangles` | persistence/artwork_repository.go:51-55 | if a rewrite did not reset created_at, an image written again just before its link could be purged |
| `ArtworkStreaming.StreamByIDs` | persistence/artwork_hydration.go:21-37 | a consumer receives the rows of the chunks in order until it stops, or an error and nothing after it |
| `ArtworkStreaming.PassIs` | persistence/artwork_hydration.go:21-37 | a consumer receives the events in order up to the first it refuses or that is a failure, and nothing after it |
| `ArtworkStreaming.StreamEventsAre` | persistence/artwork_hydration.go:21-37 | the stream is the rows of the chunks in order, and the error of the first chunk that fails, after which nothing comes |
| `ArtworkStreaming.StreamIsOneQuery` | persistence/album_repository.go:306-315 | streaming a page by ids is the same page of an answer to the one query, ties in any order; with no ties it is the very same rows in the same order |
| `ArtworkStreaming.PageAt` | persistence/album_repository.go:306-315 | row k of a page is row offset + k, there while that is a row and k is under the limit; an offset or a limit that is not positive does not count |
| `ArtworkStreaming.StreamResorts` | persistence/artwork_hydration.go:41-54 | chunks sorted on their own, with Max and Offset dropped, bring exactly the rows of the id pre-pass in an order the query allows |
| `ArtworkStreaming.HydrateCursor` | persistence/artwork_hydration.go:138-166 | a consumer receives full batches, then the rest or the error, until it stops |
| `ArtworkStreaming.BatchedIffRowByRow` | persistence/artwork_hydration.go:151-164 | for every consumer the batched cursor gives what row-by-row hydration gives if and only if there is no error, or it falls on a batch boundary, or the consumer stops before the dropped rows |
| `ArtworkStreaming.GetInfoForItems` | persistence/artwork_repository.go:161-181 | one query per 200 ids gives exactly the stored images of the ids asked for; there is no answer if and only if one of the queries fails |
| `ArtworkStreaming.HydrateItems` | persistence/artwork_hydration.go:58-90 | one lookup for a batch gives each item what its own lookup would; the items stay as they are if and only if one of its queries fails |
| `LyricsLyricsfile.WordsToLineCues` | model/lyrics_lyricsfile.go:239-283 | one cue per word over the concatenated words, a missing end filled from the next word |
| `LyricsLyricsfile.WordCueExactIff` | model/lyrics_lyricsfile.go:252-260 | a cue's byte range names its word if and only if the word is not empty |
| `LyricsLyricsfile.WordCuesTile` | model/lyrics_lyricsfile.go:250-274 | with no empty word the cues are exact, ordered, disjoint and cover the whole line |
| `LyricsLyricsfile.BuildLyricsfileLines` | model/lyrics_lyricsfile.go:110-198 | each line takes the lowest voice free at its start; agents are listed if and only if some line needed a second voice and some line has words, and otherwise cues carry none; a line ends at its own end, else its last word's, else the next start, and gives its voice back then |
| `LyricsVoices.BusyIsSoundingIff` | model/lyrics_lyricsfile.go:133-138 | the lines taken for busy are exactly those that sound, at every start, if and only if no line once released sounds again at a later start |
| `LyricsVoices.GreedyIsConflictFree` | model/lyrics_lyricsfile.go:133-172 | if no released line comes back, no voice is given to two lines of which the earlier ends after the later starts |
| `LyricsVoices.ConflictFreeIff` | model/lyrics_lyricsfile.go:133-172 | for any starts, two overlapping lines share a voice exactly where a line that comes back meets its own voice |
| `LyricsVoices.OrderedStartsNoComeBack` | model/lyrics_lyricsfile.go:133-138 | with starts in order no released line comes back |
| `LyricsVoices.GreedyIsOptimal` | model/lyrics_lyricsfile.go:133-172 | when no released line comes back, ordered starts being the usual case, the voices used equal the most lines that sound at once, so no conflict-free assignment uses fewer |
| `LyricsVoices.UnorderedStartsConflict` | model/lyrics_lyricsfile.go:133-139 | with starts out of order the greedy assignment can put overlapping lines on one voice |
| `LyricsVoices.ComeBackWithoutConflict` | model/lyrics_lyricsfile.go:140-149 | a line that comes back does not conflict when another line holds its voice in between |
| `LyricsTrim.TrimSpaceIsRange` | model/lyrics_ttml.go:526-533 | trimming both ends of a UTF-8 text keeps exactly the bytes between the two ends found independently, for every byte string |
| `LyricsTrim.TrimSpaceEnds` | model/lyrics_ttml.go:526-533 | no white-space rune of any width is left at either end |
| `LyricsTrim.TrimTakesSpace` | model/lyrics_ttml.go:526-533 | what is taken off at either end is white-space runes and nothing else |
| `LyricsTrim.SpaceIffRune` | model/lyrics_ttml.go:526-533 | the bytes taken for white space are exactly the UTF-8 encodings of the runes that unicode.IsSpace accepts |
| `LyricsPieces.LineCuesExact` | model/lyrics_ttml.go:534-550 | every cue cut to the trimmed line names exactly its own bytes, in bounds, in order, disjoint, whatever the raw text |
| `LyricsPieces.LineCuesTile` | model/lyrics_lrc.go:313-328 | when every piece is timed the cues leave no byte of the trimmed line out |
| `LyricsPieces.CueHoldsItsPiece` | model/lyrics_lrc.go:313-328 | when the raw text is the pieces' own, every timed piece has its cue, in order, with its own times and its own text less what the trim took, and none only when nothing is left |
| `LyricsLrc.ParseEnhancedLine` | model/lyrics_lrc.go:243-335 | for every text and every list of markers, the cues are exact and tile the line value completely; a marker with nothing after it ends the last word |
| `LyricsLrc.MarkersCutText` | model/lyrics_lrc.go:243-311 | the text before the first marker and each marker with the word after it, put together, are the whole text: no byte is missing and none is in two words |
| `LyricsLrc.StrippedLength` | model/lyrics_lrc.go:348-352 | a text without its markers is short of their bytes only |
| `LyricsLrc.MergeBgLayers` | model/lyrics_lrc.go:207-229 | merging any number of background layers keeps every cue exact; layers without cues are left out, and merged is reported if and only if some layer has cues |
| `LyricsLrc.MergedExact` | model/lyrics_lrc.go:207-229 | the line's own text and cues come first in the merged line, unchanged |
| `LyricsLrc.ShiftELRCCues` | model/lyrics_lrc.go:360-377 | every time moves by the offset, and nothing else changes |
| `LyricsLrc.FlushLine` | model/lyrics_lrc.go:53-68 | one line per timestamp, each with the same value and exact cues, moved in time with the line |
| `LyricsTtml.CollapseTTMLWhitespace` | model/lyrics_ttml.go:568-587 | the loop computes the collapse of the text |
| `LyricsTtml.CollapseConcat` | model/lyrics_ttml.go:492-518 | collapsing piece by piece with the carried flag is collapsing the concatenation |
| `LyricsTtml.CollapseIdempotent` | model/lyrics_ttml.go:555-566 | collapsed text is left alone |
| `LyricsTtml.SplitTTMLPiecesByBreak` | model/lyrics_ttml.go:492-518 | every logical line gets the pieces that collapsing the whole line would give it, empty ones left out |
| `LyricsTtml.KeptIsCollapse` | model/lyrics_ttml.go:492-518 | however a logical line is split into pieces, their texts together are the collapse of the whole line with its leading space dropped |
| `LyricsTtml.OverItsOwnTextIff` | model/lyrics_ttml.go:520-548 | a cue is cut from exactly its own piece's bytes of the line, and these are its text, if and only if the second normalization keeps the length of what comes before the piece and the piece itself |
| `LyricsTtml.PlacedCueHoldsItsText` | model/lyrics_ttml.go:534-550 | such a piece has its cue among the finished line's, with its own times and its own text less what the trim took, and none only when nothing is left |
| `LyricsTtml.StableIsPlaced` | model/lyrics_ttml.go:520-521 | when normalizing changes no piece, that holds of every piece |
| `LyricsTtml.LaterEscapeIsHarmless` | model/lyrics_ttml.go:536-550 | an escaped ampersand after a timed word leaves the word's cue in place, although it changes the line |
| `LyricsTtml.DoubleEscapeLosesCue` | model/lyrics_ttml.go:536-550 | an ampersand escaped twice before a timed word loses the word's cue |
| `LyricsTtml.LineIsCollapsedText` | model/lyrics_ttml.go:520-533 | when normalizing changes no piece, a logical line's raw text is the collapse of its whole text |
| `LyricsTtml.SanitizedOnceHoldsCues` | model/lyrics_ttml.go:492-553 | when the sanitizer leaves the kept pieces of a logical line alone, the line is the collapse of its text and every timed piece has its own cue in it |
| `LyricsTtml.FinalizeTTMLLogicalLine` | model/lyrics_ttml.go:520-553 | the text is the trimmed line and every cue is exact in it, whatever the sanitizer does |
| `LyricsTtml.BuildTTMLLineFromPieces` | model/lyrics_ttml.go:445-476 | the value is the logical lines joined by newlines, blank ones dropped at both ends only, and every cue stays exact |
| `LyricsNormalize.NormalizedAllOrNone` | model/lyrics_normalize.go:129-133 | ends are there for all cues or for none, none exactly when some cue has no end, no next start and no fallback, and nothing but ends changes |
| `LyricsNormalize.NormalizedOrder` | model/lyrics_normalize.go:153-158 | an end never precedes its start, and stays within the next start if and only if the cue's own start does |
| `LyricsNormalize.NormalizedFills` | model/lyrics_normalize.go:144-160 | an end is the cue's own, else the next start, else the fallback, moved only to the bound it crosses |
| `LyricsNormalize.NormalizedIdempotent` | model/lyrics_normalize.go:138-171 | normalizing again with the same fallback changes nothing |
| `LyricsNormalize.NormalizeCueEnds` | model/lyrics_normalize.go:138-171 | the two loops compute the normalized cues |
| `LyricsNormalize.NormalizeCueEndsByAgent` | model/lyrics_normalize.go:97-127 | restricted to any one agent the result is that agent's cues normalized alone, in their old places |
| `LyricsNormalize.AgentsDoNotInterfere` | model/lyrics_normalize.go:92-96 | an agent's ends depend on no other agent's cues |
| `LyricsNormalize.ByAgentUnique` | model/lyrics_normalize.go:97-127 | the cues and the fallback determine the by-agent result |
| `LyricsNormalize.ByAgentIdempotent` | model/lyrics_normalize.go:97-127 | normalizing a by-agent result again changes nothing |
| `LyricsNormalize.NormalizeLineTiming` | model/lyrics_normalize.go:45-82 | a line without times takes the earliest start and the latest end of its cues, and keeps those it has |
| `LyricsNormalize.NormalizeCueLines` | model/lyrics_normalize.go:17-43 | every line is normalized with its own end, else the next line's start, else nothing, to fall back to |
| `LyricsNormalize.LinesIdempotentIff` | model/lyrics_normalize.go:17-43 | normalizing a document again changes nothing if and only if every line keeps its ends, or loses them with no time left in it or at the start of the next line |
| `LyricsNormalize.LastCueWithoutEndDoesNotSettle` | model/lyrics_normalize.go:30-39 | a last line whose only cue starts and has no end changes on the second pass |
| `FtsIndex.ProjectionsAgree` | db/repair.go:205-366 | the bulk insert, the insert trigger, the delete trigger and both halves of the update trigger project every row of every table to the same document |
| `FtsIndex.GuardIsSound` | db/repair.go:254-266 | a row the update guard skips has the same indexed document before and after, for all three tables |
| `FtsIndex.DeleteFeedsWhatWasIndexed` | db/repair.go:243-251 | the texts that the delete trigger and the update trigger hand to the 'delete' command are exactly those indexed for the row, each once |
| `FtsIndex.IndexedTable.UpdateRow` | db/repair.go:254-282 | an update keeps the index equal to the table's, whether or not the guard fires |
| `FtsIndex.IndexedTable.Run` | db/repair.go:231-366 | after every run of inserts, updates and deletes the index holds each posting a bulk insert gives each row, once, and nothing else |
| `FtsIndex.RowIsFound` | db/repair.go:205-229 | a faithful index holds of every row, column by column, exactly the tokens of its own texts at their places: plain columns nothing when NULL, coalesced ones what the empty text gives, albums the versions in their tags |
| `FtsIndex.IndexedTable.RebuildFTS` | db/repair.go:145-176 | a rebuild that does not fail makes any index right and leaves one kept by the triggers as it is; one that fails changes nothing |
| `Maintenance.UpdateOrIgnore` | persistence/sql_annotations.go:189-193 | visiting the rows in any order, each user's row moves unless they have one on the new item, which then wins and leaves theirs behind; all other rows stay |
| `Maintenance.AnnotationsAfter` | core/maintenance.go:79-120 | after remap and collection each user has on the survivor their own annotation, else the discarded file's, and none on the discarded file; other files keep theirs |
| `Maintenance.AlbumAnnotationsAfter` | core/maintenance.go:96-108 | when the old album is left empty each user has on the new album their own annotation, else the old album's |
| `Maintenance.BookmarksAfter` | persistence/sql_bookmarks.go:148-165 | the same for bookmarks |
| `Maintenance.PlaylistAfter` | persistence/mediafile_repository.go:418-421 | a playlist keeps its length and order with the survivor in the discarded file's places if and only if all its tracks existed, and never names the discarded file |
| `Maintenance.RenamedAt` | persistence/mediafile_repository.go:418-421 | every playlist has the survivor wherever it had the discarded file, and is otherwise as it was |
| `Maintenance.BufferAfter` | persistence/mediafile_repository.go:426-430 | every buffered play is there once under the survivor's id |
| `Maintenance.BufferedPlay` | persistence/mediafile_repository.go:426-430 | a buffered play moves to the survivor, and stays where it was too only when the survivor had it already |
| `Maintenance.RatingsKept` | persistence/sql_annotations.go:194-195 | the ratings the survivor's average was computed from are those it has after the transaction and after every stage of the collection |
| `Maintenance.Library.RemapMissingFile` | core/maintenance.go:56-120 | a remap that is not refused is done unless a statement fails; refused remaps and failed transactions change nothing; a committed one leaves every reference on the survivor, which has the target's content, the missing file's creation time and an average that is up to date, and every table as far collected as the stage reached says; the new album takes the average of its ratings after the move and the old one's age when that is left empty |
| `Maintenance.Library.GC` | persistence/persistence.go:180-213 | the stages run up to the one that fails, or all; after each number of stages, which albums, artists, annotations, bookmarks and playlist tracks are left; after all of them exactly the albums with tracks, the artists they credit, and the annotations of what exists |

## Left out

- SQL text: conditions and statements are modelled by what they mean, not by the strings built for them; placeholders, JSON columns and SQLite's own errors are not part of this model. A comparison that the query builder refuses to render, such as an ordering with a list, selects nothing here.
- CriteriaCompile.PeriodExpr: the first dates are inputs, and the fields come in the order in which the loop over the map meets them. A rule that names one column twice, by an alias or by letter case, is not modelled; the code keeps an arbitrary one of its values.
- CriteriaCompile.ExprSQL: whether a file is in a playlist the owner can see is an input of the row.
- Texts that Go reads as a number and SQLite's affinity reads differently, or the reverse; a text has one number reading here.
- applyJoins, orderBy and resolvePercentageLimit of the smart-playlist query: straight-line code with no property across functions; smart-playlist positions can start past 1 when an offset is used.
- SmartPlaylistRefresh.Refresher.RefreshTree: the tracks a playlist's rules select are any function of the tracks of the playlists it references; a database call may fail at any point.
- refreshCounters, float counters, cover rebuild requests and log lines.
- PlaylistRepository.Run: edited lists stay under 2147483647 tracks before each step; what happens at the limit is stated by `PlaylistRepository.Add` and `PlaylistRepository.Insert`.
- CountQueued, CountBySource and other read-only totals of the queue; PurgeQueued and PurgeDangling are the step that removes any set of keys.
- The sweep of image files on disk, and hydrateMediaFileArtwork's choice between a track's own image and its album's.
- XML, YAML and regular expressions: markers, pieces and entries are inputs, as is the sanitizer, which is any function on texts.
- LyricsTtml.CollapseTTMLWhitespace: texts are valid UTF-8, as an XML decoder delivers them; the loop would widen an invalid byte.
- parseTime and TTML clock arithmetic, sorting of repeated LRC lines, agent naming, and xml:space.
- FtsIndex.IndexedTable.Run: rowids are stable, so a VACUUM that renumbers rows is not modelled; tokenizing and album-version extraction are any functions; how a query ranks is not part of this model.
- Maintenance.Library.GC: marking artists missing, empty folders and unused tags are not part of this model; playlists are lists here, and `PlaylistRepository.RemoveOrphans` is what keeps their positions.
- Maintenance.RatingsKept: rounding of the average is any function of the ratings.
