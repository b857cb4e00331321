# Search publication, inverted index, staging and sealed rows: a verified model

This project models the stateful core of the sync enclave in Dafny and proves what its
protocols and data structures keep over every run.

* **Publication protocol** (`Controlplane`, `Protocol*`). One user's chat rows with their
  revision counter, the bucket of immutable index objects, the publication record, each
  replica's index cache and lock, and any number of writers: inline pushes, delete
  cleanups, paged and resumable rebuilds, embedding repairs, key-change resets. Every remote
  call is a step; answers may be lost, stores may fail or land unnoticed, replicas may crash.
* **Inverted index** (`InvertedIndex`, `IndexCodec`, `SearchRanking`, `SearchOrder`,
  `Corpus*`). The slot table with tombstones, posting lists and compaction; the decoder with
  its bounds; ranking and fusion; and how a published index answers over the live corpus.
* **Resource state machines** (`SearchCache`, `InferenceGate`, `Staging`, `ArchiveReader`,
  `Chunker`).
* **Sealed rows** (`Aad`, `Base64`, `OpHash`, `Envelope`, `SealedRow`).

`dafny verify dfyconfig.toml` checks everything.

## Main results

1. A publication marked complete is true (`CompletePublicationIsTrue`), and complete with
   published = source means exactly the live corpus. The hypotheses this needs are among seven
   switches of a deployment, and `CoverageHoldsExactlyWhenSound` shows the needed ones are
   exactly necessary: for every setting, the claim holds in all runs if and only if `Sound`
   holds of it. Each dropped switch has a concrete run that breaks the claim:
   * a delete of an absent chat that answers the current counter instead of 0, as the in-memory
     controlplane does, claims another chat's revision (`MissedDeleteBreaks`);
   * with rebuilds, writers on replicas that do not share the per-user lock: a delete checks
     for its row once, before its retry loop (`OtherReplicaBreaks`);
   * with rebuilds, a re-seal between a page's fetch and its merge is skipped without being
     counted (`RewrapRaceBreaks`);
   * with rebuilds, a page that gives up after editing leaves its edits in the cache, and the
     next push publishes them as complete (`AbandonedPageBreaks`);
   * with rebuilds, a first page that cannot read the object of a newer complete publication
     starts from nothing and keeps that publication's revision; the code guards only pages with
     a cursor (`UnreadableNewerBreaks`).
2. In every deployment, whatever fails, the object the record names is in the bucket
   (`PublishedObjectExists`), and its completeness flag is the record's (`FlagsAgree`). Two
   writers can return after editing the cached index and before publishing it: a rebuild page
   whose snapshot check fails, and an embedding repair that mended some entries when another
   does not fit. Stamps never go down exactly where pages do not (`StampsRiseExactlyWhenTidy`);
   loads hand out only what was stored exactly where neither does (`LoadsAreFaithfulExactly`).
3. The writers do get there. From every reachable world of every deployment an undisturbed push
   publishes the pushed text, etag and revision on a complete, level publication whether or not
   the chat was indexed before (`PushPublishes`), and when one leaves without publishing is an
   if-and-only-if (`PushLeavesExactly`); key changes and, where edited pages go on to publish,
   deletes and repairs likewise. A rebuild, over any pages and in any fetch and merge order,
   also stopped and taken up by another job, ends with exactly the live chats
   (`RebuildPublishes`, `ResumedRebuildPublishes`); what a page does to each row, whatever
   became of it meanwhile, is `PageMergesExactly`.
4. Any sequence of index mutations, with compactions wherever they fire, stands for the same
   mutations of a plain map from chat id to token set (`Replay`), a stored index decodes to the
   same documents (`StoreReplay`), and search on it gives the one answer the plain map
   determines (`Search`, `AnswerIsUnique`): a result's score is 1/(61+i) + 1/(2(61+j)) in its
   places, a chat that both lists agree to put first comes first, and a keyword query gets the
   keyword list (`ScoreIsByPlace`, `AgreedOrderIsKept`, `KeywordOnlyOrder`). Joined to the
   protocol: in every run each stored, cached or edited index comes with the mutations and
   reloads that build its table, and stands for that table (`EveryIndexIsRealised`); the tables
   can follow every step but one that stores an empty id or a new chat in a full index
   (`TablesFollowExactly`). So on a complete, current publication a query is answered over the
   live corpus (`SearchCorpus`).
5. The decoder's checks do not rule out a repeated live id. For an accepted object every entry
   points back exactly when no live id repeats (`PointsBackIffDistinct`); the repeated case is
   accepted and then panics (`RepeatedIdCrashes`), though no reachable index has it. But for
   that and a per-slot token bound, it accepts exactly the tables the mutators keep
   (`AcceptedExactly`).
6. The gate, the LRU, the staging job and the archive reader keep their bounds in every
   interleaving; a running import reads exactly the flat archive. An undisturbed call gets
   through the gate and gives back all it took, and so does one turned away anywhere
   (`CallGivesBack`, `RefusalGivesBack`). Chunks are packed tightly: no two neighbours could
   have been one (`ChatSearchChunks`).
7. The associated-data, operation-hash, key-material and base64 encodings are injective and
   readable back; an envelope opens exactly for its own row and key (`OpensExactly`), and two
   cannot be spliced (`SplicedOpensExactly`). Under interleaved pushes, pull rewraps,
   migrations and deletes a row holds the contents of the last accepted push if and only if no
   rewrap that read a deleted incarnation of the row has landed since that push, or what the
   last of them sealed is alike anyway (`RowKeepsLastPushExactly`). Etags restart after a
   delete, so such a rewrap can land: `RecreatedRowLosesPush` gives the run, for rows of every
   scope.

## Model

| member | source | states |
|---|---|---|
| `ProtocolTheorems.CompletePublicationIsTrue` | internal/server/search_ops.go:624-794 | in every run of a sound deployment, a publication not marked incomplete holds each chat last changed at or before the published revision with its current text, and no such deleted chat |
| `ProtocolTheorems.CurrentPublicationIsTheCorpus` | internal/localstack/stub_cp.go:908-963 | complete and published = source means the index holds exactly the live chats with their texts |
| `ProtocolTheorems.FinalPageCovers` | internal/server/search_ops.go:1183-1393 | a rebuild page that publishes as complete, first, resumed or last, covers the larger of its target and the published revision and carries no checkpoint |
| `ProtocolTheorems.StepKeeps` | internal/server/search_ops.go:366-420 | every step of every writer, of the chat source and of failures keeps the protocol invariant |
| `ProtocolTheorems.RunKeeps` | internal/server/search_reindex_job.go:317-389 | hence every run does |
| `ProtocolLimits.CoverageHoldsExactlyWhenSound` | internal/server/search_ops.go:624-794 | over all deployments: complete publications are true in every run if and only if the deployment is sound |
| `ProtocolLimits.MissedDeleteBreaks` | internal/localstack/stub_cp.go:461-491 | a run with an untrue complete publication when a missed delete answers the counter |
| `ProtocolLimits.OtherReplicaBreaks` | internal/server/search_ops.go:747-755 | such a run when rebuild writers do not share the lock |
| `ProtocolLimits.RewrapRaceBreaks` | internal/server/search_ops.go:1323-1328 | such a run when a row is re-sealed between fetch and merge |
| `ProtocolLimits.AbandonedPageBreaks` | internal/server/search_ops.go:1315-1318 | such a run when a page abandons its edits in the cache |
| `ProtocolLimits.UnreadableNewerBreaks` | internal/server/search_ops.go:1349-1358 | such a run when a first page merges over an unreadable newer complete object |
| `ProtocolEdits.PushEditOK` | internal/server/search_ops.go:680-717 | the push's merge keeps stamps honest and advances coverage only when it may; that it does publish is `PushPublishes` |
| `ProtocolEdits.HookEditOK` | internal/server/search_ops.go:593-622 | removing a chat found deleted while its push was slow publishes as incomplete and keeps stamps honest |
| `ProtocolEdits.DeleteEditOK` | internal/server/search_ops.go:732-794 | the delete's removal, under the same rule |
| `ProtocolEdits.RepairEditOK` | internal/server/search_ops.go:1087-1161 | publishing mended entries keeps every entry's text and stamp, the coverage and the flag |
| `ProtocolRuns.MendKeeps` | internal/server/search_ops.go:1114-1135 | each in-place edit of one waiting entry, in the cache as well, keeps the invariant whether or not the repair then publishes |
| `ProtocolEdits.FirstPageOK` | internal/server/search_ops.go:1291-1305 | the sweep of a first page drops only what the rebuild will replace, so nothing a newer complete publication covered is lost |
| `ProtocolEdits.ResumedPageOK` | internal/server/search_ops.go:1266-1290 | a page resumed from a checkpoint starts with everything before its cursor covered |
| `ProtocolEdits.MergeOK` | internal/server/search_ops.go:1309-1348 | merging one fetched row extends what the page covers, or counts a failure |
| `ProtocolEdits.EndOK` | internal/server/search_ops.go:1349-1372 | the page's final flag, coverage and checkpoint are truthful |
| `ProtocolSteps.CheckpointKeeps` | internal/server/search_ops.go:1395-1432 | resuming a job from a partial index's checkpoint keeps the invariant |
| `ProtocolSteps.LoadIsStored` | internal/server/search_ops.go:169-203 | a successful load under the lock hands out the stored object |
| `ProtocolRuns.SaveKeeps` | internal/server/search_ops.go:335-355 | storing under a fresh key, failing outright, or failing after landing keeps the invariant |
| `ProtocolRuns.SendKeeps` | internal/server/search_ops.go:366-420 | a publish call accepted, refused, lost or never sent keeps the invariant |
| `ProtocolRuns.FenceKeeps` | internal/localstack/stub_cp.go:1223-1311 | a key-change fence keeps the invariant |
| `ProtocolObjects.PublishedObjectExists` | internal/server/search_ops.go:366-420 | in every run of every deployment the object the record names is in the bucket and no pending cleanup targets it |
| `ProtocolObjects.CleanKept` | internal/server/search_ops.go:807-814 | cleanup after publishing, after a conflict or after a reset never deletes the published object |
| `ProtocolCaches.FlagsAgree` | internal/server/search_ops.go:1349-1372 | in every run of every deployment the published object's flag is the record's and any object with a checkpoint is incomplete |
| `ProtocolCaches.StampsNeverGoDown` | internal/server/search_ops.go:270-280 | where pages that edit go on to publish, no stamp goes down across a publication on a readable predecessor |
| `ProtocolCaches.LoadsAreFaithful` | internal/server/search_ops.go:159-203 | where pages and repairs that edit go on to publish, a load hands out exactly the object stored under the key asked for, vectors and pending states included |
| `ProtocolCaches.StepHeld` | internal/server/search_ops.go:335-420 | every step in every deployment keeps caches, flags and stamps in order |
| `ProtocolCacheLimits.LoadsAreFaithfulExactly` | internal/server/search_ops.go:159-203 | over all deployments: loads are faithful in every run if and only if every page and every repair that edits its index goes on to publish |
| `ProtocolCacheLimits.AbandonedRepair` | internal/server/search_ops.go:1130-1132 | a repair that gives up after mending one entry leaves the mended entry in the cache under the old object's key |
| `ProtocolCacheLimits.StampsRiseExactlyWhenTidy` | internal/server/search_ops.go:692-704 | stamps never go down in all runs if and only if edited pages go on to publish |
| `ProtocolProgress.PushPublishes` | internal/server/search_ops.go:624-717 | from every reachable world of every deployment whose publication is complete, readable and level, an undisturbed push ends complete and level; the published entry has the pushed text, etag and revision whether or not the chat was indexed before, and every other entry is kept |
| `ProtocolProgress.PushLeavesExactly` | internal/server/search_ops.go:593-717 | in any run a push leaves without publishing exactly when its chat is gone from source and index, its row has another etag by now, the index holds a newer or the same generation, or the update fails; otherwise exactly what it publishes |
| `ProtocolProgress.SkippedPushIsHarmless` | internal/server/search_ops.go:680-704 | in a sound deployment a push that leaves because of the index leaves a publication that is still true |
| `ProtocolProgress.DeletePublishes` | internal/server/search_ops.go:732-794 | an undisturbed delete of an indexed chat on a complete, level publication ends complete and level without that chat and with every other entry |
| `ProtocolProgress.DeleteLeavesExactly` | internal/server/search_ops.go:732-794 | a delete leaves without publishing exactly when the readable index lacks its chat; otherwise it publishes the index without it, complete exactly when it is next in line |
| `ProtocolProgress.RepairPublishes` | internal/server/search_ops.go:1087-1161 | an undisturbed repair of a waiting entry publishes the new vectors with the same entries, coverage and flag |
| `ProtocolProgress.ResetClears` | internal/localstack/stub_cp.go:1223-1311 | an undisturbed key change leaves no object, nothing covered, incomplete, under a new generation and fence; the old object is gone |
| `ProtocolProgress.RefusedTriesAgain` | internal/server/search_ops.go:366-420 | a refused call removes the object it stored and its cache entry, and the writer starts over under its lock |
| `ProtocolProgress.UnansweredSettles` | internal/server/search_ops.go:366-420 | after a lost answer the publication stands exactly when the call arrived in time, and the writer goes on accordingly |
| `ProtocolStamps.ReachableIssued` | internal/server/search_ops.go:270-280 | in every run of every deployment all stamps anywhere are positive revisions the source has issued, and coverage never exceeds it |
| `ProtocolRebuilds.RebuildPublishes` | internal/server/search_ops.go:1183-1393 | from every reachable world an undisturbed rebuild, over any number of pages and in any fetch and merge order, ends complete and level with exactly the live chats |
| `ProtocolRebuilds.ResumedRebuildPublishes` | internal/server/search_ops.go:1395-1432 | so does one that stops after any page and is taken up by another job from its checkpoint |
| `ProtocolRebuilds.JobResumes` | internal/server/search_reindex_job.go:317-389 | the taking-up job gets cursor, target and start time of the one that stopped |
| `ProtocolRebuilds.PageDefersToCheckpoint` | internal/server/search_ops.go:1266-1290 | a page that finds another job's checkpoint goes on from there |
| `ProtocolPages.PageMergesExactly` | internal/server/search_ops.go:1306-1348 | a page's rows merged in any order, whatever became of them since they were fetched: each goes, is written or is left alone by its own state, no other entry changes, and the page counts exactly the rows that should have been written and could not be |
| `ProtocolPages.SweepsExactly` | internal/server/search_ops.go:1291-1305 | a first page drops exactly the entries stamped at or before the target and the too old of those without a stamp; a continued page drops none |
| `ProtocolPages.ResumesExactly` | internal/server/search_ops.go:1395-1432 | a job resumes exactly from a loadable partial index whose checkpoint has the covered revision as target |
| `ProtocolPages.MendsExactly` | internal/server/search_ops.go:1114-1135 | a repair edits exactly entries that wait for vectors, and of them only that |
| `ProtocolPages.LoadsExactly` | internal/server/search_ops.go:159-203 | a load succeeds exactly when record and object agree on the writer's key and model and the object is cached under that key or in the bucket |
| `Controlplane.PushMovesForward` | internal/localstack/stub_cp.go:298-376 | an accepted write takes the next revision and touches no other chat |
| `Controlplane.ListPage` | internal/localstack/stub_cp.go:652-677 | a page's ids are exactly the live rows between its two cursors, so a row that keeps its position is returned by exactly one page of a walk |
| `Controlplane.StubControlplane.PutBlob` | internal/localstack/stub_cp.go:298-376 | accepted exactly when the etag allows; then the row has the next etag, the text and its place, the next revision is taken and answered, and no other row changes |
| `Controlplane.SpentEtagIsRefused` | internal/localstack/stub_cp.go:298-376 | an etag is good for one conditional write: the next one with it is refused and what was written stays |
| `Controlplane.StubControlplane.DeleteBlob` | internal/localstack/stub_cp.go:434-494 | a present row takes a revision; an absent one changes nothing yet the counter is answered |
| `Controlplane.StubControlplane.Rewrap` | internal/localstack/stub_cp.go:993-1040 | compare-and-set on the etag; only the etag moves |
| `Controlplane.StubControlplane.PublishSearchIndex` | internal/localstack/stub_cp.go:922-963 | compare-and-set on generation and fence within the allowed revisions and key |
| `Controlplane.StubControlplane.WipeRows` | internal/localstack/stub_cp.go:1223-1311 | starting fresh drops every row, one revision each |
| `Controlplane.StubControlplane.RegisterKey` | internal/localstack/stub_cp.go:1223-1311 | accepted exactly when the current key matches and no row of any scope is sealed under another key; when it fences; what starting fresh wipes |
| `Controlplane.OtherScopeBlocks` | internal/localstack/stub_cp.go:1223-1311 | one row of another scope under the old key blocks a change that does not start fresh |
| `InvertedIndex.AcceptedMeans` | internal/searchindex/index.go:405-423 | accepted tokens are valid tokens of the list, at most 512, and all of them below the cap |
| `InvertedIndex.AcceptedIsBeginning` | internal/searchindex/index.go:405-423 | the accepted tokens are the valid ones of a beginning of the list: all of it, or as far as the token that reaches 512 |
| `InvertedIndex.Index.Upsert` | internal/searchindex/index.go:378-425 | accepted exactly under the stated checks; then it means the plain update, else nothing changes |
| `InvertedIndex.Index.Remove` | internal/searchindex/index.go:477-486 | means removal from the plain store |
| `InvertedIndex.Index.RepairEmbedding` | internal/searchindex/index.go:429-444 | exactly when the vectors fit: the entry then holds them, waits for nothing and keeps slot, etag and revision; every other entry and all documents are kept; otherwise nothing changes |
| `InvertedIndex.Index.MarkEmbeddingKey` | internal/searchindex/index.go:448-456 | records a new well-formed key on a pending entry, and says so, exactly then; nothing else changes |
| `InvertedIndex.ValidatedVectorDims` | internal/searchindex/index.go:458-474 | the dimension an update settles on, or a refusal |
| `InvertedIndex.FitMeans` | internal/searchindex/index.go:458-474 | vectors fit exactly when all are non-empty and of the pinned, or the first, width |
| `InvertedIndex.Index.MaybeCompact` | internal/searchindex/index.go:491-524 | restores the tombstone bound and leaves the meaning unchanged |
| `InvertedIndex.CompactionIsInvisible` | internal/searchindex/index.go:491-524 | the compacted table is valid and means the same |
| `InvertedIndex.LiveAt` | internal/searchindex/index.go:495-503 | each live slot moves to its rank and keeps its id |
| `InvertedIndex.KeptHas` | internal/searchindex/index.go:508-514 | a rewritten list holds a slot's rank exactly when the list held the slot |
| `InvertedIndex.KeptAscends` | internal/searchindex/index.go:508-520 | a rewritten list is already strictly rising |
| `InvertedIndex.UpsertedOK` | internal/searchindex/index.go:396-424 | tombstoning, appending and posting keep the table valid and mean the plain update |
| `InvertedIndex.Index.LivePostings` | internal/searchindex/index.go:704-714 | the live postings of a token are, in order, exactly the slots of chats whose document holds it |
| `InvertedIndex.Replay` | internal/searchindex/index.go:378-524 | any sequence of mutations on a fresh index gives a valid index that means the same mutations of the plain store |
| `IndexCodec.Decode` | internal/searchindex/index.go:236-348 | rejected exactly when a check fails, panics exactly for an accepted object with a stray entry, otherwise returns the object with inferred pending flags and its tombstone count |
| `IndexCodec.CheckSlots` | internal/searchindex/index.go:253-271 | the slot table passes exactly when every live slot's entry names it, live slots equal entries, and tombstones are bounded |
| `IndexCodec.CheckPostings` | internal/searchindex/index.go:312-340 | lists are non-empty, strictly rising, in range, at most 512 postings per slot in all; and which slots are posted |
| `IndexCodec.InferPending` | internal/searchindex/index.go:341-346 | an entry without vectors that is posted somewhere becomes pending; an out-of-range slot panics |
| `IndexCodec.PointsBackIffDistinct` | internal/searchindex/index.go:253-268 | for a table that passes, every entry is named, in range and named back exactly when no live id repeats |
| `IndexCodec.RepeatedIdCrashes` | internal/searchindex/index.go:341-346 | a concrete accepted object with a repeated id on which decoding panics |
| `IndexCodec.PostingsBySlot` | internal/searchindex/index.go:312-339 | counting by slot: at most 512 postings per slot in all |
| `IndexCodec.ReachableIsAccepted` | internal/searchindex/index.go:236-348 | every table the mutators reach passes all checks without a panic and has distinct live ids |
| `IndexCodec.DecodeIsIdempotent` | internal/searchindex/index.go:341-346 | decoding what was decoded changes nothing more |
| `IndexCodec.StoreThenLoad` | internal/searchindex/index.go:341-350 | a stored and loaded index is valid, has the same documents, and differs only in pending flags |
| `IndexCodec.AcceptedIsSound` | internal/searchindex/index.go:253-340 | acceptance without repeated ids gives a sound slot table and postings |
| `IndexCodec.AcceptedExactly` | internal/searchindex/index.go:236-348 | but for repeated live ids and the token bound of a single slot, the decoder accepts exactly the tables that satisfy the mutators' invariant, with a fitting checkpoint |
| `IndexCodec.StoreReplay` | internal/searchindex/index.go:236-354 | an index built by any mutations decodes successfully to the plain store's documents |
| `SearchRanking.Search` | internal/searchindex/index.go:616-648 | in any iteration order, the one answer the plain store gives; its order and scores are those of `SearchOrder` |
| `SearchRanking.AnswerIsUnique` | internal/searchindex/index.go:632-644 | a store and a query have one answer |
| `SearchRanking.AnswerShape` | internal/searchindex/index.go:616-648 | at most limit distinct live chats |
| `SearchRanking.KeywordTierFirst` | internal/searchindex/index.go:632-636 | every chat of the truncated keyword list precedes every other result, and is left out only when the answer is full of such chats |
| `SearchRanking.TopIsUnique` | internal/searchindex/index.go:716-732 | a truncated ranking is determined by the set it ranks |
| `SearchRanking.RankSlots` | internal/searchindex/index.go:716-732 | the best 128 slots by score, ties by chat id |
| `SearchRanking.LexicalRanked` | internal/searchindex/index.go:652-673 | ranks exactly the chats holding a query token by summed weights of their distinct query tokens |
| `SearchRanking.SemanticRanked` | internal/searchindex/index.go:680-700 | ranks exactly the chats with a vector of the query's width by their best similarity |
| `SearchRanking.BestIsMax` | internal/searchindex/index.go:685-695 | the best similarity is the maximum over vectors of the right width |
| `SearchRanking.Frequency` | internal/searchindex/index.go:660-668 | the length of a live posting list is the token's document frequency |
| `SearchRanking.CompactionKeepsAnswers` | internal/searchindex/index.go:491-524 | compaction changes no search result |
| `SearchOrder.ScoreIsByPlace` | internal/searchindex/index.go:616-644 | a result at place i of the keyword list and j of the semantic one scores 1/(61+i) + 1/(2(61+j)), each term only where it is listed |
| `SearchOrder.AgreedOrderIsKept` | internal/searchindex/index.go:632-644 | a chat ahead of another in the keyword list and not behind it in the semantic list precedes it in the answer and is never left out while the other is in |
| `SearchOrder.KeywordOnlyOrder` | internal/searchindex/index.go:616-644 | without a query vector the answer is the keyword list in its order, cut to the limit |
| `SearchOrder.KeywordListOrder` | internal/searchindex/index.go:652-673 | the keyword list is ordered by the weight of the set of query tokens held, ties by id, and leaves out only what belongs after it once it is full |
| `SearchOrder.ScoreIsHeldWeight` | internal/searchindex/index.go:652-673 | the keyword score is the weight of the set of query tokens held, however often and in whatever order they are named |
| `SearchOrder.SemanticListOrder` | internal/searchindex/index.go:680-700 | the semantic list is ordered by best similarity, ties by id, and leaves out only what belongs after it once it is full |
| `SearchOrder.RepairedIsRanked` | internal/searchindex/index.go:429-444 | after a repair the chat stands in the semantic list at the best similarity over the given vectors, or behind a full list |
| `CorpusRuns.SearchCorpus` | internal/server/search_ops.go:819-924 | when the publication is complete and level with the source, a query on the table a load hands out is answered over the live chats' documents; a keyword query gets exactly the answer they determine |
| `CorpusRuns.EveryIndexIsRealised` | internal/server/search_ops.go:335-355 | in every run of every deployment each stored, cached or edited index stands for the table its own mutations and reloads build |
| `CorpusRuns.StepMatched` | internal/server/search_ops.go:680-717 | every step of every writer keeps that, sweeps, page merges, repairs and cache hits included |
| `CorpusRuns.TablesFollowExactly` | internal/searchindex/index.go:378-405 | the tables can follow a step of the protocol if and only if it stores no empty id and no new chat in a full index |
| `CorpusRuns.SweepRealised` | internal/server/search_ops.go:1291-1305 | a first page's removals, in any order, take a table to the swept index |
| `CorpusRuns.LoadRealises` | internal/server/search_ops.go:169-203 | a load hands out the cached table, or the decoded one, for the index the protocol loads |
| `CorpusRuns.Rebuilt` | internal/searchindex/index.go:236-354 | every such history is that of a valid table, built by the mutators and the decoder |
| `CorpusSearch.CurrentRealisesCorpus` | internal/server/search_ops.go:624-794 | a table standing for a complete publication level with the source holds exactly the live chats' documents |
| `CorpusSearch.PutRealised` | internal/server/search_ops.go:692-717 | an accepted index update realises the protocol's put of an entry |
| `CorpusSearch.WithoutRealised` | internal/server/search_ops.go:732-794 | index removal realises the protocol's removal |
| `CorpusSearch.MendRealised` | internal/server/search_ops.go:1114-1135 | repairs and key marks leave documents, stamps and etags alone |
| `SearchCache.Cache.Lookup` | internal/server/search_cache.go:61-78 | a hit is the last index stored for the owner under the identity asked for; a mismatch drops it; no one else's entry is touched |
| `SearchCache.Cache.Store` | internal/server/search_cache.go:80-98 | the new entry survives if it fits at all, and the list is the longest most recent part within the budget |
| `SearchCache.Cache.Discard` | internal/server/search_cache.go:100-109 | exactly the owner's entry goes |
| `SearchCache.Cache.RemoveLocked` | internal/server/search_cache.go:111-115 | list, map and total change together |
| `SearchCache.EvictedIsLongest` | internal/server/search_cache.go:95-97 | eviction keeps the longest prefix within the budget |
| `SearchCache.FrontSurvives` | internal/server/search_cache.go:89-97 | a put that fits is never evicted by itself |
| `SearchCache.RemovedOK` | internal/server/search_cache.go:111-115 | removal keeps total = sum, one entry per owner, recency order, and every other entry |
| `SearchCache.GetOK` | internal/server/search_cache.go:61-78 | a lookup keeps the cache invariant |
| `InferenceGate.GateIsSafe` | internal/server/search_inference_gate.go:80-163 | in every interleaving no user, under however many records, and not all together exceed their limits; held records stay tracked; at most 10000 users; nothing is held once no call is left |
| `InferenceGate.RunKeeps` | internal/server/search_inference_gate.go:121-163 | occupancy equals the calls holding it in every run |
| `InferenceGate.StepKeeps` | internal/server/search_inference_gate.go:121-163 | every acquiring, refusing and releasing step keeps that |
| `InferenceGate.EvictionKeeps` | internal/server/search_inference_gate.go:88-108 | eviction never takes a record with active calls |
| `InferenceGate.Gate.BeginUser` | internal/server/search_inference_gate.go:80-119 | refused exactly when the user is untracked and all of the full table is active; otherwise the record gains a call and the time, or a newcomer a fresh record |
| `InferenceGate.MakeRoom` | internal/server/search_inference_gate.go:88-108 | drops all expired idle users, or else one least recently used idle user, or nothing when all are active |
| `InferenceGate.Sweep` | internal/server/search_inference_gate.go:91-102 | exactly the expired go, and the oldest idle survivor is found |
| `InferenceGate.Gate.TakeUserSlot` | internal/server/search_inference_gate.go:206-221 | takes a slot exactly when one is free |
| `InferenceGate.Gate.TakeGlobalSlot` | internal/server/search_inference_gate.go:206-221 | the same for the global slots |
| `InferenceGate.Gate.GiveGlobalSlot` | internal/server/search_inference_gate.go:158-162 | gives back one global slot |
| `InferenceGate.Gate.GiveUserSlot` | internal/server/search_inference_gate.go:158-162 | gives back one slot of the call's own record |
| `InferenceGate.Gate.FinishCall` | internal/server/search_inference_gate.go:129-134 | the record loses one active call |
| `InferenceGate.ReserveRate` | internal/server/search_inference_gate.go:183-204 | takes tokens from both budgets or from neither |
| `InferenceGate.CallGivesBack` | internal/server/search_inference_gate.go:121-163 | with a slot free in both channels a call gets through, holds one of each while it runs, and leaves everything as before but for when its user was last seen |
| `InferenceGate.RefusalGivesBack` | internal/server/search_inference_gate.go:135-157 | a call turned away at any point has given back all it took; foreground calls are turned away exactly where a channel is full or the rate refuses, background calls where they wait |
| `Staging.LayoutsAgree` | internal/server/import_ops.go:507-513 | for an accepted job the uploader's and the reader's chunk lengths agree, are positive, and tile the archive |
| `Staging.EveryIndex` | internal/server/import_jobs.go:168-180 | by counting, as many marks as chunks means every index is marked |
| `Staging.StepKeeps` | internal/server/import_jobs.go:130-180 | every step of concurrent uploaders and of the job keeps the staging invariant |
| `Staging.ReceivedIsWhole` | internal/server/import_jobs.go:168-180 | all received means the bucket holds a chunk of the reader's length at every index |
| `Staging.ReceivedStays` | internal/server/import_jobs.go:130-148 | and no step changes a mark afterwards, or the bucket before the job ends |
| `Staging.RunsAreWhole` | internal/server/import_jobs.go:356-376 | in every run a running job has a whole archive, and the done channel is closed at most once, exactly when the job has ended |
| `Staging.UploadsSettle` | internal/server/import_jobs.go:150-166 | in any run an upload that succeeds leaves its index complete and its bytes staged, one that fails frees its index |
| `Staging.UploadedJobRuns` | internal/server/import_jobs.go:356-376 | an accepted job whose chunks are each uploaded once, in any order, starts running over exactly those chunks |
| `Staging.EndedJobIsCleaned` | internal/server/import_jobs.go:492-503 | a running job ends with the outcome it is given, and cleaning up in any order removes exactly its chunks |
| `Staging.AcceptedCount` | internal/server/import_jobs.go:518-541 | a request is accepted exactly when its chunk count is the one that holds its bytes with none empty |
| `Staging.ImportJob.BeginChunk` | internal/server/import_jobs.go:130-148 | which of reserved, already there, in progress, conflict or started; only a reservation changes the job |
| `Staging.ImportJob.FinishChunk` | internal/server/import_jobs.go:150-157 | completes only the caller's own pending mark |
| `Staging.ImportJob.ClearPendingChunk` | internal/server/import_jobs.go:159-166 | releases only the caller's own pending mark |
| `Staging.ImportJob.AllChunksReceived` | internal/server/import_jobs.go:168-180 | true exactly when every chunk is marked and none is pending |
| `Staging.ImportJob.StartRun` | internal/server/import_jobs.go:356-376 | starts once, and only from staging |
| `Staging.ImportJob.FailIfStaleStaging` | internal/server/import_jobs.go:269-284 | fails exactly a staging job idle for the retention time |
| `Staging.ImportJob.FinishWithReason` | internal/server/import_jobs.go:254-267 | ends a running job at most once, completed or failed as told |
| `Staging.StageImportChunk` | internal/server/import_ops.go:491-539 | refused without effect for a bad index, encoding, size or digest, or else exactly the machine's three steps; success leaves the index complete under the chunk's digest |
| `ArchiveReader.Reader.ReadAt` | internal/server/import_archive.go:48-71 | whatever other readers do to the cache meanwhile, every byte delivered is the archive's byte at that position, nothing else is written, and why it stopped |
| `ArchiveReader.ReadFlat` | internal/server/import_archive.go:48-71 | over a whole archive a read is a slice of the flat bytes, end of file exactly when short |
| `ArchiveReader.Reader.GetChunk` | internal/server/import_archive.go:82-111 | the staged chunk of the right length, cached or fetched; exactly which cache and eviction order are left, whatever other readers did while the lock was free |
| `ArchiveReader.Reader.Touch` | internal/server/import_archive.go:113-121 | moves one occurrence of the index to the back of the eviction list and nothing else |
| `ArchiveReader.Reader.Keep` | internal/server/import_archive.go:101-109 | inserts the chunk and evicts the oldest indices, exactly those beyond eight |
| `ArchiveReader.OthersKeepOrder` | internal/server/import_archive.go:82-121 | any interleaving of hits and insertions by other readers leaves only staged chunks and at most eight indices |
| `ArchiveReader.CacheIsSmall` | internal/server/import_archive.go:101-109 | however chunks came and went, at most eight are held |
| `ArchiveReader.LastReadsStay` | internal/server/import_archive.go:82-121 | for one reader, the chunks of the last eight reads are cached |
| `ArchiveReader.FlatIs` | internal/server/import_archive.go:73-80 | joined chunks give an archive of the declared length with the bytes read through the chunks |
| `ArchiveReader.RunningJobIsReadable` | internal/server/import_archive.go:150-160 | in every staging run, a running job's reader gets a whole archive |
| `Chunker.ChatSearchChunks` | internal/server/search_ops.go:454-516 | nothing for a chat that does not parse; else at most eight non-empty valid chunks of at most 2000 bytes whose pieces spell a prefix of the trimmed parts' text, all of it below the cap; no two neighbours could have been one, and a part that fits a chunk is never cut |
| `Chunker.ChunkParts` | internal/server/search_ops.go:469-516 | the same for given parts, with termination |
| `Chunker.BuildParts` | internal/server/search_ops.go:459-468 | the parts are the trimmed title and bodies that are not blank, in order |
| `Chunker.OnePart` | internal/server/search_ops.go:459-468 | one text gives its trimmed self, or nothing if that is blank |
| `Chunker.PartsInOrder` | internal/server/search_ops.go:459-468 | the parts of two stretches of texts are the parts of one and then of the other |
| `Chunker.PackPart` | internal/server/search_ops.go:480-513 | one part is packed completely, or up to where the cap was reached; it joins the open chunk whenever it fits, and a chunk closes only when the next piece had no room |
| `Chunker.PackTurn` | internal/server/search_ops.go:480-513 | one turn of that loop keeps all of it and makes progress |
| `Chunker.ShortChatIsOneChunk` | internal/server/search_ops.go:480-513 | parts that fit 2000 bytes with their newlines come out as one chunk holding all of them |
| `Chunker.TruncateUtf8` | internal/server/search_ops.go:554-566 | the longest prefix within the limit that ends on a rune boundary |
| `Chunker.CutAtRune` | internal/server/search_ops.go:561-565 | cutting before a non-continuation byte leaves two valid texts |
| `Aad.ReadQuoted` | internal/envelope/aad.go:231-262 | the string escaper has an inverse, whatever follows the string |
| `Aad.WriteJsonString` | internal/envelope/aad.go:231-262 | the loop writes the escaped string |
| `Aad.ShortestEscape` | internal/envelope/aad.go:231-262 | no shorter spelling reads back as the byte |
| `Aad.MarshalCanonical` | internal/envelope/aad.go:148-163 | the loop writes the canonical object |
| `Aad.ReadMarshalled` | internal/envelope/aad.go:148-163 | reading inverts marshalling for every list of string and number fields |
| `Aad.PayloadBinds` | internal/envelope/aad.go:62-85 | payload data is equal exactly for equal user, id and scope |
| `Aad.WrapBinds` | internal/envelope/aad.go:93-119 | key-wrap data is equal exactly for equal user, id, scope and key id |
| `Aad.LayersDisjoint` | internal/envelope/aad.go:62-141 | payload, key-wrap and bundle data never coincide |
| `Aad.PayloadKeysAscend` | internal/envelope/aad.go:62-85 | the payload data lists its members in the order of their keys |
| `Aad.WrapKeysAscend` | internal/envelope/aad.go:93-119 | so does the key-wrap data |
| `Aad.BundleKeysAscend` | internal/envelope/aad.go:125-141 | and the bundle data |
| `Aad.CanonicalPayloadAad` | internal/envelope/aad.go:62-85 | refused exactly for an invalid row, including a profile id that is not the singleton |
| `Aad.CanonicalDekWrapAad` | internal/envelope/aad.go:93-119 | also refused for a malformed key id |
| `Aad.IsLowerHex` | internal/envelope/aad.go:264-272 | true exactly for lower-case hex |
| `Base64.IsCanonicalStdBase64` | internal/envelope/envelope.go:474-498 | true exactly for a non-empty multiple of four with at most two padding characters after alphabet characters |
| `Base64.OneSpelling` | internal/envelope/envelope.go:283-293 | a string passes the check and strictly decodes to some bytes exactly when it is their encoding |
| `Base64.AlphabetEnds` | internal/envelope/envelope.go:474-498 | two groups that use both ends of the alphabet |
| `Base64.LineBreakAccepted` | internal/envelope/envelope.go:266-282 | the strict decoder alone accepts a second spelling |
| `OpHash.AppendCanonical` | internal/crypto/ophash.go:106-121 | appends the encoding of the six, eight or nine fields |
| `OpHash.AppendLenPrefixed` | internal/crypto/ophash.go:123-129 | appends one more field |
| `OpHash.ParseEncode` | internal/crypto/ophash.go:123-129 | length-prefixed fields are recovered by parsing |
| `OpHash.EncodeParse` | internal/crypto/ophash.go:123-129 | nothing else parses to those fields |
| `OpHash.CanonicalInjective` | internal/crypto/ophash.go:106-129 | two operations encode alike exactly when they agree up to nil versus empty in an extended tuple |
| `OpHash.EncodeIkm` | internal/server/attachment_ops.go:140-153 | the loop writes the length-prefixed parts |
| `OpHash.IkmInjective` | internal/server/attachment_ops.go:140-153 | key material is equal exactly for equal part lists |
| `Envelope.OpensExactly` | internal/envelope/envelope.go:183-344 | under ideal primitives an envelope opens to its plaintext exactly for the same user, scope and id and the sealing key, and never to anything else |
| `Envelope.AnswersExactly` | internal/envelope/envelope.go:242-344 | what opening a sealed envelope answers, for every list of keys and every row named: no matching key, bad row, failed cipher or the plaintext; and malformed or unsupported for another version or algorithm |
| `Envelope.SplicedOpensExactly` | internal/envelope/envelope.go:304-344 | an envelope with the payload of another opens exactly when both were sealed for the same row under the same data key |
| `Envelope.SealsExactly` | internal/envelope/envelope.go:183-234 | sealing is refused exactly for a bad key, row or key id, or a plaintext no reader would unpack again |
| `Envelope.SealedWellFormed` | internal/envelope/envelope.go:213-234 | what sealing writes passes every shape check |
| `Envelope.SealedReadsBack` | internal/envelope/envelope.go:213-234 | and decodes to the nonces and the two ciphertexts that were put in |
| `Envelope.RebuiltAad` | internal/envelope/envelope.go:304-328 | the opener rebuilds both layers' data exactly for the same row |
| `Envelope.FindKey` | internal/envelope/envelope.go:294-303 | the first key with the envelope's key id |
| `Envelope.UnhexHex` | internal/envelope/envelope.go:255-265 | nonces survive hex |
| `Envelope.HexUnhex` | internal/envelope/envelope.go:255-265 | exactly hex of either case decodes, and it is the encoding but for that case |
| `SealedRow.RowKeepsLastPushExactly` | internal/server/ops.go:463-498 | in every run with deletes: the row opens under its own key id for any id that addresses it, to one plaintext only, which has the contents of the last accepted push if and only if no rewrap of a deleted incarnation landed since, or what the last one sealed is alike |
| `SealedRow.UndeletedRowKeepsLastPush` | internal/server/ops.go:1268-1314 | a row never deleted always holds the last accepted push |
| `SealedRow.StepKeeps` | internal/server/rewrap.go:42-116 | every push, fetch, rewrap and delete keeps the row invariant |
| `SealedRow.RewrapKeeps` | internal/server/rewrap.go:42-116 | a rewrap of the living incarnation that matches its etag re-seals what the row holds; one of a deleted incarnation brings in what it read |
| `SealedRow.FetchKeeps` | internal/server/ops.go:1268-1314 | what a pull or migration decrypts is the row's plaintext |
| `SealedRow.PushKeeps` | internal/server/ops.go:69-217 | a push that seals at all binds the id readers will use |
| `SealedRow.OneAadId` | internal/server/ops.go:1383-1388 | every id that addresses a row maps to one bound id, profile rows listed under the user id included |
| `SealedRow.OpensToTruth` | internal/server/ops.go:1393-1414 | whatever opens a row gives its true plaintext |
| `SealedRow.PushWrites` | internal/server/ops.go:69-217 | in any run a push is written exactly when its etag condition holds; the row then opens under the pushed key to the pushed text, one etag later |
| `SealedRow.FetchReads` | internal/server/rewrap.go:42-116 | in any run exactly which rows a pull or a migration picks up, with their etag and plaintext |
| `SealedRow.RewrapWrites` | internal/server/rewrap.go:42-116 | in any run a rewrap is written exactly when its promotions succeeded and the etag is the one it read; then the row is under the target key, reads alike, and no chat attachment has its key in the legacy field only |
| `SealedRow.RewrapChatAttachments` | internal/server/rewrap.go:136-213 | fails exactly when a promotion fails; otherwise every image attachment with an id and only a legacy key comes out with that key in the current field, everything else is kept, and it reports whether there was one |
| `SealedRow.RenameKeepsContents` | internal/server/rewrap.go:166-205 | that changes nothing a reader sees |
| `SealedRow.RecreatedRowLosesPush` | internal/localstack/stub_cp.go:993-1040 | in any scope, a run with a deleted and rewritten row ends with a plaintext unlike the last accepted push |

## Left out

- HTTP, JSON wire decoding, JWTs, run credentials and remote clients: only success, refusal and ambiguous outcomes are kept, as step results.
- AES-GCM, gzip, HKDF, HMAC and SHA-256: ideal or uninterpreted functions; `Envelope.IdealExists` shows the ideal ones exist, and `SealedRow.SystemExists` that some system meets all assumptions of `SealedRow`. Envelope JSON and index JSON are taken as lossless.
- Clocks and retry bounds: deadlines are cancellations that may happen at any time, and retry loops may run any number of times.
- Rebuilds at revision 0: hypothesis that all revisions are positive; with target 0 supersession falls back to etags.
- A publish call whose answer was lost is taken to be decided by the time its error is seen, and a failed chunk put never lands later.
- Timestamps of unstamped entries: which of them a first page's sweep drops is left open.
- Embedding calls: in the protocol an entry's vectors, pending state and key are one value that a push, page or repair sets; the index models them apart.
- `ProtocolRuns.SaveKeeps`: a failure to draw an object key or to encode the index, which also leaves the edited index in the cache (search_ops.go:335-340, 377-380), is not an outcome; the first needs the random source to fail, the second a value JSON cannot carry, which entries never hold.
- `SearchRanking.Search`: scores are real numbers, and cosine and token weights are parameters; floating-point rounding is not modelled. Query tokenization is not part of this model.
- Identifiers in the index, protocol, cache and gate are integers standing for strings; only equality and order matter there. User ids are taken to be non-empty.
- `Chunker.ChatSearchChunks`: JSON parsing and space trimming are parameters.
- `Envelope.Encrypt` and `Envelope.DecryptV2` cover v2; legacy blobs appear in `SealedRow` as values that open under their key.
- `Aad.MarshalCanonical`: string and number values only; nested values are written by no associated data.
- `InferenceGate.ReserveRate`: the rate limiter is a token counter; refilling is left out.
- The nil-receiver (disabled) search cache, the stall watchdog, job retention timers and archive hashing.
- Mutual exclusion of successive reindex jobs is not claimed; the per-user lock serialises writers.
- Import parsers, attachment purge and orphan workers, shares, backups and forks.
