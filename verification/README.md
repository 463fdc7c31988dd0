# Symplist core, modelled and proved

A Dafny model of four parts of the Symplist repository, with proofs of what they are for. Every module names
the source file it models in its first line.

**Search** (`packages/search`). `SearchIndex.dfy` is the mutable index with its six structures: records,
document entries, section entries, a reverse message index, a character count and MiniSearch, which is a map
from document id to fields whose `add` needs the id absent and whose `discard` needs it present.
`IndexModel.dfy` says what the records are; `IndexTables.dfy` says what every structure must hold for given
records, and each method keeps the two in step. `IndexedDocument.dfy`, `IndexedRecords.dfy` and
`IndexTexts.dfy` tell what a change leaves and what is then searched, without the functions of the model;
`RecordTexts.dfy` tells which records are accepted. `ArtifactModel.dfy` proves that an artifact loads to the
same index, `ArtifactSoundness.dfy` and `ArtifactLoading.dfy` which artifacts load and which of them are
sound. `OverlayModel.dfy`, `OverlayLimits.dfy` and `SearchView.dfy` prove that a published index under an
overlay of changes shows what applying the changes would leave. `Chunk.dfy`, `ChunkCuts.dfy`, `Match.dfy`,
`HighlightRanges.dfy`, `Snippet.dfy` and `SnippetMatch.dfy` are the text algorithms, each proved against an
independent meaning: coverage of the text, the least edit script, the union of ranges, the words of the
window.

**The D1 client** (`packages/db`). `SqlTokenTexts.dfy` is the grammar of what `SqlLexer.dfy` reads.
`SqlLocality.dfy`, `SqlQuery.dfy` and `SqlCompositional.dfy` prove that filling in named parameters replaces
tokens and nothing else, and `SqlBinding.dfy` which values are bound; `SqlSplit.dfy` and `SqlPieces.dfy`
cover statements, `SqlTargets.dfy` tells write targets from the forms of SQL, and `SqlLimits.dfy` is what is
checked before sending: append-only tables and the read-only verdict. `SqlVerdicts.dfy` tells both from the
tokens. `SqlNames.dfy` compares the names that are checked with those SQLite reads, and `SqlLiterals.dfy`
has the statements for which they differ. `RateLimit.dfy` holds the token bucket and the lane as values,
`RateLane.dfy` the objects, `RateAdmission.dfy` who is let in, `RateWindows.dfy` the budgets over all runs,
`RateQueue.dfy` order, wake-ups and waiting times, and `RateClocks.dfy` what a clock that goes back costs.
`D1Circuit.dfy` and `D1Counters.dfy` are the shared circuit and the counters. `D1Client.dfy` is a process of
concurrent calls as a state machine whose steps are what runs between two awaits; `D1Safety.dfy`,
`D1Tokens.dfy`, `D1Runs.dfy`, `D1Budget.dfy` and `D1Refusals.dfy` prove its invariants and the results about
every run; `D1Works.dfy`, `D1Outcomes.dfy`, `D1Steps.dfy` and `D1Counting.dfy` tell from the history of
answers how calls end, what starts and sends them, and what is counted. `Migrations.dfy` is the migration
runner as a protocol of any number of runners with lost responses and late commits, and
`MigrationReports.dfy` and `MigrationOutcomes.dfy` what they report.

**Encodings** (`packages/crypto`, `packages/config`). `CanonicalJson.dfy`, `CanonicalUnique.dfy` and
`CanonicalBytes.dfy` prove canonical JSON (RFC 8785) uniquely decodable, down to UTF-8 (`Utf8.dfy`, RFC
3629); `JsonText.dfy` reads JSON as RFC 8259 defines it, and `CanonicalReading.dfy` proves that this reads
the value back, its numbers having the form of `NumberTexts.dfy`; `Aad.dfy`, `AadBindings.dfy` and
`AadReading.dfy` carry this over to the additional data of envelopes. `Secrets.dfy` proves the secret
decoder inverse to the base64url encoding of RFC 4648.

**Keyboard and objects** (`apps/web/src/actions`, `packages/storage`). `Keys.dfy`, `KeysRoundTrip.dfy`,
`Bindings.dfy` and `KeyboardSafety.dfy` prove that bindings stay a prefix code under any edits;
`KeyTexts.dfy` is the grammar of bindings, `KeyboardFocus.dfy` says what can be active together, and
`KeyboardStorage.dfy` which stored bindings are read back. `ObjectKeyTexts.dfy` tells which keys there are.
`ObjectKeys.dfy`, `ObjectTree.dfy`, `ObjectListing.dfy` and `LocalObjectStore.dfy` prove that the local
object store, a tree of encoded directory names, behaves like a map whose listing pages through it.

`Wrappers.dfy`, `Numbers.dfy`, `Utf16.dfy`, `Casing.dfy`, `KeyOrder.dfy`, `Decimal.dfy` and `MapSums.dfy`
are shared. `dafny verify dfyconfig.toml` checks everything.

## Where the code and its documentation differ

The model follows the code. Each point has a member that shows it, and most have one that says exactly when
the documented behaviour holds.

- `packages/search/src/view.ts:155-159` clears a deleted task, so its published messages show again after
  the task is upserted, although direct application has dropped them: `OverlayModel.RevivedTaskResurfaces`,
  and exactly when not: `OverlayModel.ViewRefinesDirectApplication`.
- `packages/search/src/view.ts:155-181` changes the shadow sets before the overlay refuses a record, so a
  published entry can be lost, or resurface: `OverlayModel.RefusedUpsertLoses`, and exactly when:
  `OverlayModel.ViewRefinesDirectApplication`.
- `packages/search/src/search-index.ts:512-603` does not check that sections are in order or that their
  ordinals differ, so an unsound artifact loads: `ArtifactLoading.UnorderedLoads`. Order is all that can be
  wrong with the tables and the MiniSearch ids of a loaded artifact: `ArtifactLoading.LoadedIsSoundExactly`.
  The texts inside MiniSearch are not compared with the records: `ArtifactLoading.LoadedAgreesExactly`.
- A NULL or an empty list can merge with its neighbours when it is filled in
  (`packages/db/src/query.ts:57-66`): `SqlCompositional.NullMerges`, and exactly when:
  `SqlCompositional.Compositional`.
- `packages/db/src/counters.ts:7` says that `circuit_open`, `shed` and `queue_timeout` never reached D1. A
  retried read can end so after it was sent: `D1Refusals.RefusedAfterSending`, and exactly when not:
  `D1Refusals.RefusalTells`. For writes it holds: `D1Runs.WriteOutcomeTells`.
- `packages/db/src/migrations.ts:153-156` takes a recorded file after a lost response for its own; another
  runner may have committed it: `MigrationReports.LostResponseClaimsTheFile`, and exactly when not:
  `MigrationReports.ReportsAreOwnExactly`.
- `packages/db/src/rate-limit.ts:57-62` sets the refill time back when the clock goes back, which credits
  time twice: `RateClocks.ClockMustNotGoBack` and `RateClocks.InstantBudget` say exactly how much that
  takes. All results about the lane are for clocks that do not go back.
- `packages/db/src/limits.ts:26-30` refuses updates of append-only tables. SQLite takes a string literal for
  any part of a name, and the name that is checked stops before it (`packages/db/src/sql-lexer.ts:264-279`):
  `UPDATE 'beta_admin_events' SET a = 1` and the same with `main.` before the literal are accepted,
  `SqlLiterals.AdminEventsUpdated`, and so is dropping a trigger of the table,
  `SqlLiterals.LiteralDropAccepted`. The name is checked as SQLite reads it exactly when no part is a
  literal, but for one after a part of the same name: `SqlNames.RecordedIsTrueExactly`. For which names a
  write is then guarded, and which accepted statements are safe: `SqlNames.GuardedExactly` and
  `SqlNames.AppendOnlyExactly`. What the table's own triggers do about an update is not part of this model.
- `packages/search/src/snippet.ts:140-146` checks the highlight limit after pushing, so a limit of 0 still
  shows one highlight: `Snippets.SnippetShowsWindow`.
- `apps/web/src/actions/bindings.ts:125-137` compares actions that "can both be active". Editor and pane, and
  menu and modal, count as apart, although a focus inside both makes both active:
  `KeyboardFocus.InsideIsActiveToo`, and for all other contexts it is exact: `KeyboardFocus.OverlapExactly`.
- `apps/web/src/actions/bindings.ts:257-279` promises to drop malformed, reserved and conflicting overrides. It
  reads them one by one, the rest still at their defaults, so two actions that traded their keys lose both
  overrides although these do not conflict: `KeyboardStorage.TradeIsLost`, and exactly when stored preferences
  are read back: `KeyboardStorage.LoadsBackExactly`.

## Model

| member | source | states |
|---|---|---|
| SearchIndexes.SearchIndex.constructor | packages/search/src/search-index.ts:165-192 | a new index holds the empty records, and every table agrees with them |
| SearchIndexes.SearchIndex.UpsertTask | packages/search/src/search-index.ts:253-269 | a task record replaces the old one in all six structures, or is refused and nothing changes |
| SearchIndexes.SearchIndex.RemoveTask | packages/search/src/search-index.ts:271-282 | the task, its document and all its messages leave every structure together |
| SearchIndexes.SearchIndex.ReplaceDocument | packages/search/src/search-index.ts:284-356 | a document is cut, chunked and listed exactly as the limits leave room for, replacing the old one in every structure |
| SearchIndexes.SearchIndex.RemoveDocument | packages/search/src/search-index.ts:358-369 | a document leaves the entries, MiniSearch and the character count |
| SearchIndexes.SearchIndex.UpsertMessage | packages/search/src/search-index.ts:371-383 | a message is clipped to the room left and replaces its predecessor, or is skipped with the flag set |
| SearchIndexes.SearchIndex.RemoveMessage | packages/search/src/search-index.ts:385-394 | a message leaves the records, the reverse index, MiniSearch and the character count |
| SearchIndexes.SearchIndex.Compact | packages/search/src/search-index.ts:412-417 | compacting changes no record |
| SearchIndexes.SearchIndex.ToArtifact | packages/search/src/search-index.ts:419-458 | the artifact of a compacted index describes exactly its records; otherwise it is refused |
| SearchIndexes.SearchIndex.FromArtifact | packages/search/src/search-index.ts:460-510 | an artifact is loaded or refused with the reason of the first check that fails; what is loaded is the restored tables, and every table is sound exactly when sections ascend and the texts in MiniSearch are those of the records |
| SearchIndexes.SearchIndex.RestoreRecords | packages/search/src/search-index.ts:512-603 | the loops over an artifact rebuild exactly the restored tables |
| DocIds.DocIdParts | packages/search/src/search-index.ts:68-92 | kind, task id and message id come back from the id text of a document |
| DocIds.DocIdInjective | packages/search/src/search-index.ts:68-92 | documents with the same id text are the same document |
| IndexModel.ApplyKeepsOk | packages/search/src/search-index.ts:253-405 | every mutation keeps the records sound: sections in order, within their caps, chunked from their text |
| IndexModel.RunKeepsOk | packages/search/src/search-index.ts:253-405 | the same for every run, whichever mutations are refused |
| IndexModel.ApplyKeepsCorpusLimit | packages/search/src/search-index.ts:284-383 | documents and messages never push the character count past maxCorpusChars |
| IndexModel.RunKeepsCorpusLimit | packages/search/src/search-index.ts:284-405 | in every run only titles can take the count past the corpus limit |
| IndexedDocuments.ReplacedExactly | packages/search/src/search-index.ts:284-356 | of a replaced document a prefix by ordinal is listed, each section with id, heading and chunks over the text there is room for; it ends exactly at the section limit, before the first heading that does not fit or after the first text that is cut, and truncated says exactly whether a section is missing or cut |
| IndexedDocuments.FittingIsWhole | packages/search/src/search-index.ts:284-356 | a document within the limits is listed whole, every section once and none cut |
| IndexedRecords.TaskIsUpserted | packages/search/src/search-index.ts:253-269 | a task is stored with its title cut to maxTitleChars, and nothing else changes |
| IndexedRecords.TaskIsRemoved | packages/search/src/search-index.ts:271-282 | with a task go its document and exactly its messages |
| IndexedRecords.MessageIsUpserted | packages/search/src/search-index.ts:371-383 | a message is stored if and only if chat is indexed and the other records leave room, cut to the least of its limit and the room; its predecessor is gone in any case, and the flag says whether there was no room |
| IndexTexts.EntriesExactly | packages/search/src/search-index.ts:305-332 | the section entries are exactly those of the chunks of the documents, more told from what follows |
| IndexTexts.TextsExactly | packages/search/src/search-index.ts:253-383 | MiniSearch holds exactly the titles, the messages and, for each chunk, its heading or an empty one and its text |
| RecordTexts.UuidsExactly | packages/search/src/records.ts:62-62 | the accepted ids are exactly the texts of this form |
| RecordTexts.RecordsExactly | packages/search/src/records.ts:62-119 | exactly these tasks, sections, documents and messages are accepted |
| ArtifactModel.TablesUnique | packages/search/src/search-index.ts:165-171 | the records determine section entries, reverse message index, character count and MiniSearch ids: two agreeing sets of tables are equal |
| ArtifactModel.RestoredRoundTrip | packages/search/src/search-index.ts:512-603 | restoring an artifact that describes an index gives back every table, chunk positions, more flags and the exact character count included |
| ArtifactModel.AgreeCounts | packages/search/src/search-index.ts:225-234 | MiniSearch counts one document for every task, section entry and message |
| ArtifactModel.ArtifactRoundTrip | packages/search/src/search-index.ts:419-603 | the artifact of a sound index passes every check of loading and loads to the same index |
| ArtifactLoading.LoadsExactly | packages/search/src/search-index.ts:460-603 | an artifact loads if and only if its header is as expected, every record is valid and listed once, and the ids in MiniSearch are exactly those of the titles, chunks and messages of its records; the count check is what rules out further ids |
| ArtifactLoading.RefusedFor | packages/search/src/search-index.ts:460-495 | an artifact that is not loaded is refused for the first field of its header that is wrong, or as malformed |
| ArtifactLoading.LoadedIsSoundExactly | packages/search/src/search-index.ts:460-603 | the tables and MiniSearch ids of a loaded artifact are those of some records if and only if every document lists its sections by rising ordinals |
| ArtifactLoading.LoadedAgreesExactly | packages/search/src/search-index.ts:460-603 | with the texts in MiniSearch as well, which loading cannot look at: if and only if sections rise and each id stands for the text of its record |
| ArtifactLoading.UnorderedLoads | packages/search/src/search-index.ts:527-585 | for any two sections whose ordinals do not rise, repeated ones included, there is an artifact that loads and whose tables agree with no records |
| ArtifactSoundness.RecordsUnique | packages/search/src/search-index.ts:165-171 | the tables determine the records they agree with |
| OverlayModel.ViewRefinesDirectApplication | packages/search/src/view.ts:41-208 | for every published index and every change sequence without corpus pressure, refused changes included: the view shows the titles and documents of direct application if and only if no published one was only refused, and its messages if and only if none was only refused and none resurfaces with a revived task |
| OverlayModel.AcceptedChangesLoseNothing | packages/search/src/view.ts:155-208 | without refusals and corpus pressure the view shows exactly the titles and documents of direct application, and its messages if and only if none resurfaces |
| OverlayModel.RefusedUpsertLoses | packages/search/src/view.ts:155-159 | for every published task, a refused upsert leaves its title out of the view, while direct application keeps it |
| OverlayLimits.ViewAtTheLimit | packages/search/src/view.ts:41-208 | for every run, at the corpus limit too: the view shows the titles of direct application, and the same revisions of the same documents, if and only if no published entry was only refused |
| OverlayModel.LayersDisjoint | packages/search/src/view.ts:94-127 | no entry is current in both layers, in any run, full or refused |
| OverlayModel.RevivedTaskResurfaces | packages/search/src/view.ts:155-166 | for every published message, removing its task and upserting it again, even in vain, shows the message in the view but not in the index |
| SearchViews.VisibleShows | packages/search/src/view.ts:94-127 | the layer filter, decided from the id text, is the rule on the record the id names |
| SearchViews.ViewDocumentsExact | packages/search/src/view.ts:94-127 | every MiniSearch document of the directly changed index is current in exactly one layer, with the same fields, and nothing else is, but for records lost to a refusal or resurfaced |
| SearchViews.SearchView.Task | packages/search/src/view.ts:73-79 | the record of a task, overlay first, hidden when shadowed |
| SearchViews.SearchView.Tasks | packages/search/src/view.ts:81-92 | every visible task record exactly once |
| SearchViews.SearchOverlayBuilder.Create | packages/search/src/view.ts:134-153 | a builder over an index of the same owner, refused for another |
| SearchViews.SearchOverlayBuilder.UpsertTask | packages/search/src/view.ts:155-159 | the overlay and the shadow sets after an upsert, also when the record is refused |
| SearchViews.SearchOverlayBuilder.RemoveTask | packages/search/src/view.ts:161-166 | the overlay and the shadow sets after a removal |
| SearchViews.SearchOverlayBuilder.ReplaceDocument | packages/search/src/view.ts:168-171 | the overlay and the shadow sets after a replaced document |
| SearchViews.SearchOverlayBuilder.RemoveDocument | packages/search/src/view.ts:173-176 | the overlay and the shadow sets after a removed document |
| SearchViews.SearchOverlayBuilder.UpsertMessage | packages/search/src/view.ts:178-181 | the overlay and the shadow sets after an upserted message |
| SearchViews.SearchOverlayBuilder.RemoveMessage | packages/search/src/view.ts:183-187 | the overlay and the shadow sets after a removed message |
| Chunking.ChunkText | packages/search/src/chunk.ts:19-51 | the loops compute the chunks, and invalid limits are refused exactly |
| Chunking.FindChunkEnd | packages/search/src/chunk.ts:34-42 | the end of a chunk: after white space in the last quarter, never inside a surrogate pair |
| Chunking.FindNextStart | packages/search/src/chunk.ts:45-48 | the next chunk starts at a word start within the overlap |
| Chunking.ChunksCover | packages/search/src/chunk.ts:19-51 | chunks cover any text without a gap, are at most chunkChars long and overlap by at most overlapChars |
| Chunking.ChunksKeepPairs | packages/search/src/chunk.ts:39-41 | no chunk boundary splits a surrogate pair of well-formed text |
| Chunking.ChunksHoldPhrase | packages/search/src/chunk.ts:37-48 | a stretch of at most overlapChars that begins at a word start lies in one chunk |
| ChunkCuts.ChunksAreCutRight | packages/search/src/chunk.ts:33-48 | a chunk before the last ends after the last white space of its final quarter when there is one there, and otherwise is as long as it may be |
| ChunkCuts.LimitsExactly | packages/search/src/chunk.ts:24-32 | exactly these limits are accepted |
| Matching.BoundedEditDistance | packages/search/src/match.ts:33-56 | min(d, max + 1) for the least number d of edits, both early exits included |
| Matching.NextRow | packages/search/src/match.ts:41-53 | one row of the table from the row before, with its least entry |
| Matching.LevIsDistance | packages/search/src/match.ts:33-56 | the recurrence behind the rows is the least cost of any insert, delete and substitute script |
| Matching.LevIsLeast | packages/search/src/match.ts:33-56 | no script is cheaper |
| Matching.LevIsAttained | packages/search/src/match.ts:33-56 | some script costs exactly that |
| Matching.BoundedDistanceMeaning | packages/search/src/match.ts:33-56 | the result is at most max if and only if some script makes at most max edits |
| Matching.CodePointsExactly | packages/search/src/match.ts:33-35 | the code points of a text are the only numbers that make up its units with no pair of surrogates apart |
| Matching.MatchTerm | packages/search/src/match.ts:69-84 | exact, prefix or typo, each if and only if its condition holds |
| Matching.PhraseOccurrences | packages/search/src/match.ts:90-119 | exactly the places where the phrase occurs, in order |
| Matching.OccursMeans | packages/search/src/match.ts:90-119 | a phrase occurs where all its terms but the last stand as they are and the last does too, or begins the candidate where that is allowed and it has two code points |
| HighlightRanges.MergeRanges | packages/search/src/snippet.ts:17-31 | the loop computes the merged ranges, cut at the limit |
| HighlightRanges.MergedCoversTheSame | packages/search/src/snippet.ts:17-31 | merged ranges are separate, cover exactly what the given ranges cover, join exactly the neighbours that a given range joins (touching ranges stay apart), and start and end where given ranges do |
| HighlightRanges.SeparateIsUnique | packages/search/src/snippet.ts:17-31 | separate ranges are determined by the positions they cover and the neighbours they join |
| HighlightRanges.MatchRanges | packages/search/src/snippet.ts:33-49 | the ranges are exactly the phrase occurrences and the tokens that match a term |
| Snippets.FindAnchor | packages/search/src/snippet.ts:91-96 | the anchor is the first phrase match, else the first match, else the beginning |
| Snippets.FindWindow | packages/search/src/snippet.ts:98-122 | the branches that place the window |
| Snippets.WindowHoldsAnchor | packages/search/src/snippet.ts:98-122 | the window holds the anchor and at most maxChars units |
| Snippets.CollapseWindow | packages/search/src/snippet.ts:125-137 | the loop collapses the window and records where each unit goes |
| Snippets.CollapseIsWords | packages/search/src/snippet.ts:124-137 | the collapsed text is the words of the window with single spaces between them |
| Snippets.BuildHighlights | packages/search/src/snippet.ts:139-146 | the highlight loop maps the first ranges inside the window |
| Snippets.HighlightShowsRange | packages/search/src/snippet.ts:139-146 | a highlight shows exactly the collapsed text of its range |
| Snippets.SnippetShowsWindow | packages/search/src/snippet.ts:81-153 | the snippet is the collapsed window; its highlights are in bounds, separate and in order, each showing the words of its range, and within the limit unless the limit is 0 and there is one to show |
| Snippets.BuildSnippet | packages/search/src/snippet.ts:81-153 | the whole function: the snippet around the anchor, with the ranges that cover and join exactly what the matches do |
| Snippets.OneSnippet | packages/search/src/snippet.ts:81-153 | a text, its tokens, a query and options determine the snippet: there is one that meets the contract of BuildSnippet |
| SnippetMatch.AnchoredMatchShown | packages/search/src/snippet.ts:76-146 | the match a snippet is made for, merged with those that overlap it, lies wholly in the window when it is no longer than two thirds of maxChars, and is highlighted unless the highlights before it fill the limit; without a phrase it is the first highlight |
| SnippetMatch.HighlightsExactly | packages/search/src/snippet.ts:139-152 | of the ranges that lie wholly in the window exactly the first ones are shown, as many as allowed and at least one; the snippet counts as cut where the window or the text around it goes on |
| SnippetMatch.WindowSplitsPair | packages/search/src/snippet.ts:98-122 | the window begins between characters, and ends inside a surrogate pair if and only if it is cut there at full length because no word that ends after the anchor fits |
| SnippetMatch.WindowIsPlaced | packages/search/src/snippet.ts:98-122 | where the window begins and ends: a third of its length before the anchor or, at the end of the text, at the first word from length - maxChars on, unless it already began earlier; it ends after the last word that fits |
| SqlLexer.TokenizeSql | packages/db/src/sql-lexer.ts:38-146 | the loop computes the token stream, or fails where a quotation is unterminated |
| SqlLexer.NextPiece | packages/db/src/sql-lexer.ts:47-144 | the branches take the first piece of the rest of the text |
| SqlLexer.ScanQuotation | packages/db/src/sql-lexer.ts:149-161 | the end of a quotation with doubled quotes |
| SqlLocality.LexLocal | packages/db/src/sql-lexer.ts:38-146 | a token stays the same whatever follows it, as long as what follows may |
| Casing.UpperExactly | packages/db/src/sql-lexer.ts:132-136 | of an ASCII text only the small letters change, each to its capital |
| Casing.LowerExactly | packages/db/src/sql-lexer.ts:270-273 | of an ASCII text only the capitals change, each to its small letter |
| SqlTokenTexts.PiecesExactly | packages/db/src/sql-lexer.ts:38-146 | for every text and kind: the text is read as one piece of that kind if and only if it has its form, the grammar of SQL literals, names, numbers, parameters, words and comments |
| SqlTokenTexts.TokensHaveForm | packages/db/src/sql-lexer.ts:38-146 | every token of every text has the form of its kind |
| SqlQuery.Sql | packages/db/src/query.ts:36-87 | the compiled statement, or the first problem found |
| SqlQuery.SqlTokens | packages/db/src/query.ts:47-86 | the loop that splices the placeholders |
| SqlBinding.AcceptedExactly | packages/db/src/query.ts:36-87 | accepted exactly when the text lexes, names are well formed, every parameter is a given name and every given name is used |
| SqlBinding.ValuesAreBound | packages/db/src/query.ts:47-86 | each named parameter binds its own value at the slots after those of the parameters before it, a string one, a list its items, NULL and the empty list none; these slots are all |
| SqlCompositional.Compositional | packages/db/src/query.ts:36-87 | the tokens of the compiled text are the source tokens with each named parameter replaced by the tokens of its value, if and only if no replacement merges with a neighbour |
| SqlCompositional.NullMerges | packages/db/src/query.ts:57-66 | for every word and every name, a NULL filled in directly after the word makes one word with it |
| SqlCompositional.PlaceholdersNeverMerge | packages/db/src/query.ts:56-72 | strings and non-empty lists never merge |
| SqlCompositional.CompiledStatement | packages/db/src/query.ts:36-87 | a compiled statement has one anonymous placeholder per bound value and no other parameter |
| SqlCompositional.ShapeDecidesText | packages/db/src/query.ts:36-87 | the compiled text depends on the shapes of the values alone |
| SqlSplit.SplitSqlStatements | packages/db/src/sql-lexer.ts:177-220 | the loop computes the statements of a text |
| SqlSplit.SplittingConserves | packages/db/src/sql-lexer.ts:177-220 | the tokens of the statements in order are the token stream minus exactly the semicolons met while no trigger body is open |
| SqlPieces.SplitsAtEnds | packages/db/src/sql-lexer.ts:177-220 | the statements are the non-empty stretches between the top-level semicolons, found without the state of the splitter |
| SqlPieces.SemicolonsAreInBodies | packages/db/src/sql-lexer.ts:177-220 | a statement that holds a semicolon is a trigger, and holds it in its body |
| SqlPieces.OpenMeansInBody | packages/db/src/sql-lexer.ts:183-212 | the splitter keeps a semicolon exactly when the unfinished statement is a trigger whose body has not ended |
| SqlSplit.StatementsAreWhole | packages/db/src/sql-lexer.ts:177-220 | splitting the tokens of a statement gives that one statement |
| SqlSplit.TriggerStaysWhole | packages/db/src/sql-lexer.ts:183-217 | a trigger with nested CASE and BEGIN blocks and inner semicolons stays one statement |
| SqlSplit.ResplitStatement | packages/db/src/sql-lexer.ts:163-220 | splitting the text of a returned statement gives that statement, its tokens moved |
| SqlSplit.FindWriteTargets | packages/db/src/sql-lexer.ts:286-354 | the loop collects the write targets |
| SqlSplit.ReadOnlyWritesNoRows | packages/db/src/sql-lexer.ts:286-389 | a statement judged read-only has no insert, update, delete, replace or upsert target |
| SqlTargets.ReadNameIsLastPart | packages/db/src/sql-lexer.ts:264-279 | reading a name gives the last part of the possibly qualified name that starts there, and nothing where none starts |
| SqlTargets.UnquotedQuoted | packages/db/src/sql-lexer.ts:80-93 | quoting a name and reading the identifier gives the name back, for every kind of quotes |
| SqlTargets.TargetsAreWrites | packages/db/src/sql-lexer.ts:277-354 | the targets are exactly the names given by the write forms of SQL, DO UPDATE standing for the latest insert |
| SqlLimits.CheckStatement | packages/db/src/limits.ts:31-107 | a statement is accepted exactly when it fits every limit, with the verdict whether it only reads, and otherwise refused with its first problem |
| SqlLimits.CheckBatch | packages/db/src/limits.ts:110-122 | a batch is accepted when all its statements are, and only reads when all of them do; otherwise it is refused with the first problem of the first statement that has one |
| SqlLimits.ReadOnlyBatchWritesNoRows | packages/db/src/limits.ts:110-122 | no statement of a batch judged read-only writes rows |
| SqlLimits.ReadOnlyHasNoWrites | packages/db/src/sql-lexer.ts:356-389 | a statement judged read-only has no insert, update, delete, replace or upsert form with a name |
| SqlLimits.AppendOnly | packages/db/src/limits.ts:92-105 | no accepted statement has a write form other than an insert with the recorded name of an append-only table, or drops a trigger with a recorded name after one |
| SqlNames.RecordedStopsAtLiteral | packages/db/src/sql-lexer.ts:264-279 | of a name as SQLite reads it, whose parts are words, identifiers or string literals, the part before the first literal is recorded, and nothing when it begins with one |
| SqlNames.RecordedIsTrueExactly | packages/db/src/sql-lexer.ts:264-279 | the recorded name is the one SQLite reads if and only if no part is a literal, but for a literal after a part of the same name as the last |
| SqlNames.GuardedExactly | packages/db/src/limits.ts:92-105 | whatever tables are append-only, a write that passes the check harms none of them under the name SQLite reads if and only if it is an insert or its name has no literal part, but for a literal after a part that gives the check the same answer |
| SqlNames.AppendOnlyExactly | packages/db/src/limits.ts:92-105 | an accepted statement leaves append-only tables and their triggers alone if and only if none of its write forms with a literal part in the name harms one |
| SqlLiterals.LiteralUpdateAccepted | packages/db/src/limits.ts:31-107 | an update of any table under a string literal is accepted, and after main. if and only if no append-only table is named main; for an append-only table such a statement is not safe |
| SqlLiterals.LiteralDropAccepted | packages/db/src/limits.ts:31-107 | dropping any trigger under a string literal after main. is accepted, those of append-only tables included |
| SqlLiterals.AdminEventsUpdated | packages/db/src/limits.ts:18-19 | beta_admin_events can be updated in this way, with or without its schema |
| SqlLimits.ByteLengthIsUtf8 | packages/db/src/limits.ts:43-57 | the length that is checked is that of the UTF-8 bytes of the text |
| SqlVerdicts.KeywordMeans | packages/db/src/sql-lexer.ts:169-171 | a word of ASCII letters is a keyword when it has its letters, whatever their case |
| SqlVerdicts.ReadsExactly | packages/db/src/sql-lexer.ts:356-389 | read-only is exactly one statement that begins with SELECT, VALUES, WITH or EXPLAIN and has no word that writes, save replace with a parenthesis |
| SqlVerdicts.CheckedExactly | packages/db/src/limits.ts:31-107 | a statement is accepted if and only if it fails none of the eleven checks, each told from its tokens and write forms, and otherwise is refused for the first one it fails |
| SqlVerdicts.BatchesExactly | packages/db/src/limits.ts:110-122 | a batch is refused for the first of its statements that fails a check, or because it is empty |
| SqlVerdicts.UnitsExactly | packages/db/src/limits.ts:43-57 | the units a character is counted by are those of its code point |
| Migrations.NextKeepsInv | packages/db/src/migrations.ts:96-171 | every step of every runner keeps the invariant |
| Migrations.RunKeepsInv | packages/db/src/migrations.ts:96-171 | every run keeps it |
| Migrations.MigrationSafety | packages/db/src/migrations.ts:103-172 | under any interleaving, lost responses and late commits: a file is recorded at most once, the records stay a prefix, and a finished runner leaves every file recorded |
| Migrations.ConfirmedOnce | packages/db/src/migrations.ts:147-169 | a response confirms a file to one runner at most |
| MigrationReports.AppliedIsNew | packages/db/src/migrations.ts:135-171 | in every run, what a runner reports as applied is a file that was not recorded before and that a request of some runner committed |
| MigrationReports.LostResponseClaimsTheFile | packages/db/src/migrations.ts:149-156 | from any database with an unrecorded file, a run of two runners in which one reports a file that only the other committed |
| MigrationReports.ReportsAreOwnExactly | packages/db/src/migrations.ts:135-171 | with at most n runners, every run reports to each runner only what it committed itself if and only if n is at most one or every file was recorded |
| Migrations.CommitsInOrder | packages/db/src/migrations.ts:141-171 | from a database with exactly the first files, the rest is committed in lexical order and nothing is reported out of order |
| MigrationOutcomes.LessIsPrecedes | packages/db/src/migrations.ts:121-132 | the order of names is that of the first unit in which they differ |
| MigrationOutcomes.OutOfOrderExactly | packages/db/src/migrations.ts:129-146 | in every run a runner reports as out of order exactly the files it sent that precede a name it had listed, each once and in order |
| MigrationOutcomes.FinishedAccounts | packages/db/src/migrations.ts:135-171 | a finished runner accounts for every file: listed, or reported as applied, in order and not both, or recorded although its own request failed |
| MigrationOutcomes.AloneFinishes | packages/db/src/migrations.ts:108-172 | from every database there is a run of one runner that finishes and reports exactly the missing files as applied |
| MigrationOutcomes.CommitsOn | packages/db/src/migrations.ts:147-169 | a request under way can commit exactly when its file is not recorded, and the runner goes on, told so or not |
| MigrationOutcomes.RejectsOn | packages/db/src/migrations.ts:147-164 | a request under way can fail, and the runner goes on exactly when the file is recorded all the same |
| RateLanes.TokenBucket.Fill | packages/db/src/rate-limit.ts:57-62 | the bucket after a refill |
| RateLanes.TokenBucket.Available | packages/db/src/rate-limit.ts:64-67 | the tokens after a refill |
| RateLanes.TokenBucket.TryTake | packages/db/src/rate-limit.ts:69-74 | a token is taken exactly when there is one |
| RateLanes.TokenBucket.WaitFor | packages/db/src/rate-limit.ts:77-81 | the milliseconds until that many tokens are there |
| RateLanes.RateLane.constructor | packages/db/src/rate-limit.ts:123-139 | a new lane with full buckets |
| RateLanes.RateLane.TakeShared | packages/db/src/rate-limit.ts:154-163 | an unauthenticated caller takes a token of both buckets at once or is shed |
| RateLanes.RateLane.Acquire | packages/db/src/rate-limit.ts:147-194 | granted, queued, shed, refused or aborted, with the whole new state |
| RateLanes.RateLane.OnAbort | packages/db/src/rate-limit.ts:184-188 | an aborted caller leaves the queue |
| RateLanes.RateLane.RunPump | packages/db/src/rate-limit.ts:199-211 | the pump loop between two sleeps serves the queue while there are tokens |
| RateAdmission.WaitingAdmission | packages/db/src/rate-limit.ts:151-190 | a caller that may wait is granted if and only if nobody queues and a token is there; it is refused if and only if the least wait that brings a token for everybody before it and itself exceeds maxWaitMs, and is told that wait; otherwise it is queued last |
| RateAdmission.SharedAdmission | packages/db/src/rate-limit.ts:154-163 | an unauthenticated caller is granted if and only if nobody queues and both buckets have a token; otherwise it is shed with the least wait of at least 1 that covers both |
| RateAdmission.NewLaneIsFull | packages/db/src/rate-limit.ts:123-139 | a new lane has full buckets, the shared one with the whole tokens of its share, at least one |
| RateAdmission.BurstIsGranted | packages/db/src/rate-limit.ts:147-165 | a new lane serves as many callers at one instant as the burst has whole tokens |
| RateLimit.RefillKeepsWindow | packages/db/src/rate-limit.ts:57-62 | a refill keeps what a window has seen within its budget |
| RateClocks.TokensBound | packages/db/src/rate-limit.ts:57-74 | under any clock, tokens taken and tokens left are at most the tokens at first plus the credit of the forward steps |
| RateClocks.BackwardStepsCost | packages/db/src/rate-limit.ts:57-74 | in any window of any run, each millisecond the clock goes back costs at most the credit of a millisecond |
| RateClocks.ClockMustNotGoBack | packages/db/src/rate-limit.ts:57-74 | a full bucket keeps its budget in every window of every run that goes back at most d milliseconds if and only if d is 0 |
| RateClocks.InstantBudget | packages/db/src/rate-limit.ts:57-74 | at single instants it does if and only if d milliseconds bring less than is missing to a whole token |
| RateWindows.LaneBudget | packages/db/src/rate-limit.ts:147-214 | in every run and window a lane grants at most burst + rate * D / 1000 tokens, and unauthenticated callers at most their share |
| RateWindows.WorkerFamilyBudget | packages/db/src/rate-limit.ts:232-264 | N worker lanes at rate 1/N together grant at most N bursts plus one token a second |
| RateQueue.ServedInOrder | packages/db/src/rate-limit.ts:147-214 | in every run tokens go out in order of arrival and a queue always has a running pump |
| RateQueue.NobodyIsLost | packages/db/src/rate-limit.ts:170-214 | a queued caller stays queued until it is served or leaves |
| RateQueue.EstimateIsExact | packages/db/src/rate-limit.ts:76-81 | msUntil is the first millisecond with that many tokens |
| RateQueue.JoinInTime | packages/db/src/rate-limit.ts:167-168 | pauses between tokens add up to at most the estimate plus k milliseconds at position k |
| RateQueue.ServedInTime | packages/db/src/rate-limit.ts:147-214 | when sleeps end on time, a caller admitted at position k is served within its estimate plus k milliseconds, and nobody queued is past that |
| D1Circuit.D1CircuitBreaker.AssertClosed | packages/db/src/circuit-breaker.ts:154-170 | closed or not, and how long it stays open |
| D1Circuit.D1CircuitBreaker.OpenFor | packages/db/src/circuit-breaker.ts:173-180 | the circuit is extended, never shortened |
| D1Circuit.D1CircuitBreaker.RecordTooManyRequests | packages/db/src/circuit-breaker.ts:183-187 | a 429 opens the circuit for its clamped Retry-After |
| D1Circuit.D1CircuitBreaker.ObserveAll | packages/db/src/circuit-breaker.ts:190-206 | the loop over the rate-limit policies |
| D1Circuit.ObserveOpens | packages/db/src/circuit-breaker.ts:173-206 | after any headers the circuit is open until the latest time they asked for, and the opening is counted once |
| D1Counting.RemembersLowest | packages/db/src/circuit-breaker.ts:190-206 | the circuit remembers the least that the latest headers said was left |
| D1Steps.CircuitIsReasoned | packages/db/src/circuit-breaker.ts:154-206 | in every run the circuit is open exactly while some earlier answer asked to wait |
| D1Steps.AnswerBlocks | packages/db/src/circuit-breaker.ts:173-206 | what an answer asks for: the clamped Retry-After of a 429 or five minutes, and the reset of each policy down to the reserve |
| D1Steps.AnswerGivesReason | packages/db/src/circuit-breaker.ts:154-206 | after any answer the reason is that of what last extended the circuit, and the opening is counted when it was closed |
| D1Counters.Counters.RecordOutcome | packages/db/src/counters.ts:92-95 | one outcome more |
| D1Counters.Counters.RecordBucketWait | packages/db/src/counters.ts:101-106 | waits are counted, summed and maximised |
| D1Counters.Counters.RecordRemaining | packages/db/src/counters.ts:108-113 | the least remaining value so far |
| D1Counters.Counters.Snapshot | packages/db/src/counters.ts:116-146 | a snapshot returns the window and starts an empty one |
| D1Counting.WindowTallies | packages/db/src/counters.ts:86-146 | in every run the counters are those of what happened since the last snapshot: requests, retries, outcomes, number, sum and maximum of the waits, and the least remaining value |
| D1Runs.BlocksAreKept | packages/db/src/d1-rest-client.ts:354-405 | nobody sends before the end of a block that any earlier answer to anybody asked for |
| D1Runs.RequestsSpendTokens | packages/db/src/d1-rest-client.ts:354-378 | every request spends a token of its own, handed out before |
| D1Runs.RequestBudget | packages/db/src/d1-rest-client.ts:339-461 | all clients of a process together send at most what the lane allows from its start |
| D1Budget.WindowedRequestBudget | packages/db/src/d1-rest-client.ts:339-461 | in any window of any run at most the burst plus what the rate brings is sent, counted from as long before the window as a call takes at most from its token to its request |
| D1Runs.OnlyReadsAreSentAgain | packages/db/src/d1-rest-client.ts:339-461 | a payload is sent at most maxAttempts times, and again only if no statement of it names rows to write |
| D1Runs.OnlyCheckedIsSent | packages/db/src/d1-rest-client.ts:271-337 | a work is refused as invalid exactly when its checks fail, and what was sent passed them: limits for every statement, and only reads on the raw endpoint |
| D1Runs.OneOutcomeEach | packages/db/src/d1-rest-client.ts:339-508 | a call that is over recorded exactly one outcome |
| D1Runs.UnknownMeansSentWrite | packages/db/src/d1-rest-client.ts:379-455 | an unknown outcome is reported only of a write that was sent once |
| D1Runs.WriteOutcomeTells | packages/db/src/d1-rest-client.ts:354-461 | the outcome of a write tells whether it was sent |
| D1Outcomes.OutcomeIsAnswer | packages/db/src/d1-rest-client.ts:379-461 | in every run a call ends ok, with a failed statement, with a 429, unauthorized or rejected if and only if its last answer says so, and a write ends unknown if and only if its answer tells nothing |
| D1Outcomes.ReadGoesOn | packages/db/src/d1-rest-client.ts:379-455 | a read whose last answer tells nothing is tried again if and only if that failure is one that is retried and an attempt is left; otherwise it ends unavailable, or aborted |
| D1Outcomes.UnansweredCall | packages/db/src/d1-rest-client.ts:347-378 | a call without an answer is on its way or ended before it was sent |
| D1Outcomes.TriedAgainExactly | packages/db/src/d1-rest-client.ts:379-455 | after an answer a call is over, but for a read with an answer worth retrying and an attempt left |
| D1Steps.BeginEnds | packages/db/src/d1-rest-client.ts:347-368 | a call that starts ends with the circuit exactly when an earlier answer blocks, and aborted when its caller has given up |
| D1Steps.LaneDecides | packages/db/src/d1-rest-client.ts:354-362 | otherwise the lane decides, by its queue and tokens |
| D1Steps.WaitersExactly | packages/db/src/rate-limit.ts:170-194 | a caller can leave the queue exactly while its token is queued, and go on exactly once it was handed out |
| D1Steps.ResumeSends | packages/db/src/d1-rest-client.ts:357-378 | a call with its token sends its request unless an answer blocks or its caller has given up |
| D1Steps.AttemptsGoOn | packages/db/src/d1-rest-client.ts:339-400 | after its backoff a call starts its next attempt, unless its caller has given up |
| D1Refusals.RefusalTells | packages/db/src/counters.ts:7-21 | for every work and number of attempts, no run refuses it after it was sent if and only if it is no read or gets one attempt at most |
| D1Refusals.RefusedAfterSending | packages/db/src/counters.ts:7-21 | for every read and every two or more attempts, a run in which the call counted as circuit_open has reached D1, and a 429 to another call has opened the circuit before its retry |
| D1Refusals.CallsAreSubmits | packages/db/src/d1-rest-client.ts:271-339 | in every run, each call keeps the work, verdict and attempts it was submitted with |
| D1Works.WorksExactly | packages/db/src/d1-rest-client.ts:271-337 | which works are accepted and which count as reads, told from the tokens of their statements |
| D1Works.CallsAreTold | packages/db/src/d1-rest-client.ts:271-342 | in every run each call is a submitted work; it is refused as invalid if and only if the work is not accepted, is a read if and only if the work is a batch that only reads, and has more than one attempt only as a read |
| D1Runs.SnapshotsAddUp | packages/db/src/counters.ts:88-146 | snapshots and the current window add up to every outcome and every request |
| CanonicalJson.EncodeValue | packages/crypto/src/canonical-json.ts:16-54 | the recursion with its loops computes the text, or refuses |
| CanonicalJson.EncodeArray | packages/crypto/src/canonical-json.ts:28-37 | the loop over items |
| CanonicalJson.EncodeObject | packages/crypto/src/canonical-json.ts:38-50 | the loop over sorted keys |
| CanonicalJson.EscapeMeansUnit | packages/crypto/src/canonical-json.ts:11-14 | what is written for a unit is a JSON escape or character that stands for it, escaped only where it must be, with lower-case digits |
| CanonicalUnique.EncodePrefix | packages/crypto/src/canonical-json.ts:16-54 | uniquely decodable: accepted texts that begin one text, each followed by what may follow a value, are equal and stand for the same value |
| CanonicalUnique.SameEncoded | packages/crypto/src/canonical-json.ts:16-54 | values that are the same up to member order, undefined members and -0 have the same text or are both refused |
| CanonicalUnique.CanonicalIsUnique | packages/crypto/src/canonical-json.ts:56-66 | two accepted values have one text if and only if they are the same |
| CanonicalUnique.CanonicalAccepts | packages/crypto/src/canonical-json.ts:16-54 | exactly the clean values of at most 64 levels are accepted |
| CanonicalReading.CanonicalReadsBack | packages/crypto/src/canonical-json.ts:16-54 | reading the canonical text as JSON, after RFC 8259, gives the value: members in key order, undefined ones dropped, -0 as 0 |
| NumberTexts.NumbersExactly | packages/crypto/src/canonical-json.ts:22-24 | the texts that stand for numbers are exactly those of the form ECMAScript prints |
| KeyOrder.AscendingIsUnique | packages/crypto/src/canonical-json.ts:44-44 | a set of keys has one sorted list |
| CanonicalBytes.EncodeWellFormed | packages/crypto/src/canonical-json.ts:11-14 | canonical texts have no lone surrogate |
| CanonicalBytes.BytesAreUnique | packages/crypto/src/canonical-json.ts:64-66 | two accepted values have the same UTF-8 bytes if and only if they are the same |
| Utf8.HeadBytesMeanPoint | packages/crypto/src/encoding.ts:41-46 | the bytes of each character stand for its code point, in as few as it takes; a lone surrogate becomes U+FFFD |
| Utf8.BytesTell | packages/crypto/src/encoding.ts:41-46 | UTF-8 tells strings without lone surrogates apart |
| Aad.EncodeAad | packages/crypto/src/aad.ts:55-70 | the fields are encoded as their canonical JSON exactly when they are accepted |
| Aad.AadIsUnique | packages/crypto/src/aad.ts:49-70 | accepted fields have the same bytes if and only if they have the same members |
| AadBindings.BindingsNeverShareBytes | packages/crypto/src/aad.ts:89-174 | equal bytes come from equal bindings, whatever their kinds |
| AadBindings.BindingAccepted | packages/crypto/src/aad.ts:72-174 | a binding has bytes exactly when its versions are positive safe integers and its strings are in bounds |
| AadReadings.AadExactly | packages/crypto/src/aad.ts:36-70 | accepted are exactly the objects with a known format, a purpose, names of 1 to 16 letters and strings of 1 to 1024 units or whole numbers below two to the 53 |
| AadReadings.BindingsExactly | packages/crypto/src/aad.ts:72-174 | a binding is accepted if and only if its numbers are positive and below two to the 53 and its strings have 1 to 1024 units without a lone surrogate |
| AadReadings.BindingReads | packages/crypto/src/aad.ts:89-174 | the bytes of a binding are a JSON object with exactly the documented members of its kind, each with the part of the binding it is named for, in rising order of names |
| Keys.ParseChord | apps/web/src/actions/keys.ts:124-153 | the loop over modifiers computes the chord, or refuses |
| KeyTexts.ChordsExactly | apps/web/src/actions/keys.ts:124-153 | a token is a chord if and only if it is a plus sign, or names of different modifiers and of a key, with plus signs between, that spell it |
| KeyTexts.BindingsExactly | apps/web/src/actions/keys.ts:156-170 | a text is a binding of these steps if and only if it is words that spell them with white space around, and they are one chord or two or three plain keys |
| KeysRoundTrip.ChordRoundTrip | apps/web/src/actions/keys.ts:107-153 | the canonical text of a chord parses back to it |
| KeysRoundTrip.CanonicalTells | apps/web/src/actions/keys.ts:107-110 | different chords have different canonical texts |
| KeysRoundTrip.StepsRoundTrip | apps/web/src/actions/keys.ts:156-170 | the canonical text of any steps parses back to them |
| KeysRoundTrip.CanonicalParsesBack | apps/web/src/actions/keys.ts:156-170 | parsing the canonical form of an accepted binding gives that binding |
| KeysRoundTrip.CanonicalMeansSameSteps | apps/web/src/actions/keys.ts:156-170 | two accepted bindings have one canonical form if and only if they have the same steps |
| KeysRoundTrip.CommandChords | apps/web/src/actions/keys.ts:132-138 | cmd and command are mod, whatever follows |
| Bindings.EffectiveBindings | apps/web/src/actions/bindings.ts:110-123 | the loop fills the map of effective bindings |
| Bindings.BindingsCollide | apps/web/src/actions/bindings.ts:140-148 | the loop decides whether two bindings collide |
| Bindings.CollideMeansPrefix | apps/web/src/actions/bindings.ts:139-148 | parsed bindings collide if and only if the steps of one begin the steps of the other |
| Bindings.FindConflicts | apps/web/src/actions/bindings.ts:156-173 | the nested loops list the conflicts |
| Bindings.ConflictsHold | apps/web/src/actions/bindings.ts:156-173 | the list holds exactly the conflicting pairs |
| Bindings.ValidateRemap | apps/web/src/actions/bindings.ts:195-250 | accepted, or refused for the first reason that applies |
| Bindings.ParseKeyboardPreferences | apps/web/src/actions/bindings.ts:261-279 | the loop over stored overrides keeps the accepted ones |
| KeyboardSafety.RefusedExactlyOnClash | apps/web/src/actions/bindings.ts:231-249 | a parsable binding that is not reserved is refused if and only if the action would clash |
| KeyboardSafety.RemapTakesEffect | apps/web/src/actions/bindings.ts:195-250 | an accepted remap gives that action the binding asked for, or none, and changes no other action |
| KeyboardSafety.RemapKeepsSafe | apps/web/src/actions/bindings.ts:195-250 | an accepted remap keeps the keyboard free of conflicts and its overrides canonical and allowed |
| KeyboardSafety.LoadIsSafe | apps/web/src/actions/bindings.ts:257-279 | whatever was stored, what is read is safe |
| KeyboardSafety.EditsKeepSafe | apps/web/src/actions/bindings.ts:195-279 | so is the keyboard after any edits |
| KeyboardSafety.KeysStayUnambiguous | apps/web/src/actions/bindings.ts:110-173 | after any edits, where two actions can both be active the keys of neither begin the keys of the other |
| KeyboardFocus.OverlapExactly | apps/web/src/actions/bindings.ts:125-137 | two contexts overlap if and only if some focus makes both active, but for editor with pane and menu with modal, which count as apart |
| KeyboardFocus.InsideIsActiveToo | apps/web/src/actions/focus.ts:105-129 | for each of these two pairs there is a focus that makes both active |
| KeyboardFocus.ActiveKeysStayUnambiguous | apps/web/src/actions/dispatcher.ts:218-238 | after any edits, where one focus makes two actions active the keys of neither begin the keys of the other, but for these two pairs |
| KeyboardSafety.ReservedStayReserved | apps/web/src/actions/bindings.ts:98-107 | after any edits a reserved override is the default of its action |
| KeyboardStorage.RemapsExactly | apps/web/src/actions/bindings.ts:195-250 | a remap is refused if and only if there is no such action, the text is no binding, the keys are kept by browser or system and not the action's default, or it clashes with another action; otherwise it is stored in canonical form |
| KeyboardStorage.ClashesAreNamed | apps/web/src/actions/bindings.ts:231-247 | a remap that clashes is told exactly the actions it clashes with |
| KeyboardStorage.LoadsBackExactly | apps/web/src/actions/bindings.ts:257-279 | stored preferences are read back as they were if and only if no entry clashes with a default or an entry read before it |
| KeyboardStorage.TradeIsLost | apps/web/src/actions/bindings.ts:257-279 | for any two actions that traded their default keys, nothing of it is read back, in whatever order it is stored |
| KeyboardStorage.TradeIsAccepted | apps/web/src/actions/bindings.ts:195-250 | for any two such actions there are three remaps, each accepted, that trade their keys |
| Secrets.DecodeGeneratedSecret | packages/config/src/secrets.ts:226-245 | the loop fills the array with the decoded bytes, or gives null |
| Secrets.LettersExactly | packages/config/src/secrets.ts:218-218 | the letters are those of the base64url alphabet |
| Secrets.DecodesEncoding | packages/config/src/secrets.ts:226-245 | an encoding is decoded to its bytes |
| Secrets.OnlyEncodings | packages/config/src/secrets.ts:226-245 | what is decoded without a rest is the encoding of the bytes |
| Secrets.DecodedIsInverse | packages/config/src/secrets.ts:219-245 | a text is accepted if and only if it is the canonical unpadded base64url encoding of some 32 bytes, and gives these |
| ObjectKeyTexts.KeysExactly | packages/storage/src/keys.ts:17-43 | the keys are exactly the texts of at most 1024 units that are names with slashes between them, no name one or two dots |
| ObjectKeyTexts.PrefixesExactly | packages/storage/src/keys.ts:17-55 | the prefixes are these and the same with a slash after them |
| ObjectKeyTexts.ListingsExactly | packages/storage/src/local-object-store.ts:236-248 | a listing is refused if and only if its prefix or its cursor is none or its limit is not from 1 to 1000 |
| ObjectKeys.DecodeEncoded | packages/storage/src/local-object-store.ts:73-79 | file names decode to the segments they come from |
| ObjectKeyTexts.FileNamesExactly | packages/storage/src/local-object-store.ts:60-75 | a directory is named after its segment, each capital as a caret and its small letter, with .o or .d |
| ObjectKeys.NamesTellIgnoringCase | packages/storage/src/local-object-store.ts:69-75 | different segments have different names even where case is ignored |
| ObjectKeys.PrefixBySegments | packages/storage/src/local-object-store.ts:249-255 | a text prefix of a key is some whole segments and the start of the next |
| ObjectTree.Collect | packages/storage/src/local-object-store.ts:281-308 | the recursion over directory entries computes the keys |
| ObjectTree.KeysOnce | packages/storage/src/local-object-store.ts:281-308 | no key is collected twice |
| ObjectListing.CollectedExactly | packages/storage/src/local-object-store.ts:249-258 | the tree walk finds exactly the keys that begin with the prefix |
| ObjectListing.SortLater | packages/storage/src/local-object-store.ts:256-258 | filtering by cursor before sorting is filtering after |
| ObjectListing.PageProgress | packages/storage/src/local-object-store.ts:236-278 | a cursor is accepted again and fewer keys come after it |
| ObjectListing.PagesListEverything | packages/storage/src/local-object-store.ts:236-278 | following cursors ends, and the pages are exactly the objects under the prefix, each once and in key order |
| LocalObjectStores.PutChangesOne | packages/storage/src/local-object-store.ts:127-185 | after a put the object is there and every other object is what it was |
| LocalObjectStores.DeleteChangesOne | packages/storage/src/local-object-store.ts:230-234 | after a delete, with empty parents pruned, the object is gone and every other object is what it was |
| LocalObjectStores.PutIsTold | packages/storage/src/local-object-store.ts:141-185 | told from the map: a create-only put of a key that is there reports it as existing, unless written under the same write id, and leaves it alone; any other put stores its object |
| LocalObjectStores.DeleteIsTold | packages/storage/src/local-object-store.ts:230-234 | a delete takes its key out of the map, and nothing else |
| LocalObjectStores.TreeRefinesMap | packages/storage/src/local-object-store.ts:141-234 | after any puts and deletes the tree holds what a map of keys would |
| LocalObjectStores.ListingRefinesMap | packages/storage/src/local-object-store.ts:236-308 | listing page by page gives exactly the objects of that map under the prefix |
| LocalObjectStores.LocalObjectStore.Put | packages/storage/src/local-object-store.ts:141-185 | a put creates, replaces or, when create-only, reports the existing object |
| LocalObjectStores.LocalObjectStore.Delete | packages/storage/src/local-object-store.ts:230-234 | a delete of a valid key, or nothing |
| LocalObjectStores.LocalObjectStore.List | packages/storage/src/local-object-store.ts:236-278 | the page loop gives the page |

## Left out

Members whose contract is narrower than the behaviour around them:

- OverlayModel.ViewRefinesDirectApplication: for changes that never meet the corpus limit; the overlay counts its own characters, so at the limit the two sides cut texts differently. `OverlayLimits.ViewAtTheLimit` says what stays the same; which messages are skipped at the limit is not compared.
- SearchViews.SearchView.Tasks: says which records are listed and that each is listed once, not their order, because maps keep no insertion order here.
- Snippets.BuildSnippet: takes the tokens as given: in order, apart, not empty, no white space at either end.
- RateQueue.ServedInTime: is about runs whose sleeps end on time; the budgets and the order of service hold for late sleeps too.
- SearchIndexes.SearchIndex.RestoreRecords: takes the start of a chunk and the ordinal of a section as natural numbers; the source also lets a negative start through.
- SqlTargets.TargetsAreWrites: the write forms are those the source looks for; other statements that write, such as `CREATE TABLE`, are none here either.
- D1Runs.RequestBudget: counts from the start of the lane; `D1Budget.WindowedRequestBudget` is about any window and takes the longest time from a token to its request as given.
- LocalObjectStores.LocalObjectStore.Put: is one step; retries against concurrent writers and the staging directory are not modelled.
- RateLanes.RateLane.Acquire: returns when the caller knows its fate or is queued; the rest of the wait is the pump's and the abort's steps.

Not modelled:

- MiniSearch scoring, postings and vacuuming, and the ranking built on them: only which documents it holds matters.
- Unicode segmentation and normalization (`normalize.ts`), query parsing and `highlightText`.
- The insertion order of JavaScript maps: listings and artifacts may come in any order.
- `SearchView.of`, `truncated`, `changed` and `overlayChars`: reads of what is already described.
- SQL text as UTF-16: the SQL modules work on code points, and change case only where ASCII characters can result; the lexer treats everything beyond ASCII alike.
- What D1 and SQLite do with SQL, but for the names they read in a statement, and the text of a migration request: a script and its record commit as one step. Loading migration files and their log events.
- `int`, `bool`, `json` and `assertIdentifier`: encoders of single values.
- HTTP, timers, headers and the JSON envelope: how an answer was classified is an input of the step that handles it.
- Methods for `execute` and `applyMigrations`: both are asynchronous and share state with others, so they are steps of a state machine instead.
- `all`, `first`, `run`, the client's configuration checks, the circuit's `reset` and the counters' timer.
- Rounding of doubles: token arithmetic is over the reals. Times are whole milliseconds.
- The process-wide lanes and the default options, but for the worker lane's.
- How numbers print: a finite number stands for the text ECMAScript prints, which tells numbers other than 0 and -0 apart. Getters, proxies and cyclic values.
- Type checks of arguments that TypeScript callers cannot get wrong, in `aad.ts` and `keys.ts` of the storage package.
- Encryption, key derivation, tokens and everything else built on these encodings.
- `parseSecretFamilies` and the inventory of secrets: lookups around the decoder.
- `chordFromEvent`, `formatBinding` and key dispatch, and of the focus only which contexts it makes active: elements and their attributes are a description of where the focus is.
- The toggle of single-key shortcuts beyond its stored value, and the texts of errors.
- Bodies, metadata and digests of stored objects, file-system errors, `sweep`, and the R2 store.
- Base64url of list cursors: a cursor is the key it stands for.
