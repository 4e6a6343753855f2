# clipnet: a model of the daemon and its proofs

clipnet is a clipboard manager: a single-threaded daemon (`daemon/src`) that
captures selections, stores them, serves them back and answers a socket, and a
small UI. The modules here model the parts of it where a mistake would lose,
mix up or leak a user's data, in the form the source has (classes whose methods
update fields, loops over buffers, lists linked in place), and prove what those
parts promise. The rest of the world (compositor, pipes, sockets, epoll, clocks,
SQLite's engine, Lua) reaches the model as parameters: an event may come at any
time, a write may stop anywhere, a statement may fail.

| module | what it models |
|---|---|
| `Diff` | the line diff behind "compare two clips" |
| `Sha256`, `Sha256Example`, `ContentHash` | the streaming hash, a known answer, and the canonical bytes a clip is identified by |
| `Schema`, `Store` | tables, blob files, transactions that roll back rows but not files |
| `Disk` | the walk that collects files nobody needs, and opening the database again |
| `Order`, `Retention` | result sets in a strict order; automatic removal |
| `Groups` | the group forest and paths into it |
| `Database` | runs of all store operations together |
| `Search` | terms, filters, the two query plans, pages and counts |
| `Serve`, `Buffers`, `Capture` | the clipboard protocol |
| `Clipboard` | how `Serve` and `Capture` answer what `Buffers` takes of them |
| `Loop`, `Ipc` | timers and watches; request lines and the output window |
| `Utf8`, `HtmlText`, `LuaGlob`, `Base64`, `Blocks` | codecs and translators |
| `Globs` | where a glob and the Lua pattern made from it agree |
| `Bytes`, `Mime` | byte strings and shared names |

How to read the store. `Store.Contents` is what the store holds: for every clip
the (mime, bytes) pairs it was given, as loading finds them through rows and
files. `Store.Valid` is the invariant: every row loads, its hash, size and
place (inline or blob) are right, content hashes, uuids and quick-paste words
are unique, and foreign keys hold. It is relative to a set `u` of byte strings
on which SHA-256 has no collision, and callers only hand in payloads from `u`.
`Groups.GroupsOk` is the invariant of the tree. Operations take a set of `faults`
(queries, statements, writes, unlinks or commits that go wrong) and keep both
invariants under every such set, but for two cases that the code lets through,
each stated with its exact condition and shown on a concrete state:

- `dbi_blob_referenced` (`daemon/src/db.c:868-876`) reads a query that fails while
  it is stepped as "no row names this file". Deleting a clip, setting its text and
  collecting garbage then unlink a file that another row still names, and that
  row's clip no longer loads. The store stays sound exactly when no name that is
  still used has a failing query and a working unlink (`Store.SpareIff`); exactly
  the clips with a lost file are lost (`Store.LosesExactly`); and
  `Store.SharedFileIsLost` is a state in which it happens.
- `within` (`daemon/src/db_edit.c:278-289`) reads a query that fails while it is
  stepped as "not below". A move then closes a cycle exactly when it is cyclic,
  that query fails and the update works (`Groups.Move`); `Groups.CycleHappens` is
  a state in which it happens.

Rows and blobs are not all there is. `db_blob_gc` (`daemon/src/db.c:995-1024`) walks
the entries of two characters in the blob directory, and `..` is one of them: with
nothing going wrong, every collection (a vacuum, a cascading group deletion, a
retention pass that removes something) unlinks every visible file of the data
directory, the database file first of all. The running process keeps what it has
open, so both invariants stand; the next `db_open` creates an empty database.
`Disk.Collect` says exactly what goes, `Database.ReopeningIff` that the stored clips
are there after a reopening if and only if no collection since the last one was
told of `..` and could unlink the database file, and
`Database.CollectionLosesTheDatabase` runs a first clip, a collection and a
reopening, after which the store is empty.

`Database.Drive` carries all of this through whole runs. A third failing query
does no lasting harm but shows: `db_load_payload` (`daemon/src/db.c:737-780`) takes
a step error for the end of the rows and returns the formats read so far as the
whole clip (`Store.LoadPayload`, with a clip of two formats in `Store.HalfAClipLoads`).

Where the code and its comments differ, the code is modelled:

- `daemon/src/serve.h:32-34` says a first-read callback is dropped when its
  source is replaced. `serve.c` keeps it on the replaced source until the
  compositor cancels that source, so a late reader arms the restore timer again
  after the buffer is already restored. `Buffers.PhantomTimerExactly` states
  exactly when, `Buffers.PhantomTimerHappens` gives a run, and
  `Buffers.PastingKeepsTheClip` shows that the clip survives it.
- `serve_free` leaves sources that were replaced but not yet cancelled
  (`Serve.Serve.Free` says which payloads that keeps).
- A copy started while another buffer's paste is in flight puts that buffer back
  (`Buffers.CopyAcrossARestore`).
- A group name longer than 200 characters is cut when it is stored but looked up
  uncut, so the same path is refused the second time (`Groups.SecondCall`).
- Plain history reports at most 1000 as its total, like a search, although the
  comment above the count says it counts exactly (`Search.List`).
- The comment on the query plan (`daemon/src/db.c:534-537`) says a search of short
  terms alone walks the order index; the code leaves that search to SQLite
  (`Search.List`).
- A quick-paste clip that the search does not match otherwise is missing from the
  total when the first page is full (`Search.List`).
- `docs/PROTOCOL.md:115-116` promises the same case-insensitive globs for all rule
  actions. `fnmatch` takes characters, folds their case by the locale and reads
  escapes and sets; the pattern sent to Hyprland takes bytes, folds ASCII and has
  neither. `Globs.PlainGlobsAgree` and `Globs.ClassesThatAgree` state where they
  agree, `Globs.TheyDiffer` gives three pairs on which they do not.
- A configuration file whose last line lacks its newline gets one
  (`Blocks.RestoredIff`).
- The comment above the end of `on_client` (`daemon/src/ipc.c:215`) speaks of a client
  that hung up after asking. Requests that arrive together with the hang-up are
  never handled, because the loop over the lines does not run once the client is
  closing (`Ipc.Client.OnClient`); only what was queued before is drained.
- `daemon/src/capture.c:160` says stored text is always UTF-8. Only text read as
  STRING or TEXT is converted (`Capture.StoredTextIsUtf8`).
- A search that needs more than 64 parameters (22 short terms, say) silently finds
  less than is wanted (`Search.FilterIff`).

## Model

| member | source | states |
|---|---|---|
| Diff.Compare | common/Diff.js:27-61 | The non-null lefts and rights are exactly the two line lists in order, no "changed" row has equal sides, and within MAX_CELLS the "same" rows spell a longest common subsequence; past the limit, and only then, lines are paired by position |
| Diff.Align | common/Diff.js:35-60 | The table, the greedy walk and the pairing together give an optimal alignment |
| Diff.Table | common/Diff.js:32-37 | The flat array filled bottom-up holds the subsequence length of every pair of suffixes, with no entry overflowing 32 bits |
| Diff.Builder.Flush | common/Diff.js:42-49 | Pending removals and additions become paired rows in order and are emptied |
| Diff.ByPosition | common/Diff.js:18-25 | Positional pairing shows both lists and marks equal lines "same" |
| Diff.Summary | common/Diff.js:63-67 | The four counts account for every line of both texts exactly once |
| Diff.LcsIsUpperBound | common/Diff.js:32-37 | No common subsequence is longer than the recurrence says |
| Diff.LcsIsAttained | common/Diff.js:32-37 | Some common subsequence is as long as the recurrence says |
| Diff.MatchInGap | common/Diff.js:52-56 | Exchange argument: if two equal lines are both skipped, the walk was not optimal; this is why a "changed" row never has equal sides |
| Diff.SameLinesAreCommon | common/Diff.js:53-53 | The "same" rows of any well-kinded row list are a common subsequence of its two sides |
| Diff.WalkFlush | common/Diff.js:42-59 | Pairing the pending runs keeps the invariant of the walk, changed rows included |
| Diff.LinesOfTerminated | common/Diff.js:12-16 | Any of the three line endings gives the lines back, except for a single empty line |
| Diff.LinesOfWritten | common/Diff.js:12-16 | Lines written with any mix of the three endings come back, whether or not the last one is ended; null and the empty text have none |
| Diff.EveryTextIsWritten | common/Diff.js:12-16 | Every text is written so, and its lines are thereby told |
| Sha256.Hasher.Update | daemon/src/sha256.c:50-67 | Absorbs bytes through partial, completing and whole blocks; the state stands for the longer message |
| Sha256.Hasher.CompressBlock | daemon/src/sha256.c:18-38 | Schedule and 64 rounds fold one block as in section 6.2.2 of FIPS 180-4 |
| Sha256.Hasher.Pad | daemon/src/sha256.c:72-75 | The padding loop ends after exactly the zero bytes section 5.1.1 asks for |
| Sha256.Hasher.Final | daemon/src/sha256.c:69-85 | Under 2^61 bytes the digest is that of the whole message |
| Sha256.HashPieces | daemon/src/sha256.c:87-93 | For every split into updates the result is the one-shot digest of the concatenation |
| Sha256.PaddingIsMinimal | daemon/src/sha256.c:72-75 | The zero bits are the least solution of l + 1 + k = 448 mod 512 |
| Sha256.HashAppendBlock | daemon/src/sha256.c:18-38 | Hashing block by block is a fold from the left |
| Sha256.StandsPartial | daemon/src/sha256.c:50-67 | Bytes that do not complete a block wait without disturbing the hash so far |
| Sha256.StandsFull | daemon/src/sha256.c:50-67 | Bytes that complete a block are compressed together with those that waited |
| Sha256Example.KnownAnswer | daemon/src/sha256.c:6-48 | The definition gives the published digest of "abc" (section 8.5 of RFC 6234), so every constant, rotation and order in it counts |
| ContentHash.Hash | daemon/src/db.c:117-135 | The hash is the SHA-256 of the length-prefixed records in mime order |
| ContentHash.SameBytesIffSamePairs | daemon/src/db.c:115-135 | Two clips feed the same bytes to the hash if and only if they hold the same set of (mime, bytes) pairs, whatever the offer order |
| ContentHash.SerialisedIsInjective | daemon/src/db.c:125-132 | The records decode in one way only |
| ContentHash.RecordIsRecovered | daemon/src/db.c:127-131 | One record is recovered from the front of any byte string that starts with it |
| ContentHash.OrderIsUnique | daemon/src/db.c:109-122 | A set of pairs with different mimes has one sorted order |
| ContentHash.QsortPossible | daemon/src/db.c:119-122 | A permutation as qsort leaves it exists for every input, duplicates included |
| Schema.NextRowid | daemon/src/schema.c:30-31 | A new row gets one more than the largest id in use |
| Schema.DeleteKeepsKeys | daemon/src/schema.c:30-76 | Deleting clips with its cascades keeps unique columns and foreign keys |
| Store.BlobPut | daemon/src/blob.c:26-63 | A file of the same size under the same name already has these bytes; a failed write changes no file |
| Store.NameIsInjective | daemon/src/blob.c:14-19 | Different hashes give different file names |
| Store.BlobNameIs | daemon/src/blob.c:14-19 | A blob lies in the directory of the first two hexadecimal digits of its hash, under all of them |
| Store.HexIs | daemon/src/util.c:220-228 | A hash is written in lower-case hexadecimal digits, high digit first |
| Store.InsertFormats | daemon/src/db.c:229-270 | On success the rows are exactly those of the formats, mimes are distinct and every blob is in place; files only grow, by a prefix of the formats' blobs if it fails midway |
| Store.InlineOrFile | daemon/src/db.c:229-262 | Pictures and whatever is larger than 64 KiB go to a file named after the hash; anything else stays in its row |
| Store.RowsForLoad | daemon/src/db.c:229-270 | Rows as they are written load back exactly the formats they were written for |
| Store.AddTx | daemon/src/db.c:272-334 | Dedupe by content hash, insert under the unique columns and the group key, then the formats |
| Store.Add | daemon/src/db.c:336-348 | New: the store holds exactly one clip more, with exactly these formats, and no clip held them before. Dup: some clip holds the same pairs, only its time and source change. Failed: nothing changes but files nobody names. Each outcome is had exactly when its statements and the commit go through; without faults they are decided by whether a clip holds the same pairs and the constraints allow the row |
| Store.CopiedAgain | daemon/src/db.c:285-297 | A clip copied again is at least as recent as it was and as this copy, and no more; it keeps its source unless one is given; no other column changes |
| Store.CopiedFirst | daemon/src/db.c:299-325 | The columns of a new clip: its size is that of all its formats together, unset times are now or the time of creation, and nothing the user would set is set |
| Store.IdentityTells | daemon/src/db.c:272-281 | A stored hash equals a candidate's exactly when the pairs are the same, and then the candidate's mimes are distinct |
| Store.Delete | daemon/src/db.c:848-888 | The clip goes, with those of its files that no other row shares; every other clip keeps its contents, unless a failing reference query passes a shared file for an unshared one, which is exactly when the store is left unsound. Not found or failed: nothing changes |
| Store.UnlinkUnused | daemon/src/db.c:881-885 | Of the candidate names exactly those go that no row names or whose reference query fails while it is stepped, and that can be unlinked |
| Store.SpareIff | daemon/src/db.c:868-888 | Unlinking keeps the store sound, and every clip its contents, if and only if no name that is still used has a failing query and a working unlink |
| Store.LosesExactly | daemon/src/db.c:868-888 | Otherwise exactly the clips that name a lost file are lost |
| Store.SharedFileIsLost | daemon/src/db.c:881-885 | A concrete state: two clips share a picture, one is deleted while its reference query fails, and the other no longer loads |
| Disk.Collect | daemon/src/db.c:995-1024 | In the blob directory exactly the files go that the walk comes upon, that no row names or whose reference query fails, and that can be unlinked; the store stays sound exactly when no used one is among them, and then no clip loses a byte. Of the files beside the blob directory every visible one goes unless the walk is not told of ".." or cannot unlink it, the database file too. Without faults the blobs left are exactly the referenced ones, and no temporary and no visible file beside them remains |
| Disk.Sweep | daemon/src/db.c:998-1021 | The nested walk over directories and names unlinks exactly the visible files in entered two-character directories that are temporary, unreferenced or not answered for |
| Disk.NotReferenced | daemon/src/db.c:1007-1014 | In a sound store no row names a file outside the blob directory, so none is kept |
| Disk.BlobPath | daemon/src/blob.c:14-19 | A blob lies in a two-character directory other than "..", visible and never taken for a temporary file; its temporary file always is |
| Disk.Reopen | daemon/src/db.c:56-95 | The tables are there again exactly when the database file is in its place; otherwise they are empty. The store is sound either way |
| Store.LoadPayload | daemon/src/db.c:737-780 | In every valid state every clip loads, and gives exactly what was stored; if a row cannot be read the formats before it are returned as if they were all, none is an error |
| Store.HalfAClipLoads | daemon/src/db.c:749-780 | A concrete clip of a text and an HTML format: reading its second row fails and the text alone is loaded as the whole clip |
| Store.FormatBytes | daemon/src/db.c:686-715 | A row fails to load only when its file is missing |
| Store.SetTextTx | daemon/src/db_edit.c:154-194 | Old rows out, new row in, columns updated, unless another clip has this content |
| Store.SetText | daemon/src/db_edit.c:199-221 | The clip's formats become the one text and its other columns stay; refused exactly for a missing clip, empty or invalid text, or another clip holding just this text; old files go only if nobody shares them, unless a failing reference query says so, which is exactly when the store is left unsound |
| Store.TextIsAll | daemon/src/db_edit.c:154-194 | Hash, size and searchable text become the new text's, the one format is text; every other column, clip, group, buffer and hotkey stays |
| Store.PayloadsKept | daemon/src/db.c:868-888 | Contents depend only on the files that rows name |
| Store.EditKeeps | daemon/src/db_edit.c:52-142 | Any update of other columns that the constraints let through keeps every clip's contents |
| Store.SetColumn | daemon/src/db_edit.c:52-142 | Setting title, quick-paste word, lock, stickiness, group or time of use changes that column only; refused exactly for a missing clip, a taken quick-paste word or a missing group |
| Store.OnlyThatColumn | daemon/src/db_edit.c:52-142 | Which column each of the updates sets, and that it sets no other; a paste counts, a mere use does not |
| Store.SetSlot | daemon/src/buffers.c:51-64 | A copy buffer is set to a clip exactly when the clip is there; nothing else changes |
| Store.DeleteIs | daemon/src/schema.c:53-66 | Deleting any set of clips removes exactly their contents |
| Retention.Retain | daemon/src/db.c:984-993 | The pass leaves exactly the clips the settings keep, each with its contents, and reports how many went; no clip that is locked, sticky, grouped, named by a word, in a copy buffer or bound to a hotkey is removed or changed; if it fails no row changes. The store is left unsound exactly when the collection after it loses a used blob to a failing reference query; without faults the blobs are then exactly the referenced ones. A pass that removed something also takes what a collection takes beside the blob directory |
| Retention.RetentionTx | daemon/src/db.c:950-982 | The three deletes, the last by sorting and cutting at an offset, remove exactly the too old, the too heavy and the excess, and none the user has invested in |
| Retention.OffsetIsExcess | daemon/src/db.c:973-977 | What stands past the offset is what has at least that many newer expendable clips |
| Retention.ProtectedStay | daemon/src/db.c:928-935 | A protected clip is never removed nor changed |
| Retention.RemovedIff | daemon/src/db.c:925-982 | Column by column: a clip is removed if and only if it is not locked, sticky, grouped, named by a word, in a buffer or bound, and either it was unused for more than max_age_days, or for more than large_age_days and is large, or the clips invested in and the fresher ones (used later, or at once with a larger id) already make max_clips; a clip that is left is unchanged |
| Retention.InvestedAreSpared | daemon/src/db.c:925-932 | Every clip the user has invested in, by any of the six columns, is there afterwards as it was |
| Retention.CountBound | daemon/src/db.c:970-979 | With max_clips = m > 0 at most max(m, protected) clips are left, exactly that many if the count step removed any |
| Retention.KeptAreNewer | daemon/src/db.c:970-979 | Every expendable clip that is kept is newer by (last_used_at, id) than every one the count step removed |
| Retention.SecondPass | daemon/src/db.c:950-982 | A second pass at the same time changes nothing |
| Database.Drive | daemon/src/db.c:56-1024 | Over every run of adds, duplicates, text, column and slot edits, deletes, group changes, cascades, retention, collections and reopenings, each with any faults: every state is sound (every row loads what was stored, no blob is missing, hashes are unique, groups are a forest) until an operation loses a used blob or closes a cycle, and a run goes through soundly exactly when none does; each step leaves exactly the tables it is for (Database.Tabled), takes out exactly the clips it is for (Database.Takes), adds exactly one new clip or sets exactly one text, changes the tree only if it is an operation on it, and unlinks the database file exactly when it collects and can |
| Database.Live | daemon/src/db.c:56-83 | The same for every run from a store opened for the first time, which is sound |
| Database.MooredIff | daemon/src/db.c:995-1024 | While the store stays open the database file stays in its place if and only if no collection was told of ".." and could unlink it |
| Database.ReopeningIff | daemon/src/db.c:56-95 | The stored clips are there after a reopening if and only if no collection since the last one did that; otherwise all are lost |
| Database.CollectionUnmoors | daemon/src/db.c:1000-1014 | With nothing going wrong every collection unlinks the database file |
| Database.CollectionLosesTheDatabase | daemon/src/db.c:995-1024 | A concrete run: a first clip, a collection, a reopening, and the store is empty |
| Database.ClipStays | daemon/src/db.c:97-1024 | Over every sound run a clip that no step takes out or gives another text is there at its end, byte for byte |
| Database.ProtectedIsNotTaken | daemon/src/db.c:928-979 | Retention takes no clip that is locked, sticky, grouped, named by a word, in a buffer or bound to a hotkey |
| Database.Apply | daemon/src/db.c:97-104 | One operation, committed or rolled back, keeps both invariants exactly when it neither loses a used blob nor closes a cycle; the tables are then exactly what the operation makes of those before it, and so is what the store holds |
| Order.ListingUnique | daemon/src/db.c:507-507 | A strict order lists a set of rows in one way only |
| Order.Sort | daemon/src/db.c:507-507 | ORDER BY gives that listing |
| Order.FilteredWalk | daemon/src/db.c:546-574 | Reading an index in order and testing each entry lists the matching rows in order |
| Groups.Move | daemon/src/db_edit.c:291-302 | With a subtree query that answers, refused for cyclicity exactly when the move would create a cycle; a name taken there, a missing group or a missing parent are refused too; otherwise only the parent changes. The groups stop being a forest exactly when the move is cyclic, the query fails while it is stepped and the update works |
| Groups.CycleHappens | daemon/src/db_edit.c:278-302 | A concrete state: a parent moved below its child while the subtree query fails |
| Groups.CycleIff | daemon/src/db_edit.c:278-296 | A move closes a cycle if and only if the new parent lies in the moved subtree |
| Groups.Within | daemon/src/db_edit.c:278-289 | The recursive query finds the group exactly when the other lies at or below it; unprepared it counts as below, failing on the way as not below |
| Groups.Sub | daemon/src/db_edit.c:281-282 | The recursive query collects exactly the subtree |
| Groups.Create | daemon/src/db_edit.c:245-263 | One group more, under the trimmed name cut to 200 characters, or one of the four refusals, each exactly when it applies |
| Groups.Rename | daemon/src/db_edit.c:265-276 | Only the name changes, unless a sibling has it |
| Groups.OwnNameIsFree | daemon/src/schema.c:26-28 | A group may keep its own name; any sibling's is taken |
| Groups.ValidName | daemon/src/db_edit.c:235-243 | Empty and malformed names are told apart; a usable one keeps at most 200 whole characters |
| Groups.TrimIs | daemon/src/db_edit.c:40-50 | Spaces, tabs, line feeds and carriage returns on either side of a text are trimmed away, and nothing else |
| Groups.CutIs | daemon/src/db_edit.c:235-243 | A name is cut to a prefix of whole characters, as many as it has up to 200 |
| Groups.AcyclicIsRanked | daemon/src/db_edit.c:291-302 | A closed relation without cycles is a forest: every group outranks its parent |
| Groups.Cascade | daemon/src/schema.c:22-22 | ON DELETE CASCADE removes exactly the subtree |
| Groups.DeleteTx | daemon/src/db_edit.c:311-342 | Collects the subtree's clips, deletes them if asked, and deletes the groups |
| Groups.PrunedIs | daemon/src/db_edit.c:311-342 | Of the groups exactly the subtree goes; a clip of the subtree goes with it, or else only loses its group; no other clip, group or column changes |
| Groups.Delete | daemon/src/db_edit.c:344-357 | Exactly the subtree goes; exactly its clips are deleted or fall back to plain history; all other contents stay; the store is left unsound exactly when the collection after a cascade loses a used blob to a failing reference query; without faults the blobs are then exactly the referenced ones. A cascade also takes what a collection takes beside the blob directory |
| Groups.EnsurePath | daemon/src/db_edit.c:359-387 | The result is the last group of a trail of the (cut) names from the top, only groups on that trail are new, whichever statements fail; with none failing the group is found or made exactly when the path has names, all of them text, and none is stuck; a path that is there is found and nothing is made, and a stuck one is refused and nothing is made |
| Groups.ComponentsOfParts | daemon/src/db_edit.c:363-370 | The names of a path are the parts between its slashes, trimmed, the blank ones left out |
| Groups.EveryPathHasParts | daemon/src/db_edit.c:363-370 | Every path is such parts with slashes between them |
| Groups.SecondCall | daemon/src/db_edit.c:359-387 | After a call that succeeded, the names lead to the same trail again exactly when none exceeds 200 characters; otherwise the path is stuck |
| Groups.TrailUnique | daemon/src/schema.c:26-28 | Sibling-unique names make a path lead to at most one group |
| Search.PatternIsLiteral | daemon/src/db.c:455-470 | An escaped LIKE pattern matches exactly the texts that contain the short term literally, ASCII case aside |
| Search.ExpressionReadsBack | daemon/src/db.c:447-454 | The quoted full-text expression parses back to exactly the long terms |
| Search.SplitTerms | daemon/src/db.c:434-474 | Long terms go to the expression, short ones to three parameters each, dropped past the sixty-fourth |
| Search.BuildWhere | daemon/src/db.c:478-499 | The filter selects, for every clip and every index, exactly the clips in scope in which every term occurs, if and only if the query needs at most 64 parameters |
| Search.FilterIff | daemon/src/db.c:424-499 | Past the sixty-fourth parameter a marker stays unbound and its clause finds nothing: then, and only then, some wanted clip is not selected |
| Search.TermsOfWords | daemon/src/db.c:434-446 | The terms of a query are its words, whatever spaces, tabs and line feeds stand around them |
| Search.EveryQueryIsSpelled | daemon/src/db.c:434-446 | Every query is words and blanks, and so its terms are told |
| Search.CharsAreCharacters | daemon/src/db.c:444-446 | What decides between the index and LIKE is the number of characters of a well-formed term |
| Search.HistoryIs | daemon/src/db.c:478-507 | Column by column: the history holds exactly the clips of the scope asked for in which every term occurs, each once; a sticky clip never follows a plain one, of two sticky ones the smaller order comes first, otherwise the one used later, and of those used at once the larger id |
| Search.WalkPage | daemon/src/db.c:546-587 | The walk that stops at a full page returns the same rows as cutting the whole filtered index |
| Search.Walk | daemon/src/db.c:546-574 | The plan over an order index returns the slice of the selected clips in history order |
| Search.CollectPage | daemon/src/db.c:568-574 | The plan that collects and sorts returns that slice too |
| Search.PlansAgree | daemon/src/db.c:534-574 | Whatever is wanted, walking an index in history order with a filter and collecting-and-sorting give the same sequence |
| Search.Choose | daemon/src/db.c:534-545 | The index is walked exactly when the full-text probe hits its cap; when the count is skipped, the matches are at least that many |
| Search.List | daemon/src/db.c:526-619 | In history order (Search.Chronicle, over the columns) but for the quick-paste clip, which comes first and once. With at most 64 parameters, whichever plan runs, the page is the slice of the history of the wanted clips; total and "more" are those of the union while the page is not full, of the matches otherwise, capped at 1000 |
| Search.QuickIs | daemon/src/db.c:549-563 | The clip whose word is the whole search comes first on a first page, and on no other |
| Search.ProbeIsEnough | daemon/src/db.c:594-599 | When nothing but full-text terms narrows the list, the probe's hits are the matches, so the skipped count agrees with the capped one |
| Search.Totals | daemon/src/db.c:589-616 | Counting up to the cap and adding the quick-paste clip once gives the capped size of the union |
| Search.IdAtPosition | daemon/src/db.c:621-639 | The clip at a position of the history order, later used ones first behind the sticky ones, 0 past its end |
| Search.RowIsPosition | daemon/src/db.c:621-639 | With no search, row k of a page is the clip at position offset + k, a negative offset counting as 0 and a limit that is not positive as 200 |
| Serve.NameTable | daemon/src/serve.c:186-213 | The parallel arrays hold each offered name once, for the first format that has it |
| Serve.FirstFormatAnswers | daemon/src/serve.c:183-213 | A name is offered exactly when some format has it, and the first such format answers |
| Serve.AskedIs | daemon/src/serve.c:152-213 | Asked for the marker a reader gets the uuid; for any other name the bytes of the first format that has it as its mime, or is text and has it as an alias or a usual one; else nothing |
| Serve.Payload.Unref | daemon/src/serve.c:64-69 | The payload is freed exactly when its last reference goes |
| Serve.Writer.WriteSome | daemon/src/serve.c:86-104 | Through partial and interrupted writes, the bytes sent plus those left are the bytes wanted |
| Serve.PumpEnds | daemon/src/serve.c:86-104 | A transfer breaks off only at a failing write, or one that writes nothing, before the pipe is full; until then every byte accepted counts |
| Serve.PumpStops | daemon/src/serve.c:92-100 | At a full pipe it waits, at a failing one it ends, with exactly what was accepted before |
| Serve.Serve.WriterPump | daemon/src/serve.c:86-104 | A transfer ends when all is sent or the reader is gone, and its payload is released then; one whose pipe does not fail ends only with everything sent |
| Serve.Serve.WriterFree | daemon/src/serve.c:71-82 | Exactly this transfer leaves the list, its pipe is closed and one reference is dropped |
| Serve.Serve.OnWritable | daemon/src/serve.c:106-114 | A hangup or a finished transfer closes it with exactly the prefix sent so far on record, and every other stays on the list; with no hangup and no failing write it is still listed or has sent all that was wanted, and has if the pipe took all; the books of payloads and pipes carry on |
| Serve.Serve.OnWriterTimeout | daemon/src/serve.c:116-122 | A stalled transfer is closed, and every other stays on the list |
| Serve.Serve.StartWriter | daemon/src/serve.c:124-138 | A transfer that cannot finish at once is at the head of the list with a reference of its own; one that can is on record with what it sent, all of it unless a write failed |
| Serve.Serve.OnSend | daemon/src/serve.c:152-174 | A reader gets, from this source's payload, the bytes of the format that answers to the name, or the marker, or nothing; unless a write fails its transfer is listed or has sent them all; the first real read runs the callback once |
| Serve.Serve.OnCancelled | daemon/src/serve.c:140-179 | Exactly this source goes; transfers under way go on |
| Serve.Serve.SourceFree | daemon/src/serve.c:140-150 | One reference is dropped; the current clip is forgotten only if it was this source's |
| Serve.Serve.Own | daemon/src/serve.c:198-229 | A new source with a payload of its own becomes current and the replaced one stays until it is cancelled; a payload that cannot be put on the clipboard is freed at once |
| Serve.Serve.Free | daemon/src/serve.c:300-306 | Every pipe handed in is closed; every payload no replaced source still holds is freed exactly once |
| Serve.HeldBytesAreAlive | daemon/src/serve.c:58-82 | A payload that a source or a transfer holds has not been freed |
| Serve.HeldOrFreed | daemon/src/serve.c:58-82 | A payload is freed, once, exactly when no source and no transfer has it |
| Serve.Drive | daemon/src/serve.c:71-306 | Over every run of reads, writes, stalls, hangups, serves and cancellations: every payload ever loaded is freed exactly when nobody holds it, once, and stays freed; every pipe end handed over is open in one transfer or closed once; every transfer that ended sent a prefix of the bytes that the name its reader asked for stands for, and all of them unless the event that ended it was a hangup, a stall or a failing write |
| Serve.Live | daemon/src/serve.c:292-306 | From start to shutdown every pipe end of the run is closed exactly once and every payload freed exactly once, unless a source that was replaced and never cancelled still has it |
| Serve.LoseWriter | daemon/src/serve.c:71-82 | Removing one transfer lowers its payload's holders by one and nobody else's |
| Serve.Dispatch | daemon/src/serve.c:71-306 | Each event does what it is for (Serve.Heeded): what a reader takes is sent, a stalled or hung-up transfer is closed, a reader is served or turned away, a cancelled source goes, a new one becomes current, a callback waits; and at most one transfer ends, early only if this event may cut it off |
| Buffers.PastingKeepsTheClip | daemon/src/buffers.c:135-179 | Over every run of pastes, reads and expiries from a clip p: with no restore pending p is current, with one pending the buffer is current and p is remembered (or they coincide) |
| Buffers.PasteComesBack | daemon/src/buffers.c:135-179 | Pasting from one of the three buffers puts its clip on the clipboard for three seconds, or for 0.3 seconds from its first read, and then the old clip is back |
| Buffers.DeletedLeavesItsBuffers | daemon/src/schema.c:74-76 | A deleted clip is in no buffer any more and the others keep theirs |
| Buffers.TimerMeansInFlight | daemon/src/buffers.c:135-179 | Unless a replaced source is read late, a pending restore means a paste in flight |
| Buffers.PhantomTimerExactly | daemon/src/serve.c:152-174 | The restore timer is armed with nothing in flight exactly when a source that still waits for its first read is read after the restore |
| Buffers.PhantomTimerHappens | daemon/src/serve.c:274-279 | A concrete run in which that happens |
| Buffers.RestoreExactly | daemon/src/buffers.c:86-92 | A restore changes the clipboard exactly when the remembered clip exists and the buffer is still being served |
| Buffers.DisturbedRestoreIsIdle | daemon/src/buffers.c:86-141 | Once the source was cancelled or another clip served, then over every run until the timer fires (or a new paste fires it), unless something serves the buffer's clip again, that clip is never what is served and the restore changes nothing but forgets the paste |
| Buffers.RestoresExactly | daemon/src/buffers.c:86-148 | Over every run between a paste and its timer the restore touches the clipboard exactly when the last event that touched it left the buffer's clip there and the old clip is still to be had |
| Buffers.ServedAfter | daemon/src/buffers.c:86-113 | What is served after an event: what it brought, nothing if it cancelled the current source, else what was |
| Buffers.CopyKeepsTheClip | daemon/src/buffers.c:94-133 | Copying into a slot fills the slot and puts the old clip back |
| Buffers.CopyAcrossARestore | daemon/src/buffers.c:94-133 | When a restore falls between a copy and its capture, the clip survives exactly when no other buffer's paste was in flight |
| Buffers.CopiedExactly | daemon/src/buffers.c:94-113 | The arriving clip fills the slot that waits for it; then and only then the clip from before is served again, if there was one, it is another, still there, and loads |
| Buffers.RefusedCopy | daemon/src/buffers.c:115-133 | A copy that is refused fills no slot |
| Buffers.ForeignIsCaptured | daemon/src/capture.c:200-217 | Another application's selection becomes the current clip, or none if it was not stored |
| Buffers.Buffers.Paste | daemon/src/buffers.c:150-179 | The method is the paste step of the machine, refusals included |
| Buffers.Buffers.OnRestore | daemon/src/buffers.c:135-141 | The method is the expiry step |
| Buffers.Buffers.ReadSource | daemon/src/serve.c:163-169 | A read request runs the callback of its own source, once |
| Buffers.Buffers.Copy | daemon/src/buffers.c:115-133 | The method is the first half of a copy |
| Buffers.Buffers.OnCopied | daemon/src/buffers.c:94-113 | The method is the second half, the slot that cannot be written included |
| Clipboard.ServeClip | daemon/src/serve.c:198-271 | The serve step of the buffers machine is what serve.c and capture.c do: a new current source, the old ones left, the current clip set |
| Clipboard.Send | daemon/src/serve.c:152-174 | Its read step too: the callback of a source runs exactly at its first read of real content |
| Clipboard.Cancel | daemon/src/serve.c:140-179 | And its cancel step |
| Clipboard.OnFirstRead | daemon/src/serve.c:274-279 | The callback waits on the current source and on no other |
| Capture.BuildPlan | daemon/src/mime.c:65-100 | At most 32 reads with distinct canonical names: text first under its best name, then the wanted names in the order they were offered, none left out while there is room |
| Capture.TextIsBest | daemon/src/mime.c:31-85 | A source that offers UTF-8 text is asked for it; then UTF8_STRING, text/plain, STRING and TEXT, each only if nothing better is offered |
| Capture.WantedIs | daemon/src/mime.c:39-58 | A PNG makes every other picture but SVG superfluous; names of the clipboard protocol are never read, all other names are |
| Capture.FilterPlan | daemon/src/rules.c:43-62 | Dropping steps in place keeps exactly the others, in their order and still distinct |
| Capture.FilteredMeans | daemon/src/rules.c:52-59 | What is left is exactly the steps no rule drops |
| Capture.KeptMimesAreDistinct | daemon/src/capture.c:147-160 | Formats handed to the store never share a mime |
| Capture.KeptIsBounded | daemon/src/capture.c:234-247 | At most as many formats are kept as steps were taken |
| Capture.CompleteIsEverything | daemon/src/capture.c:257-283 | A format counts only when its pipe was read to the end within its cap, and then it is exactly what arrived |
| Capture.ReceiveIs | daemon/src/capture.c:257-283 | What arrives before a pipe runs dry is kept for the next burst; the end of the pipe completes it; a failing read or too many bytes lose the format |
| Capture.CopyIsStored | daemon/src/capture.c:147-417 | A selection that holds still and whose pipes deliver in time, in any bursts, is handed to the database exactly once, every format whole, in the order of the plan (or the text a script makes of it), and its clip becomes the current one; if every format is empty, or the clip is dropped, nothing is stored |
| Capture.StoredTextIsUtf8 | daemon/src/capture.c:155-171 | Text is stored as UTF-8 if and only if it was UTF-8 already or was read as STRING or TEXT |
| Capture.NothingIsRead | daemon/src/capture.c:371-410 | Our own offers, secrets, a paused recording and excluded applications: nothing is read or stored; a secret leaves no current clip, our own offer the one there was |
| Capture.TimeoutSkips | daemon/src/capture.c:249-255 | A format that does not come in time is skipped and the next one is read |
| Capture.OwnerLeaves | daemon/src/capture.c:328-369 | When the owner leaves the clipboard empty the current clip is put back at the first look, or at the second if something was there at the first; never a secret, and nothing if there is no current clip |
| Capture.Capture.OnReadable | daemon/src/capture.c:257-283 | More, complete or lost: what is kept, that the next step is opened exactly once, and what is stored if it was the last |
| Capture.Capture.EndFormat | daemon/src/capture.c:234-247 | The step counter goes up by one each time, so reading ends |
| Capture.Capture.ReadNext | daemon/src/capture.c:293-317 | Opens the next pipe, or finishes when the plan, the time or the pipes run out |
| Capture.Capture.Finish | daemon/src/capture.c:147-232 | Hands over the kept formats, X11 text converted, or the text a script makes of them, if any has bytes; then releases the offer |
| Capture.Capture.OnSelection | daemon/src/capture.c:371-417 | Takes ownership of the offer, ends the capture in flight, and sets or clears the sensitive mark |
| Capture.Capture.AbortCurrent | daemon/src/capture.c:96-108 | Whatever was in flight, its pipe, timers and offer are released |
| Capture.Capture.OnKeepalive | daemon/src/capture.c:328-353 | The clip is put back exactly when keep-alive is wanted and the clipboard turns out to be empty |
| Capture.Capture.Free | daemon/src/capture.c:112-120 | At the end every offer ever handed in has been destroyed exactly once |
| Capture.Dispatch | daemon/src/capture.c:234-417 | Every event keeps the invariant (kept formats are a subsequence of the plan within their caps, n_got <= next <= n_reads while a step is open, offers are owned once) and is one step of the machine on values (Capture.After); the offers handed in grow by exactly the one of a selection |
| Capture.Drive | daemon/src/capture.c:328-417 | Every run is a run of that machine, what is stored included; while the sensitive mark stands the current clip is 0 and keep-alive puts nothing back; the offers handed in are exactly those of the run's selections |
| Capture.Live | daemon/src/capture.c:96-120 | From start to shutdown every offer that the run's selections handed in is destroyed exactly once |
| Loop.Loop.ArmTimer | daemon/src/loop.c:91-102 | The list stays sorted by due time with ties in arming order |
| Loop.Loop.CancelTimer | daemon/src/loop.c:104-115 | Exactly this timer is taken out; a handle that is not pending changes nothing |
| Loop.Loop.RunTimers | daemon/src/loop.c:128-141 | Timers fire in order, only when due, each once with its callback, never one cancelled before, none after a callback asked to stop, and none is left due unless the loop quits or the callbacks given run out |
| Loop.InsertKeepsOrder | daemon/src/loop.c:97-100 | Inserting behind equal due times keeps firing order |
| Loop.BooksCancel | daemon/src/loop.c:104-115 | A cancelled timer can no longer fire |
| Loop.BooksFire | daemon/src/loop.c:133-139 | A fired timer can fire no more |
| Loop.Loop.DelFd | daemon/src/loop.c:80-89 | A deleted watch is marked dead and kept until the batch is over |
| Loop.Loop.Batch | daemon/src/loop.c:159-167 | Whatever callbacks delete, a watch is called once for every event that finds it alive and not once dead, none has been freed when its event comes, and after the batch each deleted one has been freed exactly once |
| Loop.Loop.Drive | daemon/src/loop.c:143-171 | Over every run of turns, interrupted waits included: turn by turn the timers fire in order, only when due, and unless the loop is stopped or the callbacks given run out every timer armed and due by then has fired or was cancelled; a timer fires at most once, never once cancelled, and is otherwise still pending; a deleted watch is not called again and is freed exactly once, at the next batch; what is done is exactly what the prepare hook, the callbacks of live watches and those of fired timers do (Loop.RunActs), and the loop stops exactly when one of them asks to |
| Loop.Loop.FreeGraveyard | daemon/src/loop.c:163-167 | Exactly the deleted watches are freed |
| Loop.Loop.Timeout | daemon/src/loop.c:148-152 | The wait never goes past the next due time |
| Loop.Loop.Callback | daemon/src/loop.c:65-126 | Every act of a callback is done, in order, and nothing else: timers armed are due as asked, one cancelled is pending no more and none is cancelled unasked, watches are added as asked and deleted if asked and only then, and the loop is to stop exactly when some callback said so (Loop.Obeyed) |
| Loop.Loop.Visit | daemon/src/loop.c:159-162 | The events of a batch have their turns in order until a callback asks to stop: each whose watch is alive then runs its callback, and no other |
| Ipc.Client.OnClient | daemon/src/ipc.c:181-220 | While the client lives, the lines handled are exactly the newline-terminated segments of all bytes received, in order, with the tail kept, and what was sent plus what is pending has grown by exactly the answers to the lines handled in this event, in order, whatever each line is answered at its place; the subscription is what the last line that set it said. It is freed only if it was closing, a socket failed, the answers do not fit, or the peer hung up or sent too long a line, and always in the first and the last two cases; the lines of such a burst go unanswered, a too long line is complained about, and what is queued is sent if the socket takes it |
| Ipc.ReceiveIs | daemon/src/ipc.c:187-202 | A burst delivers all data up to the first read that would block, the hang-up, or the read that makes the line too long, and says which it was |
| Ipc.ReceiveCutsOff | daemon/src/ipc.c:187-202 | It ends the connection exactly when the peer hangs up or the line gets too long |
| Ipc.DrainEnds | daemon/src/ipc.c:61-70 | A flush fails only at a failing send, or one that sends nothing, before the socket is full; until then every byte accepted counts |
| Ipc.DrainStops | daemon/src/ipc.c:61-70 | At a full socket the rest is kept, at a failing one the client is given up, with exactly what was accepted before |
| Ipc.Client.HandleLines | daemon/src/ipc.c:203-213 | Every complete line is handed over once, and answered as its place says, unless one of them ends the connection |
| Ipc.Client.FlushOut | daemon/src/ipc.c:61-80 | Through partial sends and compaction, sent plus pending is what was appended |
| Ipc.Client.Send | daemon/src/ipc.c:82-97 | A message is appended whole, and pushed out if the socket takes it, or the client is closed; it stays open if there is room and no send fails; pending output stays within 64 MiB and one byte |
| Ipc.Hub.Broadcast | daemon/src/ipc.c:141-166 | Every subscriber with room gets the event and stays open unless its socket fails; the others are marked for the reaper; no client is freed under the walk |
| Ipc.Hub.OnReap | daemon/src/ipc.c:101-109 | Exactly the closing clients are freed |
| Ipc.SegmentsUnique | daemon/src/ipc.c:203-213 | A byte string is cut into newline-free lines and tail in one way only |
| Ipc.HandledIsPrefix | daemon/src/ipc.c:203-213 | What was handled are the first lines received, however the bytes were cut into reads |
| Utf8.Valid | daemon/src/util.c:166-189 | Accepts exactly the encodings of sequences of Unicode scalar values (sections 3 and 4 of RFC 3629) |
| Utf8.WellAtAscii | daemon/src/textutil.c:100-158 | Valid text may be cut before or after any ASCII byte |
| Utf8.PrefixIsWell | daemon/src/util.c:207-218 | The prefix has whole characters, as many as allowed, and is the whole text exactly when it is short enough |
| Utf8.Latin1ToUtf8 | daemon/src/util.c:191-205 | Every Latin-1 byte string becomes valid UTF-8 |
| HtmlText.HtmlToText | daemon/src/textutil.c:100-158 | Valid input gives valid output although bytes are copied one at a time |
| HtmlText.DocumentText | daemon/src/textutil.c:61-158 | The text of every document made of characters (raw, by one of the seventeen names, by decimal or hexadecimal number), tags, comments, scripts and styles is its characters, a new line for each block, a tab before each cell and nothing for the rest, but for blanks at the end |
| HtmlText.FarIsNoEntity | daemon/src/textutil.c:74-76 | An ampersand with no semicolon within reach is left alone |
| HtmlText.ScanIsWell | daemon/src/textutil.c:109-152 | Every intermediate state of the scan is sound |
| HtmlText.NoTagSurvives | daemon/src/textutil.c:109-152 | '<' comes out only where an entity asked for it |
| HtmlText.PlainTextIsKept | daemon/src/textutil.c:145-157 | Text without markup is returned as it is, but for blanks at the end |
| HtmlText.SkippingAddsNothing | daemon/src/textutil.c:126-145 | Inside a script or a style nothing comes out, and only its own closing tag ends it |
| HtmlText.DecodeEntity | daemon/src/textutil.c:61-92 | Named and numeric references, and what is left alone |
| HtmlText.NumericReads | daemon/src/textutil.c:77-83 | A reference by number is white space, a sign, for hexadecimal a prefix, and digits, clamped and wrapped to 64 bits as strtoul does; with anything behind the digits it is none |
| LuaGlob.PatternMeansGlob | daemon/src/hypr.c:291-302 | The anchored Lua pattern finds the lowercased class exactly when the glob, read byte by byte with ASCII case folded, matches it (section 6.4.1 of the Lua 5.4 manual) |
| LuaGlob.QuotedReadsBack | daemon/src/hypr.c:277-288 | The quoted string reads back as itself (section 3.1 of that manual) |
| LuaGlob.SentPatternMeansGlob | daemon/src/hypr.c:277-302 | The text sent to Lua decides every class as that byte glob does |
| LuaGlob.GlobToLuaPattern | daemon/src/hypr.c:291-302 | The loop writes that pattern |
| LuaGlob.LuaQuote | daemon/src/hypr.c:277-288 | The loop writes that literal |
| Globs.PlainGlobsAgree | daemon/src/rules.c:15-18 | The pattern decides as fnmatch does in a UTF-8 locale for every glob of *, ? and literal characters, if its characters and those of the class fold as in ASCII, and the glob has no ? or the class is ASCII |
| Globs.ClassesThatAgree | daemon/src/rules.c:15-18 | For a class whose characters fold so, the two agree under all these globs if and only if the class is ASCII |
| Globs.TheyDiffer | daemon/src/hypr.c:291-302 | Three pairs on which they differ: ? against an accented letter, an accented capital against its small letter, and an escaped character |
| Globs.EscapedIsLiteral | daemon/src/rules.c:15-18 | For fnmatch a text with every character escaped stands for itself, case aside |
| Globs.MiddleIsNoUse | daemon/src/hypr.c:296-299 | Without ?, no byte glob made of whole characters can match from the middle of one |
| Base64.Encode | daemon/src/util.c:232-252 | The loop writes the encoding of section 4 of RFC 4648 |
| Base64.Decode | daemon/src/util.c:254-278 | Despite the wrapping accumulator the bytes are those the characters spell, and every write lands within n/4*3+3 bytes |
| Base64.RoundTrip | daemon/src/util.c:230-278 | Decoding an encoding gives the bytes back, with white space inserted anywhere |
| Base64.PlainRoundTrip | daemon/src/util.c:230-278 | The encoder's own output decodes to its input |
| Base64.AlphabetIs | daemon/src/util.c:230-230 | The alphabet is A to Z, a to z, 0 to 9, + and / |
| Base64.SkippedIs | daemon/src/util.c:254-278 | Space, line feed, carriage return and tab are skipped, = pads |
| Base64.FourIsNumber | daemon/src/util.c:232-252 | Four characters are the digits in base 64 of the number that three bytes are |
| Base64.EncodedLength | daemon/src/util.c:232-252 | Every three bytes begun give four characters, pads included |
| Base64.DecodesIff | daemon/src/util.c:254-278 | Exactly the texts of alphabet characters followed by at most two pads, white space aside and with no lone last character, decode, and to the bytes they spell |
| Base64.AccStep | daemon/src/util.c:268-273 | Wrapping at 32 bits loses no bit that is still needed |
| Blocks.Config.WriteBlock | scripts/clipnet:90-106 | The file becomes what the line machine prints; it is backed up if and only if it changes |
| Blocks.Config.RemoveBlock | scripts/clipnet:108-125 | A file without a block is left alone, another one becomes what the line machine prints |
| Blocks.RestoredIff | scripts/clipnet:90-125 | For marker-free text and content, removing after writing restores the file exactly, runs of trailing blank lines included, if and only if its last line was complete |
| Blocks.RewriteText | scripts/clipnet:90-106 | For every file, writing a second content equals having written only it; with the same content it is a no-op |
| Blocks.OneBlock | scripts/clipnet:96-102 | After writing there is exactly one begin and one end marker and the lines outside the block are the user's |
| Blocks.Removed | scripts/clipnet:113-121 | Removal takes out the block and at most the one blank line before it, wherever it stands |
| Blocks.PrintedLines | scripts/clipnet:96-121 | Printing a text's lines gives the text back, with the last newline added if it lacked one |

## Left out

- SQLite's engine, WAL and fsync, Wayland and Hyprland sockets, epoll, cJSON and the Lua VM: their answers are parameters. Transactions are all-or-nothing on rows; crashes are not modelled, and closing writes the whole log back into the database file.
- Retention.RetentionTx: the DELETE statements are set operations; `WITH RECURSIVE`, `ON DELETE CASCADE` and `ORDER BY` are written out as loops in `Groups.Sub`, `Groups.Cascade` and `Order.Sort`.
- Store.Add: preview, kind, flags and aliases are not columns of the model, and the derived text is a parameter; a payload is below 2^64 bytes and the hashed records are taken from the collision-free set.
- Store.BlobPut: the chunked write loop is one step that works or fails; a failed one may leave its temporary file.
- Store.SetColumn: trimming and cutting of titles and quick-paste words and the order among sticky clips are left out; the value that reaches the statement is given.
- Faults: a failure after which SQLite rolls the whole transaction back by itself is a failure of that statement here; search and history queries do not fail.
- Search.List: what the trigram index finds for a phrase is a parameter; the display columns are left out.
- Disk.Collect: the count of removed files, and removing emptied directories; the process id in a temporary file's name plays no part.
- Globs.PlainGlobsAgree: the bracket sets of fnmatch, which the pattern takes for literal characters, are left out; how a locale folds is a parameter, and Hyprland's Lua lowers ASCII letters only.
- Groups.Create: sort order, uuid and creation time are left out.
- Serve: protocol objects and log lines; text serving differs from clip serving only in the payload it builds.
- Buffers: a copy or paste refused before it starts (no Hyprland, recording paused) is no event; whether the slot and the clips can be read is not in doubt.
- Buffers.PastingKeepsTheClip: serves succeed and nobody else takes the clipboard, as in its statement; a deliberate serve of the same clip id cannot be told from the buffer's, so it counts as the buffer.
- Capture: the primary selection, what a script's verdict sets besides the text, and the deadline arithmetic.
- Loop: the kernel reports only watches that are not deleted; how many events fit in one batch does not matter.
- Loop.Loop.RunTimers: termination under callbacks that re-arm with no delay depends on the clock, so a finite number of callbacks is given.
- Ipc: accepting connections and the protocol's operations; memory is unbounded.
- Diff: NUL and surrogate handling of JavaScript strings plays no part; lines are character sequences.
- Import, export, transforms, rules, scripts, settings, hotkey labels, image headers, the command line client and all QML: they would add only easy members or rest on tables outside this repository.
