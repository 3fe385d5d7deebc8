# Storage and text core: a verified model

This project models the code in this repository on which stored data and configuration text depend, and proves what
that code is for. Two things are at its centre: the embedded key/value store bbolt 1.3.6 (page allocation, snapshot
isolation, crash atomicity, B+trees, page layout, compaction, batching) and the text half of yaml.v2 2.4.0 (the event
parser, the composer, and the double-quoted emitter and scanner). A third, smaller part is multierr 1.6.0 with its
shared backing arrays.

`dafny verify dfyconfig.toml` checks all of it.

## How it is organised

Freelist (`Pgids`, `FreelistSpec`, `Pending`, `Spans`, `ArrayScan`, `Sweep`, `Listing`, `FreelistInvariant`, `Freelist`,
`Db`). The class `Freelist` has both backends, the sorted array and the span maps. `Abs()` takes it to a value: the free
set, the pending entries with their freeing and allocating transactions, and the allocation records. Every method equates
the new value with a function of the old one, and the conservation laws are proved about those functions.

Protocol (`Protocol`, `ProtocolSteps`, `ProtocolCommit`, `ProtocolSafety`, `ProtocolRelease`, `ProtocolBackend`). A state machine over readers, one writer, a
disk with unsynced writes, and two meta slots, whose freelist is the same abstract value. One invariant is kept by every
step, crashes included; isolation, stable snapshots, crash atomicity and page conservation follow for every run.
`ProtocolBackend` joins the two: in each step the calls the code makes on the freelist object take its value to the
freelist of the protocol's next state, and what those calls rely on follows from the invariant.

B+tree (`Keys`, `Trees`, `Paths`, `Contents`, `Shapes`, `Bucket`, `BucketLaws`, `Siblings`, `Rebalance`, `Split`, `PageFormat`). A
bucket is a map of pages overlaid by a map of nodes. A ghost tree says what they form together; a cursor's stack is a path
in it. Get, Put and Delete are proved against the finite map of the tree's in-order elements, and `BucketLaws` says what one
operation tells about the next.

`Compact` and `Batch` stand on their own. Batch is a state machine of its atomic steps, plus its run loop as a method.

YAML (`YamlEvents`, `YamlTokens`, `YamlMachine`, `YamlParser`, `YamlGrammar`, `YamlAcceptance`, `YamlStreams`,
`YamlComposer`, `YamlDocuments`, `YamlChars`, `YamlQuoting`, `YamlEmitter`, `YamlScanner`, `YamlFolding`, `YamlRoundTrip`). The
parser keeps its state stack; a grammar of event streams says what it may emit, and `YamlMachine` what comes next. `YamlGrammar`
has the grammar of token streams as trees with their tokens and events: all of them are parsed into just these events
(`YamlAcceptance`), and composed into the nodes of the trees (`YamlDocuments`). Emitter and scanner work on bytes; the round trip
is proved between them, and `YamlFolding` covers text the emitter does not write.

`Multierr` keeps Go's slices as an array with a length, so that appending in place is visible.

## What the code turned out not to keep

- A composer called again after an error may meet an event it does not know and panic, instead of reporting the error
  once more: exactly if the parser has failed behind the start of the stream and no event is held
  (`YamlComposing.Composer.Parse`, for every state; `YamlComposing.CalledAgain` is an instance, two calls of
  Decoder.Decode on a stream that breaks off). An error over an unknown alias does come again with every call.
- A rollback of the freelist keeps the cache in step with free and pending pages only if the transaction had not freed a
  page it allocated itself (`Freelists.Freelist.RollbackTx` states it as an equivalence, `Freelists.OwnPageRollback` is an
  instance). In the protocol, rolling back happens before anything is allocated or is followed by a reload.
- The hashmap backend does not clear itself when it is initialised with an empty list. A reload that leaves nothing free
  keeps the spans of all pages listed, so pages that are pending, and may still be seen by readers, become free and can be
  allocated again (`Freelists.Freelist.Reload` gives the exact condition, `Freelists.ReloadOfPending` the consequence,
  `Freelists.StaleReload` an instance).
- The routine that writes double-quoted scalars, taken alone, can fold a line so that a document indicator starts it, if
  the indentation is zero (`YamlRoundTrip.RoundTrip` has the exact condition, `YamlRoundTrip.FoldedIndicator` an instance).
  The emitter never calls it so: it writes a scalar one level further in, and a level is at least two columns. Every
  double-quoted scalar it emits is read back (`YamlRoundTrip.EmitStream`).
- The grammar in the parser's own comments lets a single pair of a flow sequence do without its key. The code consumes the
  token that shows the key to be missing, so such a pair is parsed as the grammar says if and only if it has the indicator of a
  value, but no value (`YamlAcceptance.KeylessPair`, `YamlStreams.KeylessStream` is an instance). Nor does the code accept a
  value without a key in a block mapping (`YamlAcceptance.KeylessValueRefused`). The trees of `YamlGrammar`
  leave out just what is not accepted.
- The predicate for a byte order mark in the emitter looks at the beginning of the value whatever the position, so a value that
  begins with one is escaped throughout; the model does the same.

## Model

| member | source | states |
|---|---|---|
| `Spans.MergedConsistent` | pkg/mod/go.etcd.io/bbolt@v1.3.6/freelist_hmap.go:98-123 | Merging a page into the spans around it keeps forward map, backward map and size groups describing one set of disjoint, never adjacent spans, and adds exactly that page. |
| `Spans.SplitConsistent` | pkg/mod/go.etcd.io/bbolt@v1.3.6/freelist_hmap.go:36-55 | Taking n pages off a larger span leaves its non-empty remainder as a span, and removes exactly those n pages. |
| `Spans.RunInOneSpan` | pkg/mod/go.etcd.io/bbolt@v1.3.6/freelist_hmap.go:16-61 | Any n consecutive free pages lie in a single span, so a search by span size misses none. |
| `Spans.ScanLast` | pkg/mod/go.etcd.io/bbolt@v1.3.6/freelist_hmap.go:146-178 | After the last block is added, the index built from a strictly increasing list is consistent and covers exactly the list. |
| `FreelistInvariant.NoFit` | pkg/mod/go.etcd.io/bbolt@v1.3.6/freelist_hmap.go:36-60 | If no span is large enough, no n consecutive pages are free. |
| `ArrayScan.NoneFound` | pkg/mod/go.etcd.io/bbolt@v1.3.6/freelist.go:109-149 | A scan of the sorted ids that ends without a block of n leaves no n consecutive free pages. |
| `Freelists.Freelist.ArrayAllocate` | pkg/mod/go.etcd.io/bbolt@v1.3.6/freelist.go:109-149 | Takes exactly n consecutive free pages, the lowest possible ones, and records the transaction; returns 0, changing nothing, exactly when there are none. |
| `Freelists.Freelist.HashAllocate` | pkg/mod/go.etcd.io/bbolt@v1.3.6/freelist_hmap.go:16-61 | Meets the same contract as the array backend: succeeds exactly when n consecutive pages are free, takes exactly n, keeps all indexes and the cache. |
| `Freelists.Freelist.MergeWithExistingSpan` | pkg/mod/go.etcd.io/bbolt@v1.3.6/freelist_hmap.go:98-123 | Adds one page to the free set and keeps the span index consistent. |
| `Freelists.Freelist.HashMergeSpans` | pkg/mod/go.etcd.io/bbolt@v1.3.6/freelist_hmap.go:90-95 | Adds all given pages to the free set. |
| `Freelists.Freelist.HashInit` | pkg/mod/go.etcd.io/bbolt@v1.3.6/freelist_hmap.go:146-178 | Rebuilds the index for a non-empty strictly increasing list; leaves it as it was for an empty one. |
| `Freelists.Freelist.MergeSpans` | pkg/mod/go.etcd.io/bbolt@v1.3.6/freelist.go:401-404 | For either backend the free set grows by exactly the given pages. |
| `Freelists.Freelist.FreePage` | pkg/mod/go.etcd.io/bbolt@v1.3.6/freelist.go:153-182 | Makes the page and its overflow pages pending, one entry each, stamped with the freeing transaction and with the recorded allocator, or with the transaction before for a freelist page not on record; reports a meta page, or a page free or pending already, exactly when it is one. |
| `Freelists.Freelist.Release` | pkg/mod/go.etcd.io/bbolt@v1.3.6/freelist.go:185-196 | Turns exactly the pages freed up to the given transaction into free ones, the invariant kept. |
| `Freelists.Freelist.SweepRecord` | pkg/mod/go.etcd.io/bbolt@v1.3.6/freelist.go:205-222 | The swap-removing loop over one record takes out exactly the entries allocated and freed inside the range. |
| `Sweep.SkipIsExact` | pkg/mod/go.etcd.io/bbolt@v1.3.6/freelist.go:206-209 | A record skipped because of its lastReleaseBegin holds nothing releasable in the range. |
| `Freelists.Freelist.ReleaseWithin` | pkg/mod/go.etcd.io/bbolt@v1.3.6/freelist.go:199-229 | Turns exactly the pending pages allocated and freed inside the range into free ones. |
| `Freelists.Freelist.RollbackTx` | pkg/mod/go.etcd.io/bbolt@v1.3.6/freelist.go:232-256 | Undoes the transaction's pending entries; the cache still mirrors free and pending pages if and only if none of them was allocated by the same transaction. |
| `FreelistSpec.MoveConserves` | pkg/mod/go.etcd.io/bbolt@v1.3.6/freelist.go:185-229 | Releasing keeps every id tracked exactly once: none lost, none invented. |
| `FreelistSpec.FreeRunConserves` | pkg/mod/go.etcd.io/bbolt@v1.3.6/freelist.go:153-182 | Freeing adds exactly the freed pages to those tracked. |
| `FreelistSpec.TakeRunConserves` | pkg/mod/go.etcd.io/bbolt@v1.3.6/freelist.go:109-149 | Allocating removes exactly the allocated pages from those tracked. |
| `FreelistSpec.FreedEntries` | pkg/mod/go.etcd.io/bbolt@v1.3.6/freelist.go:153-182 | Behind a free there is one entry for each page of the run, with the freeing transaction and the allocating one: as recorded, else the transaction before for a freelist page, else unknown. |
| `FreelistSpec.TakenRecorded` | pkg/mod/go.etcd.io/bbolt@v1.3.6/freelist.go:127-142 | Allocating records the transaction for the first page of the run, and changes no other record and nothing pending. |
| `FreelistSpec.TakenThenFreed` | pkg/mod/go.etcd.io/bbolt@v1.3.6/freelist.go:109-229 | Pages allocated by one transaction and freed by another come back exactly if no reader is open between the two. |
| `FreelistSpec.FreedThenRolledBack` | pkg/mod/go.etcd.io/bbolt@v1.3.6/freelist.go:232-256 | Rolling back undoes freeing: free and pending pages are as before, and the allocator is on record again, for every page of the run. |
| `Freelists.Freelist.Count` | pkg/mod/go.etcd.io/bbolt@v1.3.6/freelist.go:78-94 | Counts the pages tracked, free and pending, without counting any twice. |
| `Freelists.Freelist.Size` | pkg/mod/go.etcd.io/bbolt@v1.3.6/freelist.go:68-75 | 16 bytes and 8 for every tracked id, and 8 more from 65535 ids on. |
| `Freelists.Freelist.FreePageIds` | pkg/mod/go.etcd.io/bbolt@v1.3.6/freelist_hmap.go:72-87 | For both backends the strictly increasing list of exactly the free pages. |
| `Pgids.MergePgids` | pkg/mod/go.etcd.io/bbolt@v1.3.6/page.go:166-204 | Writes the sorted multiset merge of two sorted lists, or reports that the destination is too short, and touches nothing else of it. |
| `Pgids.Merge` | pkg/mod/go.etcd.io/bbolt@v1.3.6/page.go:151-162 | The sorted merge of two sorted lists as a new list. |
| `Freelists.Freelist.CopyAll` | pkg/mod/go.etcd.io/bbolt@v1.3.6/freelist.go:98-105 | Writes the strictly increasing listing of all free and pending ids at the given place. |
| `Freelists.Freelist.Write` | pkg/mod/go.etcd.io/bbolt@v1.3.6/freelist.go:311-338 | What is read back from the written page is exactly the sorted set of free and pending ids; below 65535 ids the count is in the header, from there on in the first word. |
| `Listing.DecodeStored` | pkg/mod/go.etcd.io/bbolt@v1.3.6/freelist.go:264-338 | Reading inverts writing on both sides of the 0xFFFF count overflow. |
| `Freelists.Freelist.Read` | pkg/mod/go.etcd.io/bbolt@v1.3.6/freelist.go:264-296 | The free set becomes the ids of the page; for an empty list the hashmap backend and the cache keep what they had. |
| `Freelists.Freelist.Reindex` | pkg/mod/go.etcd.io/bbolt@v1.3.6/freelist.go:387-398 | The cache becomes exactly the free and the pending pages. |
| `Freelists.Freelist.Reload` | pkg/mod/go.etcd.io/bbolt@v1.3.6/freelist.go:341-362 | The free set is the listed ids that are not pending, for the array backend always, for the hashmap backend exactly when that set is non-empty or there was nothing to reset; and what it is otherwise. |
| `Freelists.ReloadOfPending` | pkg/mod/go.etcd.io/bbolt@v1.3.6/freelist.go:341-362 | With the hashmap backend, reloading a page that lists pending pages only makes all of them free. |
| `Freelists.StaleReload` | pkg/mod/go.etcd.io/bbolt@v1.3.6/freelist_hmap.go:146-149 | An instance: after one page is freed, the freelist written and read back, that page is pending and free. |
| `Freelists.OwnPageRollback` | pkg/mod/go.etcd.io/bbolt@v1.3.6/freelist.go:232-256 | An instance: a transaction that frees a page it has allocated and is rolled back leaves the cache out of step. |
| `Listing.CommitFits` | pkg/mod/go.etcd.io/bbolt@v1.3.6/tx.go:224-247 | The pages asked for before the freelist is written suffice after the allocation, whatever its size. |
| `Db.Db.Allocate` | pkg/mod/go.etcd.io/bbolt@v1.3.6/db.go:966-995 | Pages come from the freelist if it has enough in a row, else from the high-water mark; they are disjoint from all pages tracked. |
| `Db.Db.CommitFreelist` | pkg/mod/go.etcd.io/bbolt@v1.3.6/tx.go:224-247 | The freelist is written into fresh pages that hold all of it and are none of those it lists. |
| `Db.Db.FreePages` | pkg/mod/go.etcd.io/bbolt@v1.3.6/db.go:662-679 | Over any list of open readers, duplicates included, exactly the pending pages that no reader pins are released. |
| `Db.ReleasedExactly` | pkg/mod/go.etcd.io/bbolt@v1.3.6/db.go:662-679 | A pending page is released if and only if it was freed before every reader, or no reader lies between its allocation and its freeing. |
| `Db.ReleaseGap` | pkg/mod/go.etcd.io/bbolt@v1.3.6/db.go:672-678 | Between two neighbouring readers the range released is exactly what no reader sees. |
| `Db.Db.RemoveTx` | pkg/mod/go.etcd.io/bbolt@v1.3.6/db.go:688-715 | Takes the transaction out of the open ones once, and no other. |
| `ProtocolSafety.InitOk` | pkg/mod/go.etcd.io/bbolt@v1.3.6/db.go:472-514 | A freshly initialised file meets the invariant of the protocol. |
| `ProtocolSafety.StepKeeps` | pkg/mod/go.etcd.io/bbolt@v1.3.6/tx.go:141-247 | Every step of readers, writer, commit, rollback and crash keeps the invariant. |
| `ProtocolSteps.BeginReadKeeps` | pkg/mod/go.etcd.io/bbolt@v1.3.6/db.go:594-630 | A reader begins at the current version, or the one before while a meta is being written, and that version is intact. |
| `ProtocolSteps.BeginWriteKeeps` | pkg/mod/go.etcd.io/bbolt@v1.3.6/db.go:632-659 | Releasing pages when a writer begins keeps all that any open reader or a crash may need. |
| `ProtocolCommit.WriteMetaKeeps` | pkg/mod/go.etcd.io/bbolt@v1.3.6/tx.go:584-604 | Writing the new meta into the other slot makes the new version current and leaves the previous one complete. |
| `ProtocolCommit.AbortCommitKeeps` | pkg/mod/go.etcd.io/bbolt@v1.3.6/tx.go:272-288 | Rolling back a failed commit and reloading the freelist restores a state that meets the invariant. |
| `ProtocolCommit.CrashKeeps` | pkg/mod/go.etcd.io/bbolt@v1.3.6/db.go:942-963 | After a crash, the reopened database meets the invariant again. |
| `ProtocolSafety.RunInv` | pkg/mod/go.etcd.io/bbolt@v1.3.6/db.go:594-715 | The invariant holds in every state of every run. |
| `ProtocolSafety.ReaderPagesUntouched` | pkg/mod/go.etcd.io/bbolt@v1.3.6/db.go:594-715 | Over every run no page of an open reader's tree is free, or taken and about to be written by the writer. |
| `ProtocolSafety.SnapshotStable` | pkg/mod/go.etcd.io/bbolt@v1.3.6/db.go:594-715 | While a reader stays open every page of its tree reads as it did when the reader began. |
| `ProtocolSafety.Recovery` | pkg/mod/go.etcd.io/bbolt@v1.3.6/db.go:942-963 | Whatever unsynced writes a crash loses or garbles, and even if the meta being written is torn, a valid meta is chosen: the last committed one or, only during the final sync, the one before. |
| `ProtocolSafety.CrashAtomic` | pkg/mod/go.etcd.io/bbolt@v1.3.6/tx.go:513-604 | Over every run, after a crash all that can be reached from the chosen root, and its freelist page, is on disk exactly as that version was committed. |
| `ProtocolSafety.CrashEnabled` | pkg/mod/go.etcd.io/bbolt@v1.3.6/db.go:942-963 | Recovery never finds both metas invalid. |
| `ProtocolSafety.NoPageLost` | pkg/mod/go.etcd.io/bbolt@v1.3.6/tx.go:141-247 | Between write transactions tree, freelist pages, free and pending pages partition the pages below the high-water mark. |
| `ProtocolSafety.AbortRestores` | pkg/mod/go.etcd.io/bbolt@v1.3.6/tx.go:272-288 | An aborted commit gives back exactly the free and pending pages the transaction began with. |
| `ProtocolSafety.SlotsConsecutive` | pkg/mod/go.etcd.io/bbolt@v1.3.6/db.go:1202-1218 | The slot of the current version is valid, and the other one, unless torn, holds the version just before it. |
| `ProtocolRelease.StepDated` | pkg/mod/go.etcd.io/bbolt@v1.3.6/tx.go:141-247 | Every step keeps what is on record of freelist pages right: allocated by their version's own transaction, freed by the next. |
| `ProtocolRelease.FreelistPageReleased` | pkg/mod/go.etcd.io/bbolt@v1.3.6/db.go:662-679 | Over every run a pending page of the freelist of version v that transaction v + 1 freed comes back with a writer exactly if no reader is open at v or v + 1. |
| `ProtocolRelease.OldFreelistReleased` | pkg/mod/go.etcd.io/bbolt@v1.3.6/tx.go:169-176 | Over every run the first writer after a commit finds all pages of the freelist before pending, and gets each exactly if no reader is open at the version before or the one committed. |
| `ProtocolBackend.BeginWriting` | pkg/mod/go.etcd.io/bbolt@v1.3.6/db.go:632-659 | Releasing pages through the freelist object takes it to the freelist of the protocol's next state. |
| `ProtocolBackend.AllocateTree` | pkg/mod/go.etcd.io/bbolt@v1.3.6/tx.go:496-510 | What the database allocates is what the protocol may take, and the object and high-water mark follow it. |
| `ProtocolBackend.FreeTreePages` | pkg/mod/go.etcd.io/bbolt@v1.3.6/freelist.go:153-182 | In a run of the protocol freeing a tree page never panics, and the object follows. |
| `ProtocolBackend.WriteFreelist` | pkg/mod/go.etcd.io/bbolt@v1.3.6/tx.go:164-182 | Freeing the old freelist, allocating and writing the new one is the protocol's step, and what is written lists what it tracks. |
| `ProtocolBackend.RollBack` | pkg/mod/go.etcd.io/bbolt@v1.3.6/tx.go:261-269 | Rolling back before anything is allocated keeps the object valid and is the protocol's step. |
| `ProtocolBackend.Abort` | pkg/mod/go.etcd.io/bbolt@v1.3.6/tx.go:272-288 | Rolling back a failed commit and reloading the committed freelist, with the array backend, is the protocol's step. |
| `ProtocolBackend.Reopen` | pkg/mod/go.etcd.io/bbolt@v1.3.6/db.go:315-327 | Reading the freelist of the version found gives the freelist the protocol goes on with after a crash. |
| `ProtocolBackend.Elsewhere` | pkg/mod/go.etcd.io/bbolt@v1.3.6/tx.go:141-222 | All other steps leave the object coupled as it is. |
| `Keys.TotalOrder` | pkg/mod/go.etcd.io/bbolt@v1.3.6/cursor.go:312-331 | Byte-wise comparison is a strict total order, on which all searching relies. |
| `Keys.ByteOrder` | pkg/mod/go.etcd.io/bbolt@v1.3.6/cursor.go:312-331 | One key is less than another exactly if it is a proper prefix of it, or has the smaller byte at the first place where they differ. |
| `Trees.FlattenOrdered` | pkg/mod/go.etcd.io/bbolt@v1.3.6/cursor.go:247-331 | Under the separator invariant the in-order elements of a whole tree are strictly increasing and within its bounds. |
| `Buckets.SortSearch` | pkg/mod/go.etcd.io/bbolt@v1.3.6/node.go:118-123 | Binary search finds the first element not below the key, and whether it is equal. |
| `Paths.SearchSplits` | pkg/mod/go.etcd.io/bbolt@v1.3.6/cursor.go:247-331 | The path of a search leaves exactly the smaller keys before it and the others behind it. |
| `Buckets.SeekFinds` | pkg/mod/go.etcd.io/bbolt@v1.3.6/cursor.go:154-163 | A key is in the bucket if and only if the leaf the search ends in holds it at the position found, with the same value. |
| `Buckets.Cursor.Search` | pkg/mod/go.etcd.io/bbolt@v1.3.6/cursor.go:247-331 | Extends the stack by exactly the search path, over pages and nodes in memory alike. |
| `Buckets.Cursor.Seek` | pkg/mod/go.etcd.io/bbolt@v1.3.6/cursor.go:117-131 | Returns the least pair in the order of bytes with a key not below the one sought in the whole tree, or nothing exactly if all keys are below it, and stands on it. |
| `Buckets.Cursor.First` | pkg/mod/go.etcd.io/bbolt@v1.3.6/cursor.go:31-50 | Returns the pair with the least key in the order of bytes, over any number of empty leaves; nothing exactly if the bucket is empty. |
| `Buckets.Cursor.FirstBelow` | pkg/mod/go.etcd.io/bbolt@v1.3.6/cursor.go:166-184 | Descends to the first leaf without passing any element. |
| `Buckets.Cursor.Advance` | pkg/mod/go.etcd.io/bbolt@v1.3.6/cursor.go:216-229 | Moves to the next place of the tree without skipping an element, or stays if nothing is left. |
| `Buckets.Cursor.Next` | pkg/mod/go.etcd.io/bbolt@v1.3.6/cursor.go:73-80 | Returns the next pair in order, each once, also where leaves are empty. |
| `Buckets.Cursor.MaterializePath` | pkg/mod/go.etcd.io/bbolt@v1.3.6/cursor.go:354-373 | Brings the nodes of the path into memory; the tree and its contents do not change. |
| `Buckets.ChildBrought` | pkg/mod/go.etcd.io/bbolt@v1.3.6/bucket.go:643-673 | Overlaying a page by its node keeps the tree, its links to parents and its separator keys. |
| `Buckets.Bucket.Get` | pkg/mod/go.etcd.io/bbolt@v1.3.6/bucket.go:261-274 | The value the bucket's map has for the key; nothing for a missing key or a nested bucket. |
| `Buckets.Bucket.PutElement` | pkg/mod/go.etcd.io/bbolt@v1.3.6/node.go:116-141 | The node's elements become the old ones with this one inserted, or in place of the one with its key. |
| `Buckets.Bucket.DeleteElement` | pkg/mod/go.etcd.io/bbolt@v1.3.6/node.go:144-158 | The element with the key is gone and the node marked, or nothing changes if there is none. |
| `Buckets.Bucket.Put` | pkg/mod/go.etcd.io/bbolt@v1.3.6/bucket.go:280-307 | The bucket's map with the key set, or the error the checks prescribe and no change; accepted exactly for a key of 1 to 32768 bytes and a value within its limit in an open writable bucket where no nested bucket has the key; the separator invariant is kept. |
| `Buckets.Bucket.Delete` | pkg/mod/go.etcd.io/bbolt@v1.3.6/bucket.go:312-337 | The bucket's map without the key, or the error the checks prescribe and no change. |
| `Buckets.Bucket.CreateBucket` | pkg/mod/go.etcd.io/bbolt@v1.3.6/bucket.go:156-195 | The bucket's map with the new nested bucket, or the error for a taken, empty or read-only case. |
| `BucketLaws.PutThenGet` | pkg/mod/go.etcd.io/bbolt@v1.3.6/bucket.go:261-307 | After a put the key has the value put, and every other key what it had. |
| `BucketLaws.PutTwice` | pkg/mod/go.etcd.io/bbolt@v1.3.6/bucket.go:280-307 | A value put may be put over, and the last one counts. |
| `BucketLaws.DeleteThenGet` | pkg/mod/go.etcd.io/bbolt@v1.3.6/bucket.go:261-337 | After a delete the key has no value, and every other key what it had. |
| `BucketLaws.PutThenDelete` | pkg/mod/go.etcd.io/bbolt@v1.3.6/bucket.go:280-337 | Deleting a key just put succeeds and leaves the bucket without it. |
| `BucketLaws.CreateThenUse` | pkg/mod/go.etcd.io/bbolt@v1.3.6/bucket.go:156-337 | A nested bucket just made has no value, and its name can be neither put nor deleted nor taken again, each with its own error. |
| `BucketLaws.PutThenCreate` | pkg/mod/go.etcd.io/bbolt@v1.3.6/bucket.go:156-307 | Where a value was put no bucket can be made, and the value stays. |
| `BucketLaws.PutBoth` | pkg/mod/go.etcd.io/bbolt@v1.3.6/cursor.go:31-131 | Of two keys put in the wrong order the cursor finds the smaller first and the greater when it is sought. |
| `Buckets.Bucket.ForEach` | pkg/mod/go.etcd.io/bbolt@v1.3.6/bucket.go:384-395 | Hands out all pairs in key order up to the first on which the callback fails, and reports whether it did. |
| `Buckets.VisitedAll` | pkg/mod/go.etcd.io/bbolt@v1.3.6/bucket.go:384-395 | If the callback never fails it sees every pair of the bucket once. |
| `Contents.UpsertMap` | pkg/mod/go.etcd.io/bbolt@v1.3.6/node.go:116-141 | On the map of a sorted list of elements, an upsert is a map update. |
| `Contents.RemoveMap` | pkg/mod/go.etcd.io/bbolt@v1.3.6/node.go:144-158 | On the map of a sorted list of elements, a removal is a map removal. |
| `Rebalancing.Rebalance` | pkg/mod/go.etcd.io/bbolt@v1.3.6/node.go:405-504 | In-order contents and separator invariant stay, no page is lost; a page goes exactly if the node was marked and, below the root, has fewer than two elements, or two on a branch, or fits a quarter page, or at the root is a branch with one element; every branch keeps two children and the node's mark is gone, none new made. |
| `Rebalancing.RebalanceAll` | pkg/mod/go.etcd.io/bbolt@v1.3.6/bucket.go:633-640 | In whatever order the nodes in memory are visited, contents and pages stay, and no node is left marked. |
| `Rebalancing.CollapseRoot` | pkg/mod/go.etcd.io/bbolt@v1.3.6/node.go:421-444 | A branch root with a single child takes over its contents; the child's page is given back, and the tree is the child under the root's id. |
| `Rebalancing.RemoveEmpty` | pkg/mod/go.etcd.io/bbolt@v1.3.6/node.go:446-454 | A node without elements leaves the tree, which is otherwise as it was, and its page is given back. |
| `Rebalancing.MergeInto` | pkg/mod/go.etcd.io/bbolt@v1.3.6/node.go:468-500 | Two neighbours become one node, the right one's page is given back; the rest of the tree, contents, order and links stay. |
| `Rebalancing.MergeWithSibling` | pkg/mod/go.etcd.io/bbolt@v1.3.6/node.go:456-504 | A first child is joined by the next one, any other child joins the one before. |
| `Rebalancing.WideParent` | pkg/mod/go.etcd.io/bbolt@v1.3.6/node.go:456-456 | The parent of a node being merged always has a second child. |
| `Siblings.JoinFlatten` | pkg/mod/go.etcd.io/bbolt@v1.3.6/node.go:468-500 | Joining two neighbouring children leaves the in-order elements unchanged. |
| `Siblings.JoinOrdered` | pkg/mod/go.etcd.io/bbolt@v1.3.6/node.go:468-500 | Joining two neighbouring children keeps the separator invariant. |
| `Siblings.DropOrdered` | pkg/mod/go.etcd.io/bbolt@v1.3.6/node.go:446-454 | Dropping an empty child keeps the separator invariant. |
| `Splitting.SizeLessThan` | pkg/mod/go.etcd.io/bbolt@v1.3.6/node.go:52-62 | Agrees with the full size, except that a node without elements always counts as smaller. |
| `Splitting.SplitIndex` | pkg/mod/go.etcd.io/bbolt@v1.3.6/node.go:311-331 | The first page gets at least two elements and as many as the threshold allows while the second keeps at least two. |
| `Splitting.SplitTwo` | pkg/mod/go.etcd.io/bbolt@v1.3.6/node.go:269-306 | Cuts exactly the nodes that are too big and long enough, into two parts that make up the node, the first as full as possible. |
| `Splitting.Split` | pkg/mod/go.etcd.io/bbolt@v1.3.6/node.go:246-265 | Terminates; the pieces in order are the node; it is cut exactly if it has five elements and fills a page, every piece then has two; each but the last has two elements or fits the threshold, none could be fuller, and the last has four at most or is less than a page. |
| `PageFormat.RegionsApart` | pkg/mod/go.etcd.io/bbolt@v1.3.6/node.go:191-242 | The data of the elements follow each other behind the element table without overlap, up to the node's size. |
| `PageFormat.WriteNode` | pkg/mod/go.etcd.io/bbolt@v1.3.6/node.go:191-242 | Writes header, table and data of every element, exactly size() bytes in all; flag and count are where they belong, byte by byte; refuses 0xFFFF elements or more. |
| `PageFormat.ReadNode` | pkg/mod/go.etcd.io/bbolt@v1.3.6/node.go:161-188 | Yields the elements stored at the offsets the table gives, and the first key. |
| `PageFormat.ElementBack` | pkg/mod/go.etcd.io/bbolt@v1.3.6/page.go:110-134 | An element written is read back as it was, on leaves and branches. |
| `PageFormat.TableBytes` | pkg/mod/go.etcd.io/bbolt@v1.3.6/page.go:86-134 | Every entry of the table takes 16 bytes behind a header of 16, with flags, distance, key size and value size, or distance, key size and page, in this order, and key and value lie at the distance given. |
| `PageFormat.ReadBack` | pkg/mod/go.etcd.io/bbolt@v1.3.6/node.go:161-242 | Reading a written page gives back the same kind of node and the same elements. |
| `Compacting.SetInside` | pkg/mod/go.etcd.io/bbolt@v1.3.6/compact.go:33-53 | Writing into a nested bucket is writing the changed bucket into its parent. |
| `Compacting.Compaction.Visit` | pkg/mod/go.etcd.io/bbolt@v1.3.6/compact.go:18-74 | Commits first if the transaction would grow too large, then sets one entry of the bucket at the path, or fails and sets nothing. |
| `Compacting.Compaction.WalkBucket` | pkg/mod/go.etcd.io/bbolt@v1.3.6/compact.go:94-114 | Copies a pair with everything nested in it, sequence numbers included, wherever commits fall. |
| `Compacting.Compact` | pkg/mod/go.etcd.io/bbolt@v1.3.6/compact.go:8-78 | For every transaction size the destination ends up with the source's nested map; it fails exactly when a bucket name is taken. |
| `Batching.StepKeeps` | pkg/mod/go.etcd.io/bbolt@v1.3.6/db.go:799-883 | Every interleaved step of calls, triggers and transactions keeps each call's life in order. |
| `Batching.RunInv` | pkg/mod/go.etcd.io/bbolt@v1.3.6/db.go:799-883 | The invariant holds over every interleaving. |
| `Batching.ExactlyOneReply` | pkg/mod/go.etcd.io/bbolt@v1.3.6/db.go:843-883 | A call made waits in exactly one batch or has got exactly one message. |
| `Batching.NilMeansCommittedOnce` | pkg/mod/go.etcd.io/bbolt@v1.3.6/db.go:799-822 | Batch returns nil exactly if the function ran in the one committed transaction that counts; after an error its effects are nowhere. |
| `Batching.StartedBatchEnds` | pkg/mod/go.etcd.io/bbolt@v1.3.6/db.go:843-883 | No call joins a started batch, and each of its transactions leaves it less to do. |
| `Batching.AllReturn` | pkg/mod/go.etcd.io/bbolt@v1.3.6/db.go:799-822 | When no batch and no retry is left every call has returned. |
| `Batching.JoinsOpenBatch` | pkg/mod/go.etcd.io/bbolt@v1.3.6/db.go:799-816 | Over every run a call made waits in exactly one batch, which has not started and is within the size limit; started batches are left alone. |
| `Batching.DetachedStays` | pkg/mod/go.etcd.io/bbolt@v1.3.6/db.go:843-851 | Over every run no call joins a batch from the moment it is detached on. |
| `Batching.Transact` | pkg/mod/go.etcd.io/bbolt@v1.3.6/db.go:857-867 | Of the functions of a transaction, run in order, the first to fail is the one reported; otherwise all of them ran and commit decides. |
| `Batching.Run` | pkg/mod/go.etcd.io/bbolt@v1.3.6/db.go:843-883 | For any functions: of each transaction that fails exactly the call whose function was the first to fail is told to retry alone, and the others go on in their order, the last in its place; the calls of the last one get success or the internal error; one message per call. The whole is a run of the batch's steps in the protocol. |
| `YamlEvents.Balance` | pkg/mod/gopkg.in/yaml.v2@v2.4.0/parserc.go:93-169 | In any prefix of a well-nested stream the starts of every kind of collection outnumber its ends by what is open. |
| `YamlEvents.EndedIsBalanced` | pkg/mod/gopkg.in/yaml.v2@v2.4.0/parserc.go:93-169 | A stream of events that has ended has as many ends as starts of documents, sequences and mappings. |
| `YamlMachine.NextAnnounced` | pkg/mod/gopkg.in/yaml.v2@v2.4.0/parserc.go:359-573 | Whatever the tokens, a node event has the kind, text and flags its token and tag give it, and the tag of its tag token; or it stands for a missing node. |
| `YamlMachine.ResolvedMeans` | pkg/mod/gopkg.in/yaml.v2@v2.4.0/parserc.go:430-451 | A handle stands for the prefix of its first definition. |
| `YamlMachine.DefaultTags` | pkg/mod/gopkg.in/yaml.v2@v2.4.0/parserc.go:1007-1010 | Undefined, "!" stands for itself and "!!" for the YAML tag namespace. |
| `YamlAcceptance.NodeRuns` | pkg/mod/gopkg.in/yaml.v2@v2.4.0/parserc.go:11-48 | A node written by the grammar, in any of its forms and wherever it may stand, is parsed into exactly its events. |
| `YamlAcceptance.StreamRuns` | pkg/mod/gopkg.in/yaml.v2@v2.4.0/parserc.go:11-48 | A token stream that follows the grammar, documents with their directives included, is parsed to its end into exactly the events it stands for. |
| `YamlStreams.ParseStream` | pkg/mod/gopkg.in/yaml.v2@v2.4.0/parserc.go:62-73 | Calls of parse over such a stream give exactly these events, and no error. |
| `YamlAcceptance.KeylessPair` | pkg/mod/gopkg.in/yaml.v2@v2.4.0/parserc.go:833-848 | A single pair without a key is parsed as the grammar says if and only if it has the indicator of a value, but no value. |
| `YamlAcceptance.KeylessValueRefused` | pkg/mod/gopkg.in/yaml.v2@v2.4.0/parserc.go:675-721 | A value without a key in a block mapping is refused. |
| `YamlStreams.KeylessStream` | pkg/mod/gopkg.in/yaml.v2@v2.4.0/parserc.go:833-848 | An instance: a flow sequence of one pair with a value and no key is an error. |
| `YamlParsing.Parser.StateMachine` | pkg/mod/gopkg.in/yaml.v2@v2.4.0/parserc.go:93-169 | In every state, for every token, the event continues a well-nested stream, carries the texts of the tokens consumed, and there is less to do; and it is the one the machine gives, which leaves the parser where the machine stands. |
| `YamlParsing.Parser.Parse` | pkg/mod/gopkg.in/yaml.v2@v2.4.0/parserc.go:62-73 | The events so far are a prefix of a well-nested stream; anchors, aliases and scalar texts of the tokens consumed appear in them once and in order; a node has the kind, flags and tag its tokens give it; there is an error exactly where the machine has no next event. |
| `YamlParsing.Parser.ParseNode` | pkg/mod/gopkg.in/yaml.v2@v2.4.0/parserc.go:359-573 | A node comes back to the waiting state or opens the collection its event announces. |
| `YamlParsing.Parser.ParseContent` | pkg/mod/gopkg.in/yaml.v2@v2.4.0/parserc.go:452-573 | The event has the anchor and tag given and the kind and text of its token, or is an empty scalar where only properties stand; a scalar's flags tell plain from quoted. |
| `YamlParsing.Parser.ResolveTag` | pkg/mod/gopkg.in/yaml.v2@v2.4.0/parserc.go:430-451 | The tag is the suffix behind the prefix of the first directive for the handle, or an error if there is none. |
| `YamlParsing.Parser.ParseProperties` | pkg/mod/gopkg.in/yaml.v2@v2.4.0/parserc.go:386-428 | Anchor and tag in either order are consumed, each at most once. |
| `YamlParsing.Parser.DocumentStart` | pkg/mod/gopkg.in/yaml.v2@v2.4.0/parserc.go:198-276 | Opens a document or ends the stream, with nothing else open. |
| `YamlParsing.Parser.DocumentContent` | pkg/mod/gopkg.in/yaml.v2@v2.4.0/parserc.go:282-298 | A document without content gets an empty scalar. |
| `YamlParsing.Parser.DocumentEnd` | pkg/mod/gopkg.in/yaml.v2@v2.4.0/parserc.go:305-331 | Closes the document with nothing left open in it. |
| `YamlParsing.Parser.BlockSequenceEntry` | pkg/mod/gopkg.in/yaml.v2@v2.4.0/parserc.go:579-626 | An entry of a block sequence, or its end. |
| `YamlParsing.Parser.IndentlessSequenceEntry` | pkg/mod/gopkg.in/yaml.v2@v2.4.0/parserc.go:631-663 | An entry of an indentless sequence, or its end without a token. |
| `YamlParsing.Parser.BlockMappingKey` | pkg/mod/gopkg.in/yaml.v2@v2.4.0/parserc.go:675-721 | A key of a block mapping, an empty one where it is missing, or the end after whole pairs. |
| `YamlParsing.Parser.BlockMappingValue` | pkg/mod/gopkg.in/yaml.v2@v2.4.0/parserc.go:733-756 | The value that belongs to a key, an empty one where it is missing. |
| `YamlParsing.Parser.FlowSequenceEntry` | pkg/mod/gopkg.in/yaml.v2@v2.4.0/parserc.go:770-826 | An entry of a flow sequence, a single pair as a mapping of its own, or the end. |
| `YamlParsing.Parser.FlowSequenceEntryMappingKey` | pkg/mod/gopkg.in/yaml.v2@v2.4.0/parserc.go:833-848 | The key of a single pair in a flow sequence; where it is missing, the token that shows it is consumed as in the source. |
| `YamlParsing.Parser.FlowSequenceEntryMappingValue` | pkg/mod/gopkg.in/yaml.v2@v2.4.0/parserc.go:854-872 | The value of a single pair in a flow sequence. |
| `YamlParsing.Parser.FlowSequenceEntryMappingEnd` | pkg/mod/gopkg.in/yaml.v2@v2.4.0/parserc.go:878-890 | The end of a single pair's mapping. |
| `YamlParsing.Parser.FlowMappingKey` | pkg/mod/gopkg.in/yaml.v2@v2.4.0/parserc.go:904-964 | A key of a flow mapping, alone or with a value to come, or the end after whole pairs. |
| `YamlParsing.Parser.FlowMappingValue` | pkg/mod/gopkg.in/yaml.v2@v2.4.0/parserc.go:970-992 | The value that belongs to a key, an empty one where it is missing. |
| `YamlParsing.Parser.AppendTagDirective` | pkg/mod/gopkg.in/yaml.v2@v2.4.0/parserc.go:1075-1095 | A handle gets at most one prefix, the first one; a second definition is an error unless it is a default. |
| `YamlParsing.Parser.ProcessDirectives` | pkg/mod/gopkg.in/yaml.v2@v2.4.0/parserc.go:1013-1072 | All directives before a document are consumed, and no text. |
| `YamlComposing.Composer.Parse` | pkg/mod/gopkg.in/yaml.v2@v2.4.0/decode.go:141-178 | In every state a call can begin in: a document whose serialization is exactly the events consumed, the end of the stream, or an error; and the event it does not know if and only if no event is held and the parser has failed behind the stream's start before. An error over an unknown alias comes again. |
| `YamlComposing.Composer.Init` | pkg/mod/gopkg.in/yaml.v2@v2.4.0/decode.go:65-71 | The start of the stream is consumed once; where that fails, the next call tries again. |
| `YamlComposing.Calls` | pkg/mod/gopkg.in/yaml.v2@v2.4.0/decode.go:141-160 | Over any number of calls an unknown event comes up only behind an error, and then for good; an error is followed by no document. |
| `YamlComposing.CalledAgain` | pkg/mod/gopkg.in/yaml.v2@v2.4.0/parserc.go:62-73 | A stream that breaks off behind its start: the first call fails, the second meets the unknown event. |
| `YamlDocuments.BareEvents` | pkg/mod/gopkg.in/yaml.v2@v2.4.0/decode.go:141-221 | The events of a node written by the grammar are those its node is serialized to. |
| `YamlDocuments.OneNode` | pkg/mod/gopkg.in/yaml.v2@v2.4.0/decode.go:141-221 | Events are the serialization of at most one node, whatever follows them. |
| `YamlDocuments.ComposeStream` | pkg/mod/gopkg.in/yaml.v2@v2.4.0/decode.go:141-178 | From tokens to nodes: over a stream that follows the grammar composing gives exactly the nodes of its documents, one a call; it fails only if an alias refers to no node begun before it in its document. |
| `YamlComposing.Composer.ComposeDocument` | pkg/mod/gopkg.in/yaml.v2@v2.4.0/decode.go:170-178 | A document node with one child, made of its events. |
| `YamlComposing.Composer.ParseNode` | pkg/mod/gopkg.in/yaml.v2@v2.4.0/decode.go:141-160 | A node made of exactly the events consumed for it. |
| `YamlComposing.Composer.ComposeSequence` | pkg/mod/gopkg.in/yaml.v2@v2.4.0/decode.go:201-210 | The children up to the sequence's own end, in order. |
| `YamlComposing.Composer.ComposeMapping` | pkg/mod/gopkg.in/yaml.v2@v2.4.0/decode.go:212-221 | Keys and values in turn up to the mapping's own end; an even number of children. |
| `YamlComposing.Composer.ComposeAlias` | pkg/mod/gopkg.in/yaml.v2@v2.4.0/decode.go:180-189 | Fails exactly if the alias names no anchor of a node begun before it in the document, and then changes nothing. |
| `YamlComposing.Composer.ComposeScalar` | pkg/mod/gopkg.in/yaml.v2@v2.4.0/decode.go:191-199 | A scalar node with value, tag and anchor of its event. |
| `YamlComposing.Composer.Expect` | pkg/mod/gopkg.in/yaml.v2@v2.4.0/decode.go:82-97 | Consumes exactly the event expected, or fails and consumes nothing, on a parser that has failed as well. |
| `YamlComposing.Composer.Peek` | pkg/mod/gopkg.in/yaml.v2@v2.4.0/decode.go:101-109 | Looks one event ahead without consuming it; finds none exactly if the parser had failed and no event was held. |
| `YamlChars.ClassesAt` | pkg/mod/gopkg.in/yaml.v2@v2.4.0/yamlprivateh.go:63-173 | At the start of a UTF-8 character the byte tests for printable, break, blank and width tell just what they are meant to tell of the character. |
| `YamlChars.GatherAt` | pkg/mod/gopkg.in/yaml.v2@v2.4.0/emitterc.go:1440-1457 | The bits put together from the bytes of a character are its code point. |
| `YamlQuoting.PlanOk` | pkg/mod/gopkg.in/yaml.v2@v2.4.0/emitterc.go:1429-1548 | The pieces written stand for exactly the characters of the value, in order, and no fold has a plain space or another fold beside it. |
| `YamlQuoting.PieceOfChar` | pkg/mod/gopkg.in/yaml.v2@v2.4.0/emitterc.go:1429-1548 | A character is escaped exactly if it is not printable, not allowed or special in quotes, and a line is folded exactly at a space that follows none, past the preferred width and with text on both sides, where breaks are allowed. |
| `YamlEmitting.Emitter.WriteIndent` | pkg/mod/gopkg.in/yaml.v2@v2.4.0/emitterc.go:1201-1219 | Inside a scalar it always writes a break and then exactly the indentation. |
| `YamlEmitting.Emitter.WriteEscape` | pkg/mod/gopkg.in/yaml.v2@v2.4.0/emitterc.go:1460-1518 | Writes the escape of a character: its letter, or the shortest numeric form that holds it. |
| `YamlEmitting.Emitter.WriteDoubleQuoted` | pkg/mod/gopkg.in/yaml.v2@v2.4.0/emitterc.go:1429-1548 | For every UTF-8 value, column, width, indentation and line break style the output is the planned pieces between quotes. |
| `YamlScanning.Scanner.ScanFlowScalar` | pkg/mod/gopkg.in/yaml.v2@v2.4.0/scannerc.go:2314-2567 | On any text the loops return what reading it from left to right gives: value and end position, or the first error. |
| `YamlScanning.Scanner.ScanText` | pkg/mod/gopkg.in/yaml.v2@v2.4.0/scannerc.go:2347-2485 | A stretch of non-blank characters and escapes up to a blank, a break, the quote or an escaped break. |
| `YamlScanning.Scanner.ScanEscape` | pkg/mod/gopkg.in/yaml.v2@v2.4.0/scannerc.go:2373-2477 | The character of an escape, or the error that tells why it has none. |
| `YamlScanning.Scanner.ScanGap` | pkg/mod/gopkg.in/yaml.v2@v2.4.0/scannerc.go:2502-2548 | Blanks and breaks joined by the folding rules. |
| `YamlScanning.Scanner.ReadLine` | pkg/mod/gopkg.in/yaml.v2@v2.4.0/scannerc.go:538-568 | Any line break is read as a line feed, except the line and paragraph separators. |
| `YamlScanning.Scanner.Read` | pkg/mod/gopkg.in/yaml.v2@v2.4.0/scannerc.go:515-535 | Copies one character of any width. |
| `YamlScanning.Scanner.SkipLine` | pkg/mod/gopkg.in/yaml.v2@v2.4.0/scannerc.go:498-512 | Skips one line break of any style. |
| `YamlFolding.FoldLaw` | pkg/mod/gopkg.in/yaml.v2@v2.4.0/scannerc.go:2502-2548 | Between any two stretches of text, blanks are kept, one break is a space, of several the first one goes, and separators stay. |
| `YamlFolding.FeedsLeft` | pkg/mod/gopkg.in/yaml.v2@v2.4.0/scannerc.go:2530-2542 | Of n + 1 ordinary breaks there remain n line feeds, or a space if n is 0. |
| `YamlFolding.EscapedLaw` | pkg/mod/gopkg.in/yaml.v2@v2.4.0/scannerc.go:2363-2371 | An escaped break goes with the blanks behind it, and further breaks stay. |
| `YamlFolding.ScanLines` | pkg/mod/gopkg.in/yaml.v2@v2.4.0/scannerc.go:2314-2567 | A scalar of any number of lines is read as its texts with what the folding leaves of the gaps between them. |
| `YamlFolding.EmptyLine` | pkg/mod/gopkg.in/yaml.v2@v2.4.0/scannerc.go:2530-2542 | An instance: an empty line between two texts stays as a line feed. |
| `YamlFolding.Escapes` | pkg/mod/gopkg.in/yaml.v2@v2.4.0/scannerc.go:2376-2435 | Every letter behind a backslash, and the character it stands for; any other is an error. |
| `YamlFolding.NumericEscape` | pkg/mod/gopkg.in/yaml.v2@v2.4.0/scannerc.go:2442-2477 | Two, four or eight hexadecimal digits, in either case, stand for the character of that number, if it is one. |
| `YamlRoundTrip.EscapeBack` | pkg/mod/gopkg.in/yaml.v2@v2.4.0/scannerc.go:2373-2477 | Every escape the emitter writes is read as its character. |
| `YamlRoundTrip.HexBack` | pkg/mod/gopkg.in/yaml.v2@v2.4.0/scannerc.go:2442-2477 | Hexadecimal digits written are read as the number they were written for. |
| `YamlRoundTrip.ReadFold` | pkg/mod/gopkg.in/yaml.v2@v2.4.0/scannerc.go:2502-2548 | A folded line is read as one space, for every indentation and line break style. |
| `YamlRoundTrip.IndicatorMeans` | pkg/mod/gopkg.in/yaml.v2@v2.4.0/scannerc.go:2327-2338 | The scanner sees a document indicator in the written text exactly where three plain dashes or dots stand before a space or fold. |
| `YamlRoundTrip.RoundTrip` | pkg/mod/gopkg.in/yaml.v2@v2.4.0/scannerc.go:2314-2567 | Whatever surrounds it, the written scalar is read as the value if and only if no fold puts a document indicator at the start of a line; otherwise it is refused as one. |
| `YamlRoundTrip.IndentedIsSafe` | pkg/mod/gopkg.in/yaml.v2@v2.4.0/emitterc.go:1201-1219 | With an indentation of at least one the round trip succeeds for every value. |
| `YamlRoundTrip.UnbrokenIsSafe` | pkg/mod/gopkg.in/yaml.v2@v2.4.0/emitterc.go:1520-1534 | Where no breaks are allowed the round trip succeeds for every value. |
| `YamlRoundTrip.OnlySpacedIndicators` | pkg/mod/gopkg.in/yaml.v2@v2.4.0/emitterc.go:1520-1534 | A value that fails to come back has three dashes or three dots between two spaces. |
| `YamlRoundTrip.FoldedIndicator` | pkg/mod/gopkg.in/yaml.v2@v2.4.0/emitterc.go:1520-1534 | The routine alone, at an indentation of zero which no caller gives it, writes "a --- b" past the preferred width so that the scanner refuses it. |
| `YamlEmitting.Emitter.StreamStart` | pkg/mod/gopkg.in/yaml.v2@v2.4.0/emitterc.go:283-300 | The step of indentation is between 2 and 9 and the preferred width more than twice that, whatever was set. |
| `YamlEmitting.Emitter.IncreaseIndent` | pkg/mod/gopkg.in/yaml.v2@v2.4.0/emitterc.go:197-209 | The next level's indentation, with the present one kept to return to. |
| `YamlEmitting.Emitter.RestoreIndent` | pkg/mod/gopkg.in/yaml.v2@v2.4.0/emitterc.go:699-700 | Back to the indentation of the level outside. |
| `YamlEmitting.Emitter.EmitScalar` | pkg/mod/gopkg.in/yaml.v2@v2.4.0/emitterc.go:683-702 | A double-quoted scalar is always written at an indentation of two or more, and the indentation around it is restored. |
| `YamlRoundTrip.EmitStream` | pkg/mod/gopkg.in/yaml.v2@v2.4.0/emitterc.go:896-901 | Whatever settings a stream starts with and whatever is emitted, every double-quoted scalar in it is read back as its value. |
| `Multierr.AppendOne` | pkg/mod/go.uber.org/multierr@v1.6.0/error.go:384-388 | One element is appended in place where the array has room, else in a new array; earlier elements of the old one stay. |
| `Multierr.Errors` | pkg/mod/go.uber.org/multierr@v1.6.0/error.go:142-163 | A new array with the errors the given one stands for. |
| `Multierr.Inspect` | pkg/mod/go.uber.org/multierr@v1.6.0/error.go:270-291 | Counts the errors that are not nil and all of them flattened, finds the first and tells whether any is a multiError. |
| `Multierr.FromSlice` | pkg/mod/go.uber.org/multierr@v1.6.0/error.go:294-323 | The result stands for the lists of all errors one after the other, flat, and adopts the slice only if it is flat. |
| `Multierr.Append` | pkg/mod/go.uber.org/multierr@v1.6.0/error.go:375-399 | The result stands for the left list followed by the right one; no list there was changes, whatever arrays are shared. |
| `Multierr.AppendInPlace` | pkg/mod/go.uber.org/multierr@v1.6.0/error.go:384-388 | Only the longest list on an array is ever appended to in place, and only once. |
| `Multierr.Run` | pkg/mod/go.uber.org/multierr@v1.6.0/error.go:375-399 | After any number of calls on results of earlier ones, every result still stands for its two operands' lists, one after the other. |
| `Multierr.MeantIsFlat` | pkg/mod/go.uber.org/multierr@v1.6.0/error.go:375-399 | Such a list holds only errors given, and no multiError. |

## Left out

- Web/main.go: HTTP, processes, RPC and Mongo.
- Spilling nodes to new pages (node.spill, bucket.spill), inline buckets and the cache of opened sub-buckets: Split and the
  page format are modelled, the recursion that ties them to the allocator is not. In the protocol the writer's new tree is
  any tree whose pages it allocated, and that it is closed under child pointers is a guard of the step that writes the meta.
- Buckets.Bucket.Put: starts from trees whose separators are the least keys of their children, as committed trees are;
  the model keeps this over Put, Delete and CreateBucket.
- Cursor.Last and Cursor.Prev, which do not skip empty leaves, and using a cursor on after writing to its bucket.
- DeleteBucket, sequence counters, statistics, WriteTo, Check.
- Errors of the file system at or after the write of the meta page, NoSync, NoFreelistSync, growing and remapping the
  file, locks: a sync is a step that succeeds, and the model of a crash is the loss or garbling of unsynced writes.
- The width of machine integers, apart from the 16-bit counts and 32-bit offsets of pages: transaction and page ids do not
  overflow.
- Freelists.Freelist.FreePage: relies on transaction ids that only grow, so that no page was allocated by a later
  transaction and the writer's own record has not been swept; ProtocolBackend shows that a run of the protocol provides it.
- PageFormat.WriteNode: that keys are not empty and that no branch refers to the page itself is required, where the code
  panics.
- Splitting.Split: the fill percentage is an integer threshold not above the page size.
- Rebalancing.RebalanceAll: the order in which a Go map yields its nodes is an arbitrary list; the children lists of nodes,
  which only spilling reads, are not kept.
- Compacting.Compact: beginning and committing transactions of the destination do not fail, and nothing is said about how
  much has been copied when a name is taken.
- Batching.Run: a panic in a function counts as its failure; the delay before a batch is triggered is any delay.
- YamlParsing.Parser.Parse: source positions and styles are not carried by events;
  the token queue is any list of tokens, since simple keys and block structure belong to the scanner.
- YamlRoundTrip.EmitStream: all other output of the emitter is any bytes, leaving it in any column.
- YamlComposing.Composer.Parse: an alias node holds the name of its anchor, not the node itself.
- YamlScanning.Scanner.ScanFlowScalar: the text is read as if NULs followed it, buffering and the line and index of a
  position are left out, and so is the branch for single quotes; a byte that starts no character, which a decoded text does
  not have, is an error instead of a panic.
- Plain and block scalars, tags and resolution, decoding into Go values, and the v3 copies of the package.
- Multierr.FromSlice: the array handed over is one no multiError uses yet, so Combine on a slice its caller goes on using
  is not covered; formatting of errors is left out, and calls do not run at the same time.
- Wrappers for logging, atomics and channels, and check.v1.
