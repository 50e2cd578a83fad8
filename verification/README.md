# A verified model of the backup repository

The program keeps snapshots of a database in a blob store: full backups, incremental backups on a parent
snapshot, compaction of a chain into a synthetic full, retention pruning, deletion of one snapshot, restore,
and an advisory writer lock. This project models that repository as a state machine over a map from keys to
bytes and proves what its operations promise about each other.

A database is a map from (table, primary key) to a row. An export inserts its rows, the last one winning. A
change list is applied in order: a create or update with a row inserts it, one without a row does nothing, a
delete removes. The database a snapshot stands for is `Restoring.Restored`: its chain loads, every manifest
of it verifies, and the root export and then every incremental are applied.

Code that changes things step by step is written as methods over a `Repository` object with its loops, its
error returns and its writes in the original order, and proved against functions on values; the theorems are
lemmas about those functions. `Repository` keeps every store it has held, so contracts speak about the state
after each single write. Writes and deletes may fail at any point; failed calls are counted, and contracts say that
an error of an operation has its cause.

## Layout

| file | content |
|---|---|
| Types, Ordering | stored values, the external codecs, strings in code-point order |
| Payload, Keys, Repository | JSON Lines framing, key builders and parser, the blob map and the prefixing adapter |
| Manifests, Verification | checksums, chain loading and validation, completeness of a manifest |
| Database, Restoring | meaning of exports and change lists, grouping, restore |
| ObjectRestore | handing stored objects back to the application |
| Objects | concurrent content-addressed writes as interleaved tasks |
| Soundness | which snapshots of a store can be relied on, and what keeps that |
| Backups, BackupTheorems | full and incremental backups and what they stand for |
| Compaction, CompactionTheorems | replay, canonical listing, preservation of meaning |
| Pruning, PruningTheorems | retention, deletion, survivors |
| Locking, Operations, Histories | the lock protocol, operations under the lock, whole runs |
| RunTheorems | ids, chains of backups and carried objects over whole runs |
| Interleaving | many processes under the lock |
| Progress, Limits | that operations can finish: concrete runs; and concrete runs that go wrong |

## Main results

- Whole runs: `Histories.EveryHistoryIsFaithful` and `Histories.SnapshotsAreImmutable`, for every sequence of
  calls that finish, stop anywhere or are refused, and may be tried again. Each finished call records the manifest
  of its snapshot and the database that stands for; `Histories.KeptIsMeantToBeKept` says which ones a sweep may drop.
- Many processes: `Interleaving.InterleavingIsAHistory`, `Interleaving.InterleavingIsFaithful` and
  `Interleaving.InterleavedBackupsLoseNothing`.
- A chain of any length: `RunTheorems.LineRestoresToFold`, and key by key `Restoring.RestoredRow`.
- What is stored says what was asked for: `BackupTheorems.FullBackupIsDescribed`,
  `BackupTheorems.IncrementalBackupIsDescribed`, `CompactionTheorems.CompactionIsDescribed`, and objects come back as
  they went in: `BackupTheorems.FullBackupObjectsComeBack`.
- Such runs exist: `Progress.RunOfEveryKind`.
- Compaction: `CompactionTheorems.CompactionMeaning`, `CompactionTheorems.CompactionPreservesMeaningIff`,
  `CompactionTheorems.SuffixOverCompactedPrefixIff`, `CompactionTheorems.CompactionIsIdempotentIff`,
  `Compaction.CompactObjectsAreLastUntombstoned`, `RunTheorems.RunsKeepEveryObject`.
- Incrementals stored grouped but restored in meaning: `Database.GroupingKeepsMeaning`,
  `BackupTheorems.IncrementalBackupMeaning`.
- Chains: `Manifests.LoadChainIff`, with termination on every store, and `Manifests.BrokenChainIsRefused`.
- Garbage collection: `PruningTheorems.PruneRetainsNewestChains`,
  `PruningTheorems.SurvivorsIntactAtEveryStep`, `PruningTheorems.RestorableIff`,
  `PruningTheorems.DeleteIsRefusedIff`.
- Manifest last: `Backups.StagesKeepSound`, and `RunTheorems.UnfinishedCallCanBeRetried`.
- Restore: `Restoring.RestoreSnapshot`, `Restoring.FailedRestoreLeavesAncestor`,
  `ObjectRestore.OnlyVerifiedIsDeliveredIff`.
- Concurrent object writes: `Objects.EveryRunKeepsInvariant`, `Objects.EveryRunMatchesIff`,
  `Objects.WriteObjectEntries`.
- The lock: `Locking.TimedMutualExclusion`, `Locking.TakeoverBreaksExclusionIff`, `Locking.LockIsExclusiveIff`.

## Hypotheses the code relies on

The whole-run theorems ask for a lawful codec (`Codec.Lawful`), a store to start from (`Histories.Faithful`,
which the empty store is) and, of every call, that a new snapshot does not take the id of a visible one
(`Histories.Admissible`). The id of a call that stopped may be used again. The code does not check the id, and
`RunTheorems.MayBeUsedIff` shows that the condition is exact.

What a finished call records depends on what it was given, and where it records nothing the other snapshots are
kept all the same (`Histories.NewEntry`). These are the conditions, with the lemma that makes each of them exact:

- Tables exported under one name have the same rows; distinct names satisfy this
  (`BackupTheorems.NewManifestIsCompleteIff`).
- A referenced object that is already stored has its declared hash (`BackupTheorems.NewObjectsVerifyIff`).
- The parent of an incremental is recorded and has the same application, backend and schema
  (`BackupTheorems.IncrementalLoadsIff`).
- The source of a compaction can be restored (`CompactionTheorems.CompactableIff`). What is recorded is the
  source with every row under its own primary key (`CompactionTheorems.CompactionMeaning`).

Behind them stand:

- Each visible manifest is stored under its own id in the canonical spelling, as this code stores it
  (`Keys.ParsedKeyIsBuiltIff`). Loading one manifest does not check that.
- A conditional put is atomic, as in the adapter over a blob store.
- serde_json and zstd have inverses, and an encoded entry is not empty and holds no raw newline (section 7 of
  RFC 8259). The hash is an uninterpreted function: no theorem needs it to be free of collisions.

## What the code does not promise

Each item names an input on which the code falls short and the exact condition under which it does not.

- Parsing keys: for every id there is an accepted manifest key that is never written (upper case, braces, URN, no
  hyphens; `Keys.ManifestKeyParserIsNotInjective`). `Keys.ParsedKeyIsBuiltIff` says which keys are the written ones.
- Ids: the id of a new snapshot is not compared with the visible ones. `Limits.IdUsedTwiceStrands`, and exactly
  `RunTheorems.MayBeUsedIff`.
- Cancelled objects: object tasks are dropped when one fails, and a task dropped between its put and its check
  leaves unchecked bytes (`Objects.CancellationCanStrandBytes`). `Objects.EveryRunMatchesIff` says for which sources
  that cannot happen, and `BackupTheorems.NewObjectsVerifyIff` what such bytes do to a later backup.
- Table names: of two tables with one name, the second replaces the first (`Backups.TwoTablesOfOneNameClash`,
  `Backups.PayloadsVerifyIff`).
- Compaction files a row by the key of its change and reloads it by its own (`Limits.CompactionCanMoveARow`).
  `CompactionTheorems.CompactionPreservesMeaningIff` says when that is the same database, and
  `CompactionTheorems.CompactionMeaning` which one it is otherwise.
- A prune or delete that fails between two deletes can leave an expired snapshot visible without its payloads
  (`Limits.PruneCanStrandASnapshot`). `PruningTheorems.RestorableIff` says which visible snapshots can still be
  restored; the ones that were to be kept always can.
- The lock: a client that sees a holder overstay can hold the lock beside it (`Locking.OverstayingAdmitsTwoHolders`,
  `Locking.TakeoverBreaksExclusionIff`), and so can two such clients (`Locking.TwoTakeoversOverlap`).
  `Locking.LockIsExclusiveIff` says when the lock alone is enough.
- Listings: an adapter listing with an empty prefix can show sibling keys (`Repositories.SiblingIsListed`,
  `Repositories.ListingAllIsViewIff`).
- Restore is not all-or-nothing (`Limits.RestoreCanStopHalfWay`, `Restoring.FailedRestoreIsAllOrNothingIff`). On a
  sound snapshot only the database adapter can fail it (`Soundness.SoundIsRestorableIff`).
- A call whose release fails reports an error although its operation is finished; `Operations.ReleaseAfter` says
  that this is the only way.
- Objects: docs/restore-semantics.md says that object restore passes verified blobs to the sink; the code hands an
  object to the sink and compares its hash afterwards (src/restore.rs:287-306). So an altered object reaches the
  application (`ObjectRestore.AlteredObjectReachesTheApplication`), exactly when
  `ObjectRestore.OnlyVerifiedIsDeliveredIff` says so.

## Model

| member | source | states |
|---|---|---|
| Ordering.LessIff | src/prune.rs:64-69 | One text comes before another if and only if at some place it ends or has the smaller character, and up to there they agree |
| Payload.SerializeEntries | src/backup.rs:512-523 | The stored payload is the compressed text with one encoded entry and one newline per list element, in list order |
| Payload.ParseJsonl | src/restore.rs:364-376 | Splitting at newlines, dropping empty pieces and decoding in order; the first piece that does not decode fails the whole payload |
| Payload.LinesAreSplit | src/restore.rs:364-376 | Splitting cuts at every newline, byte 10, and loses nothing |
| Payload.ParsesIff | src/restore.rs:364-376 | A payload parses if and only if every line that is not empty decodes; then its entries are what these lines decode to, in order, and otherwise the error is that of the format |
| Payload.JsonlRoundTrip | src/restore.rs:364-376 | Parsing undoes serialization for every list of entries, given an entry encoder whose output is not empty, holds no raw newline and can be decoded |
| Keys.Layout | docs/snapshot-format.md:5-11 | The keys of manifests, table and changes payloads, objects and the lock are those of the documented layout |
| Keys.ManifestKeyRoundTrip | src/prune.rs:221-228 | The manifest-key parser gives back the id the manifest-key builder was given |
| Keys.ManifestKeyIsInjective | src/backup.rs:108-112 | Two ids never share a manifest key |
| Keys.ManifestKeyParserIsNotInjective | src/prune.rs:221-228 | The parser accepts more than the builder writes: every id has a second key that is parsed as that id; the next row says which keys are the written ones |
| Keys.SpellingsAreParsed | src/prune.rs:221-228 | An id is accepted in either case, with hyphens, without, in braces and as a URN |
| Keys.IdsAreCanonical | src/prune.rs:221-228 | An id is 32 lower-case hexadecimal digits in groups of 8, 4, 4, 4 and 12 |
| Keys.ParsedKeyIsBuiltIff | src/prune.rs:221-228 | A key the parser accepts is the one the builder writes for that id if and only if it is 60 characters long and holds the hyphenated lower-case form of an id at its fixed place |
| Keys.SnapshotsAreDisjoint | src/prune.rs:98-100 | No key is listed under the prefixes of two different ids although the prefix has no trailing slash |
| Keys.ManifestKeyIsUnder | src/backup.rs:108-112 | A manifest is listed under its own snapshot and under all snapshots, never among the objects, and is not the lock |
| Keys.TableKeyFacts | src/backup.rs:118-120 | Whatever the table name, a table payload lies under its snapshot and is never taken for a manifest |
| Keys.ChangesKeyFacts | src/backup.rs:122-125 | Whatever the table name, a changes payload lies under its snapshot and is never taken for a manifest |
| Keys.TableKeyIsInjective | src/backup.rs:118-120 | Within a snapshot, different table names have different table keys |
| Keys.ChangesKeyIsInjective | src/backup.rs:122-125 | Within a snapshot, different table names have different changes keys |
| Keys.TableAndChangesKeysDiffer | src/backup.rs:117-125 | Within a snapshot, no table payload and changes payload share a key |
| Keys.ObjectKeyFacts | src/backup.rs:127-132 | An object key is listed among the objects, under no snapshot, is no manifest key and not the lock |
| Keys.ObjectsAreOutsideSnapshots | src/prune.rs:98-107 | A key listed among the objects is listed under no snapshot, so the two deletion loops never meet |
| Keys.ObjectKeyIsInjective | src/backup.rs:127-132 | Different hashes have different object keys, short ones included |
| Repositories.Repository.PutBlob | src/repository.rs:179-188 | A put replaces exactly one key or fails and changes nothing; the store that results is appended to the history |
| Repositories.Repository.PutBlobIfAbsent | src/repository.rs:197-207 | A conditional put writes exactly when the key is absent, reports which, and is one atomic step |
| Repositories.Repository.GetBlob | src/repository.rs:221-224 | A read returns the stored bytes or reports the missing key |
| Repositories.Repository.ListBlobs | tests/full_backup_creation.rs:329-340 | A listing holds exactly the keys that start with the prefix, each once, in no promised order |
| Repositories.Repository.DeleteBlob | src/repository.rs:242-244 | A delete removes exactly one key, present or not, or fails and changes nothing |
| Repositories.PrefixLayout | src/repository.rs:142-165 | Keys of a prefixed repository lie below the prefix and a slash, and without a prefix they are as they are |
| Repositories.PrefixRoundTrip | src/repository.rs:142-165 | Stripping undoes prefixing, and prefixing undoes stripping on the keys the prefix owns |
| Repositories.ViewOfPut | src/repository.rs:179-188 | A put through the prefix is the same put on the repository the prefix carves out |
| Repositories.ViewOfDelete | src/repository.rs:242-244 | A delete through the prefix is the same delete on the repository the prefix carves out |
| Repositories.ListingIsViewListing | src/repository.rs:234-240 | For a non-empty list prefix, the keys listed through the adapter are exactly those of the carved-out repository |
| Repositories.ListingAllIsViewIff | src/repository.rs:149-155 | For the empty list prefix that holds if and only if no foreign key starts with the bare prefix, unless its name is also a key of the repository |
| Repositories.SiblingIsListed | src/repository.rs:149-155 | An input on which it fails: under the prefix "repo", a blob of the sibling "repository" is listed |
| Repositories.BlobStoreRepository.PutBlob | src/repository.rs:179-188 | The adapter put refines the plain one and leaves every foreign key alone |
| Repositories.BlobStoreRepository.PutBlobIfAbsent | src/repository.rs:197-207 | The adapter conditional put refines the plain one and leaves every foreign key alone |
| Repositories.BlobStoreRepository.GetBlob | src/repository.rs:221-224 | The adapter reads what the carved-out repository holds |
| Repositories.BlobStoreRepository.ListBlobs | src/repository.rs:234-240 | For a non-empty list prefix the adapter lists the carved-out repository, each key once |
| Repositories.BlobStoreRepository.DeleteBlob | src/repository.rs:242-244 | The adapter delete refines the plain one and leaves every foreign key alone |
| Manifests.SealedManifestVerifies | src/manifest.rs:145-167 | A manifest whose checksum has been set passes verification |
| Manifests.ChecksumCoversAllIff | src/manifest.rs:145-167 | Where hash and written form have no collisions, two manifests have one checksum if and only if they agree in every other field, and a sealed manifest with another field changed does not verify |
| Manifests.ReadManifest | src/manifest.rs:175-184 | What is stored under the id is absent, is no manifest, is altered (its checksum is not the hash of the rest of it), or is returned as it is; each case with its own error, and without comparing the id inside |
| Manifests.ValidateManifestChain | src/manifest.rs:224-298 | The loop with its growing set of seen ids computes the pairwise validation function |
| Manifests.ValidateChainIff | src/manifest.rs:224-298 | Checking neighbours is enough: a chain is accepted if and only if it starts at a parentless full or synthetic full, each member names the one before, all ids differ, and any two members agree on application, backend and schema |
| Manifests.ValidChainIff | src/manifest.rs:224-298 | Validation accepts a chain if and only if, field by field, it starts with a parentless full or synthetic full, each member names the one before, ids are distinct, and application, backend and schema hash agree |
| Manifests.VisitingShrinks | src/manifest.rs:200-205 | Each loaded manifest shrinks the set of stored manifests not yet visited: the termination measure of the walk |
| Manifests.LoadManifestChain | src/manifest.rs:192-215 | Terminates on every store, cyclic parents included, and returns the walk reversed into restore order and validated, every member of it sealed |
| Manifests.LoadChainIff | src/manifest.rs:192-215 | Loading returns a chain if and only if it is the valid path of stored parents that ends at the id; only the tip may be stored under a foreign id |
| Manifests.TrappedPathIsRefused | src/manifest.rs:200-205 | A parent path that stays among manifests with parents, as every loop does, is refused, as an invalid chain if all of them load |
| Manifests.BrokenChainIsRefused | src/manifest.rs:192-215 | The first manifest on the parent path that is absent, no manifest or altered is reported as what it is, and nothing is loaded |
| Verification.VerifyBlobs | src/verify.rs:86-131 | A batch of checks succeeds if and only if every blob is present with the named hash, and otherwise reports one that is absent, or altered with both hashes |
| Verification.VerifyManifestAndObjects | src/verify.rs:29-109 | Verification succeeds if and only if the manifest is complete: sealed, and every object, table and changes blob present with its hash; otherwise it reports the seal or one of these blobs |
| Verification.KeptStaysComplete | src/verify.rs:72-109 | A complete manifest stays complete in any store that keeps the blobs it names |
| Verification.KeptChainStillLoads | src/manifest.rs:192-215 | A snapshot keeps its chain in any store that keeps the blobs the chain reads |
| Database.ChangedRow | src/backup.rs:411-425 | Applying a change list decides each key by the last change of it that deletes or carries a row: absent after a delete, that row otherwise; keys without such a change stay as they were |
| Database.GroupChangesByTable | src/backup.rs:621-637 | The loop that pushes into groups in place computes the grouping function |
| Database.GroupingIsStablePartition | src/backup.rs:621-637 | Groups are non-empty, have distinct names in order of first appearance, and each is exactly the subsequence of its table |
| Database.UngroupedOfTable | src/restore.rs:327-336 | Reading the groups back one after the other keeps the subsequence of every table |
| Database.TablesAreIndependent | src/backup.rs:411-425 | The rows of a table after a change list depend on the changes of that table only: two lists with the same subsequence agree on it |
| Database.GroupingKeepsMeaning | src/backup.rs:621-637 | Storing a change list grouped by table does not change what it does to any database |
| Database.ApplyChangesIsWellKeyed | src/backup.rs:411-425 | If every change carries a row with its own primary key, rows stay filed under their own primary keys |
| Restoring.LoadJsonlEntries | src/restore.rs:338-355 | Refuses a foreign export format before reading; otherwise takes the stored bytes as they are or decompresses them, as the manifest says, and parses them line by line |
| Restoring.LoadTableExports | src/restore.rs:312-325 | All table payloads in manifest order under their table names, or the first error |
| Restoring.LoadChangeExports | src/restore.rs:327-336 | All changes payloads joined in manifest order, or the first error |
| Restoring.RestoreIncrementals | src/restore.rs:242-251 | Succeeds only if every incremental loads, and fails where they all do only in the database adapter; counts all changes, and leaves the target with exactly the incrementals before the first that does not load, and unchanged in a dry run |
| Restoring.AppliedCompletely | src/restore.rs:242-251 | When every incremental loads, the one-by-one application is the application of all the lists in order |
| Restoring.RestoredRow | src/restore.rs:205-259 | What a snapshot restores to, key by key: the row of the last change in the chain that does something, or none if that is a delete, or else the row exported last |
| Restoring.RestoreSnapshot | src/restore.rs:205-259 | Succeeds exactly when the chain loads and verifies, backend and schema match, the target is empty (or the run is dry) and all payloads parse, unless a call of the database adapter fails; then the target is what the snapshot stands for. The report depends on the repository alone, so a dry run foretells it. The target is untouched in a dry run and before the gates; a payload that fails later leaves exactly the root and the incrementals before it |
| Restoring.ReportCounts | src/restore.rs:229-258 | The report counts the manifests of the chain and the tables, rows and changes that were read |
| Restoring.FailedRestoreLeavesAncestor | src/restore.rs:242-251 | A restore that a payload stops leaves exactly the database of an ancestor snapshot: the last one whose payloads all parse |
| Restoring.FailedRestoreIsAllOrNothingIff | src/restore.rs:229-251 | Such a restore leaves an empty target empty if and only if the root does not parse or that ancestor stands for the empty database |
| Restoring.KeptChainRestoresSame | src/restore.rs:205-259 | A snapshot stands for the same database in any store that keeps the blobs its chain reads |
| ObjectRestore.RestoreObjects | src/restore.rs:267-310 | Objects are handed out in manifest order, each before its hash is compared: all but the last one handed out match, and the error says whether the last was altered or refused, or the next one is missing |
| ObjectRestore.OnlyVerifiedIsDeliveredIff | src/restore.rs:273-306 | An application that reads to the end is handed bytes with the declared hashes only, in every run, if and only if the first object that does not verify, if any, is missing rather than altered |
| ObjectRestore.CompleteObjectsAreDelivered | src/restore.rs:267-310 | The objects of a complete manifest are all handed out as stored and with the declared hashes, unless the application refuses one |
| ObjectRestore.AlteredObjectReachesTheApplication | src/restore.rs:287-306 | An input: an altered object is handed out and the mismatch reported afterwards |
| Objects.PutKeepsOwnership | src/backup.rs:551-553 | A conditional put of a task makes one new blob that belongs to that task alone |
| Objects.UndoKeepsOwnership | src/backup.rs:563-566 | The undo of a task removes its own blob and no other, whoever has found the key meanwhile |
| Objects.StepKeepsFound | src/backup.rs:560-562 | A key a task found stays present unless some task fails |
| Objects.StepKeepsInvariant | src/backup.rs:537-585 | Every atomic step of every task keeps the batch invariant |
| Objects.EveryRunKeepsInvariant | src/backup.rs:525-592 | For every interleaving, wherever it stops, earlier blobs are unchanged and every new blob holds the bytes of exactly one task |
| Objects.AllDoneMeansWritten | src/backup.rs:586-588 | When every task is done, every key is present and every new blob hashes to what its task was to write |
| Objects.WrittenObjectsMatch | src/backup.rs:525-592 | After a successful batch every reference is satisfied if and only if each referenced key that was stored before held the declared bytes, whatever else the store holds; objects that matched their names still do |
| Objects.EveryRunMatchesIff | src/backup.rs:537-588 | Objects match their names at the end of every run, however tasks interleave and wherever it stops, if and only if every source whose key is not yet stored can deliver nothing but the declared bytes |
| Objects.CancellationCanStrandBytes | src/backup.rs:586-588 | A run of two tasks in which failing fast leaves bytes under a name they do not hash to |
| Objects.SortSorts | src/backup.rs:589 | Sorting the results by index gives a strictly ordered list of the same members |
| Objects.CollectedInOrder | src/backup.rs:586-591 | In whatever order object tasks finish, the sorted results are the references mapped in order |
| Objects.PutTask | src/backup.rs:538-553 | The first step of a task: read the source, put if absent; it ends as written or found, or failed without a trace |
| Objects.SettleTask | src/backup.rs:554-584 | The second step: hash what was written, or the source again; a reported mismatch names the key, both hashes differ, and bytes its own put had written are gone |
| Objects.DriveTasks | src/backup.rs:536-588 | Tasks advance in any order until all are done or one fails; success means all done, and a reported mismatch means one task failed and no undo did |
| Objects.WriteObjectEntries | src/backup.rs:525-592 | Success if and only if all tasks are done; then the entries are the references in order, every key is written, and every object was delivered in this call with its declared hash. An error has its cause: a failed call of the repository or the index, or delivered bytes that do not match. In every store on the way, earlier blobs are unchanged and only named object keys have appeared |
| Soundness.SoundSnapshotRestores | src/restore.rs:205-259 | Every sound snapshot, one that is complete, readable and loads with its parents, can be restored |
| Soundness.SoundIsRestorableIff | src/restore.rs:205-236 | A sound snapshot passes everything but the calls of the database adapter if and only if the target has its backend and schema hash; so a dry run decides it beforehand |
| Soundness.ReportAgreesWithManifests | src/restore.rs:229-258 | The restore report equals the chain length, the root table and row counts, and the sum of the incremental row counts stored in the manifests |
| Soundness.KeptSnapshotStaysSound | src/restore.rs:205-259 | While everything its chain reads is kept, a snapshot stays complete, keeps its chain and restores to the same database |
| Soundness.KeptChainsStaySound | src/restore.rs:205-259 | Any parent-closed set of sound snapshots whose chains are kept stays sound, whatever has happened to the other snapshots |
| Soundness.AddingKeepsSound | src/backup.rs:185-211 | Blobs that are not manifests can be added without changing what any sound snapshot restores to |
| Soundness.PublishingKeepsSound | src/backup.rs:489-501 | Publishing a complete manifest under a new id, on a sound parent if any, adds that snapshot, complete at the moment it appears, and changes no sound one |
| Backups.PayloadsVerifyIff | src/backup.rs:118-120 | Freshly written payloads verify if and only if payloads of one key have one hash: of two tables with one name the second silently replaces the first |
| Backups.TwoTablesOfOneNameClash | src/backup.rs:185-203 | An input on which they fail: two tables of one name whose payloads hash differently |
| Backups.AgreeingBlobsAreStored | src/backup.rs:185-203 | When payloads of one key are equal, every one of them is stored as written |
| Backups.StagesKeepSound | src/backup.rs:185-237 | Manifest last: after every single write before the manifest, under an id that is not visible, the same snapshots are visible, and each sound one is sound, with its manifest and chain, and restores to the same database; blobs that a stopped call left under the id may be replaced |
| Backups.ObjectsKeepStage | src/backup.rs:205-211 | Object writes add nothing but object keys to an unfinished snapshot |
| Backups.WriteTable | src/backup.rs:188-202 | One payload is put under the table key, and its entry carries its row count and hash |
| Backups.WriteTables | src/backup.rs:185-203 | Payloads are written in order, later ones of a key replacing earlier ones; entries and row total are those of the tables; every store on the way is a stage |
| Backups.WriteGroup | src/backup.rs:304-318 | One payload is put under the changes key, and its entry carries its change count and hash |
| Backups.WriteChanges | src/backup.rs:300-319 | Group payloads are written in order; entries and change total are those of the groups; every store on the way is a stage |
| Backups.WriteManifest | src/backup.rs:489-501 | The sealed manifest is stored under its own id in one write, or nothing changes |
| Backups.CreateFullBackup | src/backup.rs:176-240 | Success stores payloads, then objects, then exactly the described full manifest; all earlier stores, and the store after any failure, are stages that show no new snapshot |
| Backups.CreateIncrementalBackup | src/backup.rs:285-356 | The same for the incremental manifest of the grouped changes with a tombstone per deletion; the parent is taken on trust |
| BackupTheorems.EncodedEntriesLoad | src/restore.rs:338-355 | An encoded list of entries is loaded back as it was |
| BackupTheorems.StoredTablesLoad | src/restore.rs:312-325 | Stored table payloads are loaded back as the exported tables |
| BackupTheorems.StoredChangesLoad | src/restore.rs:327-336 | Stored change groups are loaded back group after group, and the stored count is their length |
| BackupTheorems.NewManifestIsComplete | src/verify.rs:72-109 | The manifest of freshly stored payloads and objects passes verification |
| BackupTheorems.NewManifestIsCompleteIff | src/verify.rs:72-109 | It does if and only if payloads of one key have one hash and each referenced object that was stored before has its declared hash |
| BackupTheorems.NewObjectsVerifyIff | src/backup.rs:551-584 | What stranded bytes do to a later backup: its objects verify if and only if those found under its keys had the declared hashes |
| BackupTheorems.WrittenKeepsOthers | src/backup.rs:176-240 | A finished run with a sealed manifest under an id that is not visible, whatever it depends on, adds one visible snapshot and changes no sound one |
| BackupTheorems.FullBackupMeaning | src/backup.rs:176-240 | A finished full backup adds one sound snapshot that restores to the exported rows, last one winning, when tables of one name agree and the referenced objects already stored match |
| BackupTheorems.FullBackupKeepsOthers | src/backup.rs:176-240 | Whatever is exported, a finished full backup shows exactly one more snapshot and changes no sound one |
| BackupTheorems.FullBackupIsDescribed | src/backup.rs:213-239 | The manifest loaded after a full backup carries version 1, the id, creation time and application of the request, the schema of the export, and the names and row counts of its tables in order |
| BackupTheorems.FullBackupObjectsComeBack | src/restore.rs:267-310 | Restoring the objects of a full backup hands out exactly the references that were backed up, in order and in every field, each with bytes of the declared hash |
| BackupTheorems.IncrementalOnParentLoads | src/manifest.rs:192-215 | An incremental on a visible parent of the same source has the parent chain with itself at the end |
| BackupTheorems.IncrementalLoadsIff | src/backup.rs:285-356 | A written incremental loads if and only if the chain of its parent loads and the parent has the same application, backend and schema, none of which is checked on writing |
| BackupTheorems.RestoredFromParent | src/restore.rs:242-251 | A snapshot restores to the database of its parent with its own changes applied |
| BackupTheorems.IncrementalBackupMeaning | src/backup.rs:285-356 | A finished incremental on a sound parent of the same source adds one sound snapshot that restores to the database of its parent with the original, ungrouped change list applied |
| BackupTheorems.IncrementalBackupKeepsOthers | src/backup.rs:285-356 | Whatever parent it names, a finished incremental shows exactly one more snapshot and changes no sound one |
| BackupTheorems.IncrementalBackupIsDescribed | src/backup.rs:321-355 | The manifest loaded after an incremental carries version 1, the id, parent, creation time and application of the request, the schema, the number of all changes and of those of each table, and a tombstone for exactly the deleted rows |
| BackupTheorems.IncrementalBackupObjectsComeBack | src/restore.rs:267-310 | Restoring the objects of an incremental hands out exactly the references that were backed up, in order and in every field, each with bytes of the declared hash |
| BackupTheorems.IncrementalBackupRow | src/backup.rs:285-356 | Key by key: after an incremental a deleted row is gone, a row with a last create or update is that row, and every other key is as in the parent |
| Compaction.ReplayTablesRepresents | src/backup.rs:404-409 | Inserting exported rows into nested maps computes the database of the export |
| Compaction.ReplayChangesRepresents | src/backup.rs:412-424 | Replaying a change list into nested maps computes what the list does to the database |
| Compaction.ReplayListsRepresents | src/backup.rs:411-425 | Replaying all incrementals into nested maps computes the database that restoring them would |
| Compaction.ListingReloadsIff | src/backup.rs:429-446 | Listing maps in key order and reading them back always gives well-keyed maps, empty tables included, and gives the same ones if and only if every row sat under its own primary key |
| Compaction.RelistingIff | src/backup.rs:429-446 | Listing what was read back gives the same listing if and only if the rows of each table were listed in the order of their own keys |
| Database.InsertedExport | src/backup.rs:404-409 | Restoring an export finds, under each table and key, the row that was exported last |
| Compaction.ListingRefiles | src/backup.rs:405-446 | Listing any maps and restoring them files every row under its own primary key instead of the key of its change; of several rows with one key the one whose old key is greatest stays |
| Compaction.RefiledIsSameIff | src/backup.rs:405-446 | Refiled rows all sit under their own keys, and refiling changes nothing if and only if they did before |
| Compaction.ListingKeepsMeaningIff | src/backup.rs:405-419 | Listing and restoring gives the same database if and only if every row sits under its own primary key |
| Compaction.LatestIsLast | src/backup.rs:658-666 | The map of objects holds, for each occurring and untombstoned id, its last entry in chain order |
| Compaction.CompactObjectsAreLastUntombstoned | src/backup.rs:652-671 | Objects carried forward are strictly ordered by id and are exactly the ids that occur in some manifest and in no tombstone, each with its last entry |
| Compaction.SortByIdSorts | src/backup.rs:669 | Sorting entries of distinct ids orders them by id and keeps the members |
| Compaction.SortedValuesAreInIdOrder | src/backup.rs:668-670 | The sorted values of the hash map do not depend on the order in which it yields them |
| Compaction.CompactObjectEntries | src/backup.rs:652-671 | The loops over tombstones, objects and hash-map values compute that list |
| Compaction.ReplayChain | src/backup.rs:398-425 | Succeeds if and only if every payload of the chain loads, and returns the replayed maps |
| Compaction.LoadSource | src/backup.rs:393-425 | Succeeds if and only if the source chain loads, verifies and parses; nothing is written |
| Compaction.CompactChain | src/backup.rs:389-481 | Success stores the listed tables and then exactly the described synthetic full; an unusable source writes nothing; all earlier stores are stages that show no new snapshot |
| CompactionTheorems.CompactedRepresents | src/backup.rs:398-425 | The replayed maps of a chain hold exactly the database the chain restores to |
| CompactionTheorems.CompactedRow | src/backup.rs:398-425 | The maps that are listed hold, for each key, the row of the last change in the chain that does something, nothing after a delete, or else the row exported last |
| CompactionTheorems.CompactedTablesAreWellKeyedIff | src/backup.rs:398-425 | The replayed maps are well keyed if and only if the database of the source is |
| CompactionTheorems.CarriedObjectsAreSound | src/backup.rs:448 | Every object carried forward is already stored under its hash |
| BackupTheorems.TombstonesAreDeletes | src/backup.rs:639-650 | There is a tombstone for each deleted row and for nothing else |
| CompactionTheorems.CompactionAddsSnapshot | src/backup.rs:427-481 | A finished compaction adds one sound parentless snapshot, a chain of its own, that restores to the listed tables |
| CompactionTheorems.CompactionKeepsOthers | src/backup.rs:427-481 | A finished compaction shows exactly one more snapshot and changes no sound one |
| CompactionTheorems.CompactionIsDescribed | src/backup.rs:449-480 | The manifest loaded under the new id carries the creation time and application of the request and the schema version, schema hash and backend of the tip of the source |
| CompactionTheorems.CompactionKeepsTargets | src/restore.rs:178-193 | A compaction can be restored into exactly the targets into which its source can be |
| CompactionTheorems.CompactionMeaning | src/backup.rs:389-481 | What a compaction of any source does, through write, load, verify and parse: the synthetic full restores to the database of its source with every row refiled under its own primary key |
| CompactionTheorems.CompactionPreservesMeaningIff | src/backup.rs:389-481 | For a chain of any length, the synthetic full restores to the database of its source if and only if every row of that database is filed under its own primary key; nothing is assumed about the other snapshots |
| CompactionTheorems.CompactableIff | src/backup.rs:393-425 | A finished compaction of a snapshot exists if and only if the snapshot can be restored |
| CompactionTheorems.CompactionKeepsSource | src/backup.rs:389-481 | A compaction keeps every manifest and blob that its source chain reads |
| CompactionTheorems.ListingIsCanonical | src/backup.rs:427-446 | Output tables are strictly ordered by name, for all maps, and rows strictly by primary key in every table whose rows sit under their own keys |
| CompactionTheorems.SuffixOverCompactedPrefixIff | src/backup.rs:411-425 | Compacting on top of a stored synthetic full gives, for all later incrementals, the same tables as compacting incrementals with the same changes on top of its source chain, if and only if the rows of the source were well keyed |
| CompactionTheorems.RecompactedObjects | src/backup.rs:652-671 | Compacting the objects of a synthetic full returns them unchanged |
| CompactionTheorems.RecompactedTablesIff | src/backup.rs:398-425 | The tables replayed from a synthetic full are well keyed, and are the ones it was listed from if and only if those were |
| CompactionTheorems.CompactionIsIdempotentIff | src/backup.rs:389-481 | Compacting a synthetic full again lists the same tables and rows if and only if the first listing was in the order of the own keys of its rows, and then reproduces hashes, counts and objects |
| CompactionTheorems.CompactingAgainIsIdempotent | src/backup.rs:389-481 | From the second compaction on, compacting reproduces tables, rows, hashes, counts and objects whatever the source was |
| Pruning.LoadAllManifests | src/prune.rs:208-219 | Loads one manifest per listed manifest key, in listing order, or fails with the first error |
| Pruning.NewestFirstSorts | src/prune.rs:64-69 | The sort orders manifests of distinct ids by later creation time first, among equal times by textually greater id first, and keeps the members |
| Pruning.RefKeysAreRefs | src/prune.rs:230-243 | The collected keys are exactly those of the blobs that verification reads |
| Pruning.CollectReachableKeys | src/prune.rs:230-243 | Adds the table, changes and object keys of one manifest to the set |
| Pruning.RetainChain | src/prune.rs:81-84 | Adds the ids and keys of one chain to the retained and reachable sets |
| Pruning.PlanRetention | src/prune.rs:63-94 | Decides retained and expired ids and reachable keys from the chains of the first keep_last manifests, before any delete |
| Pruning.DeleteKeys | src/prune.rs:107-112 | Deletes the listed keys that are not spared one at a time; every store on the way lacks only such keys, and the count is the drop in store size |
| Pruning.DeleteSnapshots | src/prune.rs:97-105 | Deletes everything below the expired snapshots, in any order of the ids; every store on the way lacks only such keys |
| Pruning.Sweep | src/prune.rs:96-112 | Both loops together remove exactly the doomed keys and count the drop in store size |
| Pruning.Prune | src/prune.rs:59-119 | A plan that fails writes nothing, as it does whenever a listed manifest is not sealed; otherwise every store on the way lacks only doomed keys, and a finished run removes all of them and reports the retained and expired counts and the drop in store size; it stops only for a failed delete |
| Pruning.CollectOthers | src/prune.rs:188-194 | The keys reachable from every manifest but the target |
| Pruning.DeleteSnapshot | src/prune.rs:154-206 | A refusal writes nothing, as it does whenever a listed manifest is not sealed; otherwise every store on the way lacks only doomed keys, and a finished run removes all of them and reports the drop in store size and one manifest less; it stops only for a failed delete |
| PruningTheorems.RetainedManifestIsSpared | src/prune.rs:96-112 | Nothing a retained manifest depends on is doomed |
| PruningTheorems.SurvivorsIntactAtEveryStep | src/prune.rs:96-112 | After each single delete, every retained snapshot that was sound is complete, has the same chain and restores to the same database |
| PruningTheorems.TrimmedKeepsSound | src/prune.rs:96-112 | At each step the retained sound snapshots stay sound together, so later operations may start from there |
| PruningTheorems.RestorableIff | src/prune.rs:96-112 | Whatever has been deleted so far, a sound snapshot can be restored if and only if no blob its chain reads is gone, and then it restores to the same database |
| PruningTheorems.CutShortSweepStrands | src/prune.rs:96-105 | A sweep that stops after deleting one payload of an expired snapshot leaves it visible and not restorable |
| PruningTheorems.SweepLeavesRetained | src/prune.rs:96-112 | A finished sweep shows exactly the retained snapshots, and those that were sound are unchanged |
| PruningTheorems.SweepLeavesReferencedObjects | src/prune.rs:107-112 | The objects left by a finished sweep are exactly the stored ones that a retained manifest references |
| PruningTheorems.SweepLeavesIff | src/prune.rs:96-112 | A blob is left by a finished sweep if and only if it lies below no expired snapshot and, if it is an object, a retained manifest references it |
| PruningTheorems.ListingLoadsAll | src/prune.rs:208-219 | Where every visible manifest is legible, every listing, in any order, loads each of them once |
| PruningTheorems.DeleteIsRefusedIff | src/prune.rs:158-177 | A delete is refused if and only if the snapshot is missing, as a missing manifest, or some visible manifest names it as parent, as an invalid chain; otherwise its plan retains all others and is safe |
| PruningTheorems.TakenAreNewest | src/prune.rs:64-75 | The selected manifests are keep_last many, or all, and each other one was created earlier, or at the same time under a textually smaller id |
| PruningTheorems.ChainsAreLeastClosed | src/prune.rs:79-85 | The ids on the chains of the selected manifests form the least set that holds them and is closed under parents |
| PruningTheorems.PruneRetainsNewestChains | src/prune.rs:63-94 | Whatever the listing order, a prune goes ahead if and only if the chains of the newest manifests load (created later, or at the same time under a textually greater id), and then retains exactly the least parent-closed set that holds them, by a plan that is safe |
| PruningTheorems.PruneRetainsTheLatest | src/prune.rs:63-94 | A prune that keeps at least one snapshot retains one than which none was created later |
| PruningTheorems.SoundStoreCanBePruned | src/prune.rs:63-94 | Where every visible snapshot is sound, a prune is never refused by its planning |
| PruningTheorems.PruneReportIsTrue | src/prune.rs:114-118 | A finished prune reports how many snapshots are visible afterwards, how many are no longer, and how many blobs are gone |
| PruningTheorems.DeleteReportIsTrue | src/prune.rs:196-206 | A finished delete removes that one snapshot and reports how many are visible afterwards and how many blobs are gone |
| PruningTheorems.ReportedCountsAddUp | src/prune.rs:114-118 | Retained and deleted snapshot counts of a prune add up to the visible snapshots, and a delete reports one less than those |
| Locking.IsStaleIff | src/lock.rs:51-62 | A lock is stale if and only if more seconds than the limit have passed since the time in its body, a body that does not parse counting as written now, and the limit is not the greatest number there is |
| Locking.Acquire | src/lock.rs:36-75 | Undisturbed, an absent or stale lock is taken with the own timestamp; a live lock is refused and left alone; no other key is ever touched |
| Locking.Release | src/lock.rs:82-84 | Removes the lock blob and touches no other key |
| Locking.AcquireAloneTakesTheLockIff | src/lock.rs:36-75 | The atomic steps of the protocol, taken without interruption, do what the sequential acquire does |
| Locking.TakeoverBeginsIff | src/lock.rs:51-62 | From an exclusive world, a takeover begins if and only if a contending client inspects the lock of a holder that, by the clock reading of that client, has overstayed its limit |
| Locking.TakeoverBreaksExclusionIff | src/lock.rs:51-70 | A contending client can go on past its inspection if and only if it sees a holder overstay, and from every such world its uninterrupted takeover ends with two holders |
| Locking.TwoTakeoversOverlap | src/lock.rs:56-70 | Two clients that both see the same holder overstay can both take over and both hold the lock, the second having removed the fresh lock of the first |
| Locking.SecondReclaimGivesUp | src/lock.rs:62-74 | Of two clients that have both evicted a lock, the one that puts second gives up |
| Locking.ExclusionUntilTakeover | src/lock.rs:36-84 | In every run of any number of processes, until somebody takes over, at most one holds the lock and the blob exists exactly while one does |
| Locking.TimedMutualExclusion | src/lock.rs:36-84 | If every holder releases in time, the takeover branch is never entered and the lock is exclusive throughout |
| Locking.OverstayingAdmitsTwoHolders | src/lock.rs:56-70 | Without that hypothesis exclusion fails for any number of clients, any two of them and any finite limits: a run in which one overstays and the other takes over ends with two holders |
| Locking.LockIsExclusiveIff | src/lock.rs:36-84 | The lock guarantees exclusion in every run if and only if there is at most one client or no limit can be exceeded |
| Operations.ReleaseAfter | src/backup.rs:603-614 | The lock is released whatever the outcome; the own error of the operation wins, and after an operation that succeeded an error means exactly that the release failed |
| Operations.CreateFullBackupLocked | src/backup.rs:164-174 | The backup runs between taking and releasing the lock; whatever it returns, the call was refused for a live lock, stopped at a stage of the unfinished snapshot, or finished, and it reports success exactly when it finished and the lock was released. Every error has its cause: a live lock, a failed call, or delivered bytes that do not match |
| Operations.CreateIncrementalBackupLocked | src/backup.rs:272-283 | The same for an incremental backup |
| Operations.CompactChainLocked | src/backup.rs:379-387 | The same for a compaction, and the returned manifest is the one written |
| Operations.PruneLocked | src/prune.rs:45-57 | The same for a prune, whose failure leaves a partial sweep by its plan; the report is that of the run |
| Operations.DeleteSnapshotLocked | src/prune.rs:139-152 | The same for a delete, whose failure leaves a partial sweep by its plan; the report is that of the run |
| Histories.LockIsInvisible | src/lock.rs:36-84 | Taking or releasing the lock changes no visible snapshot, and neither soundness nor what any sound snapshot restores to |
| Histories.OperationIsFaithful | src/backup.rs:176-481 | A finished operation under an id that is not visible leaves every recorded snapshot it was meant to keep with its recorded manifest and database, and records the new one: exported rows, parent with changes, or the source of a compaction with its rows under their own keys |
| Histories.CallIsFaithful | src/backup.rs:603-614 | The same for one call whatever it returns: refused by the lock, stopped anywhere, or finished with the lock released or not |
| Histories.EveryHistoryIsFaithful | src/restore.rs:205-259 | For every finite sequence of full, incremental, compact, prune and delete calls, each finished, stopped anywhere or refused, every recorded snapshot has the recorded manifest and restores to exactly what was recorded for it; all that is asked of callers is that a new snapshot does not take the id of a visible one |
| Histories.SnapshotsAreImmutable | src/restore.rs:205-259 | Over every such run, a recorded snapshot has the same manifest and restores to the same database for as long as no sweep is meant to remove it |
| Histories.FailureSparesWhatIsKept | src/prune.rs:96-112 | Wherever a call stops, a partial sweep included, every recorded snapshot it was meant to keep is sound and restores to what was recorded for it |
| Histories.KeptIsMeantToBeKept | src/prune.rs:63-94 | What a call is said to keep is what it is meant to keep: for a prune the least parent-closed set over the newest snapshots, for a delete all others, and everything for a refused one and for backups |
| Histories.EveryVisibleIsRecorded | src/restore.rs:205-259 | In a run in which no sweep is cut short and every new snapshot can be relied on, every visible snapshot is recorded and restores to what was recorded for it |
| Histories.CompactionRecordsSource | src/backup.rs:389-481 | What a compaction of a recorded snapshot records is that snapshot refiled, which is the same database if and only if every row sits under its own primary key |
| Progress.RunCanFinish | src/backup.rs:176-240 | A finished run exists from every store for every manifest and payloads whose objects have bytes with the declared hashes |
| Progress.FinishedIsRecorded | src/backup.rs:176-481 | Where everything visible is recorded and objects match their names, a finished operation whose new snapshot can be relied on leaves it so |
| Progress.FullBackupCanFinish | src/backup.rs:176-240 | From every fully recorded store a full backup under an id that is not visible can finish, and then records its manifest and the exported rows and makes no other id visible |
| Progress.IncrementalCanFinish | src/backup.rs:285-356 | So can an incremental on any recorded parent of the same source, recording the parent with the changes applied |
| Progress.CompactionCanFinish | src/backup.rs:389-481 | So can a compaction of any recorded snapshot, recording it refiled |
| Progress.PruneCanFinish | src/prune.rs:59-119 | So can a prune, leaving recorded exactly what it is meant to keep |
| Progress.RetryCanFinish | src/backup.rs:176-240 | A full backup that stopped can be finished under its own id, whatever it left there, and the two calls record what one finished call would have |
| Progress.RunOfEveryKind | src/restore.rs:205-259 | From the empty repository, for all exports and changes, there is a run of a full backup, an incremental on it, a compaction of that and a prune, with what each snapshot restores to |
| RunTheorems.UnfinishedCallCanBeRetried | src/backup.rs:164-174 | A call that was refused or stopped may be made again under its own id |
| RunTheorems.MayBeUsedIff | src/backup.rs:176-501 | The id of a new snapshot is not checked: calls under it, finished or stopped, leave every visible snapshot as it was if and only if it is not the id of one of them |
| RunTheorems.OverwritingStrands | src/backup.rs:185-203 | The first put of a full backup over a visible snapshot, with another payload for one of its tables, leaves it visible and not restorable |
| RunTheorems.LineRestoresToFold | src/restore.rs:205-259 | For any number of incrementals, each on the one before and with whatever other calls between them, the last one restores to the export of the full backup with all the original change lists applied in order |
| RunTheorems.BackupsLoseNothing | src/backup.rs:176-481 | In a run of backups and compactions only, every recorded snapshot stays recorded as it was, wherever they fail |
| RunTheorems.RunsKeepEveryObject | src/backup.rs:652-671 | In every run, the manifests carry row tombstones only, so compacting a recorded snapshot drops no object of its chain |
| Interleaving.HoldIsOneCall | src/lock.rs:36-84 | While the lock is exclusive, what happens from the place before a hold of the lock to the place after it is the very call that its client makes there, and nobody else holds the lock meanwhile |
| Interleaving.InterleavingIsAHistory | src/lock.rs:36-84 | While every holder releases in time, at each moment at which nobody holds the lock the holds so far are one after the other and cover every place with a holder, and the calls their clients made in them are, in that order, a run of calls with exactly the stores seen there |
| Interleaving.InterleavingIsFaithful | src/lock.rs:36-84 | So at each such moment whatever is recorded along these calls stands for what was recorded, and every snapshot recorded at the start that all of them are meant to keep has the manifest and the database it had then |
| Interleaving.InterleavedCallIsRecorded | src/backup.rs:164-174 | A snapshot that one of these calls finished and recorded, and that the later ones are meant to keep, has the manifest and the database of that call |
| Interleaving.InterleavedBackupsLoseNothing | src/backup.rs:164-481 | Where clients only back up and compact, every snapshot recorded at the start stands as it did, whatever the interleaving and wherever their calls fail |
| Interleaving.EveryCallInterleaves | src/lock.rs:36-84 | Such interleavings exist for every call: one in which a second client tries to take the lock in the middle of it and gives up |
| Limits.PruneCanStrandASnapshot | src/prune.rs:96-105 | For every full backup with a table there is a sound repository that restores it, and a prune of it that stops half-way and leaves it visible and not restorable |
| Limits.IdUsedTwiceStrands | src/backup.rs:185-203 | A second full backup under the id of a finished one, stopped after its first put, does the same |
| Limits.CompactionCanMoveARow | src/backup.rs:405-446 | A run of a full backup, an incremental whose change and row have different keys, and a compaction, in which the last two restore to different databases |
| Limits.RestoreCanStopHalfWay | src/restore.rs:229-251 | A verified chain whose second payload does not parse: the restore fails and leaves the rows of the full backup in the target |

## Left out

- src/orm.rs: SQL, connections and column policies; unrelated to the repository as a state machine.
- Streaming: an object, a payload and a blob are single byte strings, put and read in one step; only the application may read a restored object in part.
- The limit on concurrent tasks: any task may advance at any time, which includes every limited schedule.
- Repositories.Repository.PutBlob: a put or delete that reports a failure is taken to have had no effect; a backend that wrote before it failed is not modelled.
- Read failures: a read fails only for a missing blob; failing writes, deletes and calls of the restore target are modelled, failing reads, listings and calls of the export side are not.
- Restoring.RestoreSnapshot: does not say what the database adapter leaves when a call of its own fails half-way.
- Overflow of 64-bit row counts and of usize deletion counts: counts are unbounded. Saturation of the lock age is modelled.
- Error texts, and which of several concurrent verification failures is reported first.
- SHA-256, zstd and serde_json internals, and the field layout of the checksum view.
- JSON row values, which are kept as text.
- Non-ASCII hash strings: characters stand for bytes when an object key is sharded.
- The default conditional put of the repository trait, which is not atomic, and blob_exists.
- Path validation, local directories, SMB and S3: listing is by string prefix, as in the repositories of the tests.
- Reading the system clock: the time is a parameter of acquire and a component of the lock protocol.
- Locking.Next: repository errors are not events of the lock protocol; a holder that crashes is one that never unlocks.
- Planning a full backup and exporting changes: their results are parameters.
- Payloads of snapshots that never got a manifest: prune does not remove them, so nothing is claimed about them.
- Runs in which two writers overlap because a lock was taken over: their stores are not followed, only the two holders are shown.
