# Dataverse hub: a verified model of its storage and replication core

The hub keeps signed, revisioned objects addressed by ref (`pubkey.uuid`). A root hub accepts PUTs;
proxies cache the root, accept edits while it is unreachable, and reconcile later. This project
models the parts of the Go program where several pieces of state have to agree, and proves that they
do. The code is followed branch by branch; Go's `int`, where it is only compared, is unbounded.

| file | what it models |
|---|---|
| `KeyedMutex` | the two-level per-key lock, one step per access to its table, counters and mutexes |
| `Precondition`, `WritePath` | If-Match, and the locked read-check-write of all four write paths over index, live files and backups |
| `WriteSystem`, `WriteSafety` | any number of threads in those sections, step by step; every interleaving is a serial order, and what that order guarantees |
| `BackupSlots` | the backup slots at every step of a run, running sections included |
| `ReadPath` | where the live file is at every step of a run, and what GET answers with it |
| `Archive`, `SyncQueue`, `ProxySystem` | conflict archives, the queue of offline edits, its drain, and one proxy's concurrent steps |
| `Convergence` | one root, any number of proxies, messages delivered late, twice or never, disks that fail |
| `RealmAddress`, `RealmGraph`, `Resolver` | realm addresses, the two-way membership index, the union with configured realms, read and write policy |
| `ObjectIndex`, `Order`, `Queries`, `Paging` | the in-memory index, its queries, hub paging, and the proxy's merged pages |
| `Viewer` | which page, blob or JSON answers a GET, and the entity tags |
| `RateLimit` | the per-minute and per-day windows |
| `Decimal`, `Objects` | decimal text and the signed object, shared by the rest |

Where the source changes state in place (the lock table, the volume, the queue, the graph, the
index, the rate limiter, the viewer's visited set), a class does the same and its methods are proved
against functions of the old state; the theorems are about those functions. Interleavings are step
systems: a state, the steps that are enabled in it, an invariant every step keeps, and statements
about every run. File operations and network answers come out as the run chooses, failures included.

## Main results

- Every interleaving of PUTs and cache fills on any refs is a serial order of whole locked sections,
  in real-time order, without deadlock (`WriteSystem.Linearizable`, `WriteSystem.RealTimeOrder`).
  The lock underneath is proved at the level of its own steps (`KeyedMutex.MutexSafety`).
- Of any number of writers that expect one revision, one commits and every later one gets 412
  (`WriteSafety.OneWriterWins`); revisions only increase. When store and index agree, when backups
  stay what they were, when the latest committed object is still there, and what a GET finds, is
  given exactly, for every intermediate step of every run.
- No edit answered 202 is ever lost, even when it is replaced while an upload of its predecessor is
  in flight (`ProxySystem.NoAcknowledgedEditIsLost`); only dataverse001 objects leave a proxy unless
  it is configured to push all.
- Once writing stops, two completed rounds of synchronisation bring the newest item to every
  replica, whatever messages and file operations fail besides (`Convergence.Converges`); which events
  are enough is given exactly, for every outcome of every file operation (`Convergence.ConvergesExactly`).
- The incrementally maintained index is the index of the current objects; queries are naive scans;
  following cursors, on the hub or through a merging proxy, yields the whole list once.
- Equal entity tags mean the same page, blob or item, exactly unless the hub's generic viewer was
  reconfigured to lead elsewhere (`Viewer.EqualTagsShowTheSame`).
- What may be read is read by exactly those who may, from the realm object that grants membership to
  listings and GETs (`Resolver.ReadersExactly`, `Resolver.GrantOpensTheRealm`,
  `Queries.ReadersSeeTheirObjects`, `ReadPath.ReadersAreServed`); the tag of a JSON answer, sent back
  with If-Match, passes exactly while the revision stands (`Viewer.TagOnTheNextWrite`).
- At most twice the maximum is allowed in any closed interval of one window length, and that is
  reached under ordinary limits; background cleanup is invisible.

## What the proofs found

- `Store.Write` can fail after its rename, when setting the modification time. The index then keeps
  the old revision while the new file is live, and the next write moves the new file into the old
  revision's backup slot, over the only copy of the old one
  (`WritePath.LateFailureLosesABackup`). `WritePath.IntactExactly` and
  `WriteSafety.FirstLateFailureBreaks` show that no other failure ends a volume's intactness.
- A store write, or a queue write, that fails after the backup leaves an idle ref indexed with no
  live file until the next commit (`WritePath.FailedWriteSplits`); `WriteSafety.StoreAndIndexAgree`
  gives the exact condition.
- With backups off, or a backup that failed and was only logged, the previous object is nowhere
  between a write and its index update (`WriteSafety.OnlyUnbackedWritesHide`).
- A GET decides access on the index entry and reads the file afterwards, and a ref without an entry
  passes unchecked. An object is answered to someone who may not read it exactly when the lookup let
  him pass and the object is then live because its write is about to be indexed, because a write of it
  failed past its rename, or because it was committed between the lookup and the read
  (`ReadPath.PrivateObjectsEscapeExactly`; `ReadPath.LookupBeforePrivateCommit` runs into the last case).
- A page so answered shows itself (`Viewer.UnreadablePageShowsItself`); everything else that HTML is
  drawn from is checked when it is read (`Viewer.ViewersRespectAccess`).
- The drain passes over a queued edit whose file cannot be read, so a pass can succeed and leave it
  behind (`SyncQueue.UnreadableEntryIsSkipped`).
- Two rounds per proxy are not enough if a proxy finishes both before the holder of the newest item
  has pushed it (`Convergence.UnsynchronisedRoundsMayMiss`).
- If the root's write of the newest item fails after its rename, the root serves the item without
  having indexed it, every proxy then finds its own copy there, and no further round has it indexed
  (`Convergence.LateWriteLeavesRootBehind`).
- The tag of a page shown by the hub's generic viewer names neither that viewer nor its page, so a
  hub reconfigured to a viewer that leads to another page of the same revisions reuses tags for other
  HTML (`Viewer.ReconfiguredDefaultReusesTags`).
- A 304 answered in the last instant of a window is not refunded, although the window still counts
  (`RateLimit.RefundTakesBack`).
- The tag announced from the index for a blob with undecodable content is not the tag its full
  answer carries (`Viewer.ValidatorNeedsNoRead`).
- The comment on the graph's `Add` says ties keep the existing entry, while the code compares refs;
  within one realm all refs are equal, so the two agree (`RealmGraph.RealmForcesRef`).

## Model

| member | source | states |
|---|---|---|
| `KeyedMutex.InvStep` | serving/keyedmutex.go:28-56 | each internal step of Lock and Unlock, by any thread, keeps the lock's invariant |
| `KeyedMutex.MutexSafety` | serving/keyedmutex.go:28-56 | after every interleaving: one thread per key between Lock and Unlock, no panic, counters equal to the users of the key, no entry for an idle key |
| `KeyedMutex.ReleaseIsOwned` | serving/keyedmutex.go:42-56 | Unlock never releases a mutex its thread does not hold |
| `KeyedMutex.SomeoneCanMove` | serving/keyedmutex.go:28-56 | while any thread is inside Lock, its section or Unlock, some such thread can step |
| `KeyedMutex.EveryStepAdvances` | serving/keyedmutex.go:28-56 | every step brings its thread exactly one step nearer to the end of Unlock, twelve after Lock was called |
| `KeyedMutex.CountsStep` | serving/keyedmutex.go:28-56 | seen through its counters, every step changes the table only as four counter operations do |
| `KeyedMutex.StretchesMatch` | serving/keyedmutex.go:28-56 | those operations, one after the other, are the two in-place methods |
| `KeyedMutex.LockTable.Enter` | serving/keyedmutex.go:29-37 | finds or creates the entry of the key and counts the caller in, leaving every other counter alone |
| `KeyedMutex.LockTable.Leave` | serving/keyedmutex.go:43-55 | counts the caller out and drops the entry at zero; the failing lookup is exactly the source's panic |
| `Precondition.SplitETagList` | serving/precondition.go:101-110 | the trimmed non-empty members of a comma-separated header, in order |
| `Precondition.EvaluateIfMatchLoop` | serving/precondition.go:66-87 | the comparison loop decides membership of the current tag in that list, with the empty, `*` and missing-object cases |
| `Precondition.RevisionETagInjective` | serving/precondition.go:27-29 | different revisions have different tags, negative ones included |
| `Precondition.IfMatchListIsMembership` | serving/precondition.go:66-87 | a list of revision tags passes exactly when the object exists at one of the listed revisions |
| `Precondition.WeakTagNeverMatches` | serving/precondition.go:66-87 | strong comparison (section 8.8.3.2 of RFC 9110): a weak tag never matches |
| `Precondition.StarAsksForExistence` | serving/precondition.go:66-87 | `*` passes exactly when some object is stored |
| `Precondition.WhiteSpaceAroundIsIgnored` | serving/precondition.go:66-110 | spaces and tabs around a header change nothing, and a header of nothing else is no header |
| `Precondition.SingleTagWrite` | serving/precondition.go:40-54 | 412 exactly when the stored revision is not the named one, decided before 409; otherwise stored exactly when the revision rises |
| `WritePath.Volume.Backup` | storage/store.go:28-50 | the live file moves to the slot of the given revision, or nothing changes |
| `WritePath.Volume.Write` | storage/store.go:66-98 | three outcomes: written, failed before the rename, failed after it |
| `WritePath.Volume.Refusal` | serving/proxy.go:969-978 | the checks made under the lock, before anything is changed, agree with the section's decision |
| `WritePath.Volume.Put` | serving/handlers.go:279-305 | the locked section of the three PUT paths has the result of the section specification on its ref, and changes no other |
| `WritePath.Volume.CacheLocally` | serving/proxy.go:730-789 | so has the proxy's cache fill; and unless it fails or refuses, the incoming edit is archived, is the live item, or is older than what is indexed |
| `WritePath.FillAnswers` | serving/proxy.go:741-782 | what a cache fill answers in every case: at equal revision a different item is verified first and archived then, the same item is left alone, and a newer local one is handed out to be pushed |
| `WritePath.FillKeepsTheEdit` | serving/proxy.go:741-782 | no successful fill drops an edit that is not older than the indexed one |
| `WritePath.PutAnswers` | serving/handlers.go:279-305 | what a PUT answers in every case: the precondition before the order of revisions before the timestamp, and a commit exactly when all pass and the file operations it needs succeed |
| `WritePath.SectionNeverLowers` | serving/proxy.go:741-782 | no section, failed or not, lowers or removes an indexed revision |
| `WritePath.RefusalChangesNothing` | serving/handlers.go:282-288 | every answer but a commit and an I/O error leaves the ref as it was |
| `WritePath.IntactExactly` | storage/store.go:66-98 | a section keeps an intact volume intact if and only if its write does not fail after the rename |
| `WritePath.SlotsAreWriteOnce` | storage/store.go:28-50 | whatever the volume, a section keeps every backup if and only if it does not move a file into a slot that holds another |
| `WritePath.SlotsStayTrue` | storage/store.go:28-50 | and every slot keeps holding its own revision if and only if the moved object has the indexed one |
| `WritePath.IntactBackupsAreSound` | storage/store.go:28-50 | on an intact volume a section does neither |
| `WritePath.AgreeExactly` | serving/handlers.go:285-305 | after a section store and index agree on the ref if and only if it committed, or found them agreeing and neither gave up between backup and rename nor failed after the rename |
| `WritePath.FailedWriteSplits` | serving/handlers.go:290-302 | the failing input: a write that fails after the backup leaves an idle ref indexed without a live file |
| `WritePath.HeldExactly` | storage/store.go:28-50 | the indexed object is live or in its slot after a section if and only if it committed, or found it there and did not lose it |
| `WritePath.LateFailureLosesABackup` | storage/store.go:66-98 | the failing case in full: one late failure and one ordinary write destroy the only copy of revision 1 |
| `WriteSystem.Linearizable` | serving/handlers.go:279-305 | every interleaving of any number of threads is a serial order of the calls made: each thread's calls are its logged ones in order and the one not yet answered; the answers, and on idle refs the volume, are those of whole sections run in that order |
| `WriteSystem.RunKeepsCalls` | serving/handlers.go:279-305 | no step invents, repeats, drops or reorders a call: from any state the calls that arrive are the ones added to log and pending |
| `WriteSystem.RealTimeOrder` | serving/handlers.go:279-305 | in that order a call that arrives after another has returned comes later |
| `WriteSystem.SomeoneCanMove` | serving/handlers.go:279-305 | a request that is unanswered or still holds its lock never leaves the system stuck |
| `WriteSystem.RequestsAreShort` | serving/handlers.go:279-305 | from any state of a run a request takes at most the steps it has left, seventeen after its arrival, however the others are scheduled |
| `WriteSystem.InvStep` | serving/handlers.go:279-305 | each step keeps: the lock protects the section, and a half-done section differs from the serial state as far as it has got |
| `WriteSafety.CommitsIncrease` | serving/proxy.go:1011-1042 | over every run and on all write paths, each commit to a ref has a higher revision than every earlier one |
| `WriteSafety.OneWriterWins` | serving/precondition.go:40-87 | section 13.1.1 of RFC 9110: after one of the writers expecting revision r commits, all others get 412, never 409 |
| `WriteSafety.StaysIntact` | serving/handlers.go:285-305 | over a run the indexed object is live or in its own slot and slots hold their revision, as long as no write fails late |
| `WriteSafety.FirstLateFailureBreaks` | storage/store.go:66-98 | and the first late failure ends that |
| `WriteSafety.LatestCommittedIsHeld` | serving/proxy.go:969-991 | at every intermediate step of every run the latest committed object is live or in its slot if and only if no call has dropped it since the start or the last commit, and no running section hides it |
| `WriteSafety.OnlyUnbackedWritesHide` | serving/proxy.go:969-991 | from intact volumes and without a late failure nothing is dropped, and what hides it is exactly a write without backup whose index update is due |
| `WriteSafety.UnbackedWriteHides` | serving/handlers.go:279-305 | a run that gets there: with backups off, an ordinary overwrite just before its index update |
| `BackupSlots.BackupsAreWriteOnce` | storage/store.go:28-50 | between any two steps of any run every slot keeps what it holds if and only if no finished call moved a file into a slot that held another, and no running section has |
| `BackupSlots.BackupsAreLabelled` | storage/store.go:28-50 | at every step of any run every slot holds an object of its own revision if and only if it did at the start, no finished call moved an object of another revision, and no running section has |
| `BackupSlots.SmoothRunsBackUpSoundly` | serving/proxy.go:969-991 | neither happens in a run from intact volumes in which no write fails after its rename |
| `ReadPath.LiveFileExactly` | storage/store.go:28-98 | at every intermediate step of every run the live file of a ref holds an object if and only if a section that wrote it is about to index it, or an earlier call put it there and neither a later call nor a running section has moved or replaced it |
| `ReadPath.IndexIsLastCommit` | serving/handlers.go:304-305 | at every intermediate step of every run the index entry of a ref, item and realms, is that of the last committed object, or the one the run started with |
| `ReadPath.GetAnswersExactly` | serving/handlers.go:94-161 | however many writers' steps fall between a GET's index lookup and its read, it answers with an object if and only if the live file holds it at the read and, at the lookup, the ref had never been indexed or the reader could read what was last committed to it |
| `ReadPath.ReadersAreServed` | serving/handlers.go:94-161 | nothing is withheld: a live object is answered exactly when the ref is not indexed, or its indexed realms include a public one, the reader's own key, or one the reader is a member of |
| `ReadPath.PrivateObjectsEscapeExactly` | serving/handlers.go:102-161 | however many writers' steps fall between lookup and read, a GET answers an object its reader may not read if and only if the lookup let him pass and, at the read, the object is about to be indexed, or is undisturbed and was left live by a write that failed past its rename or committed after the lookup |
| `ReadPath.LookupBeforePrivateCommit` | serving/handlers.go:105-161 | the failing input: a readable object is looked up, replaced by an unreadable one in a whole ordinary write, and read; the new object is answered |
| `WriteSafety.StoreAndIndexAgree` | serving/handlers.go:279-305 | in every state of every run store and index agree on a ref outside any section if and only if, since the start or some commit, no call on it gave up between backup and rename or failed after the rename |
| `WriteSafety.LastCommitIsServed` | serving/handlers.go:297-305 | after the last commit to an idle ref the index holds it whatever fails, and the live file is it if and only if nothing has split the two since |
| `Archive.Folder.PreserveConflict` | storage/conflict.go:14-56 | the file is linked under its digest, an existing file is never replaced, and success means the bytes are there |
| `Archive.ArchiveOnlyGrows` | storage/conflict.go:14-56 | nothing archived is changed or removed, and nothing but the candidate is added |
| `Archive.RetryOrRefuse` | storage/conflict.go:34-46 | a retry of the same bytes succeeds without a second file, different bytes under the same name are refused |
| `SyncQueue.SyncPending.Add` | upstream/sync.go:45-72 | queues the edit in place of an older one of its ref, or fails and changes nothing |
| `SyncQueue.SyncPending.DropSent` | upstream/sync.go:82-102 | removes the entry only when it still holds the very bytes that were sent; its own read may fail |
| `SyncQueue.SyncPending.TryPush` | upstream/sync.go:199-269 | one attempt during which no edit arrives has the result of its specification on queue and archives, for every answer of network and disk, the skipped entry whose file cannot be read included |
| `SyncQueue.PushOneSettles` | upstream/sync.go:199-269 | in status numbers: an attempt empties the ref's entry exactly when its upload went out, acknowledge could read and remove it, and the answer was 200 or 201; or 409 with a genuine upstream copy that is the same item, or the edit archived as a conflict; or another 4xx with the edit archived as rejected; nothing else is archived and other entries are left alone |
| `SyncQueue.SyncPending.Pass` | upstream/sync.go:186-193 | while no edit arrives, the loop over the listed refs is the fold of attempts up to the first failure or a pause cut short |
| `SyncQueue.PassTakesWhatItSent` | upstream/sync.go:186-193 | while no edit arrives, a pass removes exactly the refs whose upload went out before it ended, ends early only at an entry left queued or in a pause cut short, and archives only grow |
| `SyncQueue.CompletePassEmptiesTheQueue` | upstream/sync.go:170-193 | while no edit arrives, a pass that gets to the end of a full listing leaves the queue empty if and only if every queued entry's file could be read and its upload went out |
| `SyncQueue.UnreadableEntryIsSkipped` | upstream/sync.go:201-205 | the failing input: an entry whose file cannot be read is passed over and stays queued |
| `ProxySystem.UndisturbedAttemptIsPushOne` | upstream/sync.go:199-269 | the step-by-step drain, when nothing interferes, is one whole attempt |
| `ProxySystem.UndisturbedIsARun` | upstream/sync.go:199-269 | and is a run of the system |
| `ProxySystem.NewerEditStaysQueued` | upstream/sync.go:82-102 | an edit that took the entry while its predecessor was uploaded is not taken out by that attempt, whatever the answers |
| `ProxySystem.BooksAreTrue` | upstream/sync.go:234-268 | over every run an edit counts as accepted exactly if an upload of it was answered 200 or 201, as matched exactly if a genuine copy of the same item was served, and as sent exactly if it went out |
| `ProxySystem.AcknowledgedMeansAnswered202` | serving/proxy.go:1038-1056 | and as acknowledged exactly if its offline PUT was answered 202 |
| `ProxySystem.EveryPutHasOneRoute` | serving/proxy.go:347-410 | while the upstream is away a PUT is queued exactly when the object may leave the proxy, and otherwise stored alone |
| `ProxySystem.PushesAreSpawned` | serving/proxy.go:741-752 | what is pushed in the background is exactly what the upstream was found to lack or to have in an older revision |
| `ProxySystem.InvStep` | upstream/sync.go:199-269 | every step of sections, drain and pushes keeps each acknowledged edit safe |
| `ProxySystem.NoAcknowledgedEditIsLost` | serving/proxy.go:1004-1056 | in every state of every run an edit answered 202 is queued or settled: an upload of it was answered 200 or 201, a genuine upstream copy of the same item was served, or its bytes are archived; or a strictly higher revision took its place in the queue and some strictly higher revision is itself queued or settled now |
| `ProxySystem.OnlyGlobalObjectsLeave` | serving/proxy.go:347-366 | unless everything is pushed, every body ever sent upstream, by any path, is in dataverse001, and so is the whole queue |
| `ProxySystem.PermittedStep` | serving/proxy.go:1061-1091 | each step keeps what may leave: forwards, background pushes, and queue uploads alike |
| `Convergence.Converges` | serving/proxy.go:206-267 | once writing has stopped, after every proxy completed one round and then another, root and proxies hold the item of maximal revision, whatever stray messages arrive, messages are lost and file operations fail besides, unless a write of the root fails after its rename in the first rounds |
| `Convergence.ConvergesExactly` | serving/proxy.go:206-267 | after any events from a quiet network, with any outcome of every file operation, all replicas hold the item if and only if the root had it or committed an acceptable copy, and each proxy had it, or committed a copy fetched in a round begun while the root served it, or a stray one |
| `Convergence.RootHoldsExactlyWhenTakenIn` | serving/handlers.go:285-305 | the root's half: it had it, or a delivered or stray push brought an acceptable copy and its write succeeded |
| `Convergence.HoldsExactlyWhenTakenIn` | serving/proxy.go:741-788 | a proxy's half, where backup and write must succeed |
| `Convergence.ServesWhatItHas` | serving/handlers.go:297-305 | the root serves the item exactly when it has it, as long as no write of it fails after its rename |
| `Convergence.QuietStep` | serving/proxy.go:1061-1091 | no message and no failing file operation makes a replica that holds the item lose it or anything exceed it |
| `Convergence.UnsynchronisedRoundsMayMiss` | serving/proxy.go:206-267 | two rounds per proxy without the barrier leave a proxy without the item: a run that shows it |
| `Convergence.HolderRoundDelivers` | serving/proxy.go:741-752 | whatever the root answers, a holder's round in which nothing fails pushes the item, and the root then has it |
| `Convergence.RoundFetches` | serving/proxy.go:206-267 | and a round against a root that has it, in which nothing fails, brings it |
| `Convergence.RootAcceptsExactly` | serving/handlers.go:206-305 | the root takes a first PUT exactly when it verifies and has a readable timestamp |
| `Convergence.RootServesOnlyVerified` | serving/handlers.go:206-305 | and over every run no other file becomes live there |
| `Convergence.WireRemembers` | serving/proxy.go:1061-1091 | everything sent may still arrive at any later time |
| `Convergence.StuckRun` | serving/proxy.go:741-766 | a root that serves the item without having indexed it stays so through any rounds, losses and failures, until a stray push arrives |
| `Convergence.LateWriteLeavesRootBehind` | storage/store.go:84-98 | and is reached: the root's write of the pushed item fails after the rename, and whatever rounds follow, the root's index never has it |
| `Order.BeforeTotal` | storage/index.go:412-419 | (time, ref) descending is a strict total order: of two keys one comes first or they are equal |
| `Order.NewestFirst` | storage/index.go:412-419 | the order is newest first, and descending by ref among equal times |
| `Order.LessIsLexicographic` | storage/index.go:412-419 | refs are compared by the first character in which they differ, a proper prefix being smaller |
| `RealmAddress.MustParseUUID` | realm/realmid.go:106-124 | the byte-filling loop accepts and decodes exactly what the parsing function does |
| `RealmAddress.ParseFormat` | realm/realmid.go:106-134 | parsing a formatted UUID gives back the 16 bytes |
| `RealmAddress.FormatParse` | realm/realmid.go:106-134 | exactly the canonical UUIDs parse, and formatting them again gives the lower-case form |
| `RealmAddress.StampInPlace` | realm/realmid.go:47-63 | copying the digest and overwriting two bytes gives the stamped 16 bytes |
| `RealmAddress.RealmIDCarriesTheDigest` | realm/realmid.go:47-63 | two realms share an identifier exactly when their digests agree in the 122 bits that version and variant leave |
| `RealmAddress.OwnerExactly` | realm/realmid.go:86-97 | the owner of a realm is a key followed by a dot and a name |
| `RealmAddress.PubkeysExactly` | object/types.go:137-147 | the pubkey realms are the 44-character base64url texts that start with A and then g to z, a digit, a hyphen or an underscore |
| `RealmAddress.RefsExactly` | object/ref.go:11-25 | the valid refs are 43 or 44 base64url characters, a dot, and a canonical UUID |
| `RealmAddress.HexExactly` | object/ref.go:43-60 | the hexadecimal digits of either case, by value |
| `RealmAddress.RealmIDIsVersion5` | realm/realmid.go:47-63 | for any digest the identifier has the version and variant bits of section 4.3 of RFC 4122 |
| `RealmAddress.RealmRefIsValid` | realm/realmid.go:73-97 | every realm ref passes the ref check and its part before the first dot is the realm's owner |
| `RealmGraph.ExtractMemberPubkeys` | realm/graph.go:123-142 | the distinct well-formed keys of the member relation, in first-occurrence order |
| `RealmGraph.MembersAreGrants` | realm/graph.go:123-153 | a key is a member exactly when some entry's ref has it before the first dot; no member is listed twice |
| `RealmGraph.GrantsExactly` | realm/graph.go:123-153 | an entry grants membership to a key exactly when its ref is that well-formed key followed by a dot |
| `RealmGraph.LaterGrantsAppend` | realm/graph.go:123-142 | later entries only append to the list, so it is in the order of first grants |
| `RealmGraph.WellFormedExactly` | realm/graph.go:70-118 | a realm object is accepted exactly when it has the type, is global, and lives at the address of the realm it names; the members are those its entries grant |
| `RealmGraph.RealmForcesRef` | realm/graph.go:70-118 | a well-formed realm object sits at the address its realm determines |
| `RealmGraph.EntriesNameTheirOwner` | realm/graph.go:159-200 | after any ingestion a realm's entry names the owner and the address that its name determines |
| `RealmGraph.GraphSharedRealms.Add` | realm/graph.go:159-200 | higher revisions replace, others are ignored, and the two-way index follows |
| `RealmGraph.GraphSharedRealms.Remove` | realm/graph.go:205-220 | drops a realm whose object is the ref, if there is one, with all its reverse entries |
| `RealmGraph.GraphSharedRealms.Load` | realm/graph.go:224-233 | the tables of the given items alone, whatever was there before |
| `RealmGraph.GraphSharedRealms.RealmsForPubkey` | realm/graph.go:276-291 | duplicate-free, and exactly the realms whose member lists hold the key |
| `RealmGraph.TwoWayIsDetermined` | realm/graph.go:159-220 | membership in both directions with no empty set left over leaves no freedom: the reverse index is a function of the realms |
| `RealmGraph.OrderIndependent` | realm/graph.go:159-200 | items may be added in any order, and repeatedly, whenever (realm, revision) determines the members |
| `Resolver.Merged.RealmsForPubkey` | realm/resolver.go:75-95 | duplicate-free, and exactly the realms where membership holds, nil halves included |
| `Resolver.Merged.IsMember` | realm/resolver.go:65-73 | membership in either half |
| `Resolver.Merged.Count` | realm/resolver.go:97-116 | the number of distinct names that the shared-realm test answers yes for |
| `Resolver.SharedRealms.RealmsForPubkey` | realm/shared.go:57-73 | the configured half's listing agrees with its membership test |
| `Resolver.CanReadIsMonotone` | realm/realm.go:67-82 | a larger membership or a known reader never loses read access |
| `Resolver.ReadersExactly` | realm/realm.go:67-82 | an object may be read exactly by everyone if a public realm is listed, and otherwise by the known readers whose own key is listed or who are members of a listed realm |
| `Resolver.MembersExactly` | realm/resolver.go:55-73 | the members of a realm are the keys its configuration lists and those its object grants, and no anonymous reader is one |
| `Resolver.GrantOpensTheRealm` | realm/graph.go:159-200 | once a realm object is ingested and none of higher revision is, everyone it names may read what is in the realm |
| `Resolver.PutIsRefusedExactly` | realm/realm.go:46-59 | a PUT is refused exactly when every realm it names is foreign to the signer and unknown to the hub |
| `Resolver.SharedRealmObjectsMayBePut` | realm/realm.go:46-59 | a well-formed realm object passes the write policy before its realm is known, and is public |
| `ObjectIndex.Index.AddLocked` | storage/index.go:306-369 | meta, lists by pubkey, inbound entries and graph become those of the objects with the new one |
| `ObjectIndex.Index.RemoveLocked` | storage/index.go:372-409 | and those of the objects without it; an unknown ref changes nothing |
| `ObjectIndex.Index.Update` | storage/index.go:145-150 | replacing an object in place is indexing the replaced map |
| `ObjectIndex.Index.Rebuild` | storage/index.go:79-128 | the index of exactly the files that parse |
| `ObjectIndex.FilesAreTheObjects` | storage/index.go:79-128 | those being, under its own name, each file that parses |
| `ObjectIndex.EdgesExactly` | storage/index.go:343-358 | an item points at a target through a relation as often as the relation lists it, and never at the empty ref |
| `ObjectIndex.Maintain` | storage/index.go:131-150 | after any sequence of updates and removals the index is that of the current objects |
| `ObjectIndex.LastOpDecides` | storage/index.go:131-150 | those being, for each ref, what the last operation on it left |
| `ObjectIndex.SameObjectsSameIndex` | storage/index.go:79-128 | two indexes of the same objects are equal: metadata and graph exactly, lists by pubkey as sets, inbound entries with multiplicity |
| `ObjectIndex.MaintainedEqualsRebuilt` | storage/index.go:79-150 | so an index maintained through any sequence of updates and removals equals one rebuilt from the files that are there in the end |
| `Queries.PassesMembersOnlyFilter` | storage/index.go:248-269 | public, outside every shared realm, or signed by a member of one of its shared realms |
| `Queries.GetInbound` | storage/index.go:155-186 | the sorted list of exactly the visible matching sources, each as often as it has matching entries |
| `Queries.InboundEntriesAreEdges` | storage/index.go:306-369 | and those entries are as many as the edges from the source's own item to the target, through the relation asked for or through all together |
| `Queries.GetByPubkey` | storage/index.go:190-214 | the sorted list of exactly the visible matching objects of the signer, once each |
| `Queries.GetAll` | storage/index.go:219-243 | the sorted list of exactly the visible matching objects, once each |
| `Queries.GetInboundCounts` | storage/index.go:293-303 | per relation name, the number of entries pointing at the target |
| `Queries.CountsAreMultiplicities` | storage/index.go:293-303 | that number being the multiplicity of the name among the entries |
| `Queries.SortMetaDesc` | storage/index.go:412-419 | a permutation in (UpdatedAt, Ref) descending order |
| `Queries.ScanIsUnique` | storage/index.go:219-243 | such a list is unique, so map iteration order cannot show |
| `Queries.InboundScanIsUnique` | storage/index.go:155-186 | the same for inbound lists with repeated objects |
| `Queries.ByPubkeyIsFiltered` | storage/index.go:219-243 | listing by pubkey is listing all and filtering by pubkey, order included |
| `Queries.PrivateStaysPrivate` | storage/index.go:219-243 | a listed private object is readable by its reader through an own or shared realm |
| `Queries.ReadersSeeTheirObjects` | storage/index.go:219-243 | nothing readable is withheld: with non-members shown, an indexed object is listed exactly when it matches and is public, names the reader's own key, or is in a realm of the reader |
| `Queries.MembersOnlyHidesExactly` | storage/index.go:248-269 | members-only hides exactly the private objects in shared realms by authors who are members of none of those |
| `Queries.ListsRunFromTheNewest` | storage/index.go:412-419 | every list runs from the newest object to the oldest, refs descending among equals |
| `Paging.LimitsAreHonoured` | serving/handlers.go:482-494 | every positive limit is honoured up to the maximum |
| `Paging.OtherwiseDefault` | serving/handlers.go:482-494 | everything that is not a positive number asks for the default |
| `Paging.SkipPast` | serving/paginate.go:14-59 | the skip loop leaves exactly what is past the cursor |
| `Paging.PaginateAndLoad` | serving/paginate.go:14-59 | the skip, truncation and cursor give the page after the cursor; unreadable objects are left out but still move the cursor |
| `Paging.HubPaging` | serving/paginate.go:14-59 | from the start of a strictly sorted list the walk takes ceil(n / limit) pages that concatenate to the list |
| `Paging.ItemsAreTheReadable` | serving/paginate.go:34-47 | a page's items are the objects of its readable entries, each once and in the order of the list |
| `Paging.AllItemsWhenAllReadable` | serving/paginate.go:34-47 | one for one when all can be read |
| `Paging.HubItems` | serving/paginate.go:14-59 | over all pages of a walk the items are the readable objects of the list, in list order |
| `Paging.WalkReturnsTheList` | serving/paginate.go:14-59 | from any cursor the walk returns everything past it, once and in order |
| `Paging.WalkFillsPages` | serving/paginate.go:14-59 | every page but the last is full |
| `Paging.WalkReturnsEveryKey` | serving/paginate.go:14-59 | with repeated entries, as in inbound lists, every distinct ref is still returned and the walk ends |
| `Paging.MergeLoop` | serving/proxy.go:646-672 | the two-pointer loop computes the merge of the two lists |
| `Paging.MergeLocalIntoUpstream` | serving/proxy.go:593-693 | one upstream page and all local entries past the cursor give the specified page |
| `Paging.MergedPageIsExact` | serving/proxy.go:593-693 | each proxy page is the hub's page of the merge of the two complete streams: entries, cursor and has_more |
| `Paging.MergedWalk` | serving/proxy.go:593-693 | over strictly sorted lists following the proxy's cursors yields every entry of both streams once, in order |
| `Paging.MergedWalkWithRepeats` | serving/proxy.go:579-693 | over lists that repeat objects, as the inbound route's do, it still ends, returns every object of both streams and nothing else |
| `Viewer.LoadPage` | serving/viewer.go:175-190 | a page is found exactly when it is usable and unvisited, and becomes visited either way |
| `Viewer.ResolvePrimary` | serving/viewer.go:84-134 | the steps over the visited set give the inline, direct or type viewer of the declarative rule |
| `Viewer.ResolveDefault` | serving/viewer.go:139-173 | likewise for the hub's generic viewer |
| `Viewer.PageShowsItself` | serving/viewer.go:95-103 | a page with HTML is its own viewer |
| `Viewer.ObjectShowsItsPage` | serving/viewer.go:105-111 | another object is shown by the readable page it names |
| `Viewer.ObjectShowsTheTypesPage` | serving/viewer.go:113-134 | failing that by the page of its readable type, over a chain without repeats, and in no other case |
| `Viewer.GenericShowsWhatIsConfigured` | serving/viewer.go:139-173 | the generic viewer shows the configured page, or the page the configured object names |
| `Viewer.RepresentationsInOrder` | serving/viewer.go:269-286 | the object's own viewer comes before its bytes, those before the generic viewer, and JSON is what is left |
| `Viewer.GenericOnlyReplacesJson` | serving/viewer.go:280-285 | configuring a generic viewer changes no answer but JSON |
| `Viewer.ForcedPageIsTheHtmlAnswer` | serving/viewer.go:288-296 | a forced page is the one a client that takes nothing but HTML is shown |
| `Viewer.TagDetermines` | serving/viewer.go:42-55 | a tag can be read back: kind of representation, revision, route, and the revision of each object on the route |
| `Viewer.EqualTagsShowTheSame` | serving/viewer.go:269-307 | if ref and revision determine items, equal tags on two answers for a ref, in any two store states, for any two requesters and any two configurations, mean HTML of the same page by the same route, the same bytes, or the same item, if and only if they are not generic views or the configured viewers lead to the same page |
| `Viewer.GenericTagsCompareRevisions` | serving/viewer.go:139-173 | tags of two generic views are equal if and only if three revisions are, whatever refs are configured |
| `Viewer.GenericPagesAgree` | serving/viewer.go:139-173 | one page at one revision is one HTML, whichever generic viewer led to it |
| `Viewer.ReconfiguredDefaultReusesTags` | serving/viewer.go:139-173 | the failing inputs: for any signer, any three well-formed ids, any timestamp and any two texts, a hub reconfigured from one public page to the other answers with the other text under the same tag |
| `Viewer.ViewersRespectAccess` | serving/viewer.go:84-221 | once the handler has let a request pass, HTML is drawn only from objects the requester may read, or from the requested page itself when the index did not have that page's realms; each is public unless the answer is marked private, and the requested object is never reached by a detour |
| `Viewer.UnreadablePageShowsItself` | serving/handlers.go:103-119 | an unreadable requested object that was let pass is drawn on if and only if it is a page with some HTML |
| `Viewer.ValidatorNeedsNoRead` | serving/viewer.go:258-267 | the tag computed from the index entry is the one a full selection gives, except exactly for an accepted blob without usable bytes; and where HTML is accepted there is none |
| `Viewer.IndexEntrySaysWhatReadingWould` | storage/index.go:306-342 | the index entry of an object has the page, blob type, realms and visibility that reading the object gives |
| `Viewer.TagOnTheNextWrite` | serving/precondition.go:66-87 | the tag of a JSON answer, sent back with If-Match, passes exactly while the object is at the revision answered; the tag of a page or a blob never passes |
| `RateLimit.RateLimiter.Allow` | auth/ratelimit.go:44-65 | in place, over shared window objects, what the specification does on the tables |
| `RateLimit.RateLimiter.Remaining` | auth/ratelimit.go:68-85 | likewise, with both remainders cut at zero |
| `RateLimit.RemainingIsWhatIsAllowed` | auth/ratelimit.go:68-85 | each number is what the address has not used of the window, and of n requests made then exactly as many are allowed as both windows have left |
| `RateLimit.RateLimiter.Refund` | auth/ratelimit.go:129-140 | likewise |
| `RateLimit.RateLimiter.Cleanup` | auth/ratelimit.go:110-125 | exactly the expired windows are deleted |
| `RateLimit.AllowCharges` | auth/ratelimit.go:44-65 | an allowed request charges both windows of its address once, a denied one neither, and no other address is affected, then or later |
| `RateLimit.WindowsLastTheirLength` | auth/ratelimit.go:87-94 | a window keeps its end, and one that is opened lasts a minute or a day from then |
| `RateLimit.StepKeepsBounds` | auth/ratelimit.go:44-140 | counts stay between zero and the maximum whatever happens |
| `RateLimit.RefundTakesBack` | auth/ratelimit.go:129-140 | a refund undoes a charge at every moment except exactly the last instant of the window |
| `RateLimit.CleanupIsUnseen` | auth/ratelimit.go:110-125 | cleanups inserted anywhere in a run change no answer |
| `RateLimit.AtMostTwice` | auth/ratelimit.go:87-140 | with a clock that does not go back, any closed interval of one window length sees at most twice the maximum, plus the refunds within it, from any bounded state |
| `RateLimit.MinuteTwiceIsReached` | auth/ratelimit.go:87-94 | a run reaches that bound for the minute whenever the day has room for twice the minute's maximum |
| `RateLimit.DayTwiceIsReached` | auth/ratelimit.go:87-94 | and a run reaches it for the day whenever the day's maximum is at most 720 minutes' worth |
| `Decimal.AtoiOfItoa` | serving/handlers.go:482-494 | every 64-bit integer is read back from its own text, and the text of any other is refused |

## Left out

- Convergence.Converges: the two rounds are separated by a barrier, because without one the claim is false (`Convergence.UnsynchronisedRoundsMayMiss`; `Convergence.ConvergesExactly` says when it holds), and no write of the root fails late in the first, for the same reason (`Convergence.LateWriteLeavesRootBehind`); a section is one step (justified by `WriteSystem.Linearizable`), and only one ref is followed since refs do not interact.
- WritePath.Volume.Put: HTTP status text, logging, the virtual-host map, and the checks made before the lock (body size, parsing, realm policy on PUT, signature) are not part of the section.
- WriteSafety.StaysIntact: a process restart, which re-reads files and so loses an object left only in its backup slot, is outside the run.
- WriteSystem.Linearizable: the contents of the conflict archive written inside a section are tracked by `WritePath.Volume.CacheLocally`, not by the step system, which records only whether archiving succeeded.
- ProxySystem.NoAcknowledgedEditIsLost: the queue and archives survive for the whole run; losing the disk or deleting files by hand is not a step.
- ObjectIndex.Index.Rebuild: objects are stored under their own ref, as every write path ensures; a misplaced file is not modelled.
- Viewer.EqualTagsShowTheSame: ref and revision are assumed to determine the item; base-domain injection into the served HTML and the headers beside the tag are not modelled; JSON is compared as canonical items, not as bytes.
- RateLimit.RateLimiter.Allow: the retry-after duration, which reads the clock a second time, is not returned.
- SyncQueue.SyncPending.Pass: no edit arrives during the pass; edits that do are steps of `ProxySystem`, where none is lost.
- ReadPath.GetAnswersExactly: what a reader may read is fixed for the length of one GET; a failed read, which answers 500, and the choice between JSON, blob and page, which `Viewer` models, are not part of it.
- Paging.MergeLocalIntoUpstream: upstream pages are full, as the root serves them; a local entry whose file cannot be read is taken as absent.
- Queries.SortMetaDesc: an insertion sort stands for the library sort; only its contract is used.
- Reading and printing JSON, base64, ECDSA, SHA-1 and SHA-256: abstract data, verdicts and functions; canonical equality of items is equality of the model's item.
- Temporary files, fsync and links are atomic map updates that may fail.
- The reader-writer locks of index and graph: their methods are taken one at a time.
- Backing arrays shared between Go slices: lists are values, so an aliased filter in place is not observable here.
- The token store and challenges, the vhost resolver, redirects, login pages, TLS, configuration, health-check timers and rate-limit headers: plumbing, or settled by one branch.
- Enriching list items with inbound counts and stripping blob data from them change no decision modelled here.
