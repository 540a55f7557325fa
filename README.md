# KeePass database handle — a Dafny model

This project models the database handle of the KeePass vault app, `KotpassDatabase`.

**The handle's state.**
- The decoded KeePass tree of groups and entries, with its metadata and credentials.
- The active key.
- The tracked file descriptor.
- Two indexes derived from the tree:
  - group uid → parent group;
  - group uid → resolved auto-type/search options.

**Tree operations.**
- `swapDatabase` replaces the tree and rebuilds both indexes.
- The breadth-first walks list descendant groups, subtree entries and collected entries.
- The lookups find a group, a parent, an entry, the options and the recycle bin.
- `isEntryInsideGroupTree` tells whether an entry lies in a group's subtree.

**Read-modify-commit operations.**
- `getConfig` and `applyConfig`.
- `changeKey`.
- `commit` and `commitTo`.

**Construction.** `new` and `open`.

**`Hash`.** The small value type `Hash`, with content equality and a matching 32-bit hash code, is modelled as well.

The model is split into five modules:
- `Results` (`results.dfy`): `Option` and the three-status `OperationResult` (succeeded, deferred, failed) with its error kinds.
- `KeePassTree` (`tree.dfy`): the tree. It gives two reference orders:
  - the pre-order listing `Flatten`, which defines "the subtree of a group";
  - the breadth-first order `Bfs`, the order in which a FIFO queue dequeues groups.

  It proves that `Bfs` visits exactly the subtree, together with its child groups and entries, as multisets. It also holds the subtree searches.
- `GroupIndexes` (`indexes.dfy`): the two indexes, specified as folds over the breadth-first order, so a later write wins as in a hash map.
  - For every tree: the parent index holds exactly the uids strictly below the root, and the options index holds exactly the uids of the tree.
  - When group uids are unique: the parent index is exact and the options index resolves inheritance.
- `Kotpass` (`database.dfy`): the handle.
  - It is a class whose invariant `Valid()` says that both indexes are the functions of the current tree.
  - The builders and walks are `while` loops over a queue, proved against those functions.
  - The storage provider and the watcher are recording objects.
- `HashEntity` (`hash.dfy`): `Hash.equals` and `Hash.hashCode`.

Collaborators the handle only calls are parameters of the operations:
- the credential derivation (`toCredentials`);
- the storage provider's answer to a write;
- the decoder;
- the clock;
- the random uuid source;
- the template store.

Each operation's contract states exactly when the state changes and when it does not.

**Assumptions.**
- Group uids are unique wherever exactness of an index is claimed (`UniqueGroupUuids`).
- `convertToInheritableOption` means: an explicit override wins, otherwise the parent's value.
- `findChildGroup` searches the groups strictly below the root. `findChildEntry` searches the root's own entries first, then the entries of every group below the root. Both return the first match in pre-order. For `findChildGroup`, the returned pair is (parent, match). No contract depends on the search order.
- Keys and configurations compare by value.
- A key file key has key type KEY_FILE, and a password key has key type PASSWORD.

**Behaviour of the code worth noting.**
- `applyConfig` commits even when the new configuration equals the current one (`KotpassDatabase.kt:117`). `Kotpass.KotpassDatabase.ApplyConfig` appends one commit's events to the storage log in every case: the open request, then the write or the close when the open went through.
- When a commit fails after `applyConfig` or `changeKey` swapped the tree, the swap is not rolled back. The contracts of `ApplyConfig` and `ChangeKey` state the new tree whatever the commit result is.

## Model

| member | source | states |
|---|---|---|
| Kotpass.KotpassDatabase.constructor | app/src/main/kotlin/com/ivanovsky/passnotes/data/repository/keepass/kotpass/KotpassDatabase.kt:50-67 | A new handle holds the given tree, key and file. Both of its indexes are those of the tree. Its watcher is new and has heard nothing. |
| Kotpass.KotpassDatabase.CreateGroupUidToParentMap | app/src/main/kotlin/com/ivanovsky/passnotes/data/repository/keepass/kotpass/KotpassDatabase.kt:375-393 | The breadth-first loop with its inner child loop builds exactly the parent index of the current tree, i.e. the fold of "child uid → group" over the walk order. |
| Kotpass.KotpassDatabase.CreateInheritableOptionsMap | app/src/main/kotlin/com/ivanovsky/passnotes/data/repository/keepass/kotpass/KotpassDatabase.kt:342-373 | The breadth-first loop over (group, parent options) pairs builds exactly the options index of the current tree. It starts from the root's entry, and each dequeued group gets its options resolved against its parent's. |
| Kotpass.KotpassDatabase.SwapDatabase | app/src/main/kotlin/com/ivanovsky/passnotes/data/repository/keepass/kotpass/KotpassDatabase.kt:202-208 | It replaces the tree and rebuilds both indexes, so `Valid()` holds again. Key and file are unchanged. |
| Kotpass.KotpassDatabase.IndexesExact | app/src/main/kotlin/com/ivanovsky/passnotes/data/repository/keepass/kotpass/KotpassDatabase.kt:62-63 | With unique uids, a valid handle's parent lookup fails for the root and returns the true parent for every child of a group of the tree. The root's options entry equals `getRawRootGroupOptions`, and every child's options are resolved against its parent's. |
| GroupIndexes.ParentMapExact | app/src/main/kotlin/com/ivanovsky/passnotes/data/repository/keepass/kotpass/KotpassDatabase.kt:375-393 | With unique uids, the parent index has no entry for the root and maps every child of every group of the tree to that group. |
| GroupIndexes.ParentMapKeys | app/src/main/kotlin/com/ivanovsky/passnotes/data/repository/keepass/kotpass/KotpassDatabase.kt:375-393 | For every tree, the parent index's keys are exactly the uids of the groups strictly below the root. |
| GroupIndexes.ParentMapValues | app/src/main/kotlin/com/ivanovsky/passnotes/data/repository/keepass/kotpass/KotpassDatabase.kt:383-390 | For every tree, duplicate uids included, a parent the index holds is a group of the tree with a child of that uid. |
| GroupIndexes.UniqueParent | app/src/main/kotlin/com/ivanovsky/passnotes/data/repository/keepass/kotpass/KotpassDatabase.kt:386-388 | With unique uids, two groups of the walk that have children with the same uid are the same group, so no later write overrides an earlier one. |
| GroupIndexes.ApplyParentsKeys | app/src/main/kotlin/com/ivanovsky/passnotes/data/repository/keepass/kotpass/KotpassDatabase.kt:383-390 | A uid is in the parent index filled over a sequence of groups iff some child of those groups has it. |
| GroupIndexes.ApplyParentsValue | app/src/main/kotlin/com/ivanovsky/passnotes/data/repository/keepass/kotpass/KotpassDatabase.kt:383-390 | When only one group of the sequence has a child with a given uid, the index maps that uid to that group. |
| GroupIndexes.ApplyParentsValues | app/src/main/kotlin/com/ivanovsky/passnotes/data/repository/keepass/kotpass/KotpassDatabase.kt:383-390 | Every value the parent index holds is a group of the sequence with a child of the key's uid. |
| GroupIndexes.AddChildrenAt | app/src/main/kotlin/com/ivanovsky/passnotes/data/repository/keepass/kotpass/KotpassDatabase.kt:386-389 | After recording the first k children of a group, their uids map to the group. All other keys keep their old values. |
| GroupIndexes.OptionsMapKeys | app/src/main/kotlin/com/ivanovsky/passnotes/data/repository/keepass/kotpass/KotpassDatabase.kt:342-373 | For every tree, the options index's keys are exactly the uids of the groups of the tree, the root included. |
| GroupIndexes.OptionsMapInherits | app/src/main/kotlin/com/ivanovsky/passnotes/data/repository/keepass/kotpass/KotpassDatabase.kt:342-373 | With unique uids, the root's options are its own overrides on top of the enabled default. Every child's options are its own overrides on top of its parent's resolved options. |
| GroupIndexes.ChildInherits | app/src/main/kotlin/com/ivanovsky/passnotes/data/repository/keepass/kotpass/KotpassDatabase.kt:357-369 | With unique uids, a child's entry in the options index is resolved against its parent's entry. |
| GroupIndexes.VisitDecides | app/src/main/kotlin/com/ivanovsky/passnotes/data/repository/keepass/kotpass/KotpassDatabase.kt:355-365 | With unique uids, a visited group's options entry is the one its single visit computes. |
| GroupIndexes.UniqueVisit | app/src/main/kotlin/com/ivanovsky/passnotes/data/repository/keepass/kotpass/KotpassDatabase.kt:354-369 | With unique uids, any two visits the options loop dequeues that carry the same group uid are the same visit: the same group, paired with the same parent options. |
| GroupIndexes.ResolveIdempotent | app/src/main/kotlin/com/ivanovsky/passnotes/data/repository/keepass/kotpass/KotpassDatabase.kt:345-365 | Resolving a group against its own resolved options changes nothing. So the root entry written first is rewritten to the same value when the root is dequeued. |
| GroupIndexes.BfsVisitsGroups | app/src/main/kotlin/com/ivanovsky/passnotes/data/repository/keepass/kotpass/KotpassDatabase.kt:349-370 | The options loop dequeues groups in the same breadth-first order as the plain walks. |
| GroupIndexes.QueuedIsVisited | app/src/main/kotlin/com/ivanovsky/passnotes/data/repository/keepass/kotpass/KotpassDatabase.kt:354-369 | Every pair that is queued is eventually dequeued. |
| GroupIndexes.ChildIsVisited | app/src/main/kotlin/com/ivanovsky/passnotes/data/repository/keepass/kotpass/KotpassDatabase.kt:367-369 | Every child of a dequeued group is itself dequeued, paired with the group's resolved options. |
| GroupIndexes.ApplyVisitsKeys | app/src/main/kotlin/com/ivanovsky/passnotes/data/repository/keepass/kotpass/KotpassDatabase.kt:365 | A uid is in the options index iff it was already there or some visit's group has it. |
| GroupIndexes.ApplyVisitsValue | app/src/main/kotlin/com/ivanovsky/passnotes/data/repository/keepass/kotpass/KotpassDatabase.kt:365 | A visit whose uid no other visit shares decides that uid's options. |
| Kotpass.KotpassDatabase.GetRawRootGroupOptions | app/src/main/kotlin/com/ivanovsky/passnotes/data/repository/keepass/kotpass/KotpassDatabase.kt:214-225 | Each root flag is enabled unless the root explicitly disables it, because the default is `true`. |
| Kotpass.KotpassDatabase.GetRawParentGroup | app/src/main/kotlin/com/ivanovsky/passnotes/data/repository/keepass/kotpass/KotpassDatabase.kt:227-237 | It succeeds iff some group strictly below the root has the uid, and then returns a group of the tree with such a child. Otherwise it fails with "failed to find group". |
| Kotpass.KotpassDatabase.GetInheritableOptions | app/src/main/kotlin/com/ivanovsky/passnotes/data/repository/keepass/kotpass/KotpassDatabase.kt:331-340 | It succeeds iff some group of the tree has the uid. Otherwise it fails with "failed to find group". |
| Kotpass.KotpassDatabase.GetRawGroupByUid | app/src/main/kotlin/com/ivanovsky/passnotes/data/repository/keepass/kotpass/KotpassDatabase.kt:239-254 | It returns the root when the uid is the root's, and otherwise a group of the tree with that uid. It fails with "failed to find group" iff no group of the tree has it. It is never deferred. |
| Kotpass.KotpassDatabase.GetRawEntryAndGroupByUid | app/src/main/kotlin/com/ivanovsky/passnotes/data/repository/keepass/kotpass/KotpassDatabase.kt:256-272 | It returns an entry with the uid together with the group of the tree that holds it. It fails with "failed to find Note by uid" iff no group of the tree holds such an entry. |
| Kotpass.KotpassDatabase.GetRecycleBinGroup | app/src/main/kotlin/com/ivanovsky/passnotes/data/repository/keepass/kotpass/KotpassDatabase.kt:462-475 | It always succeeds. It holds a group iff the bin is enabled, its uid is set and a group of the tree has that uid, and the group it holds has that uid. |
| Kotpass.KotpassDatabase.GetConfig | app/src/main/kotlin/com/ivanovsky/passnotes/data/repository/keepass/kotpass/KotpassDatabase.kt:85-96 | It never fails, and reports the metadata's recycle-bin flag and history limit. |
| Kotpass.KotpassDatabase.GetRawChildGroups | app/src/main/kotlin/com/ivanovsky/passnotes/data/repository/keepass/kotpass/KotpassDatabase.kt:274-290 | The loop returns the children of the groups in breadth-first order, which as a multiset is exactly the proper descendants of the root. |
| Kotpass.KotpassDatabase.GetRawChildEntries | app/src/main/kotlin/com/ivanovsky/passnotes/data/repository/keepass/kotpass/KotpassDatabase.kt:294-309 | The loop returns the entries of the groups in breadth-first order, which as a multiset is exactly the entries of the subtree, the root's own included. |
| Kotpass.KotpassDatabase.CollectEntries | app/src/main/kotlin/com/ivanovsky/passnotes/data/repository/keepass/kotpass/KotpassDatabase.kt:311-329 | The loop returns the concatenation of `transform(g, g.entries)` over the subtree's groups in breadth-first order. |
| Kotpass.CollectOverEntries | app/src/main/kotlin/com/ivanovsky/passnotes/data/repository/keepass/kotpass/KotpassDatabase.kt:294-329 | Collecting with a transform that keeps each group's entries yields exactly what `getRawChildEntries` yields. |
| Kotpass.KotpassDatabase.IsEntryInsideGroupTree | app/src/main/kotlin/com/ivanovsky/passnotes/data/repository/keepass/kotpass/KotpassDatabase.kt:445-460 | It fails exactly when the group lookup fails, with the same error. Otherwise it answers whether some group of that group's subtree holds an entry with the uid. |
| Kotpass.SubtreeEntries | app/src/main/kotlin/com/ivanovsky/passnotes/data/repository/keepass/kotpass/KotpassDatabase.kt:455-457 | Searching the walk's entry list finds the uid iff a group of the subtree holds an entry with it. |
| Kotpass.KotpassDatabase.CommitTo | app/src/main/kotlin/com/ivanovsky/passnotes/data/repository/keepass/kotpass/KotpassDatabase.kt:167-200 | It opens the output with the CANCEL conflict strategy, then encodes the current tree. It closes the stream on an IO failure. It returns the open's status, or the error. The watcher is notified once, iff the result is succeeded or deferred. The handle is left unchanged. |
| Kotpass.CommitResult | app/src/main/kotlin/com/ivanovsky/passnotes/data/repository/keepass/kotpass/KotpassDatabase.kt:173-193 | A commit succeeds or is deferred iff the open did and encoding threw nothing. It then carries `true` and keeps the open's status. Otherwise it carries the open's error or a generic IO error with the exception's message. |
| Kotpass.CommitEvents | app/src/main/kotlin/com/ivanovsky/passnotes/data/repository/keepass/kotpass/KotpassDatabase.kt:174-192 | The storage first sees the open request with CANCEL. It sees nothing else iff the open failed. The tree is written iff the commit succeeds or is deferred. |
| Kotpass.Notified | app/src/main/kotlin/com/ivanovsky/passnotes/data/repository/keepass/kotpass/KotpassDatabase.kt:195-197 | The watcher hears exactly one notification, carrying the result, iff the result is succeeded or deferred. Otherwise it hears none. |
| Kotpass.KotpassDatabase.Commit | app/src/main/kotlin/com/ivanovsky/passnotes/data/repository/keepass/kotpass/KotpassDatabase.kt:156-165 | It commits to the tracked file stamped with the given time. The file is replaced by that stamped copy iff the commit succeeded or was deferred. Tree, key and indexes are unchanged. |
| Kotpass.KotpassDatabase.ApplyConfig | app/src/main/kotlin/com/ivanovsky/passnotes/data/repository/keepass/kotpass/KotpassDatabase.kt:98-119 | Only when the configuration differs is the tree swapped for one with the new recycle-bin flag. The history limit is never written. Afterwards the configuration reports the requested flag. It commits in every case. |
| Kotpass.KotpassDatabase.ChangeKey | app/src/main/kotlin/com/ivanovsky/passnotes/data/repository/keepass/kotpass/KotpassDatabase.kt:121-154 | A wrong old key fails with an auth error (invalid password for a password key, invalid key file otherwise), and nothing changes. A credential failure is returned, and nothing changes. Otherwise the credentials are replaced, the key becomes the new key, and it commits. |
| Kotpass.KotpassDatabase.SetupRecycleBin | app/src/main/kotlin/com/ivanovsky/passnotes/data/repository/keepass/kotpass/KotpassDatabase.kt:395-406 | The metadata enables the recycle bin under the fresh uid. The result is always success. No group is created. |
| Kotpass.KotpassDatabase.SetupTemplates | app/src/main/kotlin/com/ivanovsky/passnotes/data/repository/keepass/kotpass/KotpassDatabase.kt:408-443 | Failures of the template store are returned, and so is a missing template group uid as "failed to find group". Otherwise the metadata records the template group uid. When asked to commit, it returns the commit's status. It tracks the stamped file iff the commit went through. The storage log and the watcher receive exactly that commit's events. When not asked, or when it fails before committing, storage, watcher and file are unchanged. |
| Kotpass.KotpassDatabase.New | app/src/main/kotlin/com/ivanovsky/passnotes/data/repository/keepass/kotpass/KotpassDatabase.kt:483-531 | A credential failure is returned without any write. Otherwise the handle starts from an empty root named "Database" with the recycle bin on under the fresh uid. With templates, a failure of the template store, or a missing template group uid, is returned without any write. Otherwise the tree, with or without templates, is committed exactly once, and the storage log records that commit. It is never deferred: it succeeds iff that commit succeeded or was deferred, and then tracks the stamped file, and otherwise fails with the commit's error. With templates, the handle's tree is the template store's tree with the template group uid recorded. Without templates, the handle's tree is exactly the initial tree with the given credentials, the recycle bin on under the fresh uid, the history limit 10 and no template group. Its recycle-bin lookup then finds nothing, unless the fresh uid is the root's. In every case, a successful handle keeps the given storage, file-system options and key, and its new watcher has heard only that commit. |
| Kotpass.CreateRawDatabase | app/src/main/kotlin/com/ivanovsky/passnotes/data/repository/keepass/kotpass/KotpassDatabase.kt:497-503 | The initial tree is a single empty root named "Database" with the recycle bin enabled and no bin uid. |
| Kotpass.KotpassDatabase.Open | app/src/main/kotlin/com/ivanovsky/passnotes/data/repository/keepass/kotpass/KotpassDatabase.kt:533-581 | A failed content result or a credential failure is returned, and in the latter case the stream is left open. Otherwise the stream is closed, and the result is either the classified decode error or a valid new handle. That handle holds the decoded tree, the key, the file, the storage and the file-system options, and its new watcher has heard nothing. |
| Kotpass.DecodeFailure | app/src/main/kotlin/com/ivanovsky/passnotes/data/repository/keepass/kotpass/KotpassDatabase.kt:564-577 | IO exceptions become generic IO errors and all other exceptions become database errors. The message is the exception's when non-empty, and "failed to open db file" otherwise. |
| Results.OperationResult.TakeStatusWith | app/src/main/kotlin/com/ivanovsky/passnotes/data/repository/keepass/kotpass/KotpassDatabase.kt:187 | It keeps succeeded, deferred or failed, and the error, and replaces only the carried value. |
| KeePassTree.FindChildGroup | app/src/main/kotlin/com/ivanovsky/passnotes/data/repository/keepass/kotpass/KotpassDatabase.kt:245 | It finds a group strictly below the root with the uid, together with its parent in the tree. It finds nothing iff no such group exists. |
| KeePassTree.FindInGroups | app/src/main/kotlin/com/ivanovsky/passnotes/data/repository/keepass/kotpass/KotpassDatabase.kt:245 | The search over the remaining children finds a match iff their subtrees hold one. |
| KeePassTree.FindChildEntry | app/src/main/kotlin/com/ivanovsky/passnotes/data/repository/keepass/kotpass/KotpassDatabase.kt:257-259 | It finds an entry with the uid and the group of the subtree that holds it. It finds nothing iff no group of the subtree holds such an entry. |
| KeePassTree.FindEntryInGroups | app/src/main/kotlin/com/ivanovsky/passnotes/data/repository/keepass/kotpass/KotpassDatabase.kt:257-259 | The entry search over the remaining children finds a match iff their subtrees hold one. |
| KeePassTree.FindEntry | app/src/main/kotlin/com/ivanovsky/passnotes/data/repository/keepass/kotpass/KotpassDatabase.kt:257-259 | It finds an entry with the uid in a list, or nothing iff none has it. |
| KeePassTree.BfsPermutesFlatten | app/src/main/kotlin/com/ivanovsky/passnotes/data/repository/keepass/kotpass/KotpassDatabase.kt:282-287 | Draining a FIFO queue of groups dequeues exactly the groups of their subtrees, as a multiset. |
| KeePassTree.BfsChildren | app/src/main/kotlin/com/ivanovsky/passnotes/data/repository/keepass/kotpass/KotpassDatabase.kt:282-287 | The children of the dequeued groups plus the initial queue are exactly the groups of the subtrees. |
| KeePassTree.BfsEntries | app/src/main/kotlin/com/ivanovsky/passnotes/data/repository/keepass/kotpass/KotpassDatabase.kt:302-306 | The entries of the dequeued groups are exactly the entries of the subtrees. |
| KeePassTree.SingleRootBfs | app/src/main/kotlin/com/ivanovsky/passnotes/data/repository/keepass/kotpass/KotpassDatabase.kt:274-309 | A walk seeded with one root visits its subtree, collects its proper descendants as children, and collects every entry of the subtree. |
| KeePassTree.WalkStep | app/src/main/kotlin/com/ivanovsky/passnotes/data/repository/keepass/kotpass/KotpassDatabase.kt:282-285 | One dequeue keeps "visited, then the rest of the walk" equal to the whole walk, and shortens the rest. |
| HashEntity.Equals | app/src/main/kotlin/com/ivanovsky/passnotes/data/entity/Hash.kt:7-17 | It returns false for null and true for the identical reference. For any other reference it returns true iff that reference holds a `Hash` with the same contents and type. |
| HashEntity.EqualsIsContentEquality | app/src/main/kotlin/com/ivanovsky/passnotes/data/entity/Hash.kt:7-17 | On a consistent heap, `equals` holds iff the other object is a `Hash` whose bytes are element-wise equal and whose type is equal. |
| HashEntity.EqualsReflexive | app/src/main/kotlin/com/ivanovsky/passnotes/data/entity/Hash.kt:8 | Every `Hash` equals itself. |
| HashEntity.EqualsRejectsOthers | app/src/main/kotlin/com/ivanovsky/passnotes/data/entity/Hash.kt:9 | Null, and objects of another class, are never equal to a `Hash`. |
| HashEntity.EqualsSymmetric | app/src/main/kotlin/com/ivanovsky/passnotes/data/entity/Hash.kt:7-17 | Between two `Hash` objects of a consistent heap, equality is symmetric. |
| HashEntity.EqualsImpliesEqualHashCode | app/src/main/kotlin/com/ivanovsky/passnotes/data/entity/Hash.kt:7-23 | Equal objects have equal hash codes, whatever hash the type enumeration gives. |
| HashEntity.ContentHashCode | app/src/main/kotlin/com/ivanovsky/passnotes/data/entity/Hash.kt:20 | The array content hash, wrapping at every step, equals the exact polynomial 31^n + Σ b_i·31^(n-1-i) reduced to a 32-bit `Int`. |
| HashEntity.HashCode | app/src/main/kotlin/com/ivanovsky/passnotes/data/entity/Hash.kt:19-23 | `31 * contentHashCode + type hash` in wrapping `Int` arithmetic equals the exact value 31·polynomial + type hash reduced to 32 bits. |
| HashEntity.WrapStep | app/src/main/kotlin/com/ivanovsky/passnotes/data/entity/Hash.kt:20-21 | Wrapping the accumulator before a `31 * acc + b` step does not change the wrapped result. |
| HashEntity.Wrap32 | app/src/main/kotlin/com/ivanovsky/passnotes/data/entity/Hash.kt:21 | The wrapped value is congruent to the exact value modulo 2^32, and equals it when it already fits in an `Int`. |

## Left out

- Locking and atomic references: the model is a single-threaded handle whose field updates happen in program order.
- `fsResolver.resolveProvider`: every handle writes through one storage provider, fixed at construction.
- The KeePass codec is a foreign library and the KDBX binary format, so it is modelled by its effects:
  - encoding is recorded as "this tree was written to this file", or as a thrown IO exception;
  - decoding is an answer parameter (a tree, or an exception);
  - `modifyMeta` and `modifyCredentials` are record updates.
- The library's `Ver4x.create`: its defaults are not part of this model. The fresh metadata's history limit of 10 and the random root uid (a parameter) are assumed.
- `EncryptedDatabaseKey.toCredentials`: a parameter holding its result (succeeded, deferred or failed).
- Clock and randomness: `System.currentTimeMillis()` and `UUID.randomUUID()` are parameters.
- Kotpass.KotpassDatabase.SetupTemplates: the template store (`TemplateDaoImpl`, `TemplateFactory` and the group and note DAOs) is not part of this model. Its effect is one replacement of the tree by the tree it reports. Its interstitial commits, and any partial effect of a failed insertion, are not modelled.
- The `getOrNull` extension is not part of this model. It is assumed to return the carried value of a deferred result too.
- Exceptions other than `IOException` thrown while encoding in `commitTo` propagate to the caller and are not modelled. Neither is the closing of the output stream after a successful encode.
- Timber logging.
- The failure branch after `getConfig` in `applyConfig` cannot be taken, because `getConfig` always succeeds. The same holds for the branch after `setupRecycleBin` in `new`. The model omits both.
- The one-line getters (`getWatcher`, `getLock`, `getFile`, `getFSOptions`, `getKey`, the DAO getters, `getRawDatabase`, `getRawRootGroup`) are plain field reads. `getAllRawGroups` delegates to the library's `getAllGroups`, which is not part of this model.
- `DatabaseWatcher` is reduced to the list of results it was notified with. The handle reference passed along is dropped.
- Kotpass.KotpassDatabase.CollectEntries: the caller's `transform` is taken to be a pure function. Side effects of the callback are not modelled.
- Kotpass.KotpassDatabase.GetRawParentGroup: with duplicate group uids, the contract only says that the returned group has a child with the uid. That the parent is the true one is stated under unique uids, in `IndexesExact`.
- Kotpass.KotpassDatabase.GetInheritableOptions: with duplicate uids, the contract only characterises which uids are found. Inheritance is stated under unique uids, in `IndexesExact`.
- HashEntity.HashCode: the type enumeration's `hashCode` (identity-based on the JVM) is a parameter. The hash code is therefore fixed only for a fixed enumeration hash.
- HashEntity.Equals: object identity is an explicit reference number. Heap consistency (one reference, one object) is a precondition of the lemmas that need it.
