/**
 * The KeePass database handle: the decoded tree, the active key, the tracked file,
 * and the two indexes derived from the tree, with the operations that read and
 * replace them.
 *
 * Collaborators are explicit. The storage provider and the watcher are small
 * recording objects; the answers of the storage, of the credential derivation,
 * of the decoder, of the template store, the clock and the random uuid source are
 * parameters. The lock is gone: every operation runs to completion in program order.
 */
module Kotpass {
  import opened Results
  import opened KeePassTree
  import opened GroupIndexes

  // ---------------------------------------------------------------------------
  // Values

  datatype FileDescriptor = FileDescriptor(fsAuthority: string, path: string, modified: Option<int>)

  datatype FSOptions = FSOptions(isCacheEnabled: bool, isPostponedSyncEnabled: bool)

  datatype OnConflictStrategy = Cancel | Rewrite

  datatype KeyType = Password | KeyFile

  /** A key is a password, or a key file with an optional password. */
  datatype EncryptedDatabaseKey =
    | PasswordKeepassKey(password: string)
    | FileKeepassKey(keyFile: FileDescriptor, filePassword: Option<string>)
  {
    function KeyTypeOf(): KeyType
    {
      if PasswordKeepassKey? then Password else KeyFile
    }
  }

  datatype EncryptedDatabaseConfig = EncryptedDatabaseConfig(isRecycleBinEnabled: bool, maxHistoryItems: int)

  datatype WriteRequest = WriteRequest(file: FileDescriptor, strategy: OnConflictStrategy, options: FSOptions)

  /** What the storage side of a commit reports: the open for write, then whether encoding threw. */
  datatype StorageAnswer = StorageAnswer(open: OperationResult<()>, encodeIOException: Option<string>)

  datatype StorageEvent =
    | OpenedForWrite(request: WriteRequest)
    | Encoded(file: FileDescriptor, db: RawDatabase)
    | ClosedAfterFailure(file: FileDescriptor)

  /** An exception thrown by the decoder: whether it is an `IOException`, and its message. */
  datatype ExceptionInfo = ExceptionInfo(isIOException: bool, message: Option<string>)

  datatype DecodeAnswer = Decoded(db: RawDatabase) | DecodeThrew(exception: ExceptionInfo)

  /**
   * The template store, which this model does not contain: the tree it leaves after
   * adding the default templates, and the uid of the template group it reports.
   */
  datatype TemplateDao = TemplateDao(
    addTemplates: RawDatabase -> OperationResult<RawDatabase>,
    templateGroupUid: RawDatabase -> OperationResult<Option<UUID>>)

  const DefaultRootGroupName: string := "Database"

  /** The history limit the KeePass library puts in a fresh `Meta`. */
  const LibraryDefaultHistoryMaxItems: int := 10

  // ---------------------------------------------------------------------------
  // What a commit does, as values

  /** The result `commitTo` returns for a given storage answer. */
  function CommitResult(answer: StorageAnswer): (r: OperationResult<bool>)
    ensures r.IsSucceededOrDeferred() <==> answer.open.IsSucceededOrDeferred() && answer.encodeIOException.None?
    ensures r.Deferred? <==> answer.open.Deferred? && answer.encodeIOException.None?
    ensures r.IsSucceededOrDeferred() ==> r.obj
    ensures answer.open.Failed? ==> r == Failed(answer.open.error)
    ensures answer.open.IsSucceededOrDeferred() && answer.encodeIOException.Some? ==>
      r == Failed(GenericIOError(ExceptionMessage(answer.encodeIOException.value)))
  {
    match answer.open
    case Failed(e) => Failed(e)
    case _ =>
      match answer.encodeIOException
      case Some(message) => Failed(GenericIOError(ExceptionMessage(message)))
      case None => answer.open.TakeStatusWith(true)
  }

  /** What `commitTo` leaves in the storage log: the open, then the encoded tree or the close. */
  function CommitEvents(output: FileDescriptor, options: FSOptions, answer: StorageAnswer, db: RawDatabase): (r: seq<StorageEvent>)
    ensures |r| >= 1 && r[0] == OpenedForWrite(WriteRequest(output, Cancel, options))
    ensures answer.open.Failed? <==> |r| == 1
    ensures Encoded(output, db) in r <==> CommitResult(answer).IsSucceededOrDeferred()
  {
    var openEvent := [OpenedForWrite(WriteRequest(output, Cancel, options))];
    if answer.open.Failed? then openEvent
    else if answer.encodeIOException.Some? then openEvent + [ClosedAfterFailure(output)]
    else openEvent + [Encoded(output, db)]
  }

  /** The watcher hears about a commit exactly when it succeeded or was deferred. */
  function Notified(result: OperationResult<bool>): (r: seq<OperationResult<bool>>)
    ensures |r| <= 1
    ensures |r| == 1 <==> result.IsSucceededOrDeferred()
    ensures forall i | 0 <= i < |r| :: r[i] == result
  {
    if result.IsSucceededOrDeferred() then [result] else []
  }

  /** The error `open` reports for an exception thrown while decoding. */
  function DecodeFailure(e: ExceptionInfo): (r: OperationError)
    ensures r.GenericIOError? <==> e.isIOException
    ensures r.DbError? <==> !e.isIOException
    ensures e.message.Some? && e.message.value != "" ==> r.message == ExceptionMessage(e.message.value)
    ensures e.message.None? || e.message.value == "" ==> r.message == FailedToOpenDbFile
  {
    var message := if e.message.Some? && e.message.value != "" then ExceptionMessage(e.message.value) else FailedToOpenDbFile;
    if e.isIOException then GenericIOError(message) else DbError(message)
  }

  /** The tree `new` starts from: an empty root named "Database" and a recycle bin switched on. */
  function CreateRawDatabase(rootUuid: UUID, credentials: Credentials): (r: RawDatabase)
    ensures Flatten(r.root) == [r.root] && r.root.entries == [] && r.root.uuid == rootUuid
    ensures r.root.name == DefaultRootGroupName && r.meta.recycleBinEnabled && r.meta.recycleBinUuid.None?
    ensures r.credentials == credentials
  {
    RawDatabase(
      credentials,
      Meta(true, None, LibraryDefaultHistoryMaxItems, None),
      Group(rootUuid, DefaultRootGroupName, [], [], None, None))
  }

  /** The concatenation of `transform(g, g.entries)` over the groups of `s`, in order. */
  function CollectOver<T>(s: seq<Group>, transform: (Group, seq<Entry>) -> seq<T>): seq<T>
  {
    if s == [] then [] else CollectOver(s[..|s| - 1], transform) + transform(s[|s| - 1], s[|s| - 1].entries)
  }

  function KeepEntries(g: Group, entries: seq<Entry>): seq<Entry>
  {
    entries
  }

  /** Collecting each group's own entries lists the entries of the groups, in order. */
  lemma {:induction false} CollectOverEntries(s: seq<Group>)
    ensures CollectOver(s, KeepEntries) == EntriesOf(s)
  {
    if s != [] {
      var init, last := s[..|s| - 1], s[|s| - 1];
      assert s == init + [last];
      CollectOverEntries(init);
      EntriesOfAppend(init, [last]);
      assert EntriesOf([last]) == last.entries;
    }
  }

  lemma {:induction false} CollectOverAppend<T>(s: seq<Group>, g: Group, transform: (Group, seq<Entry>) -> seq<T>)
    ensures CollectOver(s + [g], transform) == CollectOver(s, transform) + transform(g, g.entries)
  {
    assert (s + [g])[..|s + [g]| - 1] == s;
  }

  // ---------------------------------------------------------------------------
  // Collaborators

  /** Records every commit it is told about, in order. */
  class DatabaseWatcher {
    var notifications: seq<OperationResult<bool>>

    constructor()
      ensures notifications == []
    {
      notifications := [];
    }

    method NotifyOnCommit(result: OperationResult<bool>)
      modifies this
      ensures notifications == old(notifications) + [result]
    {
      notifications := notifications + [result];
    }
  }

  /** The storage a handle writes to, as a log of what it was asked to do. */
  class StorageProvider {
    var log: seq<StorageEvent>

    method OpenFileForWrite(file: FileDescriptor, strategy: OnConflictStrategy, options: FSOptions, status: OperationResult<()>)
      returns (r: OperationResult<FileDescriptor>)
      modifies this
      ensures log == old(log) + [OpenedForWrite(WriteRequest(file, strategy, options))]
      ensures r == status.TakeStatusWith(file)
    {
      log := log + [OpenedForWrite(WriteRequest(file, strategy, options))];
      r := status.TakeStatusWith(file);
    }

    /** Encodes `db` into the opened `out`; `ioException` is what the encoder throws, if anything. */
    method Encode(db: RawDatabase, out: FileDescriptor, ioException: Option<string>) returns (thrown: Option<string>)
      modifies this
      ensures thrown == ioException
      ensures log == old(log) + (if ioException.None? then [Encoded(out, db)] else [])
    {
      if ioException.None? {
        log := log + [Encoded(out, db)];
      }
      thrown := ioException;
    }

    method Close(out: FileDescriptor)
      modifies this
      ensures log == old(log) + [ClosedAfterFailure(out)]
    {
      log := log + [ClosedAfterFailure(out)];
    }
  }

  /** The content stream `open` reads the database from. */
  class InputStream {
    var closed: bool

    method Close()
      modifies this
      ensures closed
    {
      closed := true;
    }
  }

  // ---------------------------------------------------------------------------
  // The handle

  class KotpassDatabase {
    const storage: StorageProvider
    const fsOptions: FSOptions
    const dbWatcher: DatabaseWatcher

    var database: RawDatabase
    var key: EncryptedDatabaseKey
    var file: FileDescriptor
    var autotypeOptionMap: map<UUID, InheritableOptions>
    var groupUidToParentMap: map<UUID, Group>

    /** Both indexes are those of the current tree. */
    ghost predicate Valid()
      reads this
    {
      && autotypeOptionMap == OptionsMap(database.root)
      && groupUidToParentMap == ParentMap(database.root)
    }

    constructor(storage: StorageProvider, fsOptions: FSOptions, file: FileDescriptor, key: EncryptedDatabaseKey, db: RawDatabase)
      ensures Valid()
      ensures this.storage == storage && this.fsOptions == fsOptions
      ensures this.file == file && this.key == key && database == db
      ensures fresh(dbWatcher) && dbWatcher.notifications == []
    {
      this.storage := storage;
      this.fsOptions := fsOptions;
      this.file := file;
      this.key := key;
      database := db;
      dbWatcher := new DatabaseWatcher();
      new;
      autotypeOptionMap := CreateInheritableOptionsMap();
      groupUidToParentMap := CreateGroupUidToParentMap();
    }

    // -------------------------------------------------------------------------
    // Index builders

    /** The root's options: each flag is enabled unless the root explicitly disables it. */
    function GetRawRootGroupOptions(): (r: InheritableOptions)
      reads this
      ensures r.autotypeEnabled.isEnabled <==> database.root.enableAutoType != Some(false)
      ensures r.searchEnabled.isEnabled <==> database.root.enableSearching != Some(false)
      ensures r == RootOptions(database.root)
    {
      var root := database.root;
      InheritableOptions(
        ConvertToInheritableOption(root.enableAutoType, DefaultRootInheritableValue),
        ConvertToInheritableOption(root.enableSearching, DefaultRootInheritableValue))
    }

    /** Walks the tree breadth-first, resolving each group's options against its parent's. */
    method CreateInheritableOptionsMap() returns (result: map<UUID, InheritableOptions>)
      ensures result == OptionsMap(database.root)
    {
      var root := database.root;
      var rootOptions := GetRawRootGroupOptions();
      result := map[root.uuid := rootOptions];
      ghost var initial := result;
      var nextGroups := [Visit(root, rootOptions)];
      ghost var visited: seq<Visit> := [];
      while nextGroups != []
        invariant visited + BfsVisits(nextGroups) == BfsVisits([RootVisit(root)])
        invariant result == ApplyVisits(initial, visited)
        decreases |BfsVisits(nextGroups)|
      {
        ghost var queue := nextGroups;
        var current := nextGroups[0];
        nextGroups := nextGroups[1..];
        var group, parentOptions := current.group, current.parentOptions;
        var options := InheritableOptions(
          ConvertToInheritableOption(group.enableAutoType, parentOptions.autotypeEnabled.isEnabled),
          ConvertToInheritableOption(group.enableSearching, parentOptions.searchEnabled.isEnabled));
        result := result[group.uuid := options];
        for i := 0 to |group.groups|
          invariant nextGroups == queue[1..] + ChildVisits(group.groups[..i], options)
        {
          assert ChildVisits(group.groups[..i + 1], options) == ChildVisits(group.groups[..i], options) + [Visit(group.groups[i], options)];
          nextGroups := nextGroups + [Visit(group.groups[i], options)];
        }
        assert group.groups[..|group.groups|] == group.groups;
        assert nextGroups == NextVisits(queue);
        assert (visited + [current])[..|visited|] == visited;
        assert BfsVisits(queue) == [current] + BfsVisits(nextGroups);
        visited := visited + [current];
      }
      assert visited == BfsVisits([RootVisit(root)]);
    }

    /** Walks the tree breadth-first, recording each group as the parent of its children. */
    method CreateGroupUidToParentMap() returns (result: map<UUID, Group>)
      ensures result == ParentMap(database.root)
    {
      var root := database.root;
      result := map[];
      var nextGroups := [root];
      ghost var visited: seq<Group> := [];
      while nextGroups != []
        invariant visited + Bfs(nextGroups) == Bfs([root])
        invariant result == ApplyParents(visited)
        decreases |Bfs(nextGroups)|
      {
        ghost var queue := nextGroups;
        WalkStep(root, visited, queue);
        var group := nextGroups[0];
        nextGroups := nextGroups[1..];
        for i := 0 to |group.groups|
          invariant nextGroups == queue[1..] + group.groups[..i]
          invariant result == AddChildren(ApplyParents(visited), group, i)
        {
          assert group.groups[..i + 1] == group.groups[..i] + [group.groups[i]];
          result := result[group.groups[i].uuid := group];
          nextGroups := nextGroups + [group.groups[i]];
        }
        assert group.groups[..|group.groups|] == group.groups;
        ApplyParentsSnoc(visited, group);
        visited := visited + [group];
      }
      assert visited == Bfs([root]);
    }

    // -------------------------------------------------------------------------
    // Replacing the tree

    /** Replaces the tree and rebuilds both indexes; nothing else changes. */
    method SwapDatabase(db: RawDatabase)
      modifies this
      ensures Valid()
      ensures database == db
      ensures key == old(key) && file == old(file)
    {
      database := db;
      autotypeOptionMap := CreateInheritableOptionsMap();
      groupUidToParentMap := CreateGroupUidToParentMap();
    }

    // -------------------------------------------------------------------------
    // Lookups

    /** The group with uid `uid`: the root itself, or the first match below it. */
    function GetRawGroupByUid(uid: UUID): (r: OperationResult<Group>)
      reads this
      ensures !r.Deferred?
      ensures uid == database.root.uuid ==> r == Succeeded(database.root)
      ensures r.Succeeded? ==> r.obj.uuid == uid && r.obj in Flatten(database.root)
      ensures r.Failed? <==> forall g | g in Flatten(database.root) :: g.uuid != uid
      ensures r.Failed? ==> r.error == DbError(FailedToFindGroup)
    {
      var root := database.root;
      if root.uuid == uid then Succeeded(root)
      else
        match FindChildGroup(root, uid)
        case None => Failed(DbError(FailedToFindGroup))
        case Some(found) => Succeeded(found.1)
    }

    /** The parent the index holds for `childUid`; it has a child with that uid. */
    function GetRawParentGroup(childUid: UUID): (r: OperationResult<Group>)
      requires Valid()
      reads this
      ensures !r.Deferred?
      ensures r.Succeeded? <==> exists c | c in FlattenAll(database.root.groups) :: c.uuid == childUid
      ensures r.Succeeded? ==> r.obj in Flatten(database.root) && exists c | c in r.obj.groups :: c.uuid == childUid
      ensures r.Failed? ==> r.error == DbError(FailedToFindGroup)
    {
      ParentMapKeys(database.root);
      ParentMapValues(database.root, childUid);
      if childUid in groupUidToParentMap then Succeeded(groupUidToParentMap[childUid])
      else Failed(DbError(FailedToFindGroup))
    }

    /** The options the index holds for `groupUid`; every group of the tree has some. */
    function GetInheritableOptions(groupUid: UUID): (r: OperationResult<InheritableOptions>)
      requires Valid()
      reads this
      ensures !r.Deferred?
      ensures r.Succeeded? <==> exists g | g in Flatten(database.root) :: g.uuid == groupUid
      ensures r.Failed? ==> r.error == DbError(FailedToFindGroup)
    {
      OptionsMapKeys(database.root);
      if groupUid in autotypeOptionMap then Succeeded(autotypeOptionMap[groupUid])
      else Failed(DbError(FailedToFindGroup))
    }

    /** The first entry with uid `noteUid` in the tree, with the group that holds it. */
    function GetRawEntryAndGroupByUid(noteUid: UUID): (r: OperationResult<(Group, Entry)>)
      reads this
      ensures !r.Deferred?
      ensures r.Succeeded? ==> r.obj.1.uuid == noteUid && r.obj.1 in r.obj.0.entries && r.obj.0 in Flatten(database.root)
      ensures r.Failed? <==> forall g, e | g in Flatten(database.root) && e in g.entries :: e.uuid != noteUid
      ensures r.Failed? ==> r.error == DbError(FailedToFindEntityByUid("Note", noteUid))
    {
      match FindChildEntry(database.root, noteUid)
      case None => Failed(DbError(FailedToFindEntityByUid("Note", noteUid)))
      case Some(found) => Succeeded(found)
    }

    /** The recycle bin group, or none when it is disabled, unset or missing; never an error. */
    function GetRecycleBinGroup(): (r: OperationResult<Option<Group>>)
      reads this
      ensures r.Succeeded?
      ensures r.obj.Some? <==>
        && database.meta.recycleBinEnabled
        && database.meta.recycleBinUuid.Some?
        && exists g | g in Flatten(database.root) :: g.uuid == database.meta.recycleBinUuid.value
      ensures r.obj.Some? ==> r.obj.value.uuid == database.meta.recycleBinUuid.value && r.obj.value in Flatten(database.root)
    {
      var meta := database.meta;
      if !meta.recycleBinEnabled then Succeeded(None)
      else if meta.recycleBinUuid.None? then Succeeded(None)
      else
        var found := GetRawGroupByUid(meta.recycleBinUuid.value);
        Succeeded(if found.Failed? then None else Some(found.obj))
    }

    /** The configuration stored in the tree's metadata; reading it never fails. */
    function GetConfig(): (r: OperationResult<EncryptedDatabaseConfig>)
      reads this
      ensures r.Succeeded?
      ensures r.obj.isRecycleBinEnabled == database.meta.recycleBinEnabled
      ensures r.obj.maxHistoryItems == database.meta.historyMaxItems
    {
      Succeeded(EncryptedDatabaseConfig(database.meta.recycleBinEnabled, database.meta.historyMaxItems))
    }

    /** With unique uuids the indexes answer exactly for every group of the tree. */
    lemma IndexesExact()
      requires Valid() && UniqueGroupUuids(database.root)
      ensures GetRawParentGroup(database.root.uuid).Failed?
      ensures forall g, c | g in Flatten(database.root) && c in g.groups :: GetRawParentGroup(c.uuid) == Succeeded(g)
      ensures GetInheritableOptions(database.root.uuid) == Succeeded(GetRawRootGroupOptions())
      ensures ResolvesInheritance(database.root, autotypeOptionMap)
    {
      ParentMapExact(database.root);
      OptionsMapInherits(database.root);
    }

    // -------------------------------------------------------------------------
    // Walks

    /** Every group strictly below `root`, breadth-first. */
    method GetRawChildGroups(root: Group) returns (allGroups: seq<Group>)
      ensures allGroups == ChildrenOf(Bfs([root]))
      ensures multiset(allGroups) == multiset(FlattenAll(root.groups))
    {
      var nextGroups := [root];
      allGroups := [];
      ghost var visited: seq<Group> := [];
      while nextGroups != []
        invariant visited + Bfs(nextGroups) == Bfs([root])
        invariant allGroups == ChildrenOf(visited)
        decreases |Bfs(nextGroups)|
      {
        WalkStep(root, visited, nextGroups);
        var currentGroup := nextGroups[0];
        nextGroups := nextGroups[1..] + currentGroup.groups;
        ChildrenOfAppend(visited, [currentGroup]);
        assert ChildrenOf([currentGroup]) == currentGroup.groups;
        allGroups := allGroups + currentGroup.groups;
        visited := visited + [currentGroup];
      }
      assert visited == Bfs([root]);
      SingleRootBfs(root);
    }

    /** Every entry of `root`'s subtree, `root`'s own included, breadth-first. */
    method GetRawChildEntries(root: Group) returns (allEntries: seq<Entry>)
      ensures allEntries == EntriesOf(Bfs([root]))
      ensures multiset(allEntries) == multiset(EntriesOf(Flatten(root)))
    {
      var nextGroups := [root];
      allEntries := [];
      ghost var visited: seq<Group> := [];
      while nextGroups != []
        invariant visited + Bfs(nextGroups) == Bfs([root])
        invariant allEntries == EntriesOf(visited)
        decreases |Bfs(nextGroups)|
      {
        WalkStep(root, visited, nextGroups);
        var currentGroup := nextGroups[0];
        nextGroups := nextGroups[1..] + currentGroup.groups;
        EntriesOfAppend(visited, [currentGroup]);
        assert EntriesOf([currentGroup]) == currentGroup.entries;
        allEntries := allEntries + currentGroup.entries;
        visited := visited + [currentGroup];
      }
      assert visited == Bfs([root]);
      SingleRootBfs(root);
    }

    /** `transform(g, g.entries)` over the groups of `root`'s subtree, breadth-first, concatenated. */
    method CollectEntries<T>(root: Group, transform: (Group, seq<Entry>) -> seq<T>) returns (result: seq<T>)
      ensures result == CollectOver(Bfs([root]), transform)
    {
      result := [];
      var nextGroups := [root];
      ghost var visited: seq<Group> := [];
      while nextGroups != []
        invariant visited + Bfs(nextGroups) == Bfs([root])
        invariant result == CollectOver(visited, transform)
        decreases |Bfs(nextGroups)|
      {
        WalkStep(root, visited, nextGroups);
        var currentGroup := nextGroups[0];
        nextGroups := nextGroups[1..] + currentGroup.groups;
        CollectOverAppend(visited, currentGroup, transform);
        result := result + transform(currentGroup, currentGroup.entries);
        visited := visited + [currentGroup];
      }
      assert visited == Bfs([root]);
    }

    /** Whether an entry with `entryUid` lies in the subtree of the group with `groupTreeRootUid`. */
    method IsEntryInsideGroupTree(entryUid: UUID, groupTreeRootUid: UUID) returns (r: OperationResult<bool>)
      ensures !r.Deferred?
      ensures r.Failed? <==> GetRawGroupByUid(groupTreeRootUid).Failed?
      ensures r.Failed? ==> r.error == DbError(FailedToFindGroup)
      ensures r.Succeeded? ==>
        (r.obj <==> exists g, e | g in Flatten(GetRawGroupByUid(groupTreeRootUid).obj) && e in g.entries :: e.uuid == entryUid)
    {
      var getTreeRootResult := GetRawGroupByUid(groupTreeRootUid);
      if getTreeRootResult.Failed? {
        return Failed(getTreeRootResult.error);
      }
      var rawTreeRoot := getTreeRootResult.obj;
      var tree := GetRawChildEntries(rawTreeRoot);
      var isEntryInsideTree := exists e | e in tree :: e.uuid == entryUid;
      SubtreeEntries(rawTreeRoot, tree, entryUid);
      r := Succeeded(isEntryInsideTree);
    }

    // -------------------------------------------------------------------------
    // Commits

    /** Opens `output` for write (never overwriting a conflicting copy), encodes the tree, notifies on success. */
    method CommitTo(output: FileDescriptor, options: FSOptions, answer: StorageAnswer) returns (result: OperationResult<bool>)
      modifies storage, dbWatcher
      ensures result == CommitResult(answer)
      ensures storage.log == old(storage.log) + CommitEvents(output, options, answer, database)
      ensures dbWatcher.notifications == old(dbWatcher.notifications) + Notified(result)
    {
      var outResult := storage.OpenFileForWrite(output, Cancel, options, answer.open);
      if outResult.Failed? {
        return Failed(outResult.error);
      }
      var out := outResult.obj;
      var thrown := storage.Encode(database, out, answer.encodeIOException);
      if thrown.None? {
        result := outResult.TakeStatusWith(true);
      } else {
        storage.Close(out);
        result := Failed(GenericIOError(ExceptionMessage(thrown.value)));
      }
      if result.IsSucceededOrDeferred() {
        dbWatcher.NotifyOnCommit(result);
      }
    }

    /** Commits to the tracked file stamped with `now`, and tracks that copy only when the commit went through. */
    method Commit(now: int, answer: StorageAnswer) returns (result: OperationResult<bool>)
      requires Valid()
      modifies this, storage, dbWatcher
      ensures Valid()
      ensures result == CommitResult(answer)
      ensures database == old(database) && key == old(key)
      ensures file == if result.IsSucceededOrDeferred() then old(file).(modified := Some(now)) else old(file)
      ensures storage.log == old(storage.log) + CommitEvents(old(file).(modified := Some(now)), fsOptions, answer, database)
      ensures dbWatcher.notifications == old(dbWatcher.notifications) + Notified(result)
    {
      var updatedFile := file.(modified := Some(now));
      result := CommitTo(updatedFile, fsOptions, answer);
      if result.IsSucceededOrDeferred() {
        file := updatedFile;
      }
    }

    /**
     * Writes the new recycle-bin flag into the metadata when the configuration
     * differs, then commits in every case; the history limit is never written.
     */
    method ApplyConfig(newConfig: EncryptedDatabaseConfig, now: int, answer: StorageAnswer) returns (result: OperationResult<bool>)
      requires Valid()
      modifies this, storage, dbWatcher
      ensures Valid()
      ensures result == CommitResult(answer)
      ensures database == if old(GetConfig()).obj == newConfig then old(database)
        else old(database).(meta := old(database).meta.(recycleBinEnabled := newConfig.isRecycleBinEnabled))
      ensures GetConfig().obj.isRecycleBinEnabled == newConfig.isRecycleBinEnabled
      ensures GetConfig().obj.maxHistoryItems == old(GetConfig()).obj.maxHistoryItems
      ensures key == old(key)
      ensures file == if result.IsSucceededOrDeferred() then old(file).(modified := Some(now)) else old(file)
      ensures storage.log == old(storage.log) + CommitEvents(old(file).(modified := Some(now)), fsOptions, answer, database)
      ensures dbWatcher.notifications == old(dbWatcher.notifications) + Notified(result)
    {
      var oldConfig := GetConfig().obj;
      if oldConfig != newConfig {
        SwapDatabase(database.(meta := database.meta.(recycleBinEnabled := newConfig.isRecycleBinEnabled)));
      }
      result := Commit(now, answer);
    }

    /**
     * Replaces the credentials when `oldKey` is the current key and the new key
     * yields credentials, then commits; otherwise fails with nothing changed.
     */
    method ChangeKey(oldKey: EncryptedDatabaseKey, newKey: EncryptedDatabaseKey, newCredentials: OperationResult<Credentials>,
                     now: int, answer: StorageAnswer) returns (result: OperationResult<bool>)
      requires Valid()
      modifies this, storage, dbWatcher
      ensures Valid()
      ensures oldKey != old(key) ==>
        && result == Failed(AuthError(if old(key).KeyTypeOf() == Password then InvalidPassword else InvalidKeyFile))
        && unchanged(this, storage, dbWatcher)
      ensures oldKey == old(key) && newCredentials.Failed? ==>
        result == Failed(newCredentials.error) && unchanged(this, storage, dbWatcher)
      ensures oldKey == old(key) && newCredentials.IsSucceededOrDeferred() ==>
        && result == CommitResult(answer)
        && database == old(database).(credentials := newCredentials.obj)
        && key == newKey
        && file == (if result.IsSucceededOrDeferred() then old(file).(modified := Some(now)) else old(file))
        && storage.log == old(storage.log) + CommitEvents(old(file).(modified := Some(now)), fsOptions, answer, database)
        && dbWatcher.notifications == old(dbWatcher.notifications) + Notified(result)
    {
      var currentKey := key;
      if oldKey != currentKey {
        var message := if currentKey.KeyTypeOf() == Password then InvalidPassword else InvalidKeyFile;
        return Failed(AuthError(message));
      }
      if newCredentials.Failed? {
        return Failed(newCredentials.error);
      }
      SwapDatabase(database.(credentials := newCredentials.obj));
      key := newKey;
      result := Commit(now, answer);
    }

    // -------------------------------------------------------------------------
    // Setup steps of a new database

    /** Switches the recycle bin on under a fresh uid; no group is created for it. */
    method SetupRecycleBin(freshUuid: UUID) returns (result: OperationResult<()>)
      modifies this
      ensures Valid()
      ensures result == Succeeded(())
      ensures database == old(database).(meta := old(database).meta.(recycleBinEnabled := true, recycleBinUuid := Some(freshUuid)))
      ensures key == old(key) && file == old(file)
    {
      SwapDatabase(database.(meta := database.meta.(recycleBinEnabled := true, recycleBinUuid := Some(freshUuid))));
      result := Succeeded(());
    }

    /**
     * Adds the default templates through the template store, records the template
     * group's uid in the metadata, and commits when asked to.
     */
    method SetupTemplates(doCommit: bool, templates: TemplateDao, now: int, answer: StorageAnswer) returns (result: OperationResult<()>)
      requires Valid()
      modifies this, storage, dbWatcher
      ensures Valid()
      ensures key == old(key)
      ensures templates.addTemplates(old(database)).Failed? ==>
        result == Failed(templates.addTemplates(old(database)).error) && unchanged(this, storage, dbWatcher)
      ensures templates.addTemplates(old(database)).IsSucceededOrDeferred() ==>
        var added := templates.addTemplates(old(database)).obj;
        var uid := templates.templateGroupUid(added);
        && (uid.Failed? ==> result == Failed(uid.error) && database == added)
        && (uid.IsSucceededOrDeferred() && uid.obj.None? ==> result == Failed(DbError(FailedToFindGroup)) && database == added)
        && (uid.IsSucceededOrDeferred() && uid.obj.Some? ==>
             && database == added.(meta := added.meta.(entryTemplatesGroup := uid.obj))
             && result == (if doCommit then CommitResult(answer).TakeStatusWith(()) else Succeeded(()))
             && (doCommit ==>
                  && file == (if CommitResult(answer).IsSucceededOrDeferred() then old(file).(modified := Some(now)) else old(file))
                  && storage.log == old(storage.log) + CommitEvents(old(file).(modified := Some(now)), fsOptions, answer, database)
                  && dbWatcher.notifications == old(dbWatcher.notifications) + Notified(CommitResult(answer))))
      ensures !doCommit ==> unchanged(storage, dbWatcher) && file == old(file)
      ensures doCommit && !(templates.addTemplates(old(database)).IsSucceededOrDeferred()
                            && templates.templateGroupUid(templates.addTemplates(old(database)).obj).IsSucceededOrDeferred()
                            && templates.templateGroupUid(templates.addTemplates(old(database)).obj).obj.Some?) ==>
        unchanged(storage, dbWatcher) && file == old(file)
    {
      var addTemplatesResult := templates.addTemplates(database);
      if addTemplatesResult.Failed? {
        return Failed(addTemplatesResult.error);
      }
      SwapDatabase(addTemplatesResult.obj);
      var getTemplateUidResult := templates.templateGroupUid(database);
      if getTemplateUidResult.Failed? {
        return Failed(getTemplateUidResult.error);
      }
      var templateGroupUid := getTemplateUidResult.obj;
      if templateGroupUid.None? {
        return Failed(DbError(FailedToFindGroup));
      }
      SwapDatabase(database.(meta := database.meta.(entryTemplatesGroup := templateGroupUid)));
      if doCommit {
        var commitResult := Commit(now, answer);
        result := commitResult.TakeStatusWith(());
      } else {
        result := Succeeded(());
      }
    }

    // -------------------------------------------------------------------------
    // Construction

    /**
     * Creates a database with an empty root named "Database" and the recycle bin
     * switched on, optionally adds the templates, and commits it once.
     */
    static method New(storage: StorageProvider, fsOptions: FSOptions, file: FileDescriptor, key: EncryptedDatabaseKey,
                      isAddTemplates: bool, credentials: OperationResult<Credentials>, rootUuid: UUID, recycleBinUuid: UUID,
                      templates: TemplateDao, now: int, answer: StorageAnswer)
      returns (result: OperationResult<KotpassDatabase>)
      modifies storage
      ensures credentials.Failed? ==> result == Failed(credentials.error) && unchanged(storage)
      ensures !result.Deferred?
      ensures result.Succeeded? ==>
        && fresh(result.obj) && fresh(result.obj.dbWatcher)
        && result.obj.Valid()
        && result.obj.storage == storage && result.obj.fsOptions == fsOptions && result.obj.key == key
        && result.obj.file == file.(modified := Some(now))
        && CommitResult(answer).IsSucceededOrDeferred()
        && result.obj.dbWatcher.notifications == [CommitResult(answer)]
      ensures !isAddTemplates && credentials.IsSucceededOrDeferred() ==>
        && (result.Succeeded? <==> CommitResult(answer).IsSucceededOrDeferred())
        && (result.Failed? ==> result.error == CommitResult(answer).error)
        && storage.log == old(storage.log) + CommitEvents(file.(modified := Some(now)), fsOptions, answer,
             CreateRawDatabase(rootUuid, credentials.obj).(meta := Meta(true, Some(recycleBinUuid), LibraryDefaultHistoryMaxItems, None)))
      ensures isAddTemplates && credentials.IsSucceededOrDeferred() ==>
        var initial := CreateRawDatabase(rootUuid, credentials.obj).(meta := Meta(true, Some(recycleBinUuid), LibraryDefaultHistoryMaxItems, None));
        var added := templates.addTemplates(initial);
        && (added.Failed? ==> result == Failed(added.error) && storage.log == old(storage.log))
        && (added.IsSucceededOrDeferred() ==>
             var uid := templates.templateGroupUid(added.obj);
             && (uid.Failed? ==> result == Failed(uid.error) && storage.log == old(storage.log))
             && (uid.IsSucceededOrDeferred() && uid.obj.None? ==>
                  result == Failed(DbError(FailedToFindGroup)) && storage.log == old(storage.log))
             && (uid.IsSucceededOrDeferred() && uid.obj.Some? ==>
                  var withTemplates := added.obj.(meta := added.obj.meta.(entryTemplatesGroup := uid.obj));
                  && (result.Succeeded? <==> CommitResult(answer).IsSucceededOrDeferred())
                  && (result.Failed? ==> result.error == CommitResult(answer).error)
                  && storage.log == old(storage.log) + CommitEvents(file.(modified := Some(now)), fsOptions, answer, withTemplates)
                  && (result.Succeeded? ==> result.obj.database == withTemplates)))
      ensures !isAddTemplates && result.Succeeded? ==>
        && result.obj.database == CreateRawDatabase(rootUuid, credentials.obj).(meta := Meta(true, Some(recycleBinUuid), LibraryDefaultHistoryMaxItems, None))
        && result.obj.database.root == CreateRawDatabase(rootUuid, credentials.obj).root
        && result.obj.database.meta.recycleBinEnabled
        && result.obj.database.meta.recycleBinUuid == Some(recycleBinUuid)
        && (recycleBinUuid != rootUuid ==> result.obj.GetRecycleBinGroup() == Succeeded(None))
    {
      if credentials.Failed? {
        return Failed(credentials.error);
      }
      var rawDb := CreateRawDatabase(rootUuid, credentials.obj);
      var db := new KotpassDatabase(storage, fsOptions, file, key, rawDb);
      var setupRecycleBinResult := db.SetupRecycleBin(recycleBinUuid);
      if isAddTemplates {
        var setupTemplatesResult := db.SetupTemplates(false, templates, now, answer);
        if setupTemplatesResult.Failed? {
          return Failed(setupTemplatesResult.error);
        }
      }
      var commitResult := db.Commit(now, answer);
      if commitResult.Failed? {
        return Failed(commitResult.error);
      }
      result := Succeeded(db);
    }

    /**
     * Decodes an existing database from `content` with the credentials of `key`.
     * The stream is closed once decoding has been attempted, whatever its outcome.
     */
    static method Open(storage: StorageProvider, fsOptions: FSOptions, file: FileDescriptor, content: OperationResult<InputStream>,
                       key: EncryptedDatabaseKey, credentials: OperationResult<Credentials>, decoded: DecodeAnswer)
      returns (result: OperationResult<KotpassDatabase>)
      modifies if content.IsSucceededOrDeferred() then {content.obj} else {}
      ensures content.Failed? ==> result == Failed(content.error)
      ensures content.IsSucceededOrDeferred() && credentials.Failed? ==>
        result == Failed(credentials.error) && unchanged(content.obj)
      ensures content.IsSucceededOrDeferred() && credentials.IsSucceededOrDeferred() ==>
        && content.obj.closed
        && (decoded.DecodeThrew? ==> result == Failed(DecodeFailure(decoded.exception)))
        && (decoded.Decoded? ==>
             && result.Succeeded? && fresh(result.obj) && result.obj.Valid()
             && result.obj.database == decoded.db && result.obj.key == key && result.obj.file == file
             && result.obj.storage == storage && result.obj.fsOptions == fsOptions
             && fresh(result.obj.dbWatcher) && result.obj.dbWatcher.notifications == [])
    {
      if content.Failed? {
        return Failed(content.error);
      }
      var contentStream := content.obj;
      if credentials.Failed? {
        return Failed(credentials.error);
      }
      match decoded {
        case Decoded(db) =>
          var handle := new KotpassDatabase(storage, fsOptions, file, key, db);
          result := Succeeded(handle);
        case DecodeThrew(e) =>
          result := Failed(DecodeFailure(e));
      }
      contentStream.Close();
    }
  }

  /** The entries listed by the walk from `root` are those held by groups of its subtree. */
  lemma SubtreeEntries(root: Group, tree: seq<Entry>, uid: UUID)
    requires multiset(tree) == multiset(EntriesOf(Flatten(root)))
    ensures (exists e | e in tree :: e.uuid == uid) <==> exists g, e | g in Flatten(root) && e in g.entries :: e.uuid == uid
  {
    forall e
      ensures e in tree <==> e in EntriesOf(Flatten(root))
    {
      assert e in tree <==> e in multiset(tree);
      assert e in EntriesOf(Flatten(root)) <==> e in multiset(EntriesOf(Flatten(root)));
      EntriesOfMember(Flatten(root), e);
    }
    forall e
      ensures e in EntriesOf(Flatten(root)) <==> exists g | g in Flatten(root) :: e in g.entries
    {
      EntriesOfMember(Flatten(root), e);
    }
  }
}
