/**
 What the operations of the store do, read off the objects before and after, and when each of them is
 refused (apps/storage/services.py:246-746).
 */
module StoreLaws {
  import opened Prelude
  import opened Paths
  import opened ObjectStore
  import opened StoreRuns

  /** All objects but one are the same before and after. */
  ghost predicate SameBut(before: Objects, after: Objects, changed: nat) {
    forall id :: id != changed ==>
      (id in after <==> id in before) && (id in before ==> id in after && after[id] == before[id])
  }

  // ---------------------------------------------------------------- refusals

  /** The growth takes the company over its limit. */
  predicate OverCompany(q: Quotas, growth: int) { growth > 0 && q.maxBytes > 0 && q.usedBytes + growth > q.maxBytes }

  /** The growth takes the user over the own limit, or over the default of the company. */
  predicate OverUser(q: Quotas, user: Option<nat>, growth: int) {
    growth > 0 && user.Some? &&
    if user.value in q.users then
      var own := q.users[user.value];
      own.maxBytes > 0 && own.usedBytes + growth > own.maxBytes
    else q.maxBytesPerUser.Some? && 0 < q.maxBytesPerUser.value < growth
  }

  /** The order in which the operations check. */
  function Rank(e: StorageError): nat {
    match e
    case InvalidPath(_) => 0
    case InvalidMimeType => 1
    case InvalidDestination => 1
    case ObjectNotFound => 1
    case FolderNotFound => 2
    case ResourceAlreadyExists => 3
    case Forbidden => 4
    case PayloadTooLarge => 4
    case CompanyQuotaExceeded => 5
    case UserQuotaExceeded => 6
    case NameTooLong => 7
    case DuplicateId => 8
  }

  /** The size that an upload to this name replaces. */
  ghost predicate Replaces(objects: Objects, bucketId: nat, name: string, size: nat) {
    if Taken(objects, bucketId, name) then exists id :: At(objects, bucketId, name, id) && objects[id].size == size
    else size == 0
  }

  /** The upload has this fault. */
  ghost predicate UploadFault(s: State, b: nat, path: string, size: nat, owner: Option<nat>, upsert: bool,
                              policy: Policy, newId: nat, e: StorageError) {
    var safe := SafeObjectPath(path);
    match e
    case InvalidPath(reason) => safe == Err(reason)
    case InvalidMimeType => !policy.mimeAllowed
    case ResourceAlreadyExists => safe.Ok? && Taken(s.objects, b, safe.value) && !upsert
    case PayloadTooLarge => size > policy.maxBytes
    case CompanyQuotaExceeded =>
      safe.Ok? && exists was: nat :: Replaces(s.objects, b, safe.value, was) && OverCompany(s.quotas, size - was)
    case UserQuotaExceeded =>
      safe.Ok? && exists was: nat :: Replaces(s.objects, b, safe.value, was) && OverUser(s.quotas, owner, size - was)
    case NameTooLong => safe.Ok? && !Taken(s.objects, b, safe.value) && |safe.value| > MAX_NAME
    case DuplicateId => safe.Ok? && !Taken(s.objects, b, safe.value) && newId in s.objects
    case _ => false
  }

  lemma ReplacedSize(objects: Objects, b: nat, name: string, was: nat)
    requires UniqueObjectNames(objects)
    ensures Replaces(objects, b, name, was) <==>
      var existing := Lookup(objects, b, name); was == if existing.Some? then objects[existing.value].size else 0
  {
    if Taken(objects, b, name) {
      var id :| At(objects, b, name, id);
      LookupIs(objects, b, name, id);
    }
  }

  /** What the check of the limits refuses. */
  lemma ChecksLimits(q: Quotas, user: Option<nat>, size: nat, was: nat)
    ensures var r := AssertCanStore(q, user, size, was);
            (r.None? <==> !OverCompany(q, size - was) && !OverUser(q, user, size - was))
            && (r == Some(CompanyQuotaExceeded) <==> OverCompany(q, size - was))
            && (r == Some(UserQuotaExceeded) <==> OverUser(q, user, size - was) && !OverCompany(q, size - was))
  {
  }

  /** An upload is refused if and only if it has a fault, and then for its first one. */
  lemma UploadRefusals(s: State, b: nat, path: string, size: nat, owner: Option<nat>, upsert: bool, policy: Policy,
                       newId: nat)
    requires Consistent(s)
    ensures var r := Upload(s, b, path, size, owner, upsert, policy, newId);
            r.Err? ==> UploadFault(s, b, path, size, owner, upsert, policy, newId, r.error)
    ensures forall e :: UploadFault(s, b, path, size, owner, upsert, policy, newId, e) ==>
      var r := Upload(s, b, path, size, owner, upsert, policy, newId); r.Err? && Rank(r.error) <= Rank(e)
  {
    var safe := SafeObjectPath(path);
    if safe.Ok? {
      var existing := Lookup(s.objects, b, safe.value);
      var was := if existing.Some? then s.objects[existing.value].size else 0;
      ReplacedSize(s.objects, b, safe.value, was);
      forall other: nat ensures Replaces(s.objects, b, safe.value, other) <==> other == was {
        ReplacedSize(s.objects, b, safe.value, other);
      }
      ChecksLimits(s.quotas, owner, size, was);
    }
  }

  /** What the two paths of a copy, a move or a rename are refused for. */
  predicate BadPath(source: string, dest: string, reason: PathError) {
    var from, name := SafeObjectPath(source), SafeObjectPath(dest);
    from == Err(reason) || (from.Ok? && name == Err(reason))
  }

  ghost predicate SourceIs(s: State, b: nat, source: string, id: nat) {
    SafeObjectPath(source).Ok? && At(s.objects, b, SafeObjectPath(source).value, id)
  }

  ghost predicate NoSource(s: State, b: nat, source: string) {
    SafeObjectPath(source).Ok? && !Taken(s.objects, b, SafeObjectPath(source).value)
  }

  ghost predicate CopyFault(s: State, b: nat, source: string, to: Destination, dest: string, owner: Option<nat>,
                            newId: nat, e: StorageError) {
    var name := SafeObjectPath(dest);
    match e
    case InvalidPath(reason) => BadPath(source, dest, reason)
    case ObjectNotFound => NoSource(s, b, source)
    case ResourceAlreadyExists => name.Ok? && TakenAt(s.objects, to, name.value)
    case Forbidden => to.Foreign?
    case CompanyQuotaExceeded => exists id :: SourceIs(s, b, source, id) && OverCompany(s.quotas, s.objects[id].size)
    case UserQuotaExceeded => exists id :: SourceIs(s, b, source, id) && OverUser(s.quotas, owner, s.objects[id].size)
    case NameTooLong => name.Ok? && |name.value| > MAX_NAME
    case DuplicateId => newId in s.objects
    case _ => false
  }

  /** The same for copies: only the user named in the call is asked for room. */
  lemma CopyRefusals(s: State, b: nat, source: string, to: Destination, dest: string, owner: Option<nat>, newId: nat)
    requires Consistent(s)
    ensures var r := Copy(s, b, source, to, dest, owner, newId);
            r.Err? ==> CopyFault(s, b, source, to, dest, owner, newId, r.error)
    ensures forall e :: CopyFault(s, b, source, to, dest, owner, newId, e) ==>
      var r := Copy(s, b, source, to, dest, owner, newId); r.Err? && Rank(r.error) <= Rank(e)
  {
    var from := SafeObjectPath(source);
    if from.Ok? && Taken(s.objects, b, from.value) {
      var src := Lookup(s.objects, b, from.value).value;
      SourceIsLookup(s, b, source);
      ChecksLimits(s.quotas, owner, s.objects[src].size, 0);
    }
  }

  lemma SourceIsLookup(s: State, b: nat, source: string)
    requires UniqueObjectNames(s.objects) && SafeObjectPath(source).Ok?
    requires Taken(s.objects, b, SafeObjectPath(source).value)
    ensures forall id :: SourceIs(s, b, source, id) <==> id == Lookup(s.objects, b, SafeObjectPath(source).value).value
  {
    forall id | SourceIs(s, b, source, id) ensures id == Lookup(s.objects, b, SafeObjectPath(source).value).value {
      LookupIs(s.objects, b, SafeObjectPath(source).value, id);
    }
  }

  ghost predicate MoveFault(s: State, b: nat, source: string, to: Destination, dest: string, e: StorageError) {
    var name := SafeObjectPath(dest);
    match e
    case InvalidPath(reason) => BadPath(source, dest, reason)
    case ObjectNotFound => NoSource(s, b, source)
    case ResourceAlreadyExists => name.Ok? && TakenAt(s.objects, to, name.value)
    case Forbidden => to.Foreign?
    case NameTooLong => name.Ok? && |name.value| > MAX_NAME
    case _ => false
  }

  lemma MoveRefusals(s: State, b: nat, source: string, to: Destination, dest: string)
    requires Consistent(s)
    ensures var r := Move(s, b, source, to, dest);
            r.Err? ==> MoveFault(s, b, source, to, dest, r.error)
    ensures forall e :: MoveFault(s, b, source, to, dest, e) ==>
      var r := Move(s, b, source, to, dest); r.Err? && Rank(r.error) <= Rank(e)
  {
    var from := SafeObjectPath(source);
    if from.Ok? && Taken(s.objects, b, from.value) { SourceIsLookup(s, b, source); }
  }

  // ------------------------------------------------------------ what is stored

  /**
   An upload puts an object of its size under the normalised name: the one that was there, with its
   owner changed only to one that is named, or a new one. Nothing else changes, and the counter of the
   company changes by the difference.
   */
  lemma UploadStores(s: State, b: nat, path: string, size: nat, owner: Option<nat>, upsert: bool, policy: Policy,
                     newId: nat, id: nat)
    requires Consistent(s) && Upload(s, b, path, size, owner, upsert, policy, newId).Ok?
    requires var name := SafeObjectPath(path).value;
             if Taken(s.objects, b, name) then At(s.objects, b, name, id) else id == newId
    ensures var name := SafeObjectPath(path).value;
            var z := Upload(s, b, path, size, owner, upsert, policy, newId).value;
            var known := Taken(s.objects, b, name);
            At(z.objects, b, name, id) && z.objects[id].size == size && SameBut(s.objects, z.objects, id)
            && z.objects[id].ownerId == (if known && owner.None? then s.objects[id].ownerId else owner)
            && (!known ==> id !in s.objects)
            && z.quotas.usedBytes == s.quotas.usedBytes + size - (if known then s.objects[id].size else 0)
  {
    var name := SafeObjectPath(path).value;
    if Taken(s.objects, b, name) { LookupIs(s.objects, b, name, id); }
    UploadKeeps(s, b, path, size, owner, upsert, policy, newId);
    TotalPut(s.objects, id, Upload(s, b, path, size, owner, upsert, policy, newId).value.objects[id]);
  }

  /** A copy puts a new object of the source's size at the destination and leaves all else as it was. */
  lemma CopyStores(s: State, b: nat, source: string, to: Destination, dest: string, owner: Option<nat>, newId: nat,
                   src: nat)
    requires Consistent(s) && Copy(s, b, source, to, dest, owner, newId).Ok? && SourceIs(s, b, source, src)
    ensures var z := Copy(s, b, source, to, dest, owner, newId).value;
            to.Own? && newId !in s.objects && At(z.objects, to.bucketId, SafeObjectPath(dest).value, newId)
            && z.objects[newId].size == s.objects[src].size && SameBut(s.objects, z.objects, newId)
            && z.objects[newId].ownerId == (if owner.Some? then owner else s.objects[src].ownerId)
            && z.quotas.usedBytes == s.quotas.usedBytes + s.objects[src].size
  {
    SourceIsLookup(s, b, source);
    CopyKeeps(s, b, source, to, dest, owner, newId);
    TotalPut(s.objects, newId, Copy(s, b, source, to, dest, owner, newId).value.objects[newId]);
  }

  /**
   A move takes the object that stood at the source to the destination, with its id, size and owner.
   The name of the source is free afterwards, and every other object and the counters are as before.
   */
  lemma MoveMoves(s: State, b: nat, source: string, to: Destination, dest: string, id: nat)
    requires Consistent(s) && Move(s, b, source, to, dest).Ok? && SourceIs(s, b, source, id)
    ensures var z := Move(s, b, source, to, dest).value;
            to.Own? && At(z.objects, to.bucketId, SafeObjectPath(dest).value, id)
            && z.objects[id].size == s.objects[id].size && z.objects[id].ownerId == s.objects[id].ownerId
            && SameBut(s.objects, z.objects, id) && z.quotas == s.quotas
            && !Taken(z.objects, b, SafeObjectPath(source).value)
  {
    SourceIsLookup(s, b, source);
    var z := Move(s, b, source, to, dest).value;
    var from := SafeObjectPath(source).value;
    forall i ensures !At(z.objects, b, from, i) { SourceLeaves(s.objects, z.objects, b, from, id, i); }
  }

  lemma SourceLeaves(before: Objects, after: Objects, b: nat, from: string, id: nat, i: nat)
    requires UniqueObjectNames(before) && At(before, b, from, id) && SameBut(before, after, id)
    requires !At(after, b, from, id)
    ensures !At(after, b, from, i)
  {
  }

  // ------------------------------------------------------------------ renames

  ghost predicate RenameFault(s: State, b: nat, source: string, dest: string, e: StorageError) {
    var from, to := SafeObjectPath(source), SafeObjectPath(dest);
    match e
    case InvalidPath(reason) => BadPath(source, dest, reason)
    case InvalidDestination => from.Ok? && to.Ok? && StartsWith(to.value, from.value + "/")
    case FolderNotFound =>
      from.Ok? && from != to && forall id :: id in s.objects ==> !Under(s.objects[id], b, from.value)
    case ResourceAlreadyExists => to.Ok? && from != to && Occupied(s.objects, b, to.value)
    case NameTooLong => from.Ok? && to.Ok? && from != to && TooLong(s.objects, b, from.value, to.value)
    case _ => false
  }

  /** Something is stored at the folder or below it. */
  ghost predicate Occupied(objects: Objects, b: nat, folder: string) {
    exists id | id in objects :: objects[id].bucketId == b && Inside(folder, objects[id].name)
  }

  ghost predicate TooLong(objects: Objects, b: nat, src: string, dst: string) {
    exists id | id in objects :: Under(objects[id], b, src) && |dst| + |objects[id].name| - |src| > MAX_NAME
  }

  /** In the bucket and below the folder. */
  predicate Under(o: StoredObject, b: nat, folder: string) { o.bucketId == b && StartsWith(o.name, folder + "/") }

  lemma RenameRefusals(s: State, b: nat, source: string, dest: string)
    requires Consistent(s)
    ensures var r := RenameFolder(s, b, source, dest);
            r.Err? ==> RenameFault(s, b, source, dest, r.error)
    ensures forall e :: RenameFault(s, b, source, dest, e) ==>
      var r := RenameFolder(s, b, source, dest); r.Err? && Rank(r.error) <= Rank(e)
  {
    var from, to := SafeObjectPath(source), SafeObjectPath(dest);
    if from.Ok? && to.Ok? && from != to { RenameOutcome(s, b, source, dest, from.value, to.value); }
  }

  /** The refusals of two different folders, in order. */
  lemma RenameOutcome(s: State, b: nat, source: string, dest: string, from: string, to: string)
    requires SafeObjectPath(source) == Ok(from) && SafeObjectPath(dest) == Ok(to) && from != to
    requires Consistent(s)
    ensures var r := RenameFolder(s, b, source, dest);
            if StartsWith(to, from + "/") then r == Err(InvalidDestination)
            else if forall id :: id in s.objects ==> !Under(s.objects[id], b, from) then r == Err(FolderNotFound)
            else if Occupied(s.objects, b, to) then r == Err(ResourceAlreadyExists)
            else if TooLong(s.objects, b, from, to) then r == Err(NameTooLong)
            else r.Ok?
  {
    NamesThere(s.objects, b, to);
    LongNames(s.objects, b, from, to);
  }

  /** A rename of a folder to itself does nothing, whether there is such a folder or not. */
  lemma RenameToItself(s: State, b: nat, source: string, dest: string)
    requires SafeObjectPath(source).Ok? && SafeObjectPath(source) == SafeObjectPath(dest)
    ensures RenameFolder(s, b, source, dest) == Ok(s)
  {
  }

  lemma NamesThere(objects: Objects, b: nat, folder: string)
    ensures Occupied(objects, b, folder)
      <==> (exists id :: id in objects && InFolder(objects[id], b, folder)) || Taken(objects, b, folder)
  {
    if Taken(objects, b, folder) {
      var id :| At(objects, b, folder, id);
    }
    if id :| id in objects && objects[id].bucketId == b && Inside(folder, objects[id].name) {
      if objects[id].name == folder { assert At(objects, b, folder, id); }
    }
  }

  lemma LongNames(objects: Objects, b: nat, src: string, dst: string)
    requires StorableNames(objects)
    ensures var renamed := RenamedObjects(objects, b, src, dst);
            (exists id :: id in renamed && |renamed[id].name| > MAX_NAME) <==> TooLong(objects, b, src, dst)
  {
    var renamed := RenamedObjects(objects, b, src, dst);
    forall id | id in objects
      ensures |renamed[id].name|
        == if Under(objects[id], b, src) then |dst| + |objects[id].name| - |src| else |objects[id].name|
    {
    }
    if TooLong(objects, b, src, dst) {
      var id :| id in objects && Under(objects[id], b, src) && |dst| + |objects[id].name| - |src| > MAX_NAME;
      assert id in renamed;
    }
  }

  /**
   A rename of a folder to another takes each object below the source to the same place below the
   destination, with its id, size and owner, and changes no other object and no counter.
   */
  lemma RenameMoves(s: State, b: nat, source: string, dest: string, id: nat)
    requires Consistent(s) && RenameFolder(s, b, source, dest).Ok? && SafeObjectPath(source) != SafeObjectPath(dest)
    requires id in s.objects
    ensures var from, to := SafeObjectPath(source).value, SafeObjectPath(dest).value;
            var z, o := RenameFolder(s, b, source, dest).value, s.objects[id];
            z.objects.Keys == s.objects.Keys && z.quotas == s.quotas
            && (if Under(o, b, from) then
                  Under(z.objects[id], b, to) && z.objects[id].name[|to|..] == o.name[|from|..]
                  && z.objects[id].size == o.size && z.objects[id].ownerId == o.ownerId
                else z.objects[id] == o)
  {
    var from, to := SafeObjectPath(source).value, SafeObjectPath(dest).value;
    RenamesEach(s, b, source, dest);
    NewPlace(s.objects[id], b, from, to);
  }

  lemma RenamesEach(s: State, b: nat, source: string, dest: string)
    requires RenameFolder(s, b, source, dest).Ok? && SafeObjectPath(source) != SafeObjectPath(dest)
    ensures RenameFolder(s, b, source, dest).value
      == s.(objects := RenamedObjects(s.objects, b, SafeObjectPath(source).value, SafeObjectPath(dest).value))
  {
  }

  lemma NewPlace(o: StoredObject, b: nat, from: string, to: string)
    ensures var z := o.(name := RenamedName(o, b, from, to));
            if Under(o, b, from) then Under(z, b, to) && z.name[|to|..] == o.name[|from|..] else z == o
  {
    if Under(o, b, from) { MovedNameInFolder(o, b, from, to); }
  }

  // ------------------------------------------------------------------ deletes

  /** One of the paths names the object. */
  ghost predicate Asked(objects: Objects, b: nat, paths: seq<string>, id: nat) {
    id in objects && objects[id].bucketId == b
    && exists i :: 0 <= i < |paths| && SafeObjectPath(paths[i]) == Ok(objects[id].name)
  }

  lemma {:induction false} HitsAreAsked(objects: Objects, b: nat, paths: seq<string>, id: nat)
    requires UniqueObjectNames(objects)
    ensures id in Hits(objects, b, paths) <==> Asked(objects, b, paths, id)
    decreases |paths|
  {
    if paths != [] {
      HitsAreAsked(objects, b, paths[1..], id);
      var safe := SafeObjectPath(paths[0]);
      if id in objects && objects[id].bucketId == b && safe == Ok(objects[id].name) {
        assert At(objects, b, safe.value, id);
        LookupIs(objects, b, safe.value, id);
      }
      AskedSplits(objects, b, paths, id);
    }
  }

  lemma AskedSplits(objects: Objects, b: nat, paths: seq<string>, id: nat)
    requires paths != []
    ensures Asked(objects, b, paths, id)
      <==> (Asked(objects, b, paths[1..], id)
            || (id in objects && objects[id].bucketId == b && SafeObjectPath(paths[0]) == Ok(objects[id].name)))
  {
    if Asked(objects, b, paths[1..], id) {
      var i :| 0 <= i < |paths[1..]| && SafeObjectPath(paths[1..][i]) == Ok(objects[id].name);
      assert paths[i + 1] == paths[1..][i];
    }
    if Asked(objects, b, paths, id) {
      var i :| 0 <= i < |paths| && SafeObjectPath(paths[i]) == Ok(objects[id].name);
      assert i > 0 ==> paths[1..][i - 1] == paths[i];
    }
  }

  /**
   A bulk delete is refused, whole, if and only if one of the objects it names is not writable; else
   exactly the objects it names are gone. Paths that name nothing are passed over.
   */
  lemma DeletePathsExactly(s: State, b: nat, paths: seq<string>, writable: set<nat>)
    requires Consistent(s)
    ensures var r := DeletePaths(s, b, paths, writable);
            (r.Ok? <==> forall id :: Asked(s.objects, b, paths, id) ==> id in writable)
            && (r.Err? ==> r.error == Forbidden)
            && (r.Ok? ==> forall id ::
                  (id in r.value.objects <==> id in s.objects && !Asked(s.objects, b, paths, id))
                  && (id in r.value.objects ==> r.value.objects[id] == s.objects[id]))
  {
    var ids := Hits(s.objects, b, paths);
    forall id ensures id in ids <==> Asked(s.objects, b, paths, id) { HitsAreAsked(s.objects, b, paths, id); }
    TotalNonNegative(s.objects);
    assert s.objects - {} == s.objects;
    BulkDeleteCounter(s, s.objects, {}, ids);
    forall id ensures id in Elements(ids) <==> id in ids {}
    if DeletePaths(s, b, paths, writable).Err? {
      var i :| 0 <= i < |ids| && ids[i] !in writable;
      assert ids[i] in ids;
    }
  }

  /**
   A delete of a folder is refused, whole, if and only if one of the objects in it is not writable; else
   exactly those are gone. The folder is the path without slashes at its ends, or the whole bucket.
   */
  lemma DeleteUnderExactly(s: State, b: nat, folder: string, writable: set<nat>, order: seq<nat>)
    requires Consistent(s) && Lists(order, UnderPrefix(s.objects, b, folder))
    ensures var r := DeleteUnderPrefix(s, b, folder, writable, order);
            var f := Trim(folder, IsSlash);
            (r.Ok? <==> forall id :: id in s.objects && InTree(s.objects[id], b, f) ==> id in writable)
            && (r.Err? ==> r.error == Forbidden)
            && (r.Ok? ==> forall id ::
                  (id in r.value.objects <==> id in s.objects && !InTree(s.objects[id], b, f))
                  && (id in r.value.objects ==> r.value.objects[id] == s.objects[id]))
            && (r.Ok? ==> r.value.quotas.usedBytes == TotalSize(r.value.objects))
  {
    var found := UnderPrefix(s.objects, b, folder);
    forall i | 0 <= i < |order| ensures order[i] in found {}
    forall id ensures id in found <==> id in s.objects && InTree(s.objects[id], b, Trim(folder, IsSlash)) {}
    TotalNonNegative(s.objects);
    assert s.objects - {} == s.objects;
    BulkDeleteCounter(s, s.objects, {}, order);
    assert {} + Elements(order) == found;
    forall id | id in found ensures exists i :: 0 <= i < |order| && order[i] == id {}
  }

  predicate InTree(o: StoredObject, b: nat, folder: string) {
    o.bucketId == b && (folder == "" || StartsWith(o.name, folder + "/"))
  }
}
