/**
 The objects of one company, its quota counters, and the operations that write
 both (apps/storage/services.py, apps/storage/quotas.py). Every operation is one
 transaction: it either commits the new state or leaves the old one.
 */
module ObjectStore {
  import opened Prelude
  import opened Paths

  datatype StoredObject = StoredObject(bucketId: nat, name: string, size: nat, ownerId: Option<nat>)

  type Objects = map<nat, StoredObject>

  datatype UserQuota = UserQuota(maxBytes: nat, usedBytes: int)

  /** The company counter with its limit (0: none), the default per-user limit, and the per-user rows. */
  datatype Quotas = Quotas(maxBytes: nat, usedBytes: int, maxBytesPerUser: Option<nat>, users: map<nat, UserQuota>)

  datatype State = State(objects: Objects, quotas: Quotas)

  /** What the bucket says about an upload: whether its MIME type is allowed, and the largest size. */
  datatype Policy = Policy(mimeAllowed: bool, maxBytes: nat)

  /** Where a copy or a move goes: a bucket of this company, or one of another, where the name may be taken. */
  datatype Destination = Own(bucketId: nat) | Foreign(taken: bool)

  datatype StorageError =
    | InvalidPath(reason: PathError)
    | InvalidMimeType
    | ResourceAlreadyExists
    | PayloadTooLarge
    | CompanyQuotaExceeded
    | UserQuotaExceeded
    | NameTooLong
    | DuplicateId
    | ObjectNotFound
    | FolderNotFound
    | InvalidDestination
    | Forbidden

  // ------------------------------------------------------------------ quotas

  function Clamp(n: int): int { if n < 0 then 0 else n }

  /** The limit that applies to a user: the user's own row, else the company default. */
  function ResolveUserLimit(q: Quotas, user: Option<nat>): Option<nat> {
    if user.None? then None
    else if user.value in q.users then Some(q.users[user.value].maxBytes)
    else if q.maxBytesPerUser.None? || q.maxBytesPerUser.value == 0 then None
    else q.maxBytesPerUser
  }

  function UserUsed(q: Quotas, user: Option<nat>): int {
    if user.Some? && user.value in q.users then q.users[user.value].usedBytes else 0
  }

  function AssertCanStore(q: Quotas, user: Option<nat>, additional: nat, replacing: nat): Option<StorageError> {
    var delta := additional - replacing;
    var userMax := ResolveUserLimit(q, user);
    if delta <= 0 then None
    else if q.maxBytes != 0 && q.usedBytes + delta > q.maxBytes then Some(CompanyQuotaExceeded)
    else if userMax.Some? && userMax.value != 0 &&
      UserUsed(q, user) + delta > userMax.value then Some(UserQuotaExceeded)
    else None
  }

  function ApplyUserDelta(q: Quotas, user: Option<nat>, delta: int): map<nat, UserQuota> {
    var userMax := ResolveUserLimit(q, user);
    if userMax.None? then q.users
    else
      q.users[user.value := UserQuota(userMax.value, Clamp(UserUsed(q, user) + delta))]
  }

  function ApplyUsageDelta(q: Quotas, user: Option<nat>, delta: int): Quotas {
    if delta == 0 then q
    else q.(usedBytes := Clamp(q.usedBytes + delta), users := ApplyUserDelta(q, user, delta))
  }

  // ----------------------------------------------------------------- objects

  predicate At(objects: Objects, bucketId: nat, name: string, id: nat) {
    id in objects && objects[id].bucketId == bucketId && objects[id].name == name
  }

  ghost predicate Taken(objects: Objects, bucketId: nat, name: string) {
    exists id :: At(objects, bucketId, name, id)
  }

  /** The database constraint: one object per bucket and name. */
  ghost predicate UniqueObjectNames(objects: Objects) {
    forall i, j | i in objects && j in objects ::
      objects[i].bucketId == objects[j].bucketId && objects[i].name == objects[j].name ==> i == j
  }

  ghost predicate StorableNames(objects: Objects) {
    forall id :: id in objects ==> Clean(objects[id].name) && |objects[id].name| <= MAX_NAME
  }

  /** The name is taken at the destination. */
  ghost predicate TakenAt(objects: Objects, to: Destination, name: string) {
    match to
    case Own(bucketId) => Taken(objects, bucketId, name)
    case Foreign(taken) => taken
  }

  ghost function Lookup(objects: Objects, bucketId: nat, name: string): (r: Option<nat>)
    ensures r.Some? <==> Taken(objects, bucketId, name)
    ensures r.Some? ==> At(objects, bucketId, name, r.value)
  {
    if Taken(objects, bucketId, name) then
      var id :| At(objects, bucketId, name, id);
      Some(id)
    else None
  }

  lemma LookupIs(objects: Objects, bucketId: nat, name: string, id: nat)
    requires UniqueObjectNames(objects) && At(objects, bucketId, name, id)
    ensures Lookup(objects, bucketId, name) == Some(id)
  {
  }

  predicate InFolder(o: StoredObject, bucketId: nat, folder: string) {
    o.bucketId == bucketId && StartsWith(o.name, folder + "/")
  }

  function Sizes(objects: Objects): map<nat, int> {
    map id | id in objects :: objects[id].size
  }

  ghost function TotalSize(objects: Objects): int {
    Sum(Sizes(objects))
  }

  lemma TotalWithout(objects: Objects, id: nat)
    requires id in objects
    ensures TotalSize(objects - {id}) == TotalSize(objects) - objects[id].size
  {
    SumRemove(Sizes(objects), id);
    assert Sizes(objects - {id}) == Sizes(objects) - {id};
  }

  lemma TotalPut(objects: Objects, id: nat, o: StoredObject)
    ensures TotalSize(objects[id := o]) == TotalSize(objects) + o.size - if id in objects then objects[id].size else 0
  {
    assert Sizes(objects[id := o]) == Sizes(objects)[id := o.size];
    if id in objects { SumUpdate(Sizes(objects), id, o.size); } else { SumInsert(Sizes(objects), id, o.size); }
  }

  lemma TotalNonNegative(objects: Objects)
    ensures TotalSize(objects) >= 0
  {
    SumNonNegative(Sizes(objects));
  }

  /** What every committed state keeps. */
  ghost predicate Consistent(s: State) {
    UniqueObjectNames(s.objects) && StorableNames(s.objects) &&
    s.quotas.usedBytes == TotalSize(s.objects) &&
    forall u :: u in s.quotas.users ==> s.quotas.users[u].usedBytes >= 0
  }

  // -------------------------------------------------------------- operations

  /** An object after an overwrite: the owner changes only when the upload names one. */
  function Overwritten(o: StoredObject, size: nat, owner: Option<nat>): StoredObject {
    o.(size := size, ownerId := if owner.Some? then owner else o.ownerId)
  }

  ghost function Upload(s: State, bucketId: nat, path: string, size: nat, owner: Option<nat>, upsert: bool,
                        policy: Policy, newId: nat)
    : Result<State, StorageError>
  {
    var safe := SafeObjectPath(path);
    if safe.Err? then Err(InvalidPath(safe.error))
    else if !policy.mimeAllowed then Err(InvalidMimeType) else
    var existing := Lookup(s.objects, bucketId, safe.value);
    if existing.Some? && !upsert then Err(ResourceAlreadyExists)
    else if size > policy.maxBytes then Err(PayloadTooLarge)
    else
      var replacing := if existing.Some? then s.objects[existing.value].size else 0;
      var refused := AssertCanStore(s.quotas, owner, size, replacing);
      if refused.Some? then Err(refused.value)
      else if existing.Some? then
        var o := s.objects[existing.value];
        Ok(State(s.objects[existing.value := Overwritten(o, size, owner)],
                 ApplyUsageDelta(s.quotas, owner, size - replacing)))
      else if |safe.value| > MAX_NAME then Err(NameTooLong)
      else if newId in s.objects then Err(DuplicateId)
      else Ok(State(s.objects[newId := StoredObject(bucketId, safe.value, size, owner)],
        ApplyUsageDelta(s.quotas, owner, size)))
  }

  ghost function Copy(s: State, bucketId: nat, source: string, to: Destination, dest: string, owner: Option<nat>,
                      newId: nat)
    : Result<State, StorageError>
  {
    var from, name := SafeObjectPath(source), SafeObjectPath(dest);
    if from.Err? then Err(InvalidPath(from.error))
    else if name.Err? then Err(InvalidPath(name.error))
    else if !Taken(s.objects, bucketId, from.value) then Err(ObjectNotFound)
    else if TakenAt(s.objects, to, name.value) then Err(ResourceAlreadyExists)
    else if to.Foreign? then Err(Forbidden)
    else
      var id := Lookup(s.objects, bucketId, from.value).value;
      var src := s.objects[id];
      var refused := AssertCanStore(s.quotas, owner, src.size, 0);
      var newOwner := if owner.Some? then owner else src.ownerId;
      if refused.Some? then Err(refused.value)
      else if |name.value| > MAX_NAME then Err(NameTooLong)
      else if newId in s.objects then Err(DuplicateId)
      else Ok(State(s.objects[newId := StoredObject(to.bucketId, name.value, src.size, newOwner)],
                    ApplyUsageDelta(s.quotas, newOwner, src.size)))
  }

  ghost function Move(s: State, bucketId: nat, source: string, to: Destination,
                      dest: string): Result<State, StorageError> {
    var from, name := SafeObjectPath(source), SafeObjectPath(dest);
    if from.Err? then Err(InvalidPath(from.error))
    else if name.Err? then Err(InvalidPath(name.error))
    else if !Taken(s.objects, bucketId, from.value) then Err(ObjectNotFound)
    else if TakenAt(s.objects, to, name.value) then Err(ResourceAlreadyExists)
    else if to.Foreign? then Err(Forbidden)
    else if |name.value| > MAX_NAME then Err(NameTooLong)
    else
      var id := Lookup(s.objects, bucketId, from.value).value;
      Ok(s.(objects := s.objects[id := s.objects[id].(bucketId := to.bucketId, name := name.value)]))
  }

  /** One name after a folder rename. */
  function RenamedName(o: StoredObject, bucketId: nat, src: string, dst: string): string {
    if InFolder(o, bucketId, src) then dst + o.name[|src|..] else o.name
  }

  function RenamedObjects(objects: Objects, bucketId: nat, src: string, dst: string): Objects {
    map id | id in objects :: objects[id].(name := RenamedName(objects[id], bucketId, src, dst))
  }

  ghost function RenameFolder(s: State, bucketId: nat, source: string, dest: string): Result<State, StorageError> {
    var from, to := SafeObjectPath(source), SafeObjectPath(dest);
    if from.Err? then Err(InvalidPath(from.error))
    else if to.Err? then Err(InvalidPath(to.error))
    else if from.value == to.value then Ok(s)
    else if StartsWith(to.value, from.value + "/") then Err(InvalidDestination)
    else if forall id :: id in s.objects ==> !InFolder(s.objects[id], bucketId, from.value) then Err(FolderNotFound)
    else if (exists id :: id in s.objects && InFolder(s.objects[id], bucketId, to.value)) ||
      Taken(s.objects, bucketId, to.value)
    then Err(ResourceAlreadyExists)
    else
      var renamed := RenamedObjects(s.objects, bucketId, from.value, to.value);
      if exists id :: id in renamed && |renamed[id].name| > MAX_NAME then Err(NameTooLong)
      else Ok(s.(objects := renamed))
  }

  /** One delete: the row goes if it is still there, and its size, read beforehand, is given back. */
  function DeleteOne(s: State, read: Objects, id: nat): State
    requires id in read
  {
    var size: int := read[id].size;
    State(s.objects - {id}, ApplyUsageDelta(s.quotas, read[id].ownerId, -size))
  }

  function DeleteAll(s: State, read: Objects, ids: seq<nat>): State
    requires forall i :: 0 <= i < |ids| ==> ids[i] in read
    decreases |ids|
  {
    if ids == [] then s else DeleteAll(DeleteOne(s, read, ids[0]), read, ids[1..])
  }

  /** The objects a list of paths names, in order; unreadable paths and missing names are skipped. */
  ghost function Hits(objects: Objects, bucketId: nat, paths: seq<string>): (ids: seq<nat>)
    ensures forall i :: 0 <= i < |ids| ==> ids[i] in objects
  {
    if paths == [] then [] else
      var safe := SafeObjectPath(paths[0]);
      var rest := Hits(objects, bucketId, paths[1..]);
      if safe.Ok? && Taken(objects, bucketId, safe.value) then
        [Lookup(objects, bucketId, safe.value).value] + rest else rest
  }

  ghost function DeletePaths(s: State, bucketId: nat, paths: seq<string>,
                             writable: set<nat>): Result<State, StorageError> {
    var ids := Hits(s.objects, bucketId, paths);
    if exists i :: 0 <= i < |ids| && ids[i] !in writable then Err(Forbidden)
    else Ok(DeleteAll(s, s.objects, ids))
  }

  function PrefixFilter(folder: string): string {
    var p := Trim(folder, IsSlash);
    if p == "" then "" else p + "/"
  }

  function UnderPrefix(objects: Objects, bucketId: nat, folder: string): set<nat> {
    set id | id in objects && objects[id].bucketId == bucketId && StartsWith(objects[id].name, PrefixFilter(folder))
  }

  /** `ids` lists the objects under the folder, each once, in the order the database returns them. */
  ghost predicate Lists(ids: seq<nat>, found: set<nat>) {
    (forall i, j :: 0 <= i < j < |ids| ==> ids[i] != ids[j]) && found == set i | 0 <= i < |ids| :: ids[i]
  }

  ghost function DeleteUnderPrefix(s: State, bucketId: nat, folder: string, writable: set<nat>,
                                   order: seq<nat>): Result<State, StorageError>
    requires Lists(order, UnderPrefix(s.objects, bucketId, folder))
  {
    assert forall i :: 0 <= i < |order| ==> order[i] in UnderPrefix(s.objects, bucketId, folder);
    if exists i :: 0 <= i < |order| && order[i] !in writable then Err(Forbidden)
    else Ok(DeleteAll(s, s.objects, order))
  }
}
