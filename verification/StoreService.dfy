/**
 The storage service as it runs: one object whose rows and counters the
 operations write, each tied to its specification in ObjectStore.
 */
module StoreService {
  import opened Prelude
  import opened Paths
  import opened ObjectStore
  import opened StoreRuns

  lemma UploadStaysConsistent(s: State, b: nat, path: string, size: nat, owner: Option<nat>, upsert: bool,
                              policy: Policy, newId: nat)
    requires Consistent(s)
    ensures match Upload(s, b, path, size, owner, upsert, policy, newId) case Ok(t) => Consistent(t) case Err(_) => true
  {
    UploadKeeps(s, b, path, size, owner, upsert, policy, newId);
  }

  lemma HitNext(hits: seq<nat>, id: nat, rest: seq<nat>)
    ensures var all := hits + ([id] + rest); all == (hits + [id]) + rest && |hits| < |all| && all[|hits|] == id
  {
  }

  lemma HitsFrom(objects: Objects, bucketId: nat, paths: seq<string>, i: nat)
    requires i < |paths|
    ensures var safe := SafeObjectPath(paths[i]);
            var rest := Hits(objects, bucketId, paths[i + 1..]);
            Hits(objects, bucketId, paths[i..])
            == if safe.Ok? && Taken(objects, bucketId, safe.value) then
              [Lookup(objects, bucketId, safe.value).value] + rest else rest
  {
    assert paths[i..][0] == paths[i] && paths[i..][1..] == paths[i + 1..];
  }

  function Members(objects: Objects, bucketId: nat, folder: string): set<nat> {
    set id | id in objects && InFolder(objects[id], bucketId, folder)
  }

  class Store {
    var objects: Objects
    var quotas: Quotas

    ghost function View(): State
      reads this
    {
      State(objects, quotas)
    }

    constructor (maxBytes: nat, maxBytesPerUser: Option<nat>)
      ensures Consistent(View()) && objects == map[] && quotas == Quotas(maxBytes, 0, maxBytesPerUser, map[])
    {
      objects := map[];
      quotas := Quotas(maxBytes, 0, maxBytesPerUser, map[]);
      new;
      assert Sizes(objects) == map[];
    }

    /** The counters are added to, then clamped from below, company first. */
    method ApplyDelta(user: Option<nat>, delta: int)
      modifies this`quotas
      ensures quotas == ApplyUsageDelta(old(quotas), user, delta)
    {
      if delta == 0 { return; }
      var userMax := ResolveUserLimit(quotas, user);
      var used := quotas.usedBytes + delta;
      if used < 0 { used := 0; }
      quotas := quotas.(usedBytes := used);
      if user.None? || userMax.None? { return; }
      var row := if user.value in quotas.users then quotas.users[user.value] else UserQuota(userMax.value, 0);
      row := row.(usedBytes := row.usedBytes + delta);
      if row.usedBytes < 0 { row := row.(usedBytes := 0); }
      quotas := quotas.(users := quotas.users[user.value := row]);
    }

    static method FindIn(objects: Objects, bucketId: nat, name: string) returns (found: Option<nat>)
      requires UniqueObjectNames(objects)
      ensures found == Lookup(objects, bucketId, name)
    {
      var todo := objects.Keys;
      while todo != {}
        invariant todo <= objects.Keys
        invariant forall id :: id in objects.Keys - todo ==> !At(objects, bucketId, name, id)
      {
        var id :| id in todo;
        if At(objects, bucketId, name, id) {
          LookupIs(objects, bucketId, name, id);
          return Some(id);
        }
        todo := todo - {id};
      }
      return None;
    }

    method UploadObject(bucketId: nat, path: string, size: nat, owner: Option<nat>, upsert: bool, policy: Policy,
                        newId: nat)
      returns (r: Result<nat, StorageError>)
      requires Consistent(View())
      modifies this
      ensures Consistent(View())
      ensures match Upload(old(View()), bucketId, path, size, owner, upsert, policy, newId)
              case Ok(s) => r.Ok? && View() == s && r.value in objects && objects[r.value].size == size
              case Err(e) => r == Err(e) && View() == old(View())
      ensures r.Ok? ==> At(objects, bucketId, SafeObjectPath(path).value, r.value)
    {
      UploadStaysConsistent(View(), bucketId, path, size, owner, upsert, policy, newId);
      var delta, row;
      r, row, delta := PlanUpload(View(), objects, quotas, bucketId, path, size, owner, upsert, policy, newId);
      if r.Ok? {
        objects := objects[r.value := row];
        ApplyDelta(owner, delta);
      }
    }

    /** The checks of an upload; on success the row to store, under which id, and the bytes to charge. */
    static method PlanUpload(ghost s: State, objects: Objects, quotas: Quotas, bucketId: nat, path: string, size: nat,
                             owner: Option<nat>, upsert: bool, policy: Policy, newId: nat)
      returns (r: Result<nat, StorageError>, row: StoredObject, delta: int)
      requires s == State(objects, quotas) && Consistent(s)
      ensures r.Err? ==> Upload(s, bucketId, path, size, owner, upsert, policy, newId) == Err(r.error)
      ensures r.Ok? ==> row.size == size && Upload(s, bucketId, path, size, owner, upsert, policy, newId)
                        == Ok(State(objects[r.value := row], ApplyUsageDelta(quotas, owner, delta)))
      ensures r.Ok? ==> SafeObjectPath(path) == Ok(row.name) && row.bucketId == bucketId
    {
      row, delta := StoredObject(bucketId, "", size, owner), size;
      var existing, name := CheckUpload(s, objects, quotas, bucketId, path, size, owner, upsert, policy, newId);
      if existing.Err? { return Err(existing.error), row, delta; }
      if existing.value.None? {
        return Ok(newId), StoredObject(bucketId, name, size, owner), delta;
      }
      var id := existing.value.value;
      row := OverwriteRow(objects[id], size, owner);
      return Ok(id), row, size - objects[id].size;
    }

    static method OverwriteRow(o: StoredObject, size: nat, owner: Option<nat>) returns (row: StoredObject)
      ensures row == Overwritten(o, size, owner) && row.size == size
    {
      row := o.(size := size);
      if owner.Some? { row := row.(ownerId := owner); }
    }

    /** Adds an object and charges its size. */
    method Insert(id: nat, o: StoredObject, charged: Option<nat>)
      modifies this
      ensures objects == old(objects)[id := o] && quotas == ApplyUsageDelta(old(quotas), charged, o.size)
    {
      objects := objects[id := o];
      ApplyDelta(charged, o.size);
    }

    /** The checks of an upload, in order: a refusal, or the object to overwrite, if any, and the name. */
    static method CheckUpload(ghost s: State, objects: Objects, quotas: Quotas, bucketId: nat, path: string, size: nat,
                              owner: Option<nat>, upsert: bool, policy: Policy, newId: nat)
      returns (r: Result<Option<nat>, StorageError>, name: string)
      requires s == State(objects, quotas) && UniqueObjectNames(objects)
      ensures r.Ok? ==> SafeObjectPath(path) == Ok(name)
      ensures r.Ok? && r.value.Some? ==> At(objects, bucketId, name, r.value.value)
      ensures match r
              case Err(e) => Upload(s, bucketId, path, size, owner, upsert, policy, newId) == Err(e)
              case Ok(None) =>
                Upload(s, bucketId, path, size, owner, upsert, policy, newId)
                == Ok(State(objects[newId := StoredObject(bucketId, name, size, owner)],
                  ApplyUsageDelta(quotas, owner, size)))
              case Ok(Some(id)) =>
                id in objects && Upload(s, bucketId, path, size, owner, upsert, policy, newId) ==
                  Ok(State(objects[id := Overwritten(objects[id], size, owner)],
                           ApplyUsageDelta(quotas, owner, size - objects[id].size)))
    {
      name := "";
      var safe := SafeObjectPathLoop(path);
      if safe.Err? { return Err(InvalidPath(safe.error)), name; }
      name := safe.value;
      if !policy.mimeAllowed { return Err(InvalidMimeType), name; }
      var existing := FindIn(objects, bucketId, name);
      if existing.Some? && !upsert { return Err(ResourceAlreadyExists), name; }
      if size > policy.maxBytes { return Err(PayloadTooLarge), name; }
      var replacing := if existing.Some? then objects[existing.value].size else 0;
      var refused := AssertCanStore(quotas, owner, size, replacing);
      if refused.Some? { return Err(refused.value), name; }
      if existing.None? && |name| > MAX_NAME { return Err(NameTooLong), name; }
      if existing.None? && newId in objects { return Err(DuplicateId), name; }
      return Ok(existing), name;
    }

    /** Is the name taken where a copy or a move goes? */
    static method TakenThere(objects: Objects, to: Destination, name: string) returns (taken: bool)
      requires UniqueObjectNames(objects)
      ensures taken <==> TakenAt(objects, to, name)
    {
      if to.Foreign? { return to.taken; }
      var found := FindIn(objects, to.bucketId, name);
      taken := found.Some?;
    }

    method CopyObject(bucketId: nat, source: string, to: Destination, dest: string, owner: Option<nat>, newId: nat)
      returns (r: Result<nat, StorageError>)
      requires Consistent(View())
      modifies this
      ensures Consistent(View())
      ensures match Copy(old(View()), bucketId, source, to, dest, owner, newId)
              case Ok(s) => r == Ok(newId) && View() == s
              case Err(e) => r == Err(e) && View() == old(View())
    {
      CopyKeeps(View(), bucketId, source, to, dest, owner, newId);
      var from := SafeObjectPathLoop(source);
      if from.Err? { return Err(InvalidPath(from.error)); }
      var name := SafeObjectPathLoop(dest);
      if name.Err? { return Err(InvalidPath(name.error)); }
      var id := FindIn(objects, bucketId, from.value);
      if id.None? { return Err(ObjectNotFound); }
      var taken := TakenThere(objects, to, name.value);
      if taken { return Err(ResourceAlreadyExists); }
      if to.Foreign? { return Err(Forbidden); }
      var src := objects[id.value];
      var refused := AssertCanStore(quotas, owner, src.size, 0);
      if refused.Some? { return Err(refused.value); }
      if |name.value| > MAX_NAME { return Err(NameTooLong); }
      if newId in objects { return Err(DuplicateId); }
      var newOwner := if owner.Some? then owner else src.ownerId;
      Insert(newId, StoredObject(to.bucketId, name.value, src.size, newOwner), newOwner);
      return Ok(newId);
    }

    method MoveObject(bucketId: nat, source: string, to: Destination, dest: string)
      returns (r: Result<nat, StorageError>)
      requires Consistent(View())
      modifies this`objects
      ensures Consistent(View())
      ensures match Move(old(View()), bucketId, source, to, dest)
              case Ok(s) => r.Ok? && View() == s
              case Err(e) => r == Err(e) && View() == old(View())
      ensures r.Ok? ==> At(old(objects), bucketId, SafeObjectPath(source).value, r.value)
      ensures r.Ok? ==> to.Own? && At(objects, to.bucketId, SafeObjectPath(dest).value, r.value)
    {
      MoveKeeps(View(), bucketId, source, to, dest);
      var from := SafeObjectPathLoop(source);
      if from.Err? { return Err(InvalidPath(from.error)); }
      var name := SafeObjectPathLoop(dest);
      if name.Err? { return Err(InvalidPath(name.error)); }
      var id := FindIn(objects, bucketId, from.value);
      if id.None? { return Err(ObjectNotFound); }
      var taken := TakenThere(objects, to, name.value);
      if taken { return Err(ResourceAlreadyExists); }
      if to.Foreign? { return Err(Forbidden); }
      if |name.value| > MAX_NAME { return Err(NameTooLong); }
      var o := objects[id.value].(name := name.value);
      if bucketId != to.bucketId { o := o.(bucketId := to.bucketId); }
      objects := objects[id.value := o];
      return Ok(id.value);
    }

    /** Checks the destination, then rewrites the names under the source. */
    method RenameObjectsUnder(bucketId: nat, source: string, dest: string) returns (r: Result<nat, StorageError>)
      requires Consistent(View())
      modifies this`objects
      ensures Consistent(View())
      ensures match RenameFolder(old(View()), bucketId, source, dest)
              case Ok(s) => r.Ok? && View() == s && r.value ==
                if SafeObjectPath(source) == SafeObjectPath(dest) then 0
                else |Members(old(objects), bucketId, SafeObjectPath(source).value)|
              case Err(e) => r == Err(e) && View() == old(View())
    {
      RenameKeeps(View(), bucketId, source, dest);
      var rows;
      r, rows := PlanRename(View(), objects, bucketId, source, dest);
      if r.Ok? { objects := rows; }
    }

    /** Checks the rename and rewrites the names; nothing is stored unless the result is Ok. */
    static method PlanRename(ghost s: State, objects: Objects, bucketId: nat, source: string, dest: string)
      returns (r: Result<nat, StorageError>, rows: Objects)
      requires Consistent(s) && s.objects == objects
      ensures match RenameFolder(s, bucketId, source, dest)
              case Ok(t) => r.Ok? && t == s.(objects := rows) && r.value ==
                if SafeObjectPath(source) == SafeObjectPath(dest) then 0
                else |Members(objects, bucketId, SafeObjectPath(source).value)|
              case Err(e) => r == Err(e)
    {
      rows := objects;
      var c, src, dst, under := CheckRename(s, objects, bucketId, source, dest);
      if c.Err? { return Err(c.error), rows; }
      if !c.value { return Ok(0), rows; }
      var renamed, fits, moved := RewriteNames(objects, bucketId, src, dst, under);
      if !fits { return Err(NameTooLong), rows; }
      return Ok(moved), renamed;
    }

    /** The checks of a folder rename, in order: a refusal, nothing to do, or the folders and the objects to rewrite. */
    static method CheckRename(ghost s: State, objects: Objects, bucketId: nat, source: string, dest: string)
      returns (c: Result<bool, StorageError>, src: string, dst: string, under: set<nat>)
      requires UniqueObjectNames(objects) && s.objects == objects
      ensures c.Err? ==> RenameFolder(s, bucketId, source, dest) == Err(c.error)
      ensures c.Ok? ==> (c.value <==> SafeObjectPath(source) != SafeObjectPath(dest))
      ensures c == Ok(false) ==> RenameFolder(s, bucketId, source, dest) == Ok(s)
      ensures c == Ok(true) ==>
        SafeObjectPath(source) == Ok(src) && under == Members(objects, bucketId, src) &&
        (forall id :: id in objects ==> !InFolder(objects[id], bucketId, dst)) &&
        RenameFolder(s, bucketId, source, dest) ==
          if NamesFit(objects, bucketId, src, dst) then
            Ok(s.(objects := RenamedObjects(objects, bucketId, src, dst))) else Err(NameTooLong)
    {
      src, dst, under := "", "", {};
      var from := SafeObjectPathLoop(source);
      if from.Err? { return Err(InvalidPath(from.error)), src, dst, under; }
      var to := SafeObjectPathLoop(dest);
      if to.Err? { return Err(InvalidPath(to.error)), src, dst, under; }
      src, dst := from.value, to.value;
      if src == dst { return Ok(false), src, dst, under; }
      if StartsWith(dst, src + "/") { return Err(InvalidDestination), src, dst, under; }
      under := Members(objects, bucketId, src);
      if under == {} {
        assert forall id :: id in objects && InFolder(objects[id], bucketId, src) ==> id in under;
        return Err(FolderNotFound), src, dst, under;
      }
      var picked :| picked in under;
      assert InFolder(objects[picked], bucketId, src);
      var taken := FindIn(objects, bucketId, dst);
      if (exists id :: id in objects && InFolder(objects[id], bucketId, dst)) || taken.Some? {
        return Err(ResourceAlreadyExists), src, dst, under;
      }
      RenameFolderUnfolds(s, bucketId, source, dest, src, dst, picked);
      return Ok(true), src, dst, under;
    }

    /**
     Rewrites one name at a time, in any order. Names stay unique in every intermediate state, so the
     collision test inside the loop, here an assertion, never stops it.
     */
    static method RewriteNames(before: Objects, bucketId: nat, src: string, dst: string, under: set<nat>)
      returns (rows: Objects, fits: bool, moved: nat)
      requires UniqueObjectNames(before)
      requires forall id :: id in before ==> !InFolder(before[id], bucketId, dst)
      requires under == Members(before, bucketId, src)
      requires forall id :: id in before ==> |before[id].name| <= MAX_NAME
      ensures fits <==> NamesFit(before, bucketId, src, dst)
      ensures fits ==> rows == RenamedObjects(before, bucketId, src, dst) && moved == |under|
    {
      rows := before;
      moved := 0;
      var todo := under;
      ghost var done := {};
      while todo != {}
        invariant done <= under && moved == |done|
        invariant forall x :: x in todo <==> x in under && x !in done
        invariant rows == RenamedSome(before, bucketId, src, dst, done)
        invariant forall id :: id in done ==> |RenamedName(before[id], bucketId, src, dst)| <= MAX_NAME
      {
        var id :| id in todo;
        var newName := dst + rows[id].name[|src|..];
        RewriteStep(before, bucketId, src, dst, done, id);
        assert UniqueObjectNames(rows) && !exists other :: other != id && At(rows, bucketId, newName, other);
        if |newName| > MAX_NAME { return rows, false, moved; }
        rows := rows[id := rows[id].(name := newName)];
        todo, done := todo - {id}, done + {id};
        moved := moved + 1;
      }
      assert done == under;
      RewriteDone(before, bucketId, src, dst, under);
      fits := true;
    }

    method DeleteObject(id: nat)
      requires Consistent(View()) && id in objects
      modifies this
      ensures Consistent(View()) && View() == DeleteOne(old(View()), old(objects), id)
    {
      DeleteOneKeeps(View(), objects, id);
      var o := objects[id];
      var size: int := o.size;
      objects := objects - {id};
      ApplyDelta(o.ownerId, -size);
    }

    /** Deletes objects read beforehand, one after the other. */
    method DeleteRead(read: Objects, ids: seq<nat>)
      requires forall i :: 0 <= i < |ids| ==> ids[i] in read
      modifies this
      ensures View() == DeleteAll(old(View()), read, ids)
    {
      for i := 0 to |ids|
        invariant DeleteAll(View(), read, ids[i..]) == DeleteAll(old(View()), read, ids)
      {
        assert ids[i..][0] == ids[i] && ids[i..][1..] == ids[i + 1..];
        var o := read[ids[i]];
        var size: int := o.size;
        objects := objects - {ids[i]};
        ApplyDelta(o.ownerId, -size);
      }
    }

    /** The objects a list of paths names, stopping at the first one that may not be written. */
    static method Resolve(objects: Objects, bucketId: nat, paths: seq<string>, writable: set<nat>)
      returns (hits: seq<nat>, refused: bool)
      requires UniqueObjectNames(objects)
      ensures var found := Hits(objects, bucketId, paths);
              refused <==> exists i :: 0 <= i < |found| && found[i] !in writable
      ensures !refused ==> hits == Hits(objects, bucketId, paths)
    {
      hits := [];
      for i := 0 to |paths|
        invariant forall k :: 0 <= k < |hits| ==> hits[k] in writable
        invariant hits + Hits(objects, bucketId, paths[i..]) == Hits(objects, bucketId, paths)
      {
        HitsFrom(objects, bucketId, paths, i);
        var safe := SafeObjectPathLoop(paths[i]);
        if safe.Err? { continue; }
        var id := FindIn(objects, bucketId, safe.value);
        if id.None? { continue; }
        HitNext(hits, id.value, Hits(objects, bucketId, paths[i + 1..]));
        if id.value !in writable { return hits, true; }
        hits := hits + [id.value];
      }
      assert paths[|paths|..] == [];
      refused := false;
    }

    /** Resolves every path first, then deletes the hits, repetitions included. */
    method DeleteListed(bucketId: nat, paths: seq<string>, writable: set<nat>) returns (r: Result<nat, StorageError>)
      requires Consistent(View())
      modifies this
      ensures match DeletePaths(old(View()), bucketId, paths, writable)
              case Ok(s) => r == Ok(|Hits(old(objects), bucketId, paths)|) && View() == s
              case Err(e) => r == Err(e) && View() == old(View())
    {
      var hits, refused := Resolve(objects, bucketId, paths, writable);
      if refused { return Err(Forbidden); }
      DeleteRead(objects, hits);
      return Ok(|hits|);
    }

    /** The objects under a folder, each once. */
    method ListUnder(bucketId: nat, folder: string) returns (ids: seq<nat>)
      ensures Lists(ids, UnderPrefix(objects, bucketId, folder))
    {
      var found := UnderPrefix(objects, bucketId, folder);
      ids := [];
      var todo := found;
      while todo != {}
        invariant todo <= found && Lists(ids, found - todo)
      {
        var id :| id in todo;
        assert found - (todo - {id}) == (found - todo) + {id};
        ListsGrows(ids, found - todo, id);
        ids := ids + [id];
        todo := todo - {id};
      }
      assert found - todo == found;
    }

    /** Checks every object under the folder, then deletes them all. */
    method DeleteFolder(bucketId: nat, folder: string, writable: set<nat>)
      returns (r: Result<nat, StorageError>, ghost order: seq<nat>)
      requires Consistent(View())
      modifies this
      ensures Consistent(View())
      ensures Lists(order, UnderPrefix(old(objects), bucketId, folder))
      ensures match DeleteUnderPrefix(old(View()), bucketId, folder, writable, order)
              case Ok(s) => r == Ok(|order|) && View() == s &&
                objects == old(objects) - UnderPrefix(old(objects), bucketId, folder)
              case Err(e) => r == Err(e) && View() == old(View())
    {
      var ids := ListUnder(bucketId, folder);
      order := ids;
      ListsMembers(ids, UnderPrefix(objects, bucketId, folder));
      StepKeeps(View(), DeleteUnderOp(bucketId, folder, writable, order));
      if exists i :: 0 <= i < |ids| && ids[i] !in writable { return Err(Forbidden), order; }
      DeleteAllObjects(View(), objects, ids);
      DeleteRead(objects, ids);
      return Ok(|ids|), order;
    }
  }

  lemma ListsMembers(ids: seq<nat>, found: set<nat>)
    requires Lists(ids, found)
    ensures forall i :: 0 <= i < |ids| ==> ids[i] in found
  {
  }

  lemma ListsGrows(ids: seq<nat>, found: set<nat>, id: nat)
    requires Lists(ids, found) && id !in found
    ensures Lists(ids + [id], found + {id})
  {
    var more := ids + [id];
    forall i | 0 <= i < |ids| ensures more[i] in found && more[i] != id { assert more[i] == ids[i]; }
    forall x | x in found + {id} ensures x in set i | 0 <= i < |more| :: more[i] {
      if x == id {
        assert more[|ids|] == x;
      } else {
        var i :| 0 <= i < |ids| && ids[i] == x;
        assert more[i] == x;
      }
    }
  }

  lemma {:induction false} DeleteAllObjects(s: State, read: Objects, ids: seq<nat>)
    requires forall i :: 0 <= i < |ids| ==> ids[i] in read
    ensures DeleteAll(s, read, ids).objects == s.objects - set i | 0 <= i < |ids| :: ids[i]
    decreases |ids|
  {
    if ids == [] {
      assert s.objects - {} == s.objects;
    } else {
      var rest := ids[1..];
      DeleteAllObjects(DeleteOne(s, read, ids[0]), read, rest);
      assert (set i | 0 <= i < |ids| :: ids[i]) == {ids[0]} + (set i | 0 <= i < |rest| :: rest[i]) by {
        forall i | 0 <= i < |ids| ensures ids[i] in {ids[0]} + (set i | 0 <= i < |rest| :: rest[i]) {
          if i > 0 { assert rest[i - 1] == ids[i]; }
        }
        forall i | 0 <= i < |rest| ensures rest[i] == ids[i + 1] {}
      }
    }
  }

  /** A rename stopped half way: only the objects in `done` have their new name. */
  function RenamedSome(objects: Objects, bucketId: nat, src: string, dst: string, done: set<nat>): Objects {
    map id | id in objects ::
      if id in done then objects[id].(name := RenamedName(objects[id], bucketId, src, dst)) else objects[id]
  }

  /** Whatever has been renamed so far, no two names of a bucket coincide. */
  lemma RenamedSomeUnique(objects: Objects, bucketId: nat, src: string, dst: string, done: set<nat>)
    requires UniqueObjectNames(objects)
    requires forall id :: id in objects ==> !InFolder(objects[id], bucketId, dst)
    ensures UniqueObjectNames(RenamedSome(objects, bucketId, src, dst, done))
  {
    var mixed := RenamedSome(objects, bucketId, src, dst, done);
    forall i, j | i in mixed && j in mixed && mixed[i].bucketId == mixed[j].bucketId && mixed[i].name == mixed[j].name
      ensures i == j
    {
      MovedNameInFolder(objects[i], bucketId, src, dst);
      MovedNameInFolder(objects[j], bucketId, src, dst);
      if i in done && j in done { RenamedNameInjective(objects[i], objects[j], bucketId, src, dst); }
    }
  }

  /**
   Renaming one more object turns one intermediate state into the next: the new name belongs to
   nobody else, and names stay unique.
   */
  lemma RewriteStep(objects: Objects, bucketId: nat, src: string, dst: string, done: set<nat>, id: nat)
    requires UniqueObjectNames(objects) && forall i :: i in objects ==> !InFolder(objects[i], bucketId, dst)
    requires id in objects && InFolder(objects[id], bucketId, src) && id !in done
    ensures var now := RenamedSome(objects, bucketId, src, dst, done);
            var newName := dst + now[id].name[|src|..];
            var next := now[id := now[id].(name := newName)];
            newName == RenamedName(objects[id], bucketId, src, dst) && UniqueObjectNames(now) &&
            next == RenamedSome(objects, bucketId, src, dst, done + {id}) && UniqueObjectNames(next) &&
            forall other :: At(now, bucketId, newName, other) ==> other == id
  {
    var now := RenamedSome(objects, bucketId, src, dst, done);
    var newName := dst + now[id].name[|src|..];
    var next := now[id := now[id].(name := newName)];
    assert next == RenamedSome(objects, bucketId, src, dst, done + {id});
    RenamedSomeUnique(objects, bucketId, src, dst, done);
    RenamedSomeUnique(objects, bucketId, src, dst, done + {id});
    assert next[id].name == newName;
    forall other: nat | other in now && now[other].bucketId == bucketId && other != id
      ensures now[other].name != newName
    {
      assert next[other] == now[other];
    }
  }

  lemma RewriteDone(objects: Objects, bucketId: nat, src: string, dst: string, under: set<nat>)
    requires under == set id | id in objects && InFolder(objects[id], bucketId, src)
    requires forall id :: id in objects ==> |objects[id].name| <= MAX_NAME
    requires forall id :: id in under ==> |RenamedName(objects[id], bucketId, src, dst)| <= MAX_NAME
    ensures RenamedSome(objects, bucketId, src, dst, under) == RenamedObjects(objects, bucketId, src, dst)
    ensures NamesFit(objects, bucketId, src, dst)
  {
  }

  /** Past its checks, a rename fails only on a name that gets too long. */
  lemma RenameFolderUnfolds(s: State, bucketId: nat, source: string, dest: string, src: string, dst: string,
                            picked: nat)
    requires SafeObjectPath(source) == Ok(src) && SafeObjectPath(dest) == Ok(dst)
    requires src != dst && !StartsWith(dst, src + "/")
    requires picked in s.objects && InFolder(s.objects[picked], bucketId, src)
    requires forall id :: id in s.objects ==> !InFolder(s.objects[id], bucketId, dst)
    requires !Taken(s.objects, bucketId, dst)
    ensures RenameFolder(s, bucketId, source, dest) ==
      if NamesFit(s.objects, bucketId, src, dst) then
        Ok(s.(objects := RenamedObjects(s.objects, bucketId, src, dst))) else Err(NameTooLong)
  {
    var renamed := RenamedObjects(s.objects, bucketId, src, dst);
    if !NamesFit(s.objects, bucketId, src, dst) {
      var id :| id in s.objects && |RenamedName(s.objects[id], bucketId, src, dst)| > MAX_NAME;
      assert renamed[id].name == RenamedName(s.objects[id], bucketId, src, dst);
    }
  }

  predicate NamesFit(objects: Objects, bucketId: nat, src: string, dst: string) {
    forall id :: id in objects ==> |RenamedName(objects[id], bucketId, src, dst)| <= MAX_NAME
  }

  // ----------------------------------------------------------- renaming back

  /** The object a rename back would collide with: one named exactly the source folder. */
  ghost predicate SourceIsFile(s: State, bucketId: nat, source: string) {
    SafeObjectPath(source).Ok? && Taken(s.objects, bucketId, SafeObjectPath(source).value)
  }

  /**
   After a successful rename, renaming back succeeds and restores every name exactly when no file is
   named like the source folder; otherwise the rename back is refused.
   */
  lemma RenameBack(s: State, bucketId: nat, source: string, dest: string)
    requires Consistent(s) && RenameFolder(s, bucketId, source, dest).Ok?
    requires SafeObjectPath(source) != SafeObjectPath(dest)
    ensures RenameFolder(RenameFolder(s, bucketId, source, dest).value, bucketId, dest, source) == Ok(s)
      <==> !SourceIsFile(s, bucketId, source)
    ensures SourceIsFile(s, bucketId, source) ==>
      RenameFolder(RenameFolder(s, bucketId, source, dest).value, bucketId, dest, source) == Err(ResourceAlreadyExists)
  {
    var src, dst := SafeObjectPath(source).value, SafeObjectPath(dest).value;
    var t := RenamedObjects(s.objects, bucketId, src, dst);
    var moved :| moved in s.objects && InFolder(s.objects[moved], bucketId, src);
    RenamedBackNames(s, bucketId, src, dst);
    NotNested(s, bucketId, src, dst);
    SourceTakenAfter(s, bucketId, src, dst);
    assert InFolder(t[moved], bucketId, dst);
    RenameBackUnfolds(s, s.(objects := t), bucketId, source, dest, src, dst, moved);
  }

  /** The second rename: refused when the source name is taken, else all names fit and come back. */
  lemma RenameBackUnfolds(s: State, t: State, bucketId: nat, source: string, dest: string, src: string, dst: string,
                          moved: nat)
    requires SafeObjectPath(source) == Ok(src) && SafeObjectPath(dest) == Ok(dst) && src != dst &&
      !StartsWith(src, dst + "/")
    requires moved in t.objects && InFolder(t.objects[moved], bucketId, dst)
    requires forall id :: id in t.objects ==> !InFolder(t.objects[id], bucketId, src)
    requires RenamedObjects(t.objects, bucketId, dst, src) == s.objects && t.quotas == s.quotas &&
      StorableNames(s.objects)
    ensures RenameFolder(t, bucketId, dest, source) ==
      if Taken(t.objects, bucketId, src) then Err(ResourceAlreadyExists) else Ok(s)
  {
    if !Taken(t.objects, bucketId, src) {
      RenameFolderUnfolds(t, bucketId, dest, source, dst, src, moved);
      forall id | id in t.objects ensures |RenamedName(t.objects[id], bucketId, dst, src)| <= MAX_NAME {
        assert s.objects[id].name == RenamedName(t.objects[id], bucketId, dst, src);
      }
    }
  }

  /** After the rename nothing lies under the source, and the inverse name map restores every object. */
  lemma RenamedBackNames(s: State, bucketId: nat, src: string, dst: string)
    requires src != dst && !StartsWith(dst, src + "/")
    requires exists id :: id in s.objects && InFolder(s.objects[id], bucketId, src)
    requires forall id :: id in s.objects ==> !InFolder(s.objects[id], bucketId, dst)
    ensures var t := RenamedObjects(s.objects, bucketId, src, dst);
            (forall id :: id in t ==> !InFolder(t[id], bucketId, src)) &&
            (forall id :: id in t ==> (InFolder(t[id], bucketId, dst) <==> InFolder(s.objects[id], bucketId, src))) &&
            RenamedObjects(t, bucketId, dst, src) == s.objects
  {
    var t := RenamedObjects(s.objects, bucketId, src, dst);
    forall id | id in s.objects
      ensures !InFolder(t[id], bucketId, src)
      ensures InFolder(t[id], bucketId, dst) <==> InFolder(s.objects[id], bucketId, src)
      ensures t[id].(name := RenamedName(t[id], bucketId, dst, src)) == s.objects[id]
    {
      MovedNameInFolder(s.objects[id], bucketId, src, dst);
      if InFolder(s.objects[id], bucketId, src) {
        DestinationOutside(s, bucketId, src, dst, id);
        MovedNameInFolder(t[id], bucketId, dst, src);
        assert t[id].name[|dst| + 1..] == s.objects[id].name[|src| + 1..];
      }
    }
  }

  /** The source name is held by a file after the rename exactly when it was before. */
  lemma SourceTakenAfter(s: State, bucketId: nat, src: string, dst: string)
    requires exists id :: id in s.objects && InFolder(s.objects[id], bucketId, src)
    requires forall id :: id in s.objects ==> !InFolder(s.objects[id], bucketId, dst)
    ensures Taken(RenamedObjects(s.objects, bucketId, src, dst), bucketId, src) <==> Taken(s.objects, bucketId, src)
  {
    var t := RenamedObjects(s.objects, bucketId, src, dst);
    if Taken(s.objects, bucketId, src) {
      var id :| At(s.objects, bucketId, src, id);
      assert !InFolder(s.objects[id], bucketId, src);
      assert At(t, bucketId, src, id);
    }
    if Taken(t, bucketId, src) {
      var id :| At(t, bucketId, src, id);
      if InFolder(s.objects[id], bucketId, src) { MovedNeverSource(s, bucketId, src, dst, id); }
      assert At(s.objects, bucketId, src, id);
    }
  }

  lemma NestedInFolder(o: StoredObject, bucketId: nat, src: string, dst: string)
    ensures StartsWith(src, dst + "/") && InFolder(o, bucketId, src) ==> InFolder(o, bucketId, dst)
  {
    StartsWithTransitive(o.name, src + "/", src);
    StartsWithTransitive(o.name, src, dst + "/");
  }

  /** The source does not lie under the destination: its objects would have been found there. */
  lemma NotNested(s: State, bucketId: nat, src: string, dst: string)
    requires exists id :: id in s.objects && InFolder(s.objects[id], bucketId, src)
    requires forall id :: id in s.objects ==> !InFolder(s.objects[id], bucketId, dst)
    ensures !StartsWith(src, dst + "/")
  {
    var id :| id in s.objects && InFolder(s.objects[id], bucketId, src);
    NestedInFolder(s.objects[id], bucketId, src, dst);
  }

  /** A moved name does not lie under the source. */
  lemma DestinationOutside(s: State, bucketId: nat, src: string, dst: string, id: nat)
    requires id in s.objects && InFolder(s.objects[id], bucketId, src)
    requires src != dst && !StartsWith(dst, src + "/")
    requires forall i :: i in s.objects ==> !InFolder(s.objects[i], bucketId, dst)
    ensures !InFolder(s.objects[id].(name := RenamedName(s.objects[id], bucketId, src, dst)), bucketId, src)
  {
    MovedNameInFolder(s.objects[id], bucketId, src, dst);
    NotNested(s, bucketId, src, dst);
    var rest := s.objects[id].name[|src| + 1..];
    var n := dst + "/" + rest;
    if StartsWith(n, src + "/") { PrefixesNest(src, dst, n); }
  }

  lemma MovedNeverSource(s: State, bucketId: nat, src: string, dst: string, id: nat)
    requires id in s.objects && InFolder(s.objects[id], bucketId, src)
    requires forall i :: i in s.objects ==> !InFolder(s.objects[i], bucketId, dst)
    ensures RenamedName(s.objects[id], bucketId, src, dst) != src
  {
    MovedNameInFolder(s.objects[id], bucketId, src, dst);
    NotNested(s, bucketId, src, dst);
  }

  /** Two folders of the same path are equal or nested. */
  lemma PrefixesNest(a: string, b: string, n: string)
    requires StartsWith(n, a + "/") && StartsWith(n, b + "/")
    ensures a == b || StartsWith(a, b + "/") || StartsWith(b, a + "/")
  {
    assert n[..|a|] == a by { assert n[..|a| + 1][..|a|] == a; }
    assert n[..|b|] == b by { assert n[..|b| + 1][..|b|] == b; }
    if |a| < |b| {
      assert b[..|a| + 1] == n[..|a| + 1];
    } else if |b| < |a| {
      assert a[..|b| + 1] == n[..|b| + 1];
    }
  }
}
