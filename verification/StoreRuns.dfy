/**
 Every serialised run of uploads, overwrites, copies, moves, renames and deletes
 keeps the names unique and storable, keeps the company counter equal to the sum
 of the stored sizes, and respects the company limit.
 */
module StoreRuns {
  import opened Prelude
  import opened Paths
  import opened ObjectStore

  datatype Op =
    | UploadOp(bucketId: nat, path: string, size: nat, owner: Option<nat>, upsert: bool, policy: Policy, newId: nat)
    | CopyOp(bucketId: nat, source: string, to: Destination, dest: string, owner: Option<nat>, newId: nat)
    | MoveOp(bucketId: nat, source: string, to: Destination, dest: string)
    | RenameOp(bucketId: nat, source: string, dest: string)
    | DeleteOp(id: nat)
    | DeletePathsOp(bucketId: nat, paths: seq<string>, writable: set<nat>)
    | DeleteUnderOp(bucketId: nat, folder: string, writable: set<nat>, order: seq<nat>)

  ghost function Apply(s: State, op: Op): Result<State, StorageError> {
    match op
    case UploadOp(b, path, size, owner, upsert, policy, newId) => Upload(s, b, path, size, owner, upsert, policy, newId)
    case CopyOp(b, source, d, dest, owner, newId) => Copy(s, b, source, d, dest, owner, newId)
    case MoveOp(b, source, d, dest) => Move(s, b, source, d, dest)
    case RenameOp(b, source, dest) => RenameFolder(s, b, source, dest)
    case DeleteOp(id) => if id in s.objects then Ok(DeleteOne(s, s.objects, id)) else Err(ObjectNotFound)
    case DeletePathsOp(b, paths, writable) => DeletePaths(s, b, paths, writable)
    case DeleteUnderOp(b, folder, writable, order) =>
      if Lists(order, UnderPrefix(s.objects, b, folder)) then DeleteUnderPrefix(s, b, folder, writable, order)
        else Err(FolderNotFound)
  }

  /** A failed operation is rolled back. */
  ghost function Step(s: State, op: Op): State {
    match Apply(s, op)
    case Ok(s') => s'
    case Err(_) => s
  }

  ghost function Run(s: State, ops: seq<Op>): State
    decreases |ops|
  {
    if ops == [] then s else Run(Step(s, ops[0]), ops[1..])
  }

  /** The normalised names of one bulk delete are distinct. */
  predicate DistinctPaths(paths: seq<string>) {
    forall i, j :: 0 <= i < j < |paths| && SafeObjectPath(paths[i]).Ok? ==>
      SafeObjectPath(paths[i]) != SafeObjectPath(paths[j])
  }

  predicate WellFormed(op: Op) { op.DeletePathsOp? ==> DistinctPaths(op.paths) }

  ghost predicate WithinLimit(before: Quotas, after: Quotas) {
    after.maxBytes == before.maxBytes &&
    (before.maxBytes > 0 ==> after.usedBytes <= before.usedBytes || after.usedBytes <= before.maxBytes)
  }

  // ------------------------------------------------------- counter and limit

  /** Charging an exact difference never meets the clamp of the company counter. */
  lemma ChargeIsExact(q: Quotas, user: Option<nat>, delta: int)
    requires q.usedBytes + delta >= 0
    requires forall u :: u in q.users ==> q.users[u].usedBytes >= 0
    ensures ApplyUsageDelta(q, user, delta).usedBytes == q.usedBytes + delta
    ensures ApplyUsageDelta(q, user, delta).maxBytes == q.maxBytes
    ensures forall u :: u in ApplyUsageDelta(q, user, delta).users ==>
      ApplyUsageDelta(q, user, delta).users[u].usedBytes >= 0
  {
  }

  /** Replacing the size of an object, after a check that let the difference through. */
  lemma OverwriteKeeps(s: State, id: nat, size: nat, owner: Option<nat>)
    requires Consistent(s) && id in s.objects && AssertCanStore(s.quotas, owner, size, s.objects[id].size).None?
    ensures var r := State(s.objects[id := Overwritten(s.objects[id], size, owner)],
                           ApplyUsageDelta(s.quotas, owner, size - s.objects[id].size));
            Consistent(r) && WithinLimit(s.quotas, r.quotas)
  {
    var o := Overwritten(s.objects[id], size, owner);
    TotalNonNegative(s.objects[id := o]);
    TotalPut(s.objects, id, o);
    ChargeIsExact(s.quotas, owner, size - s.objects[id].size);
  }

  /** Adding an object under a free name, after a check that let its size through. */
  lemma InsertKeeps(s: State, newId: nat, o: StoredObject, checked: Option<nat>, charged: Option<nat>)
    requires Consistent(s) && newId !in s.objects && !Taken(s.objects, o.bucketId, o.name)
    requires Clean(o.name) && |o.name| <= MAX_NAME && AssertCanStore(s.quotas, checked, o.size, 0).None?
    ensures var r := State(s.objects[newId := o], ApplyUsageDelta(s.quotas, charged, o.size));
            Consistent(r) && WithinLimit(s.quotas, r.quotas)
  {
    TotalNonNegative(s.objects);
    TotalPut(s.objects, newId, o);
    ChargeIsExact(s.quotas, charged, o.size);
    NewNameStaysUnique(s.objects, newId, o);
  }

  lemma UploadKeeps(s: State, b: nat, path: string, size: nat, owner: Option<nat>, upsert: bool, policy: Policy,
                    newId: nat)
    requires Consistent(s)
    ensures var r := Upload(s, b, path, size, owner, upsert, policy, newId);
            r.Ok? ==> Consistent(r.value) && WithinLimit(s.quotas, r.value.quotas)
  {
    var r := Upload(s, b, path, size, owner, upsert, policy, newId);
    if r.Ok? {
      SafePathIsClean(path);
      var name := SafeObjectPath(path).value;
      var existing := Lookup(s.objects, b, name);
      if existing.Some? {
        OverwriteKeeps(s, existing.value, size, owner);
      } else {
        InsertKeeps(s, newId, StoredObject(b, name, size, owner), owner, owner);
      }
    }
  }

  lemma NewNameStaysUnique(objects: Objects, id: nat, o: StoredObject)
    requires UniqueObjectNames(objects) && !Taken(objects, o.bucketId, o.name)
    ensures UniqueObjectNames(objects[id := o])
  {
    forall i | i in objects && objects[i].bucketId == o.bucketId ensures objects[i].name != o.name {
      assert !At(objects, o.bucketId, o.name, i);
    }
  }

  lemma CopyKeeps(s: State, b: nat, source: string, d: Destination, dest: string, owner: Option<nat>, newId: nat)
    requires Consistent(s)
    ensures var r := Copy(s, b, source, d, dest, owner, newId);
            r.Ok? ==> Consistent(r.value) && WithinLimit(s.quotas, r.value.quotas)
  {
    var r := Copy(s, b, source, d, dest, owner, newId);
    if r.Ok? {
      SafePathIsClean(dest);
      var o := r.value.objects[newId];
      InsertKeeps(s, newId, o, owner, o.ownerId);
    }
  }

  lemma MoveKeeps(s: State, b: nat, source: string, d: Destination, dest: string)
    requires Consistent(s)
    ensures var r := Move(s, b, source, d, dest);
            r.Ok? ==> Consistent(r.value) && WithinLimit(s.quotas, r.value.quotas)
  {
    var r := Move(s, b, source, d, dest);
    if r.Ok? {
      SafePathIsClean(dest);
      var id := Lookup(s.objects, b, SafeObjectPath(source).value).value;
      TotalPut(s.objects, id, r.value.objects[id]);
      NewNameStaysUnique(s.objects, id, r.value.objects[id]);
    }
  }

  // ------------------------------------------------------------------ rename

  /** The name map of a folder rename is injective and lands on storable names. */
  lemma RenameKeepsUnique(objects: Objects, b: nat, src: string, dst: string)
    requires UniqueObjectNames(objects)
    requires forall id :: id in objects ==> !InFolder(objects[id], b, dst)
    ensures UniqueObjectNames(RenamedObjects(objects, b, src, dst))
  {
    var renamed := RenamedObjects(objects, b, src, dst);
    forall i, j | i in renamed && j in renamed && renamed[i].bucketId == renamed[j].bucketId &&
      renamed[i].name == renamed[j].name
      ensures i == j
    {
      RenamedNameInjective(objects[i], objects[j], b, src, dst);
    }
  }

  lemma RenamedNameInjective(o: StoredObject, p: StoredObject, b: nat, src: string, dst: string)
    requires o.bucketId == p.bucketId && RenamedName(o, b, src, dst) == RenamedName(p, b, src, dst)
    requires !InFolder(o, b, dst) && !InFolder(p, b, dst)
    ensures o.name == p.name
  {
    MovedNameInFolder(o, b, src, dst);
    MovedNameInFolder(p, b, src, dst);
    if InFolder(o, b, src) && InFolder(p, b, src) {
      var n := RenamedName(o, b, src, dst);
      assert n[|dst|..] == o.name[|src|..] == p.name[|src|..];
      assert o.name == o.name[..|src| + 1][..|src|] + o.name[|src|..];
      assert p.name == p.name[..|src| + 1][..|src|] + p.name[|src|..];
    }
  }

  /** A moved object ends up under the destination, with the same rest. */
  lemma MovedNameInFolder(o: StoredObject, b: nat, src: string, dst: string)
    requires InFolder(o, b, src)|| RenamedName(o, b, src, dst) == o.name
    ensures InFolder(o, b, src) ==>
      InFolder(o.(name := RenamedName(o, b, src, dst)), b, dst) &&
      o.name == src + "/" + o.name[|src| + 1..] && RenamedName(o, b, src, dst) == dst + "/" + o.name[|src| + 1..]
  {
    if InFolder(o, b, src) {
      var rest := o.name[|src| + 1..];
      assert o.name[|src|] == '/' by { assert o.name[..|src| + 1] == src + "/"; }
      assert o.name[|src|..] == "/" + rest;
      var n := dst + "/" + rest;
      assert RenamedName(o, b, src, dst) == n;
      assert n[..|dst| + 1] == dst + "/";
    }
  }

  lemma RenameKeepsClean(objects: Objects, b: nat, src: string, dst: string, id: nat)
    requires id in objects && Clean(objects[id].name) && Clean(dst)
    ensures Clean(RenamedName(objects[id], b, src, dst))
  {
    var o := objects[id];
    MovedNameInFolder(o, b, src, dst);
    if InFolder(o, b, src) {
      CleanConcat(src, o.name[|src| + 1..]);
      CleanConcat(dst, o.name[|src| + 1..]);
    }
  }

  lemma RenameKeeps(s: State, b: nat, source: string, dest: string)
    requires Consistent(s)
    ensures var r := RenameFolder(s, b, source, dest);
            r.Ok? ==> Consistent(r.value) && r.value.quotas == s.quotas
  {
    var r := RenameFolder(s, b, source, dest);
    if r.Ok? && r.value != s {
      SafePathIsClean(dest);
      var src, dst := SafeObjectPath(source).value, SafeObjectPath(dest).value;
      var renamed := RenamedObjects(s.objects, b, src, dst);
      forall id | id in s.objects ensures |RenamedName(s.objects[id], b, src, dst)| <= MAX_NAME {
        assert id in renamed && renamed[id].name == RenamedName(s.objects[id], b, src, dst);
      }
      RenamedIsConsistent(s, b, SafeObjectPath(source).value, SafeObjectPath(dest).value);
    }
  }

  lemma RenamedIsConsistent(s: State, b: nat, src: string, dst: string)
    requires Consistent(s) && Clean(dst)
    requires forall id :: id in s.objects ==> !InFolder(s.objects[id], b, dst)
    requires forall id :: id in s.objects ==> |RenamedName(s.objects[id], b, src, dst)| <= MAX_NAME
    ensures Consistent(s.(objects := RenamedObjects(s.objects, b, src, dst)))
  {
    var renamed := RenamedObjects(s.objects, b, src, dst);
    RenameKeepsUnique(s.objects, b, src, dst);
    forall id | id in renamed ensures Clean(renamed[id].name) && |renamed[id].name| <= MAX_NAME {
      RenameKeepsClean(s.objects, b, src, dst, id);
    }
    assert Sizes(renamed) == Sizes(s.objects);
  }

  // ----------------------------------------------------------------- deletes

  /** Deleting an object that is present, with the size it has, keeps the counter exact. */
  lemma DeleteOneKeeps(s: State, read: Objects, id: nat)
    requires Consistent(s) && id in s.objects && id in read && read[id] == s.objects[id]
    ensures Consistent(DeleteOne(s, read, id))
    ensures WithinLimit(s.quotas, DeleteOne(s, read, id).quotas)
    ensures DeleteOne(s, read, id).quotas.usedBytes == s.quotas.usedBytes - s.objects[id].size
  {
    TotalWithout(s.objects, id);
    TotalNonNegative(s.objects - {id});
    ChargeIsExact(s.quotas, read[id].ownerId, -(read[id].size as int));
  }

  ghost predicate Distinct(ids: seq<nat>) {
    forall i, j :: 0 <= i < j < |ids| ==> ids[i] != ids[j]
  }

  lemma {:induction false} DeleteAllKeeps(s: State, read: Objects, ids: seq<nat>)
    requires Consistent(s) && Distinct(ids)
    requires forall i :: 0 <= i < |ids| ==> ids[i] in s.objects && ids[i] in read && read[ids[i]] == s.objects[ids[i]]
    ensures Consistent(DeleteAll(s, read, ids)) && WithinLimit(s.quotas, DeleteAll(s, read, ids).quotas)
    ensures DeleteAll(s, read, ids).quotas.usedBytes <= s.quotas.usedBytes
    decreases |ids|
  {
    if ids != [] {
      DeleteOneKeeps(s, read, ids[0]);
      var s' := DeleteOne(s, read, ids[0]);
      forall i | 0 <= i < |ids[1..]| ensures ids[1..][i] in s'.objects && read[ids[1..][i]] == s'.objects[ids[1..][i]] {
        assert ids[1..][i] == ids[i + 1] != ids[0];
      }
      DeleteAllKeeps(s', read, ids[1..]);
    }
  }

  /** The object is hit by one of the paths. */
  predicate Named(objects: Objects, paths: seq<string>, id: nat)
    requires id in objects
  {
    exists j :: 0 <= j < |paths| && SafeObjectPath(paths[j]) == Ok(objects[id].name)
  }

  lemma NamedLater(objects: Objects, paths: seq<string>, id: nat)
    requires id in objects && paths != [] && Named(objects, paths[1..], id)
    ensures exists j :: 1 <= j < |paths| && SafeObjectPath(paths[j]) == Ok(objects[id].name)
  {
    var j :| 0 <= j < |paths[1..]| && SafeObjectPath(paths[1..][j]) == Ok(objects[id].name);
    assert paths[j + 1] == paths[1..][j];
  }

  lemma {:induction false} HitsAreNamed(objects: Objects, b: nat, paths: seq<string>)
    ensures forall i :: 0 <= i < |Hits(objects, b, paths)| ==> Named(objects, paths, Hits(objects, b, paths)[i])
    decreases |paths|
  {
    if paths != [] {
      HitsAreNamed(objects, b, paths[1..]);
      var ids, rest := Hits(objects, b, paths), Hits(objects, b, paths[1..]);
      forall i | 0 <= i < |rest| ensures Named(objects, paths, rest[i]) { NamedLater(objects, paths, rest[i]); }
      forall i | 0 <= i < |ids| ensures Named(objects, paths, ids[i]) {
        if ids != rest && i == 0 {
          assert SafeObjectPath(paths[0]) == Ok(objects[ids[0]].name);
        } else if ids != rest {
          assert ids[i] == rest[i - 1];
        }
      }
    }
  }

  /** A path's own hit is not hit again by a later, different path. */
  lemma HitOnce(objects: Objects, paths: seq<string>, id: nat, later: nat)
    requires DistinctPaths(paths) && paths != [] && id in objects && later in objects
    requires SafeObjectPath(paths[0]) == Ok(objects[id].name) && Named(objects, paths[1..], later)
    ensures id != later
  {
    NamedLater(objects, paths, later);
    var j :| 1 <= j < |paths| && SafeObjectPath(paths[j]) == Ok(objects[later].name);
    assert SafeObjectPath(paths[0]) != SafeObjectPath(paths[j]);
  }

  lemma {:induction false} HitsOfDistinct(objects: Objects, b: nat, paths: seq<string>)
    requires UniqueObjectNames(objects) && DistinctPaths(paths)
    ensures Distinct(Hits(objects, b, paths))
    decreases |paths|
  {
    if paths != [] {
      HitsOfDistinct(objects, b, paths[1..]);
      HitsAreNamed(objects, b, paths[1..]);
      var ids, rest := Hits(objects, b, paths), Hits(objects, b, paths[1..]);
      if ids != rest {
        assert ids[1..] == rest;
        forall i | 0 <= i < |rest| ensures rest[i] != ids[0] { HitOnce(objects, paths, ids[0], rest[i]); }
      }
    }
  }

  // -------------------------------------------------------------------- runs

  lemma DeletePathsKeeps(s: State, b: nat, paths: seq<string>, writable: set<nat>)
    requires Consistent(s) && DistinctPaths(paths)
    ensures Kept(s, DeletePaths(s, b, paths, writable))
  {
    HitsOfDistinct(s.objects, b, paths);
    DeleteAllKeeps(s, s.objects, Hits(s.objects, b, paths));
  }

  lemma DeleteUnderKeeps(s: State, b: nat, folder: string, writable: set<nat>, order: seq<nat>)
    requires Consistent(s) && Lists(order, UnderPrefix(s.objects, b, folder))
    ensures Kept(s, DeleteUnderPrefix(s, b, folder, writable, order))
  {
    forall i | 0 <= i < |order| ensures order[i] in s.objects { assert order[i] in UnderPrefix(s.objects, b, folder); }
    DeleteAllKeeps(s, s.objects, order);
  }

  /** The result is a refusal, or a state with everything kept. */
  ghost predicate Kept(s: State, r: Result<State, StorageError>) {
    r.Ok? ==> Consistent(r.value) && WithinLimit(s.quotas, r.value.quotas)
  }

  lemma ApplyKeeps(s: State, op: Op)
    requires Consistent(s) && WellFormed(op)
    ensures Kept(s, Apply(s, op))
  {
    match op
    case UploadOp(b, path, size, owner, upsert, policy, newId) => UploadKeeps(s, b, path, size, owner, upsert, policy,
      newId);
    case CopyOp(b, source, d, dest, owner, newId) => CopyKeeps(s, b, source, d, dest, owner, newId);
    case MoveOp(b, source, d, dest) => MoveKeeps(s, b, source, d, dest);
    case RenameOp(b, source, dest) => RenameKeeps(s, b, source, dest);
    case DeleteOp(id) => if id in s.objects { DeleteOneKeeps(s, s.objects, id); }
    case DeletePathsOp(b, paths, writable) => DeletePathsKeeps(s, b, paths, writable);
    case DeleteUnderOp(b, folder, writable, order) =>
      if Lists(order, UnderPrefix(s.objects, b, folder)) { DeleteUnderKeeps(s, b, folder, writable, order); }
  }

  lemma StepKeeps(s: State, op: Op)
    requires Consistent(s) && WellFormed(op)
    ensures Consistent(Step(s, op)) && WithinLimit(s.quotas, Step(s, op).quotas)
  {
    ApplyKeeps(s, op);
  }

  /**
   After every run the counter is the sum of the sizes, and no state of the run exceeds both the
   limit and the usage the run started with.
   */
  lemma {:induction false} RunKeeps(s: State, ops: seq<Op>)
    requires Consistent(s) && forall i :: 0 <= i < |ops| ==> WellFormed(ops[i])
    ensures Consistent(Run(s, ops)) && WithinLimit(s.quotas, Run(s, ops).quotas)
    decreases |ops|
  {
    if ops != [] {
      StepKeeps(s, ops[0]);
      RunKeeps(Step(s, ops[0]), ops[1..]);
    }
  }

  // --------------------------------------------------------- repeated deletes

  /** Every repetition in the list of hits is of an empty object. */
  ghost predicate RepeatsAreEmpty(read: Objects, ids: seq<nat>)
    requires forall i :: 0 <= i < |ids| ==> ids[i] in read
  {
    forall i, j :: 0 <= i < j < |ids| && ids[i] == ids[j] ==> read[ids[i]].size == 0
  }

  function Elements(ids: seq<nat>): set<nat> { set i | 0 <= i < |ids| :: ids[i] }

  /** How the counter of a bulk delete relates to what is left, whatever the list repeats. */
  lemma {:induction false} BulkDeleteCounter(s: State, read: Objects, gone: set<nat>, ids: seq<nat>)
    requires forall i :: 0 <= i < |ids| ==> ids[i] in read
    requires s.objects == read - gone
    requires 0 <= s.quotas.usedBytes <= TotalSize(s.objects)
    ensures var r := DeleteAll(s, read, ids);
            r.objects == read - (gone + Elements(ids)) && 0 <= r.quotas.usedBytes <= TotalSize(r.objects) &&
            var exact := s.quotas.usedBytes == TotalSize(s.objects) && RepeatsAreEmpty(read, ids) &&
              (forall i :: 0 <= i < |ids| && ids[i] in gone ==> read[ids[i]].size == 0);
            (exact ==> r.quotas.usedBytes == TotalSize(r.objects)) &&
            (!exact && TotalSize(r.objects) > 0 ==> r.quotas.usedBytes < TotalSize(r.objects))
    decreases |ids|
  {
    if ids == [] {
      assert read - (gone + Elements(ids)) == read - gone;
    } else {
      var id, rest := ids[0], ids[1..];
      var s' := DeleteOne(s, read, id);
      if id in s.objects { TotalWithout(s.objects, id); } else { assert s'.objects == s.objects; }
      TotalNonNegative(s'.objects);
      assert s'.objects == read - (gone + {id});
      BulkDeleteCounter(s', read, gone + {id}, rest);
      var r := DeleteAll(s', read, rest);
      assert Elements(ids) == {id} + Elements(rest);
      assert gone + {id} + Elements(rest) == gone + Elements(ids);
      TotalShrinks(s'.objects, gone + {id}, read, gone + Elements(ids));
      RepeatsSplit(read, ids);
      forall i | 0 <= i < |rest| ensures rest[i] == ids[i + 1] {}
    }
  }

  lemma RepeatsSplit(read: Objects, ids: seq<nat>)
    requires ids != [] && forall i :: 0 <= i < |ids| ==> ids[i] in read
    ensures RepeatsAreEmpty(read, ids) <==>
      RepeatsAreEmpty(read, ids[1..]) && forall j :: 0 <= j < |ids[1..]| && ids[1..][j] == ids[0] ==>
        read[ids[0]].size == 0
  {
    var rest := ids[1..];
    if RepeatsAreEmpty(read, ids) {
      forall i, j | 0 <= i < j < |rest| && rest[i] == rest[j]
        ensures read[rest[i]].size == 0
      {
        assert ids[i + 1] == ids[j + 1];
      }
      forall j | 0 <= j < |rest| && rest[j] == ids[0] ensures read[ids[0]].size == 0 { assert ids[j + 1] == ids[0]; }
    }
    if RepeatsAreEmpty(read, rest) && forall j :: 0 <= j < |rest| && rest[j] == ids[0] ==> read[ids[0]].size == 0 {
      forall i, j | 0 <= i < j < |ids| && ids[i] == ids[j] ensures read[ids[i]].size == 0 {
        assert ids[j] == rest[j - 1];
        if i > 0 { assert ids[i] == rest[i - 1]; }
      }
    }
  }

  lemma {:induction false} TotalShrinks(a: Objects, goneA: set<nat>, read: Objects, goneB: set<nat>)
    requires a == read - goneA && goneA <= goneB
    ensures TotalSize(read - goneB) <= TotalSize(a)
    decreases goneB - goneA
  {
    if goneA == goneB {
    } else {
      assert !(goneB <= goneA);
      var x :| x in goneB && x !in goneA;
      var b := read - (goneA + {x});
      if x in a {
        TotalWithout(a, x);
        assert a - {x} == b;
      } else {
        assert a == b;
      }
      TotalShrinks(b, goneA + {x}, read, goneB);
    }
  }

  /** A sum of sizes is zero exactly when every size is. */
  lemma {:induction false} TotalIsZero(objects: Objects)
    ensures TotalSize(objects) == 0 <==> forall id :: id in objects ==> objects[id].size == 0
    decreases |objects|
  {
    if objects == map[] {
      assert Sizes(objects) == map[];
    } else {
      var id :| id in objects;
      TotalWithout(objects, id);
      var rest := objects - {id};
      TotalNonNegative(rest);
      TotalIsZero(rest);
      assert forall x :: x in rest ==> x in objects && rest[x] == objects[x];
      assert forall x :: x in objects ==> x == id || x in rest;
    }
  }

  /**
   A bulk delete keeps the counter exact if and only if every repeated hit is of an empty object, or
   every object that is not hit is empty.
   */
  lemma BulkDeleteExactness(s: State, b: nat, paths: seq<string>)
    requires Consistent(s)
    ensures var ids := Hits(s.objects, b, paths);
            var r := DeleteAll(s, s.objects, ids);
            r.quotas.usedBytes == TotalSize(r.objects) <==>
            RepeatsAreEmpty(s.objects, ids)
            || forall id :: id in s.objects && id !in Elements(ids) ==> s.objects[id].size == 0
  {
    var ids := Hits(s.objects, b, paths);
    TotalNonNegative(s.objects);
    assert s.objects - {} == s.objects;
    BulkDeleteCounter(s, s.objects, {}, ids);
    var rest := s.objects - Elements(ids);
    assert DeleteAll(s, s.objects, ids).objects == rest by { assert {} + Elements(ids) == Elements(ids); }
    TotalIsZero(rest);
    forall id ensures id in rest <==> id in s.objects && id !in Elements(ids) {}
    assert forall id :: id in rest ==> rest[id] == s.objects[id];
  }

  /** Two spellings of one non-empty file in one bulk delete leave the counter too low. */
  lemma RepeatUndercounts(s: State, b: nat, p: string, q: string, id: nat)
    requires Consistent(s) && id in s.objects && s.objects[id].bucketId == b && s.objects[id].size > 0
    requires SafeObjectPath(p) == Ok(s.objects[id].name) && SafeObjectPath(q) == Ok(s.objects[id].name)
    requires TotalSize(s.objects) > s.objects[id].size
    ensures var r := DeletePaths(s, b, [p, q], {id});
            r.Ok? && r.value.quotas.usedBytes < TotalSize(r.value.objects)
  {
    var paths := [p, q];
    var ids := [id, id];
    LookupIs(s.objects, b, s.objects[id].name, id);
    assert paths[1..] == [q] && [q][1..] == [];
    assert Hits(s.objects, b, [q]) == [id] by { assert Hits(s.objects, b, []) == []; }
    assert Hits(s.objects, b, paths) == ids;
    TotalNonNegative(s.objects);
    assert s.objects - {} == s.objects;
    BulkDeleteCounter(s, s.objects, {}, ids);
    assert Elements(ids) == {id} by { assert ids[0] in Elements(ids); }
    assert {} + Elements(ids) == {id};
    TotalWithout(s.objects, id);
    assert ids[0] == ids[1];
  }
}
