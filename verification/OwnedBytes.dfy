/**
 When the used bytes of a user are the sizes of the objects the user owns (apply_usage_delta in
 apps/storage/quotas.py and its callers in apps/storage/services.py).
 */
module OwnedBytes {
  import opened Prelude
  import opened ObjectStore
  import opened Paths
  import opened StoreRuns
  import opened UserLimits

  // --------------------------------------------------------- bytes of a user

  function Share(o: StoredObject, u: nat): int { if o.ownerId == Some(u) then o.size else 0 }

  function Shares(objects: Objects, u: nat): map<nat, int> { map id | id in objects :: Share(objects[id], u) }

  /** The sizes of the objects of one owner. */
  ghost function OwnedSize(objects: Objects, u: nat): int { Sum(Shares(objects, u)) }

  lemma OwnedWithout(objects: Objects, u: nat, id: nat)
    requires id in objects
    ensures OwnedSize(objects - {id}, u) == OwnedSize(objects, u) - Share(objects[id], u)
    ensures OwnedSize(objects - {id}, u) >= 0
  {
    SumRemove(Shares(objects, u), id);
    assert Shares(objects - {id}, u) == Shares(objects, u) - {id};
    SumNonNegative(Shares(objects - {id}, u));
  }

  lemma OwnedPut(objects: Objects, u: nat, id: nat, o: StoredObject)
    ensures OwnedSize(objects[id := o], u)
         == OwnedSize(objects, u) + Share(o, u) - if id in objects then Share(objects[id], u) else 0
  {
    var shares := Shares(objects, u);
    assert Shares(objects[id := o], u) == shares[id := Share(o, u)];
    if id in objects { SumUpdate(shares, id, Share(o, u)); } else { SumInsert(shares, id, Share(o, u)); }
  }

  /** The user has a limit: an own row, or the default of the company. Nobody else is counted. */
  predicate HasLimit(q: Quotas, u: nat) { ResolveUserLimit(q, Some(u)).Some? }

  /** The used bytes of the user are the sizes of what the user owns. */
  ghost predicate Tracks(s: State, u: nat) { UserUsed(s.quotas, Some(u)) == OwnedSize(s.objects, u) }

  lemma UserCharge(q: Quotas, user: Option<nat>, delta: int, u: nat)
    requires NonNegativeUsers(q)
    ensures UserUsed(ApplyUsageDelta(q, user, delta), Some(u))
         == (if user == Some(u) && HasLimit(q, u) then Clamp(UserUsed(q, Some(u)) + delta) else UserUsed(q, Some(u)))
    ensures HasLimit(ApplyUsageDelta(q, user, delta), u) <==> HasLimit(q, u)
    ensures NonNegativeUsers(ApplyUsageDelta(q, user, delta))
  {
  }

  // ------------------------------------------------------------- which drift

  /** A new object of a user without a limit is not counted. */
  predicate InsertDrifts(q: Quotas, u: nat, owner: Option<nat>, size: nat) {
    owner == Some(u) && !HasLimit(q, u) && size > 0
  }

  /** An overwrite charges the difference to the owner it names, and to nobody when it names none. */
  predicate OverwriteDrifts(q: Quotas, u: nat, o: StoredObject, size: nat, owner: Option<nat>) {
    if owner == Some(u) && !HasLimit(q, u) then size != Share(o, u)
    else if owner == Some(u) then o.ownerId != Some(u) && o.size > 0 && UserUsed(q, Some(u)) + size > 0
    else if owner.None? then o.ownerId == Some(u) && size != o.size
    else o.ownerId == Some(u) && o.size > 0
  }

  ghost predicate Drifts(s: State, op: Op, u: nat) {
    Apply(s, op).Ok? &&
    match op
    case UploadOp(b, path, size, owner, _, _, _) =>
      var existing := Lookup(s.objects, b, SafeObjectPath(path).value);
      if existing.Some? then OverwriteDrifts(s.quotas, u, s.objects[existing.value], size, owner)
      else InsertDrifts(s.quotas, u, owner, size)
    case CopyOp(b, source, _, _, owner, _) =>
      var src := s.objects[Lookup(s.objects, b, SafeObjectPath(source).value).value];
      InsertDrifts(s.quotas, u, if owner.Some? then owner else src.ownerId, src.size)
    case _ => false
  }

  lemma InsertTracks(s: State, newId: nat, o: StoredObject, u: nat)
    requires NonNegativeUsers(s.quotas) && Tracks(s, u) && newId !in s.objects
    ensures Tracks(State(s.objects[newId := o], ApplyUsageDelta(s.quotas, o.ownerId, o.size)), u)
      <==> !InsertDrifts(s.quotas, u, o.ownerId, o.size)
  {
    OwnedPut(s.objects, u, newId, o);
    UserCharge(s.quotas, o.ownerId, o.size, u);
  }

  /** The same for the numbers alone: what is used and what is owned after the overwrite. */
  lemma OverwriteNumbers(q: Quotas, u: nat, o: StoredObject, size: nat, owner: Option<nat>, owned: int)
    requires UserUsed(q, Some(u)) == owned >= Share(o, u)
    ensures var used := if owner == Some(u) && HasLimit(q, u) then Clamp(owned + size - o.size) else owned;
            used == owned + Share(Overwritten(o, size, owner), u) - Share(o, u)
            <==> !OverwriteDrifts(q, u, o, size, owner)
  {
  }

  lemma OwnedAtLeast(objects: Objects, u: nat, id: nat)
    requires id in objects
    ensures OwnedSize(objects, u) >= Share(objects[id], u)
  {
    OwnedWithout(objects, u, id);
  }

  lemma OverwriteTracks(s: State, id: nat, size: nat, owner: Option<nat>, u: nat)
    requires NonNegativeUsers(s.quotas) && Tracks(s, u) && id in s.objects
    ensures var o := s.objects[id];
            Tracks(State(s.objects[id := Overwritten(o, size, owner)],
                         ApplyUsageDelta(s.quotas, owner, size - o.size)), u)
            <==> !OverwriteDrifts(s.quotas, u, o, size, owner)
  {
    var o := s.objects[id];
    OwnedPut(s.objects, u, id, Overwritten(o, size, owner));
    OwnedAtLeast(s.objects, u, id);
    UserCharge(s.quotas, owner, size - o.size, u);
    OverwriteNumbers(s.quotas, u, o, size, owner, OwnedSize(s.objects, u));
  }

  lemma DeleteOneTracks(s: State, read: Objects, id: nat, u: nat)
    requires NonNegativeUsers(s.quotas) && Tracks(s, u) && id in s.objects && id in read && read[id] == s.objects[id]
    ensures Tracks(DeleteOne(s, read, id), u) && NonNegativeUsers(DeleteOne(s, read, id).quotas)
  {
    var size: int := read[id].size;
    OwnedWithout(s.objects, u, id);
    UserCharge(s.quotas, read[id].ownerId, -size, u);
  }

  lemma {:induction false} DeletesTrack(s: State, read: Objects, ids: seq<nat>, u: nat)
    requires NonNegativeUsers(s.quotas) && Tracks(s, u) && Distinct(ids)
    requires forall i :: 0 <= i < |ids| ==> ids[i] in s.objects && ids[i] in read && read[ids[i]] == s.objects[ids[i]]
    ensures Tracks(DeleteAll(s, read, ids), u)
    decreases |ids|
  {
    if ids != [] {
      var rest, s' := ids[1..], DeleteOne(s, read, ids[0]);
      DeleteOneTracks(s, read, ids[0], u);
      forall i | 0 <= i < |rest| ensures rest[i] in s'.objects && read[rest[i]] == s'.objects[rest[i]] {
        assert rest[i] == ids[i + 1] != ids[0];
      }
      DeletesTrack(s', read, rest, u);
    }
  }

  lemma MoveTracks(s: State, b: nat, source: string, d: Destination, dest: string, u: nat)
    requires Consistent(s) && Tracks(s, u) && Move(s, b, source, d, dest).Ok?
    ensures Tracks(Move(s, b, source, d, dest).value, u)
  {
    var id := Lookup(s.objects, b, SafeObjectPath(source).value).value;
    OwnedPut(s.objects, u, id, Move(s, b, source, d, dest).value.objects[id]);
  }

  lemma RenameTracks(s: State, b: nat, source: string, dest: string, u: nat)
    requires Tracks(s, u) && RenameFolder(s, b, source, dest).Ok?
    ensures Tracks(RenameFolder(s, b, source, dest).value, u)
  {
    assert Shares(RenameFolder(s, b, source, dest).value.objects, u) == Shares(s.objects, u);
  }

  lemma UploadTracks(s: State, op: Op, u: nat)
    requires Consistent(s) && Tracks(s, u) && op.UploadOp? && Apply(s, op).Ok?
    ensures Tracks(Apply(s, op).value, u) <==> !Drifts(s, op, u)
  {
    var name := SafeObjectPath(op.path).value;
    var existing := Lookup(s.objects, op.bucketId, name);
    if existing.Some? {
      OverwriteTracks(s, existing.value, op.size, op.owner, u);
    } else {
      InsertTracks(s, op.newId, StoredObject(op.bucketId, name, op.size, op.owner), u);
    }
  }

  lemma CopyTracks(s: State, op: Op, u: nat)
    requires Consistent(s) && Tracks(s, u) && op.CopyOp? && Apply(s, op).Ok?
    ensures Tracks(Apply(s, op).value, u) <==> !Drifts(s, op, u)
  {
    CopyIsInsert(s, op.bucketId, op.source, op.to, op.dest, op.owner, op.newId);
    InsertTracks(s, op.newId, Apply(s, op).value.objects[op.newId], u);
  }

  /** A copy adds one object of the size of the source, and charges it to its owner. */
  lemma CopyIsInsert(s: State, b: nat, source: string, to: Destination, dest: string, owner: Option<nat>, newId: nat)
    requires Copy(s, b, source, to, dest, owner, newId).Ok?
    ensures Taken(s.objects, b, SafeObjectPath(source).value) && newId !in s.objects
    ensures var z := Copy(s, b, source, to, dest, owner, newId).value;
            newId in z.objects &&
            var o, src := z.objects[newId], s.objects[Lookup(s.objects, b, SafeObjectPath(source).value).value];
            z == State(s.objects[newId := o], ApplyUsageDelta(s.quotas, o.ownerId, o.size)) && o.size == src.size
            && o.ownerId == if owner.Some? then owner else src.ownerId
  {
  }

  lemma DeletePathsTracks(s: State, op: Op, u: nat)
    requires Consistent(s) && WellFormed(op) && Tracks(s, u) && op.DeletePathsOp? && Apply(s, op).Ok?
    ensures Tracks(Apply(s, op).value, u)
  {
    HitsOfDistinct(s.objects, op.bucketId, op.paths);
    DeletesTrack(s, s.objects, Hits(s.objects, op.bucketId, op.paths), u);
  }

  lemma DeleteUnderTracks(s: State, op: Op, u: nat)
    requires Consistent(s) && Tracks(s, u) && op.DeleteUnderOp? && Apply(s, op).Ok?
    ensures Tracks(Apply(s, op).value, u)
  {
    forall i | 0 <= i < |op.order| ensures op.order[i] in s.objects {
      assert op.order[i] in UnderPrefix(s.objects, op.bucketId, op.folder);
    }
    DeletesTrack(s, s.objects, op.order, u);
  }

  /**
   A step keeps the used bytes of a user equal to what the user owns if and only if it is not one of
   the uploads and copies above.
   */
  lemma StepTracks(s: State, op: Op, u: nat)
    requires Consistent(s) && WellFormed(op) && Tracks(s, u)
    ensures Tracks(Step(s, op), u) <==> !Drifts(s, op, u)
  {
    if Apply(s, op).Ok? {
      match op
      case UploadOp(_, _, _, _, _, _, _) => UploadTracks(s, op, u);
      case CopyOp(_, _, _, _, _, _) => CopyTracks(s, op, u);
      case MoveOp(b, source, d, dest) => MoveTracks(s, b, source, d, dest, u);
      case RenameOp(b, source, dest) => RenameTracks(s, b, source, dest, u);
      case DeleteOp(id) => DeleteOneTracks(s, s.objects, id, u);
      case DeletePathsOp(_, _, _) => DeletePathsTracks(s, op, u);
      case DeleteUnderOp(_, _, _, _) => DeleteUnderTracks(s, op, u);
    }
  }

  ghost predicate NeverDrifts(s: State, ops: seq<Op>, u: nat)
    decreases |ops|
  {
    ops != [] ==> !Drifts(s, ops[0], u) && NeverDrifts(Step(s, ops[0]), ops[1..], u)
  }

  ghost predicate AlwaysTracks(s: State, ops: seq<Op>, u: nat)
    decreases |ops|
  {
    Tracks(s, u) && (ops != [] ==> AlwaysTracks(Step(s, ops[0]), ops[1..], u))
  }

  /** Over a whole run the used bytes are what the user owns, in every state, if and only if no step drifts. */
  lemma {:induction false} RunTracks(s: State, ops: seq<Op>, u: nat)
    requires Consistent(s) && Tracks(s, u) && forall i :: 0 <= i < |ops| ==> WellFormed(ops[i])
    ensures AlwaysTracks(s, ops, u) <==> NeverDrifts(s, ops, u)
    decreases |ops|
  {
    if ops != [] {
      StepKeeps(s, ops[0]);
      StepTracks(s, ops[0], u);
      if Tracks(Step(s, ops[0]), u) { RunTracks(Step(s, ops[0]), ops[1..], u); }
    }
  }
}
