/**
 The per-user ceiling of assert_can_store and apply_usage_delta (apps/storage/quotas.py): it
 holds for every operation except a copy made without an owner, which is charged to the owner
 of the source after a check that knew no user.
 */
module UserLimits {
  import opened Prelude
  import opened Paths
  import opened ObjectStore
  import opened StoreRuns

  /** The user stays at or below the limit, or at or below the usage before. */
  predicate UserWithin(before: Quotas, after: Quotas, u: nat) {
    var limit := ResolveUserLimit(after, Some(u));
    limit.Some? && limit.value > 0 ==>
      UserUsed(after, Some(u)) <= UserUsed(before, Some(u)) || UserUsed(after, Some(u)) <= limit.value
  }

  ghost predicate NonNegativeUsers(q: Quotas) { forall u :: u in q.users ==> q.users[u].usedBytes >= 0 }

  /** Charging a user what the check let through keeps every user within. */
  lemma CheckedChargeStaysWithin(q: Quotas, user: Option<nat>, additional: nat, replacing: nat, u: nat)
    requires NonNegativeUsers(q) && AssertCanStore(q, user, additional, replacing).None?
    ensures UserWithin(q, ApplyUsageDelta(q, user, additional - replacing), u)
  {
  }

  /** A copy keeps a user within exactly unless it has no owner of its own and overfills the owner of the source. */
  lemma CopyWithin(s: State, b: nat, source: string, d: Destination, dest: string, owner: Option<nat>, newId: nat,
                   u: nat)
    requires Consistent(s) && Copy(s, b, source, d, dest, owner, newId).Ok?
    ensures var src := s.objects[Lookup(s.objects, b, SafeObjectPath(source).value).value];
            var limit := ResolveUserLimit(s.quotas, Some(u));
            var overfills := owner.None? && src.ownerId == Some(u) && src.size > 0
              && limit.Some? && 0 < limit.value < UserUsed(s.quotas, Some(u)) + src.size;
            UserWithin(s.quotas, Copy(s, b, source, d, dest, owner, newId).value.quotas, u) <==> !overfills
  {
    var src := s.objects[Lookup(s.objects, b, SafeObjectPath(source).value).value];
    if owner.Some? { CheckedChargeStaysWithin(s.quotas, owner, src.size, 0, u); }
  }

  lemma {:induction false} DeletesStayWithin(s: State, read: Objects, ids: seq<nat>, u: nat)
    requires NonNegativeUsers(s.quotas) && forall i :: 0 <= i < |ids| ==> ids[i] in read
    ensures NonNegativeUsers(DeleteAll(s, read, ids).quotas)
    ensures UserUsed(DeleteAll(s, read, ids).quotas, Some(u)) <= UserUsed(s.quotas, Some(u))
    decreases |ids|
  {
    if ids != [] { DeletesStayWithin(DeleteOne(s, read, ids[0]), read, ids[1..], u); }
  }

  lemma UploadWithin(s: State, b: nat, path: string, size: nat, owner: Option<nat>, upsert: bool, policy: Policy,
                     newId: nat, u: nat)
    requires Consistent(s) && Upload(s, b, path, size, owner, upsert, policy, newId).Ok?
    ensures UserWithin(s.quotas, Upload(s, b, path, size, owner, upsert, policy, newId).value.quotas, u)
  {
    var existing := Lookup(s.objects, b, SafeObjectPath(path).value);
    CheckedChargeStaysWithin(s.quotas, owner, size, if existing.Some? then s.objects[existing.value].size else 0, u);
  }

  /** Apart from copies without an owner, no operation takes any user above both the limit and the usage before. */
  lemma StepWithin(s: State, op: Op, u: nat)
    requires Consistent(s) && WellFormed(op) && !(op.CopyOp? && op.owner.None?)
    ensures UserWithin(s.quotas, Step(s, op).quotas, u)
  {
    match op
    case UploadOp(b, path, size, owner, upsert, policy, newId) =>
      if Apply(s, op).Ok? { UploadWithin(s, b, path, size, owner, upsert, policy, newId, u); }
    case CopyOp(b, source, d, dest, owner, newId) =>
      if Apply(s, op).Ok? { CopyWithin(s, b, source, d, dest, owner, newId, u); }
    case MoveOp(_, _, _, _) =>
    case RenameOp(_, _, _) =>
    case DeleteOp(id) => if id in s.objects { DeletesStayWithin(s, s.objects, [id], u); }
    case DeletePathsOp(b, paths, _) => DeletesStayWithin(s, s.objects, Hits(s.objects, b, paths), u);
    case DeleteUnderOp(b, folder, _, order) =>
      if Lists(order, UnderPrefix(s.objects, b, folder)) {
        forall i | 0 <= i < |order|
          ensures order[i] in s.objects
        {
          assert order[i] in UnderPrefix(s.objects, b, folder);
        }
        DeletesStayWithin(s, s.objects, order, u);
      }
  }
}
