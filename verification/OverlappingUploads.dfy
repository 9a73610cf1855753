/**
 Uploads and copies that overlap (apps/storage/services.py:245-348 and 681-746, apps/storage/quotas.py).
 Each one first checks the limits and, for an overwrite, locks the row; later it stores the object and
 charges its size in one commit. Other operations of the store happen in between.
 */
module OverlappingUploads {
  import opened Prelude
  import opened Paths
  import opened ObjectStore
  import opened StoreRuns
  import opened UserLimits

  /** An upload between its check and its commit: what it will store, and what the check saw. */
  datatype Job = Job(
    existing: Option<nat>,   // the locked row of an overwrite
    newId: nat,
    row: StoredObject,
    replacing: nat,
    charged: Option<nat>,
    seen: int,               // the sum of all sizes at the check
    checked: Quotas)

  datatype System = System(store: State, pending: map<nat, Job>)

  datatype Event =
    | Check(job: nat, op: Op)
    | Commit(job: nat)
    | Abort(job: nat)
    | Other(op: Op)

  function Growth(job: Job): int { job.row.size - job.replacing }

  // ------------------------------------------------------------------- steps

  predicate Stores(op: Op) { op.UploadOp? || op.CopyOp? }

  /** What an upload or copy that passes its checks is about to do. */
  ghost function Planned(s: State, op: Op): Job
    requires Stores(op) && Apply(s, op).Ok?
  {
    var seen := TotalSize(s.objects);
    match op
    case UploadOp(b, path, size, owner, _, _, newId) =>
      var name := SafeObjectPath(path).value;
      var existing := Lookup(s.objects, b, name);
      if existing.Some? then
        var o := s.objects[existing.value];
        Job(existing, newId, Overwritten(o, size, owner), o.size, owner, seen, s.quotas)
      else Job(None, newId, StoredObject(b, name, size, owner), 0, owner, seen, s.quotas)
    case CopyOp(b, source, to, dest, owner, newId) =>
      var src := s.objects[Lookup(s.objects, b, SafeObjectPath(source).value).value];
      var newOwner := if owner.Some? then owner else src.ownerId;
      Job(None, newId, StoredObject(to.bucketId, SafeObjectPath(dest).value, src.size, newOwner), 0, newOwner, seen,
          s.quotas)
  }

  /** A new row is refused by the database when its name or its id has been taken meanwhile. */
  ghost predicate CanCommit(s: State, job: Job) {
    if job.existing.Some? then job.existing.value in s.objects
    else !Taken(s.objects, job.row.bucketId, job.row.name) && job.newId !in s.objects
  }

  function RowOf(job: Job): nat { if job.existing.Some? then job.existing.value else job.newId }

  function Stored(s: State, job: Job): State {
    State(s.objects[RowOf(job) := job.row], ApplyUsageDelta(s.quotas, job.charged, Growth(job)))
  }

  predicate Locked(y: System, id: nat) { exists k :: k in y.pending && y.pending[k].existing == Some(id) }

  /** Locked rows are left as they are: whoever wants to change one waits. */
  ghost predicate RespectsLocks(y: System, after: State) {
    forall id :: Locked(y, id) && id in y.store.objects ==>
      id in after.objects && after.objects[id] == y.store.objects[id]
  }

  /** An event that is not enabled changes nothing. */
  ghost function Next(y: System, e: Event): System {
    match e
    case Check(k, op) =>
      if k !in y.pending && Stores(op) && Apply(y.store, op).Ok?
        && (var id := Planned(y.store, op).existing; id.Some? ==> !Locked(y, id.value))
      then y.(pending := y.pending[k := Planned(y.store, op)])
      else y
    case Commit(k) =>
      if k !in y.pending then y
      else if CanCommit(y.store, y.pending[k]) then System(Stored(y.store, y.pending[k]), y.pending - {k})
      else y.(pending := y.pending - {k})
    case Abort(k) => y.(pending := y.pending - {k})
    case Other(op) =>
      if WellFormed(op) && RespectsLocks(y, Step(y.store, op)) then y.(store := Step(y.store, op)) else y
  }

  ghost function Trace(y: System, events: seq<Event>): System
    decreases |events|
  {
    if events == [] then y else Trace(Next(y, events[0]), events[1..])
  }

  /** Without anything in between, the two halves are the operation. */
  lemma HalvesAreTheWhole(y: System, k: nat, op: Op)
    requires k !in y.pending && Stores(op) && Apply(y.store, op).Ok?
    requires var id := Planned(y.store, op).existing; id.Some? ==> !Locked(y, id.value)
    ensures Next(Next(y, Check(k, op)), Commit(k)) == System(Step(y.store, op), y.pending)
  {
    WholeIsStored(y.store, op);
    assert y.pending[k := Planned(y.store, op)] - {k} == y.pending;
  }

  lemma WholeIsStored(s: State, op: Op)
    requires Stores(op) && Apply(s, op).Ok?
    ensures CanCommit(s, Planned(s, op)) && Step(s, op) == Stored(s, Planned(s, op))
  {
  }

  // --------------------------------------------------------------- invariant

  /** A job still fits the store: the row it overwrites is as it was read, a new row has a storable name. */
  predicate Fits(s: State, job: Job) {
    if job.existing.Some? then
      job.existing.value in s.objects &&
      var o := s.objects[job.existing.value];
      job.row.bucketId == o.bucketId && job.row.name == o.name && job.replacing == o.size
    else Clean(job.row.name) && |job.row.name| <= MAX_NAME && job.replacing == 0
  }

  /** What a passed check means for the limit of the company. */
  predicate Passed(s: State, job: Job) {
    job.seen == job.checked.usedBytes && job.checked.maxBytes == s.quotas.maxBytes
    && (Growth(job) > 0 && s.quotas.maxBytes > 0 ==> job.seen + Growth(job) <= s.quotas.maxBytes)
  }

  /** No row is locked twice. */
  predicate Exclusive(pending: map<nat, Job>) {
    forall j, k | j in pending && k in pending && pending[j].existing.Some? ::
      pending[j].existing == pending[k].existing ==> j == k
  }

  ghost predicate Sound(y: System) {
    Consistent(y.store) && Exclusive(y.pending)
    && forall k :: k in y.pending ==> Fits(y.store, y.pending[k]) && Passed(y.store, y.pending[k])
  }

  lemma StoredIsConsistent(s: State, job: Job)
    requires Consistent(s) && Fits(s, job) && CanCommit(s, job)
    ensures Consistent(Stored(s, job)) && Stored(s, job).quotas.maxBytes == s.quotas.maxBytes
    ensures TotalSize(Stored(s, job).objects) == TotalSize(s.objects) + Growth(job)
  {
    var z := Stored(s, job);
    TotalPut(s.objects, RowOf(job), job.row);
    TotalNonNegative(z.objects);
    ChargeIsExact(s.quotas, job.charged, Growth(job));
    if job.existing.None? { NewNameStaysUnique(s.objects, job.newId, job.row); }
  }

  lemma PlannedFits(s: State, op: Op)
    requires Consistent(s) && Stores(op) && Apply(s, op).Ok?
    ensures Fits(s, Planned(s, op)) && Passed(s, Planned(s, op))
  {
    if op.UploadOp? { SafePathIsClean(op.path); } else { SafePathIsClean(op.dest); }
  }

  /** A job keeps fitting while its row stays and the limit is the same. */
  lemma StillFits(s: State, z: State, job: Job)
    requires Fits(s, job) && Passed(s, job) && z.quotas.maxBytes == s.quotas.maxBytes
    requires job.existing.Some? ==>
      job.existing.value in z.objects && z.objects[job.existing.value] == s.objects[job.existing.value]
    ensures Fits(z, job) && Passed(z, job)
  {
  }

  lemma CheckKeepsSound(y: System, k: nat, op: Op)
    requires Sound(y)
    ensures Sound(Next(y, Check(k, op)))
  {
    if Next(y, Check(k, op)) != y {
      PlannedFits(y.store, op);
      AddingKeepsSound(y, k, Planned(y.store, op));
    }
  }

  lemma AddingKeepsSound(y: System, k: nat, job: Job)
    requires Sound(y) && k !in y.pending && Fits(y.store, job) && Passed(y.store, job)
    requires job.existing.Some? ==> !Locked(y, job.existing.value)
    ensures Sound(y.(pending := y.pending[k := job]))
  {
    assert job.existing.Some? ==> forall j :: j in y.pending ==> y.pending[j].existing != job.existing;
  }

  lemma CommitKeepsSound(y: System, k: nat)
    requires Sound(y)
    ensures Sound(Next(y, Commit(k)))
  {
    if k in y.pending && CanCommit(y.store, y.pending[k]) {
      var job, y' := y.pending[k], Next(y, Commit(k));
      StoredIsConsistent(y.store, job);
      forall j | j in y'.pending ensures Fits(y'.store, y'.pending[j]) && Passed(y'.store, y'.pending[j]) {
        assert j != k && Fits(y.store, y.pending[j]);
        StillFits(y.store, y'.store, y.pending[j]);
      }
    }
  }

  lemma OtherKeepsSound(y: System, op: Op)
    requires Sound(y)
    ensures Sound(Next(y, Other(op)))
  {
    var y' := Next(y, Other(op));
    if y' != y {
      StepKeeps(y.store, op);
      forall j | j in y'.pending ensures Fits(y'.store, y'.pending[j]) && Passed(y'.store, y'.pending[j]) {
        var id := y.pending[j].existing;
        assert id.Some? ==> Locked(y, id.value);
        StillFits(y.store, y'.store, y.pending[j]);
      }
    }
  }

  lemma NextKeepsSound(y: System, e: Event)
    requires Sound(y)
    ensures Sound(Next(y, e)) && Next(y, e).store.quotas.maxBytes == y.store.quotas.maxBytes
  {
    match e
    case Check(k, op) => CheckKeepsSound(y, k, op);
    case Commit(k) =>
      CommitKeepsSound(y, k);
      if k in y.pending && CanCommit(y.store, y.pending[k]) { StoredIsConsistent(y.store, y.pending[k]); }
    case Abort(k) =>
    case Other(op) =>
      OtherKeepsSound(y, op);
      if WellFormed(op) { StepKeeps(y.store, op); }
  }

  /**
   In every interleaving, uploads and copies between their two halves included, names stay unique and
   storable and the counter of the company is the sum of the sizes.
   */
  lemma {:induction false} TraceIsConsistent(y: System, events: seq<Event>)
    requires Sound(y)
    ensures Sound(Trace(y, events)) && Consistent(Trace(y, events).store)
    decreases |events|
  {
    if events != [] {
      NextKeepsSound(y, events[0]);
      TraceIsConsistent(Next(y, events[0]), events[1..]);
    }
  }

  // -------------------------------------------------------------- the limits

  predicate Within(q: Quotas) { q.maxBytes > 0 ==> q.usedBytes <= q.maxBytes }

  /** What the others have stored since the check, less what they have deleted. */
  ghost function GrownSince(y: System, job: Job): int { TotalSize(y.store.objects) - job.seen }

  /** The room that the check left when it let the growth through. */
  function RoomLeft(job: Job): int { job.checked.maxBytes - job.checked.usedBytes - Growth(job) }

  /** The commit of a growing object after the others have taken more than the room that its check left. */
  ghost predicate Overtaken(y: System, e: Event) {
    e.Commit? && e.job in y.pending && CanCommit(y.store, y.pending[e.job]) && y.store.quotas.maxBytes > 0
    && Growth(y.pending[e.job]) > 0 && GrownSince(y, y.pending[e.job]) > RoomLeft(y.pending[e.job])
  }

  /** A step takes the company over its limit if and only if it is an overtaken commit. */
  lemma NextWithin(y: System, e: Event)
    requires Sound(y) && Within(y.store.quotas)
    ensures Within(Next(y, e).store.quotas) <==> !Overtaken(y, e)
  {
    match e
    case Check(k, op) =>
    case Commit(k) =>
      if k in y.pending && CanCommit(y.store, y.pending[k]) { StoredIsConsistent(y.store, y.pending[k]); }
    case Abort(k) =>
    case Other(op) => if WellFormed(op) { StepKeeps(y.store, op); }
  }

  ghost predicate AlwaysWithin(y: System, events: seq<Event>)
    decreases |events|
  {
    Within(y.store.quotas) && (events != [] ==> AlwaysWithin(Next(y, events[0]), events[1..]))
  }

  ghost predicate NeverOvertaken(y: System, events: seq<Event>)
    decreases |events|
  {
    events != [] ==> !Overtaken(y, events[0]) && NeverOvertaken(Next(y, events[0]), events[1..])
  }

  /** An interleaving keeps the limit of the company in all its states if and only if no commit in it is overtaken. */
  lemma {:induction false} LimitHoldsExactly(y: System, events: seq<Event>)
    requires Sound(y) && Within(y.store.quotas)
    ensures AlwaysWithin(y, events) <==> NeverOvertaken(y, events)
    decreases |events|
  {
    if events != [] {
      NextWithin(y, events[0]);
      NextKeepsSound(y, events[0]);
      if !Overtaken(y, events[0]) { LimitHoldsExactly(Next(y, events[0]), events[1..]); }
    }
  }

  /** Nobody else is between check and commit when the sum of the sizes grows. */
  ghost predicate GrowsAlone(y: System, e: Event) {
    TotalSize(Next(y, e).store.objects) > TotalSize(y.store.objects) ==> Next(y, e).pending == map[]
  }

  ghost predicate AlwaysGrowsAlone(y: System, events: seq<Event>)
    decreases |events|
  {
    events != [] ==> GrowsAlone(y, events[0]) && AlwaysGrowsAlone(Next(y, events[0]), events[1..])
  }

  /** The sum has not grown since any pending check. */
  ghost predicate Unhurried(y: System) { forall k :: k in y.pending ==> GrownSince(y, y.pending[k]) <= 0 }

  lemma NextStaysUnhurried(y: System, e: Event)
    requires Sound(y) && Unhurried(y) && GrowsAlone(y, e)
    ensures Unhurried(Next(y, e)) && !Overtaken(y, e)
  {
    var y' := Next(y, e);
    forall k | k in y'.pending ensures GrownSince(y', y'.pending[k]) <= 0 {
      if k in y.pending { assert GrownSince(y, y.pending[k]) <= 0; }
    }
  }

  /** So the limit can be passed only where the sum grows while another upload is between its check and its commit. */
  lemma {:induction false} LimitHoldsWithoutOverlap(y: System, events: seq<Event>)
    requires Sound(y) && Within(y.store.quotas) && Unhurried(y) && AlwaysGrowsAlone(y, events)
    ensures AlwaysWithin(y, events)
    decreases |events|
  {
    if events != [] {
      NextStaysUnhurried(y, events[0]);
      NextWithin(y, events[0]);
      NextKeepsSound(y, events[0]);
      LimitHoldsWithoutOverlap(Next(y, events[0]), events[1..]);
    }
  }

  /** A check lets a growing object through only where it leaves room, of the company and of a named owner. */
  lemma CheckLeavesRoom(s: State, op: Op, u: nat)
    requires Stores(op) && Apply(s, op).Ok? && Growth(Planned(s, op)) > 0
    ensures s.quotas.maxBytes > 0 ==> RoomLeft(Planned(s, op)) >= 0
    ensures op.owner == Some(u) && Limited(s.quotas, u) ==> UserRoomLeft(Planned(s, op), u) >= 0
  {
  }

  /** Two new objects that each take all that is left both pass their checks, and fill the company twice. */
  lemma TwoUploadsTakeTheRest(y: System, j: nat, k: nat, a: Op, b: Op)
    requires Sound(y) && y.pending == map[] && j != k && a.UploadOp? && b.UploadOp?
    requires Apply(y.store, a).Ok? && Apply(y.store, b).Ok?
    requires var p, q := Planned(y.store, a), Planned(y.store, b);
             p.existing.None? && q.existing.None? && p.newId != q.newId && p.row.name != q.row.name
             && p.row.size == q.row.size > 0 && p.row.size == y.store.quotas.maxBytes - y.store.quotas.usedBytes
    ensures var z := Trace(y, [Check(j, a), Check(k, b), Commit(j), Commit(k)]);
            z.store.quotas.usedBytes == y.store.quotas.maxBytes + Planned(y.store, b).row.size
  {
    var p, q := Planned(y.store, a), Planned(y.store, b);
    FourSteps(y, Check(j, a), Check(k, b), Commit(j), Commit(k));
    PlannedFits(y.store, a);
    PlannedFits(y.store, b);
    NamesAreFree(y.store, a);
    NamesAreFree(y.store, b);
    BothCommit(y.store, p, q);
    ChecksPass(y, j, k, a, b);
    var y2 := Next(Next(y, Check(j, a)), Check(k, b));
    CommitsPass(y2, j, k, p, q);
  }

  /** A new object's name and id are free when its check passes. */
  lemma NamesAreFree(s: State, a: Op)
    requires a.UploadOp? && Apply(s, a).Ok? && Planned(s, a).existing.None?
    ensures CanCommit(s, Planned(s, a))
  {
  }

  lemma BothCommit(s: State, p: Job, q: Job)
    requires Consistent(s) && Fits(s, p) && Fits(s, q) && CanCommit(s, p) && CanCommit(s, q)
    requires p.existing.None? && q.existing.None? && p.newId != q.newId && p.row.name != q.row.name
    ensures CanCommit(Stored(s, p), q)
    ensures Stored(Stored(s, p), q).quotas.usedBytes == s.quotas.usedBytes + Growth(p) + Growth(q)
  {
    NotTakenBy(s.objects, p.newId, p.row, q.row);
    StoredIsConsistent(s, p);
    StoredIsConsistent(Stored(s, p), q);
  }

  lemma ChecksPass(y: System, j: nat, k: nat, a: Op, b: Op)
    requires y.pending == map[] && j != k && a.UploadOp? && b.UploadOp?
    requires Apply(y.store, a).Ok? && Apply(y.store, b).Ok?
    requires Planned(y.store, a).existing.None? && Planned(y.store, b).existing.None?
    ensures Next(Next(y, Check(j, a)), Check(k, b))
      == System(y.store, map[j := Planned(y.store, a), k := Planned(y.store, b)])
  {
  }

  lemma CommitsPass(y: System, j: nat, k: nat, p: Job, q: Job)
    requires y.pending == map[j := p, k := q] && j != k && CanCommit(y.store, p) && CanCommit(Stored(y.store, p), q)
    ensures Next(Next(y, Commit(j)), Commit(k)).store == Stored(Stored(y.store, p), q)
  {
    assert map[j := p, k := q] - {j} == map[k := q];
  }

  lemma NotTakenBy(objects: Objects, id: nat, o: StoredObject, row: StoredObject)
    requires o.name != row.name && !Taken(objects, row.bucketId, row.name) && id !in objects
    ensures !Taken(objects[id := o], row.bucketId, row.name)
  {
    var more := objects[id := o];
    forall i ensures !At(more, row.bucketId, row.name, i) { assert !At(objects, row.bucketId, row.name, i); }
  }

  lemma FourSteps(y: System, a: Event, b: Event, c: Event, d: Event)
    ensures Trace(y, [a, b, c, d]) == Next(Next(Next(Next(y, a), b), c), d)
  {
    assert [a, b, c, d][1..] == [b, c, d] && [b, c, d][1..] == [c, d] && [c, d][1..] == [d] && [d][1..] == [];
    assert Trace(Next(Next(Next(y, a), b), c), [d]) == Trace(Next(Next(Next(Next(y, a), b), c), d), []);
    assert Trace(Next(Next(y, a), b), [c, d]) == Trace(Next(Next(Next(y, a), b), c), [d]);
  }

  // ------------------------------------------------------ the limit of a user

  predicate Limited(q: Quotas, u: nat) { ResolveUserLimit(q, Some(u)).Some? && ResolveUserLimit(q, Some(u)).value > 0 }

  predicate UserStays(q: Quotas, u: nat) {
    Limited(q, u) ==> UserUsed(q, Some(u)) <= ResolveUserLimit(q, Some(u)).value
  }

  /** The room of the user that the check left. */
  function UserRoomLeft(job: Job, u: nat): int
    requires Limited(job.checked, u)
  {
    ResolveUserLimit(job.checked, Some(u)).value - UserUsed(job.checked, Some(u)) - Growth(job)
  }

  /** The commit of a growing object of the user after others of the user have taken more than that room. */
  ghost predicate UserOvertaken(y: System, e: Event, u: nat) {
    e.Commit? && e.job in y.pending && CanCommit(y.store, y.pending[e.job]) &&
    var job := y.pending[e.job];
    job.charged == Some(u) && Growth(job) > 0 && Limited(job.checked, u)
    && UserUsed(y.store.quotas, Some(u)) - UserUsed(job.checked, Some(u)) > UserRoomLeft(job, u)
  }

  /** Nothing changes what limit applies to a user. */
  ghost predicate SameLimit(y: System, u: nat) {
    forall k :: k in y.pending ==>
      ResolveUserLimit(y.pending[k].checked, Some(u)) == ResolveUserLimit(y.store.quotas, Some(u))
  }

  lemma ChargeKeepsLimit(q: Quotas, user: Option<nat>, delta: int, u: nat)
    requires NonNegativeUsers(q)
    ensures var z := ApplyUsageDelta(q, user, delta);
            ResolveUserLimit(z, Some(u)) == ResolveUserLimit(q, Some(u))
            && UserUsed(z, Some(u)) == if user == Some(u) && ResolveUserLimit(q, Some(u)).Some?
                                       then Clamp(UserUsed(q, Some(u)) + delta) else UserUsed(q, Some(u))
  {
  }

  lemma {:induction false} DeletesKeepLimit(s: State, read: Objects, ids: seq<nat>, u: nat)
    requires NonNegativeUsers(s.quotas) && forall i :: 0 <= i < |ids| ==> ids[i] in read
    ensures ResolveUserLimit(DeleteAll(s, read, ids).quotas, Some(u)) == ResolveUserLimit(s.quotas, Some(u))
    decreases |ids|
  {
    if ids != [] {
      var size: int := read[ids[0]].size;
      ChargeKeepsLimit(s.quotas, read[ids[0]].ownerId, -size, u);
      DeletesKeepLimit(DeleteOne(s, read, ids[0]), read, ids[1..], u);
    }
  }

  lemma StoringKeepsLimit(s: State, op: Op, u: nat)
    requires NonNegativeUsers(s.quotas) && Stores(op) && Apply(s, op).Ok?
    ensures ResolveUserLimit(Step(s, op).quotas, Some(u)) == ResolveUserLimit(s.quotas, Some(u))
  {
    WholeIsStored(s, op);
    var job := Planned(s, op);
    ChargeKeepsLimit(s.quotas, job.charged, Growth(job), u);
  }

  lemma DeletingKeepsLimit(s: State, op: Op, u: nat)
    requires NonNegativeUsers(s.quotas) && (op.DeleteOp? || op.DeletePathsOp? || op.DeleteUnderOp?)
    ensures ResolveUserLimit(Step(s, op).quotas, Some(u)) == ResolveUserLimit(s.quotas, Some(u))
  {
    match op
    case DeleteOp(id) => if id in s.objects { DeletesKeepLimit(s, s.objects, [id], u); }
    case DeletePathsOp(b, paths, _) => DeletesKeepLimit(s, s.objects, Hits(s.objects, b, paths), u);
    case DeleteUnderOp(b, folder, _, order) =>
      if Lists(order, UnderPrefix(s.objects, b, folder)) {
        forall i | 0 <= i < |order| ensures order[i] in s.objects {
          assert order[i] in UnderPrefix(s.objects, b, folder);
        }
        DeletesKeepLimit(s, s.objects, order, u);
      }
  }

  lemma StepKeepsLimit(s: State, op: Op, u: nat)
    requires Consistent(s)
    ensures ResolveUserLimit(Step(s, op).quotas, Some(u)) == ResolveUserLimit(s.quotas, Some(u))
  {
    if Stores(op) {
      if Apply(s, op).Ok? { StoringKeepsLimit(s, op, u); }
    } else if op.DeleteOp? || op.DeletePathsOp? || op.DeleteUnderOp? {
      DeletingKeepsLimit(s, op, u);
    }
  }

  /** A copy without an owner in one piece asks no user's limit; in two halves it is charged like any other. */
  predicate Asks(e: Event) { !(e.Other? && e.op.CopyOp? && e.op.owner.None?) }

  lemma NextKeepsLimit(y: System, e: Event, u: nat)
    requires Sound(y) && SameLimit(y, u)
    ensures SameLimit(Next(y, e), u)
    ensures ResolveUserLimit(Next(y, e).store.quotas, Some(u)) == ResolveUserLimit(y.store.quotas, Some(u))
  {
    if e.Commit? && e.job in y.pending {
      ChargeKeepsLimit(y.store.quotas, y.pending[e.job].charged, Growth(y.pending[e.job]), u);
    }
    if e.Other? { StepKeepsLimit(y.store, e.op, u); }
  }

  lemma NextUserStays(y: System, e: Event, u: nat)
    requires Sound(y) && SameLimit(y, u) && UserStays(y.store.quotas, u) && Asks(e)
    ensures UserStays(Next(y, e).store.quotas, u) <==> !UserOvertaken(y, e, u)
  {
    NextKeepsLimit(y, e, u);
    if e.Commit? && e.job in y.pending {
      ChargeKeepsLimit(y.store.quotas, y.pending[e.job].charged, Growth(y.pending[e.job]), u);
    }
    if e.Other? && WellFormed(e.op) { StepWithin(y.store, e.op, u); }
  }

  ghost predicate UserAlwaysStays(y: System, events: seq<Event>, u: nat)
    decreases |events|
  {
    UserStays(y.store.quotas, u) && (events != [] ==> UserAlwaysStays(Next(y, events[0]), events[1..], u))
  }

  ghost predicate UserNeverOvertaken(y: System, events: seq<Event>, u: nat)
    decreases |events|
  {
    events != [] ==> !UserOvertaken(y, events[0], u) && UserNeverOvertaken(Next(y, events[0]), events[1..], u)
  }

  /** The same for the limit of each user. */
  lemma {:induction false} UserLimitHoldsExactly(y: System, events: seq<Event>, u: nat)
    requires Sound(y) && SameLimit(y, u) && UserStays(y.store.quotas, u)
    requires forall i :: 0 <= i < |events| ==> Asks(events[i])
    ensures UserAlwaysStays(y, events, u) <==> UserNeverOvertaken(y, events, u)
    decreases |events|
  {
    if events != [] {
      NextUserStays(y, events[0], u);
      NextKeepsSound(y, events[0]);
      NextKeepsLimit(y, events[0], u);
      if !UserOvertaken(y, events[0], u) { UserLimitHoldsExactly(Next(y, events[0]), events[1..], u); }
    }
  }
}
