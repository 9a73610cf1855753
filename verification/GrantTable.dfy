/**
 The grant rows written when a folder or a file is created: a nested folder gets
 a copy of the nearest granted ancestor's rows, anything else is made private to
 its creator (apps/storage/access.py:554-780).
 */
module GrantTable {
  import opened Prelude
  import opened Paths
  import opened Access
  import opened AccessWalk

  /** The object a grant is created for. */
  datatype Target = Target(id: nat, bucketId: nat, companyId: nat)

  predicate IsMarkerOfOne(name: string, folders: seq<string>) {
    exists i :: 0 <= i < |folders| && name == FolderPlaceholderPath(folders[i])
  }

  /** The active folder grants of a bucket whose marker name is the one of a listed folder. */
  function FoundByName(grants: set<Grant>, names: Names, bucketId: nat, companyId: nat, folders: seq<string>,
                       now: int): set<Grant> {
    set g | g in grants && g.companyId == companyId && g.bucketId == bucketId && g.resourceType == Folder
      && Active(g, now) && TargetName(names, g).Some? && IsMarkerOfOne(TargetName(names, g).value, folders)
  }

  function OnFolder(found: set<Grant>, names: Names, folder: string): set<Grant> {
    set g | g in found && TargetFolder(names, g) == folder
  }

  /** The last listed folder that has grants. */
  ghost predicate IsDeepest(found: set<Grant>, names: Names, folders: seq<string>, nearest: Option<string>) {
    match nearest
    case None => forall i :: 0 <= i < |folders| ==> OnFolder(found, names, folders[i]) == {}
    case Some(n) => exists i ::
      0 <= i < |folders| && folders[i] == n && OnFolder(found, names, n) != {} &&
      forall j :: i < j < |folders| ==> OnFolder(found, names, folders[j]) == {}
  }

  /** The row that carries a source grant over to the target. */
  function CopyTo(src: Grant, id: nat, target: Target): Grant {
    src.(id := id, companyId := target.companyId, bucketId := target.bucketId, target := Some(target.id))
  }

  function CopySet(ids: map<Grant, nat>, target: Target): set<Grant> {
    set s | s in ids :: CopyTo(s, ids[s], target)
  }

  ghost predicate Injective(ids: map<Grant, nat>) {
    forall a, b :: a in ids && b in ids && ids[a] == ids[b] ==> a == b
  }

  /** One created row for each source, with its own id and nothing else. */
  ghost predicate Copies(sources: set<Grant>, created: set<Grant>, target: Target) {
    exists ids: map<Grant, nat> :: ids.Keys == sources && Injective(ids) && created == CopySet(ids, target)
  }

  lemma CopySetGrows(ids: map<Grant, nat>, s: Grant, id: nat, target: Target)
    requires s !in ids
    ensures CopySet(ids[s := id], target) == CopySet(ids, target) + {CopyTo(s, id, target)}
  {
    var more := ids[s := id];
    forall x | x in CopySet(ids, target) + {CopyTo(s, id, target)} ensures x in CopySet(more, target) {
      if x in CopySet(ids, target) {
        var y :| y in ids && x == CopyTo(y, ids[y], target);
        assert y in more && more[y] == ids[y];
      } else {
        assert s in more && more[s] == id;
      }
    }
  }

  function DenyCompany(id: nat, target: Target, resourceType: ResourceType): Grant {
    Grant(id, target.companyId, target.bucketId, Some(target.id), Company, Decimal(target.companyId), resourceType,
      Read, Deny, None)
  }

  function AllowUser(id: nat, target: Target, resourceType: ResourceType, userId: nat): Grant {
    Grant(id, target.companyId, target.bucketId, Some(target.id), User, Decimal(userId), resourceType, Admin, Allow,
      None)
  }

  /** Company-wide read denied, everything allowed to the creator. */
  ghost predicate PrivatePair(created: set<Grant>, target: Target, resourceType: ResourceType, creator: nat) {
    exists i, j :: created == {DenyCompany(i, target, resourceType), AllowUser(j, target, resourceType, creator)}
  }

  predicate ResourceGrantsExist(grants: set<Grant>, target: Target, resourceType: ResourceType, now: int) {
    exists g :: g in grants && g.companyId == target.companyId && g.bucketId == target.bucketId && Active(g, now)
      && g.resourceType == resourceType && g.target == Some(target.id)
  }

  /** The path a default is computed for: the folder behind a marker, or the file itself. */
  function DefaultPath(names: Names, target: Target, resourceType: ResourceType): string
    requires target.id in names
  {
    if resourceType == Folder then FolderPathFromPlaceholder(names[target.id]) else NormalizePath(names[target.id])
  }

  /** What ensure_default_private_access creates, branch by branch. */
  ghost predicate Ensured(before: set<Grant>, names: Names, userId: Option<nat>, target: Target,
                          resourceType: ResourceType, now: int, created: set<Grant>, nearest: Option<string>)
    requires target.id in names
  {
    var path := DefaultPath(names, target, resourceType);
    var found := FoundByName(before, names, target.bucketId, target.companyId, AncestorPrefixes(path), now);
    if userId.None? || resourceType == WholeBucket || path == "" ||
      ResourceGrantsExist(before, target, resourceType, now)
    then created == {} && nearest.None?
    else
      IsDeepest(found, names, AncestorPrefixes(path), nearest) &&
      (nearest.Some? && resourceType == Folder ==> Copies(OnFolder(found, names, nearest.value), created, target)) &&
      (nearest.Some? && resourceType == File ==> created == {}) &&
      (nearest.None? ==> PrivatePair(created, target, resourceType, userId.value))
  }

  /** What a stored object counts as when its grants are set up: a marker is its folder. */
  function CreatedKind(name: string, isFolder: bool): ResourceType {
    if isFolder || EndsWith(NormalizePath(name), "/" + MARKER) then Folder else File
  }

  /** The names for which nothing is set up: empty ones, and the marker of the bucket root. */
  predicate NothingToSetUp(name: string, isFolder: bool) {
    var path := NormalizePath(name);
    path == "" || path == MARKER || (CreatedKind(name, isFolder) == Folder && FolderPathFromPlaceholder(path) == "")
  }

  class Table {
    var grants: set<Grant>
    var nextId: nat

    ghost predicate Valid()
      reads this
    {
      forall g :: g in grants ==> g.id < nextId
    }

    constructor ()
      ensures Valid() && grants == {}
    {
      grants := {};
      nextId := 0;
    }

    method Create(g: Grant) returns (row: Grant)
      requires Valid()
      modifies this
      ensures Valid() && row == g.(id := old(nextId)) && nextId == old(nextId) + 1
      ensures grants == old(grants) + {row} && row !in old(grants)
    {
      row := g.(id := nextId);
      grants := grants + {row};
      nextId := nextId + 1;
    }

    /** The deepest ancestor folder that has grants, and those grants. */
    method NearestAncestorFolderGrants(names: Names, bucketId: nat, companyId: nat, path: string, now: int)
      returns (nearest: Option<string>, sources: set<Grant>)
      ensures var found := FoundByName(grants, names, bucketId, companyId, AncestorPrefixes(path), now);
              IsDeepest(found, names, AncestorPrefixes(path), nearest) &&
              sources == if nearest.Some? then OnFolder(found, names, nearest.value) else {}
    {
      var ancestors := AncestorPrefixes(path);
      if ancestors == [] { return None, {}; }
      var found := FoundByName(grants, names, bucketId, companyId, ancestors, now);
      if found == {} { return None, {}; }
      nearest := DeepestFolder(found, names, ancestors);
      sources := if nearest.Some? then OnFolder(found, names, nearest.value) else {};
    }

    /** The reversed scan over the ancestors. */
    static method DeepestFolder(found: set<Grant>, names: Names, folders: seq<string>) returns (nearest: Option<string>)
      ensures IsDeepest(found, names, folders, nearest)
    {
      var i := |folders|;
      while i > 0
        invariant 0 <= i <= |folders|
        invariant forall j :: i <= j < |folders| ==> OnFolder(found, names, folders[j]) == {}
      {
        i := i - 1;
        if OnFolder(found, names, folders[i]) != {} { return Some(folders[i]); }
      }
      return None;
    }

    method CopyFolderGrants(sources: set<Grant>, target: Target) returns (created: set<Grant>)
      requires Valid()
      requires forall s :: s in sources ==> s.resourceType == Folder
      modifies this
      ensures Valid() && grants == old(grants) + created && created !! old(grants)
      ensures Copies(sources, created, target)
    {
      created := {};
      ghost var ids: map<Grant, nat> := map[];
      var todo := sources;
      while todo != {}
        invariant Valid() && todo <= sources && ids.Keys == sources - todo
        invariant old(nextId) <= nextId && forall s :: s in ids ==> old(nextId) <= ids[s] < nextId
        invariant Injective(ids) && created == CopySet(ids, target)
        invariant grants == old(grants) + created && created !! old(grants)
      {
        var s :| s in todo;
        var row := Create(s.(companyId := target.companyId, bucketId := target.bucketId, target := Some(target.id)));
        CopySetGrows(ids, s, row.id, target);
        ids := ids[s := row.id];
        todo := todo - {s};
        created := created + {row};
      }
    }

    method EnsureDefaultPrivateAccess(names: Names, userId: Option<nat>, target: Target, resourceType: ResourceType,
                                      now: int)
      returns (created: set<Grant>, nearest: Option<string>)
      requires Valid() && target.id in names
      modifies this
      ensures Valid() && grants == old(grants) + created && created !! old(grants)
      ensures Ensured(old(grants), names, userId, target, resourceType, now, created, nearest)
    {
      nearest := None;
      if userId.None? || resourceType == WholeBucket { return {}, None; }
      var path := DefaultPath(names, target, resourceType);
      if path == "" { return {}, None; }
      if ResourceGrantsExist(grants, target, resourceType, now) { return {}, None; }
      var sources;
      nearest, sources := NearestAncestorFolderGrants(names, target.bucketId, target.companyId, path, now);
      if nearest.Some? && sources != {} {
        if resourceType == Folder {
          created := CopyFolderGrants(sources, target);
          return created, nearest;
        }
        return {}, nearest;
      }
      var deny := Create(DenyCompany(0, target, resourceType));
      var allow := Create(AllowUser(0, target, resourceType, userId.value));
      created := {deny, allow};
      assert deny == DenyCompany(deny.id, target, resourceType);
      assert allow == AllowUser(allow.id, target, resourceType, userId.value);
    }

    /** Called after a folder or a file is stored: a marker counts as its folder. */
    method ApplyDefaultPrivateOnCreate(names: Names, userId: Option<nat>, target: Target, isFolder: bool, now: int)
      returns (created: set<Grant>, nearest: Option<string>)
      requires Valid() && target.id in names
      modifies this
      ensures Valid() && grants == old(grants) + created && created !! old(grants)
      ensures if userId.None? || NothingToSetUp(names[target.id], isFolder) then created == {} && nearest.None?
        else Ensured(old(grants), names, userId, target, CreatedKind(names[target.id], isFolder), now, created, nearest)
      ensures created == {} ==> Neutral(old(grants), created, names, target, now)
      ensures nearest.Some? && NewMarkerPlaced(old(grants), names, target) ==>
        Neutral(old(grants), created, names, target, now)
      ensures nearest.None? && KeepsApart(names[target.id], CreatedKind(names[target.id], isFolder)) ==>
        Spares(old(grants), created, names, target, CreatedKind(names[target.id], isFolder))
    {
      created, nearest := {}, None;
      ghost var kind := CreatedKind(names[target.id], isFolder);
      assert grants + {} == grants;
      NothingIsNeutral(grants, names, target, now);
      var path := NormalizePath(names[target.id]);
      if userId.None? || path == "" || path == MARKER { return; }
      if isFolder || EndsWith(path, "/" + MARKER) {
        if FolderPathFromPlaceholder(path) == "" { return; }
        created, nearest := EnsureDefaultPrivateAccess(names, userId, target, Folder, now);
        if created != {} && nearest.Some? && NewMarkerPlaced(old(grants), names, target) {
          NestedFolderIsNeutral(old(grants), created, names, target, nearest.value, now);
        }
      } else {
        created, nearest := EnsureDefaultPrivateAccess(names, userId, target, File, now);
      }
      if created != {} && nearest.None? && KeepsApart(names[target.id], kind) {
        PairSpares(old(grants), created, names, target, kind, userId.value);
      } else {
        assert old(grants) + {} == old(grants);
      }
    }
  }

  /** The target is the marker of a canonical folder, like every folder grant's target in its bucket. */
  ghost predicate NewMarkerPlaced(grants: set<Grant>, names: Names, target: Target)
    requires target.id in names
  {
    var folder := FolderPathFromPlaceholder(names[target.id]);
    MarkersPlaced(grants, names, target.bucketId) && UniqueNames(names) && Canonical(folder)
    && names[target.id] == FolderPlaceholderPath(folder) && |names[target.id]| <= MAX_NAME
  }

  /** The created rows change no decision, now or later. */
  ghost predicate Neutral(grants: set<Grant>, created: set<Grant>, names: Names, target: Target, now: int) {
    forall principal, bucket, rq, required, later | later >= now && InBucket(bucket, target) ::
      EvaluateAccess(grants + created, names, principal, bucket, rq, required, later)
      == EvaluateAccess(grants, names, principal, bucket, rq, required, later)
  }

  predicate InBucket(bucket: Bucket, target: Target) {
    bucket.id == target.bucketId && bucket.companyId == target.companyId
  }

  lemma NothingIsNeutral(grants: set<Grant>, names: Names, target: Target, now: int)
    ensures Neutral(grants, {}, names, target, now)
  {
    assert grants + {} == grants;
  }

  /** What the copying branch leaves behind is a finished copy, so nobody's access changes. */
  lemma NestedFolderIsNeutral(grants: set<Grant>, created: set<Grant>, names: Names, target: Target, nearest: string,
                              now: int)
    requires target.id in names && NewMarkerPlaced(grants, names, target) &&
      !ResourceGrantsExist(grants, target, Folder, now)
    requires var path := FolderPathFromPlaceholder(names[target.id]);
             var found := FoundByName(grants, names, target.bucketId, target.companyId, AncestorPrefixes(path), now);
             IsDeepest(found, names, AncestorPrefixes(path), Some(nearest)) &&
               Copies(OnFolder(found, names, nearest), created, target)
    ensures Neutral(grants, created, names, target, now)
  {
    var path := FolderPathFromPlaceholder(names[target.id]);
    var found := FoundByName(grants, names, target.bucketId, target.companyId, AncestorPrefixes(path), now);
    var k := Copying(grants, names, target, path, nearest, OnFolder(found, names, nearest), created, now);
    forall principal, bucket, rq, required, later | later >= now && InBucket(bucket, target)
      ensures EvaluateAccess(grants + created, names, principal, bucket, rq, required, later)
        == EvaluateAccess(grants, names, principal, bucket, rq, required, later)
    {
      CopyIsNeutral(k, principal, bucket, rq, required, later);
    }
  }

  // ------------------------------------------------ whom a private pair spares

  /** The folder that a stored marker stands in. */
  function StoredFolder(name: string): string {
    if EndsWith(name, "/" + MARKER) then name[..|name| - |MARKER| - 1] else name
  }

  /**
   The request is for the bucket root or a canonical path that, by the stored name, is neither the new
   folder nor in it, or not the new file.
   */
  predicate Elsewhere(name: string, id: nat, resourceType: ResourceType, rq: Request) {
    var path := match rq.path case Some(p) => p case None => "";
    (path == "" || Canonical(path)) &&
    if resourceType == Folder then !Inside(StoredFolder(name), path) else path != name && rq.objectId != Some(id)
  }

  /**
   Normalising leads from the new folder back to it, or nowhere: to a path with no canonical path
   below it. For a file the same, with the path itself.
   */
  predicate KeepsApart(name: string, resourceType: ResourceType) {
    if resourceType == Folder then
      var h := NormalizePath(FolderPathFromPlaceholder(name));
      h != "" && (h == StoredFolder(name) || !Canonical(h + "/x"))
    else
      var h := NormalizePath(name);
      h == name || !Canonical(h)
  }

  /** The created rows change no decision elsewhere. */
  ghost predicate Spares(grants: set<Grant>, created: set<Grant>, names: Names, target: Target,
                         resourceType: ResourceType)
    requires target.id in names
  {
    forall principal, bucket, rq, required, now |
      InBucket(bucket, target) && Elsewhere(names[target.id], target.id, resourceType, rq) ::
      EvaluateAccess(grants + created, names, principal, bucket, rq, required, now)
      == EvaluateAccess(grants, names, principal, bucket, rq, required, now)
  }

  /** What a grant on the object matches, as a grant on a folder or on a file. */
  predicate Reaches(name: string, id: nat, resourceType: ResourceType, rq: Request) {
    if resourceType == Folder then FolderMatches(FolderPathFromPlaceholder(name), RequestPath(rq))
    else rq.objectId == Some(id) || (RequestPath(rq) != "" && NormalizePath(name) == RequestPath(rq))
  }

  /** A pair on a name that keeps apart spares all else. */
  lemma PairSpares(grants: set<Grant>, pair: set<Grant>, names: Names, target: Target, resourceType: ResourceType,
                   creator: nat)
    requires target.id in names && PrivatePair(pair, target, resourceType, creator)
    requires resourceType == File || resourceType == Folder
    requires KeepsApart(names[target.id], resourceType)
    ensures Spares(grants, pair, names, target, resourceType)
  {
    PairIsOfTarget(pair, target, resourceType, creator);
    forall principal, bucket, rq, required, now |
      InBucket(bucket, target) && Elsewhere(names[target.id], target.id, resourceType, rq)
      ensures EvaluateAccess(grants + pair, names, principal, bucket, rq, required, now)
        == EvaluateAccess(grants, names, principal, bucket, rq, required, now)
    {
      if resourceType == Folder {
        ApartFolderReachesItsOwn(names[target.id], target.id, rq);
      } else {
        ApartFileReachesItsOwn(names[target.id], target.id, rq);
      }
      UnreachedIsUnmatched(pair, names, target, resourceType, bucket, rq);
      UnmatchedIsIdle(grants, pair, names, principal, bucket, rq, required, now);
    }
  }

  lemma ApartFolderReachesItsOwn(name: string, id: nat, rq: Request)
    requires KeepsApart(name, Folder) && Elsewhere(name, id, Folder, rq)
    ensures !Reaches(name, id, Folder, rq)
  {
    var h := NormalizePath(FolderPathFromPlaceholder(name));
    var path := match rq.path case Some(p) => p case None => "";
    NormalizeFixed("");
    if path != "" {
      CanonicalIsNormal(path);
      LetterIsCanonical('x');
      CanonicalJoin(h, "x");
      assert h + "/" + "x" == h + "/x";
      assert RequestPath(rq) == path;
      if Inside(h, path) { AboveCanonical(h, path); }
      assert !Inside(h, path);
    }
  }

  lemma ApartFileReachesItsOwn(name: string, id: nat, rq: Request)
    requires KeepsApart(name, File) && Elsewhere(name, id, File, rq)
    ensures !Reaches(name, id, File, rq)
  {
    var path := match rq.path case Some(p) => p case None => "";
    NormalizeFixed("");
    if path != "" { CanonicalIsNormal(path); }
  }

  predicate OfTarget(created: set<Grant>, target: Target, resourceType: ResourceType) {
    forall g :: g in created ==> g.target == Some(target.id) && g.resourceType == resourceType
  }

  lemma PairIsOfTarget(pair: set<Grant>, target: Target, resourceType: ResourceType, creator: nat)
    requires PrivatePair(pair, target, resourceType, creator)
    ensures OfTarget(pair, target, resourceType)
  {
  }

  lemma UnreachedIsUnmatched(pair: set<Grant>, names: Names, target: Target, resourceType: ResourceType, bucket: Bucket,
                             rq: Request)
    requires target.id in names && OfTarget(pair, target, resourceType)
    requires resourceType == File || resourceType == Folder
    requires !Reaches(names[target.id], target.id, resourceType, rq)
    ensures forall g :: g in pair ==> !ResourceMatches(names, g, bucket, rq)
  {
  }

  /** Grants that do not match take no part in the decision. */
  lemma UnmatchedIsIdle(grants: set<Grant>, more: set<Grant>, names: Names, principal: Principal, bucket: Bucket,
                        rq: Request, required: Permission, now: int)
    requires forall g :: g in more ==> !ResourceMatches(names, g, bucket, rq)
    ensures EvaluateAccess(grants + more, names, principal, bucket, rq, required, now)
      == EvaluateAccess(grants, names, principal, bucket, rq, required, now)
  {
    assert Relevant(grants + more, names, principal, bucket, rq, now)
      == Relevant(grants, names, principal, bucket, rq, now);
  }

  // -------------------------------------------------- copying changes nothing

  /** Every folder grant of the bucket points at the marker of a canonical folder. */
  predicate MarkersPlaced(grants: set<Grant>, names: Names, bucketId: nat) {
    FoldersWellPlaced(grants, names, bucketId) &&
    forall g :: g in grants && g.bucketId == bucketId && g.resourceType == Folder && TargetName(names, g).Some? ==>
      TargetName(names, g).value == FolderPlaceholderPath(TargetFolder(names, g))
  }

  predicate UniqueNames(names: Names) {
    forall i, j :: i in names && j in names && names[i] == names[j] ==> i == j
  }

  ghost predicate NoCells(names: Names, relevant: set<Grant>, folder: string) {
    Cell(names, relevant, FolderLevel(folder), User) == {} && Cell(names, relevant, FolderLevel(folder), Company) == {}
  }

  lemma {:induction false} WalkSame(names: Names, a: set<Grant>, b: set<Grant>, folder: string, required: Permission,
                                    default: bool)
    requires forall f, s :: InChain(f, folder) ==>
      Cell(names, a, FolderLevel(f), s) == Cell(names, b, FolderLevel(f), s)
    requires forall s :: Cell(names, a, BucketLevel, s) == Cell(names, b, BucketLevel, s)
    ensures WalkFolders(names, a, folder, required, default) == WalkFolders(names, b, folder, required, default)
    decreases |folder|
  {
    if folder != "" { WalkSame(names, a, b, Parent(folder), required, default); }
  }

  /** Folders without matching grants are passed over. */
  lemma {:induction false} WalkSkips(names: Names, r: set<Grant>, folder: string, to: string, required: Permission,
                                     default: bool)
    requires InChain(to, folder)
    requires forall f :: InChain(f, folder) && InChain(to, f) && f != to ==> NoCells(names, r, f)
    ensures WalkFolders(names, r, folder, required, default) == WalkFolders(names, r, to, required, default)
    decreases |folder|
  {
    if folder != to { WalkSkips(names, r, Parent(folder), to, required, default); }
  }

  /** Two walks that agree from `from` upwards, and on every folder below it, agree. */
  lemma {:induction false} WalkAgrees(names: Names, a: set<Grant>, b: set<Grant>, folder: string, from: string,
                                      required: Permission, default: bool)
    requires InChain(from, folder)
    requires forall f, s :: InChain(f, folder) && f != from ==>
      Cell(names, a, FolderLevel(f), s) == Cell(names, b, FolderLevel(f), s)
    requires WalkFolders(names, a, from, required, default) == WalkFolders(names, b, from, required, default)
    ensures WalkFolders(names, a, folder, required, default) == WalkFolders(names, b, folder, required, default)
    decreases |folder|
  {
    if folder != from { WalkAgrees(names, a, b, Parent(folder), from, required, default); }
  }

  lemma {:induction false} ChainTransitive(f: string, g: string, p: string)
    requires InChain(f, g) && InChain(g, p)
    ensures InChain(f, p)
    decreases |p|
  {
    if g != p { ChainTransitive(f, g, Parent(p)); }
  }

  lemma AncestorDepth(path: string, i: nat)
    requires i < |AncestorPrefixes(path)|
    ensures AncestorPrefixes(path)[i] != "" ==> FolderDepth(AncestorPrefixes(path)[i]) == i + 1
  {
    var parts := Split(NormalizePath(path));
    var head := parts[..i + 1];
    assert AncestorPrefixes(path)[i] == Join(head);
    forall j | 0 <= j < |head| ensures '/' !in head[j] { assert head[j] == parts[j]; }
    SplitJoin(head);
    assert |Split(Join(head))| == i + 1;
  }

  lemma CellsAgreeOnCopies(a: set<Grant>, b: set<Grant>, required: Permission, default: bool)
    requires forall x :: x in a ==> HasTwin(b, x)
    requires forall y :: y in b ==> HasTwin(a, y)
    ensures CellAllows(a, required, default) == CellAllows(b, required, default)
  {
  }

  /** The active grants standing on a folder of the target's bucket. */
  function LiveOn(grants: set<Grant>, names: Names, target: Target, folder: string, now: int): set<Grant> {
    set g | g in grants && g.companyId == target.companyId && g.bucketId == target.bucketId && g.resourceType == Folder
      && Active(g, now) && TargetName(names, g).Some? && TargetFolder(names, g) == folder
  }

  /** A nested folder `folder` whose marker `target` received copies of the rows of `nearest`. */
  datatype Copying = Copying(grants: set<Grant>, names: Names, target: Target, folder: string, nearest: string,
                             sources: set<Grant>, created: set<Grant>, now: int)
  {
    /** What holds when the copies have been written. */
    ghost predicate Done() {
      MarkersPlaced(grants, names, target.bucketId) && UniqueNames(names) && Canonical(folder) &&
      target.id in names && names[target.id] == FolderPlaceholderPath(folder) && |names[target.id]| <= MAX_NAME &&
      !ResourceGrantsExist(grants, target, Folder, now) &&
      (var found := FoundByName(grants, names, target.bucketId, target.companyId, AncestorPrefixes(folder), now);
       IsDeepest(found, names, AncestorPrefixes(folder), Some(nearest)) &&
         sources == OnFolder(found, names, nearest)) &&
      Copies(sources, created, target)
    }

    /** The same, in terms of the folder chain only. */
    ghost predicate Settled() {
      FoldersWellPlaced(grants + created, names, target.bucketId) && FolderName(folder) && FolderName(nearest) &&
      folder != "" && InChain(nearest, folder) && nearest != folder &&
      sources == LiveOn(grants, names, target, nearest, now) && Copies(sources, created, target) &&
      (forall f :: InChain(f, folder) && InChain(nearest, f) && f != nearest ==>
        LiveOn(grants, names, target, f, now) == {}) &&
      (forall c :: c in created ==> OnNewFolder(c))
    }

    predicate OnNewFolder(c: Grant) {
      c.resourceType == Folder && c.companyId == target.companyId && c.bucketId == target.bucketId &&
      TargetName(names, c).Some? && TargetFolder(names, c) == folder
    }
  }

  lemma DoneIsSettled(k: Copying)
    requires k.Done()
    ensures k.Settled()
  {
    CanonicalIsNormal(k.folder);
    MarkerRoundTrip(k.folder);
    NearestIsAbove(k);
    CreatedOnFolder(k);
    CreatedWellPlaced(k);
    NothingLiveBetween(k);
  }

  lemma CreatedWellPlaced(k: Copying)
    requires k.Done() && forall c :: c in k.created ==> k.OnNewFolder(c)
    ensures FoldersWellPlaced(k.grants + k.created, k.names, k.target.bucketId)
  {
    forall g | g in k.created && TargetName(k.names, g).Some? ensures |TargetName(k.names, g).value| <= MAX_NAME {
      CreatedOnTarget(k, g);
    }
  }

  lemma CreatedOnTarget(k: Copying, g: Grant)
    requires Copies(k.sources, k.created, k.target) && g in k.created
    ensures g.target == Some(k.target.id)
  {
    var ids: map<Grant, nat> :| ids.Keys == k.sources && k.created == CopySet(ids, k.target);
    assert g in CopySet(ids, k.target);
  }

  lemma NothingLiveBetween(k: Copying)
    requires k.Done()
    ensures forall f :: InChain(f, k.folder) && InChain(k.nearest, f) && f != k.nearest ==>
      LiveOn(k.grants, k.names, k.target, f, k.now) == {}
  {
    forall f | InChain(f, k.folder) && InChain(k.nearest, f) && f != k.nearest
      ensures LiveOn(k.grants, k.names, k.target, f, k.now) == {}
    {
      forall g | g in LiveOn(k.grants, k.names, k.target, f, k.now) ensures false { NothingBetween(k, f, g); }
    }
  }

  lemma CreatedOnFolder(k: Copying)
    requires Copies(k.sources, k.created, k.target)
    requires k.target.id in k.names && FolderPathFromPlaceholder(k.names[k.target.id]) == k.folder
    requires forall s :: s in k.sources ==> s.resourceType == Folder
    ensures forall c :: c in k.created ==> k.OnNewFolder(c)
  {
    var ids: map<Grant, nat> :| ids.Keys == k.sources && k.created == CopySet(ids, k.target);
    forall c | c in k.created ensures k.OnNewFolder(c) {
      assert c in CopySet(ids, k.target);
      var s :| s in ids && c == CopyTo(s, ids[s], k.target);
    }
  }

  /** The lookup by marker name finds exactly the grants standing on an ancestor. */
  lemma FoundIsLive(k: Copying, i: nat)
    requires k.Done() && i < |AncestorPrefixes(k.folder)|
    ensures var ancestors := AncestorPrefixes(k.folder);
            OnFolder(FoundByName(k.grants, k.names, k.target.bucketId, k.target.companyId, ancestors, k.now), k.names,
              ancestors[i])
            == LiveOn(k.grants, k.names, k.target, ancestors[i], k.now)
  {
  }

  lemma NearestIndex(k: Copying) returns (i: nat)
    requires k.Done()
    ensures i < |AncestorPrefixes(k.folder)| && AncestorPrefixes(k.folder)[i] == k.nearest
    ensures k.sources == LiveOn(k.grants, k.names, k.target, k.nearest, k.now) && k.sources != {}
    ensures forall j :: i < j < |AncestorPrefixes(k.folder)| ==>
      LiveOn(k.grants, k.names, k.target, AncestorPrefixes(k.folder)[j], k.now) == {}
  {
    var ancestors := AncestorPrefixes(k.folder);
    var found := FoundByName(k.grants, k.names, k.target.bucketId, k.target.companyId, ancestors, k.now);
    i :| 0 <= i < |ancestors| && ancestors[i] == k.nearest && OnFolder(found, k.names, k.nearest) != {} &&
      forall j :: i < j < |ancestors| ==> OnFolder(found, k.names, ancestors[j]) == {};
    FoundIsLive(k, i);
    forall j | i < j < |ancestors|
      ensures LiveOn(k.grants, k.names, k.target, ancestors[j], k.now) == {}
    {
      FoundIsLive(k, j);
    }
  }

  lemma NearestIsAbove(k: Copying)
    requires k.Done()
    ensures InChain(k.nearest, k.folder) && k.nearest != k.folder && FolderName(k.nearest)
    ensures k.sources == LiveOn(k.grants, k.names, k.target, k.nearest, k.now)
  {
    var i := NearestIndex(k);
    CanonicalIsNormal(k.folder);
    AncestorsArePrefixes(k.nearest, k.folder);
    PrefixIsInChain(k.nearest, k.folder);
    var g :| g in k.sources;
    assert FolderName(TargetFolder(k.names, g));
  }

  /** Below the nearest granted ancestor, down to the new folder itself, nothing was active. */
  lemma NothingBetween(k: Copying, f: string, g: Grant)
    requires k.Done() && InChain(f, k.folder) && InChain(k.nearest, f) && f != k.nearest
    ensures g !in LiveOn(k.grants, k.names, k.target, f, k.now)
  {
    if f == k.folder { NothingOnNewFolder(k, g); } else { NothingOnAncestor(k, f, g); }
  }

  /** The new folder had no grants of its own. */
  lemma NothingOnNewFolder(k: Copying, g: Grant)
    requires k.Done()
    ensures g !in LiveOn(k.grants, k.names, k.target, k.folder, k.now)
  {
    MarkerRoundTrip(k.folder);
    assert forall i :: i in k.names && k.names[i] == k.names[k.target.id] ==> i == k.target.id;
  }

  /** The ancestors below the nearest one had none either. */
  lemma NothingOnAncestor(k: Copying, f: string, g: Grant)
    requires k.Done() && InChain(f, k.folder) && InChain(k.nearest, f) && f != k.nearest && f != k.folder
    ensures g !in LiveOn(k.grants, k.names, k.target, f, k.now)
  {
    var ancestors := AncestorPrefixes(k.folder);
    CanonicalIsNormal(k.folder);
    ChainIsPrefix(f, k.folder);
    AncestorsArePrefixes(f, k.folder);
    var i := NearestIndex(k);
    var j :| 0 <= j < |ancestors| && ancestors[j] == f;
    AncestorDepth(k.folder, i);
    AncestorDepth(k.folder, j);
    AncestorNonEmpty(k.folder, i);
    ChainDepth(k.nearest, f);
  }

  lemma AncestorNonEmpty(path: string, i: nat)
    requires Canonical(path) && i < |AncestorPrefixes(path)|
    ensures AncestorPrefixes(path)[i] != ""
  {
    CanonicalIsNormal(path);
    var parts := Split(path);
    assert CleanSegment(parts[0]);
    var front := parts[..i + 1];
    assert front[0] == parts[0];
    assert Join(front) != "";
  }

  /** The part of a folder's live grants that speaks about a principal. */
  function About(live: set<Grant>, principal: Principal, s: SubjectType): set<Grant> {
    set g | g in live && g.subjectType == s && SubjectMatches(g, principal)
  }

  lemma CellIsLive(grants: set<Grant>, names: Names, target: Target, principal: Principal, bucket: Bucket, rq: Request,
                   now: int, f: string, s: SubjectType)
    requires bucket.id == target.bucketId && bucket.companyId == target.companyId
    requires FolderName(f) && InChain(f, WalkStart(rq))
    ensures Cell(names, Relevant(grants, names, principal, bucket, rq, now), FolderLevel(f), s)
      == About(LiveOn(grants, names, target, f, now), principal, s)
  {
    FolderNameIsNormal(f);
    FolderMatchIsChain(f, RequestPath(rq));
  }

  lemma DeadIsNoCell(grants: set<Grant>, names: Names, target: Target, principal: Principal, bucket: Bucket,
                     rq: Request, now: int, later: int, f: string)
    requires bucket.id == target.bucketId && bucket.companyId == target.companyId && now <= later
    requires LiveOn(grants, names, target, f, now) == {}
    ensures NoCells(names, Relevant(grants, names, principal, bucket, rq, later), f)
  {
    var relevant := Relevant(grants, names, principal, bucket, rq, later);
    forall g | g in relevant ensures LevelOf(names, g) != FolderLevel(f) {
      assert g !in LiveOn(grants, names, target, f, now);
    }
  }

  lemma CopyMatchesSame(x: Grant, id: nat, target: Target, principal: Principal, later: int)
    ensures var y := CopyTo(x, id, target);
            SubjectMatches(y, principal) == SubjectMatches(x, principal) && Active(y, later) == Active(x, later)
  {
  }

  lemma CopyIsInSet(ids: map<Grant, nat>, x: Grant, target: Target)
    requires x in ids
    ensures CopyTo(x, ids[x], target) in CopySet(ids, target)
  {
  }

  ghost predicate HasTwin(rows: set<Grant>, x: Grant) {
    exists y :: y in rows && y.permission == x.permission && y.effect == x.effect
  }

  /** A row of the nearest ancestor that is still live has a live copy on the new folder. */
  lemma CopyLives(k: Copying, principal: Principal, later: int, s: SubjectType, x: Grant)
    requires k.now <= later && k.sources == LiveOn(k.grants, k.names, k.target, k.nearest, k.now)
    requires Copies(k.sources, k.created, k.target) && forall c :: c in k.created ==> k.OnNewFolder(c)
    requires x in About(LiveOn(k.grants, k.names, k.target, k.nearest, later), principal, s)
    ensures HasTwin(About(LiveOn(k.grants + k.created, k.names, k.target, k.folder, later), principal, s), x)
  {
    var ids: map<Grant, nat> :| ids.Keys == k.sources && k.created == CopySet(ids, k.target);
    assert Active(x, k.now);
    assert x in k.sources;
    var y := CopyTo(x, ids[x], k.target);
    CopyIsInSet(ids, x, k.target);
    assert k.OnNewFolder(y);
    CopyMatchesSame(x, ids[x], k.target, principal, later);
    assert y in About(LiveOn(k.grants + k.created, k.names, k.target, k.folder, later), principal, s);
  }

  /** A live row on the new folder is the copy of a row of the nearest ancestor that is still live. */
  lemma CopyHasSource(k: Copying, principal: Principal, later: int, s: SubjectType, y: Grant)
    requires k.now <= later && k.sources == LiveOn(k.grants, k.names, k.target, k.nearest, k.now)
    requires Copies(k.sources, k.created, k.target) && LiveOn(k.grants, k.names, k.target, k.folder, k.now) == {}
    requires y in About(LiveOn(k.grants + k.created, k.names, k.target, k.folder, later), principal, s)
    ensures HasTwin(About(LiveOn(k.grants, k.names, k.target, k.nearest, later), principal, s), y)
  {
    var ids: map<Grant, nat> :| ids.Keys == k.sources && k.created == CopySet(ids, k.target);
    assert y !in LiveOn(k.grants, k.names, k.target, k.folder, k.now);
    assert y in k.created;
    assert y in CopySet(ids, k.target);
    var x :| x in ids && y == CopyTo(x, ids[x], k.target);
    assert x in k.sources;
    CopyMatchesSame(x, ids[x], k.target, principal, later);
  }

  /** The rows seen at the new folder decide as the rows seen at the nearest ancestor. */
  lemma CopiedRows(k: Copying, principal: Principal, later: int, s: SubjectType, required: Permission, default: bool)
    requires k.Settled() && k.now <= later
    ensures var a := About(LiveOn(k.grants, k.names, k.target, k.nearest, later), principal, s);
            var b := About(LiveOn(k.grants + k.created, k.names, k.target, k.folder, later), principal, s);
            (a == {} <==> b == {}) && CellAllows(a, required, default) == CellAllows(b, required, default)
  {
    var a := About(LiveOn(k.grants, k.names, k.target, k.nearest, later), principal, s);
    var b := About(LiveOn(k.grants + k.created, k.names, k.target, k.folder, later), principal, s);
    assert InChain(k.folder, k.folder);
    forall x | x in a ensures HasTwin(b, x) {
      CopyLives(k, principal, later, s, x);
    }
    forall y | y in b ensures HasTwin(a, y) {
      CopyHasSource(k, principal, later, s, y);
    }
    CellsAgreeOnCopies(a, b, required, default);
  }

  /** The copies on the new folder decide like the originals on the nearest ancestor. */
  lemma CopiedCellDecides(k: Copying, principal: Principal, bucket: Bucket, rq: Request, required: Permission,
                          later: int, s: SubjectType)
    requires k.Settled() && k.now <= later
    requires bucket.id == k.target.bucketId && bucket.companyId == k.target.companyId
    requires InChain(k.folder, WalkStart(rq)) && InChain(k.nearest, WalkStart(rq))
    ensures var default := KindDefaultAllows(principal, bucket, required);
            var copied := Cell(k.names, Relevant(k.grants + k.created, k.names, principal, bucket, rq, later),
              FolderLevel(k.folder), s);
            var original := Cell(k.names, Relevant(k.grants, k.names, principal, bucket, rq, later),
              FolderLevel(k.nearest), s);
            (copied == {} <==> original == {}) &&
              CellAllows(copied, required, default) == CellAllows(original, required, default)
  {
    CellIsLive(k.grants + k.created, k.names, k.target, principal, bucket, rq, later, k.folder, s);
    CellIsLive(k.grants, k.names, k.target, principal, bucket, rq, later, k.nearest, s);
    CopiedRows(k, principal, later, s, required, KindDefaultAllows(principal, bucket, required));
  }

  /** Without the copies nothing stands between the nearest ancestor and the new folder. */
  lemma WalkWithoutCopies(k: Copying, principal: Principal, bucket: Bucket, rq: Request, required: Permission,
                          later: int, before: set<Grant>)
    requires k.Settled() && k.now <= later
    requires bucket.id == k.target.bucketId && bucket.companyId == k.target.companyId
    requires before == Relevant(k.grants, k.names, principal, bucket, rq, later)
    ensures var default := KindDefaultAllows(principal, bucket, required);
            var nearest := WalkFolders(k.names, before, k.nearest, required, default);
            WalkFolders(k.names, before, k.folder, required, default) == nearest
            && WalkFolders(k.names, before, Parent(k.folder), required, default) == nearest
  {
    var default := KindDefaultAllows(principal, bucket, required);
    forall f | InChain(f, k.folder) && InChain(k.nearest, f) && f != k.nearest ensures NoCells(k.names, before, f) {
      DeadIsNoCell(k.grants, k.names, k.target, principal, bucket, rq, k.now, later, f);
    }
    WalkSkips(k.names, before, k.folder, k.nearest, required, default);
    WalkSkips(k.names, before, Parent(k.folder), k.nearest, required, default);
  }

  /** From the new folder upwards both walks come to the same decision. */
  lemma FolderTailAgrees(k: Copying, principal: Principal, bucket: Bucket, rq: Request, required: Permission,
                         later: int)
    requires k.Settled() && k.now <= later
    requires bucket.id == k.target.bucketId && bucket.companyId == k.target.companyId
    requires InChain(k.folder, WalkStart(rq))
    ensures var default := KindDefaultAllows(principal, bucket, required);
            WalkFolders(k.names, Relevant(k.grants + k.created, k.names, principal, bucket, rq, later), k.folder,
              required, default)
            == WalkFolders(k.names, Relevant(k.grants, k.names, principal, bucket, rq, later), k.folder, required,
              default)
  {
    var before := Relevant(k.grants, k.names, principal, bucket, rq, later);
    var after := Relevant(k.grants + k.created, k.names, principal, bucket, rq, later);
    var default := KindDefaultAllows(principal, bucket, required);
    var up := Parent(k.folder);
    WalkWithoutCopies(k, principal, bucket, rq, required, later, before);
    forall f | InChain(f, up) ensures f != k.folder { ChainLength(f, up); }
    AllOtherCells(k, principal, bucket, rq, later, before, after);
    WalkSame(k.names, after, before, up, required, default);
    ChainTransitive(k.nearest, k.folder, WalkStart(rq));
    CopiedCellDecides(k, principal, bucket, rq, required, later, User);
    CopiedCellDecides(k, principal, bucket, rq, required, later, Company);
  }

  lemma OtherCells(k: Copying, principal: Principal, bucket: Bucket, rq: Request, later: int, level: Level,
                   s: SubjectType)
    requires k.Settled() && level != FolderLevel(k.folder)
    ensures Cell(k.names, Relevant(k.grants + k.created, k.names, principal, bucket, rq, later), level, s)
      == Cell(k.names, Relevant(k.grants, k.names, principal, bucket, rq, later), level, s)
  {
  }

  lemma AllOtherCells(k: Copying, principal: Principal, bucket: Bucket, rq: Request, later: int, before: set<Grant>,
                      after: set<Grant>)
    requires k.Settled()
    requires before == Relevant(k.grants, k.names, principal, bucket, rq, later)
    requires after == Relevant(k.grants + k.created, k.names, principal, bucket, rq, later)
    ensures forall level: Level, s | level != FolderLevel(k.folder) ::
      Cell(k.names, after, level, s) == Cell(k.names, before, level, s)
  {
    forall level: Level, s | level != FolderLevel(k.folder)
      ensures Cell(k.names, after, level, s) == Cell(k.names, before, level, s)
    {
      OtherCells(k, principal, bucket, rq, later, level, s);
    }
  }

  /**
   Copying the nearest ancestor's grants onto a new nested folder changes no decision: for every
   path, principal and permission, now and at any later time, expired rows included.
   */
  lemma CopyIsNeutral(k: Copying, principal: Principal, bucket: Bucket, rq: Request, required: Permission, later: int)
    requires k.Done() && k.now <= later
    requires bucket.id == k.target.bucketId && bucket.companyId == k.target.companyId
    ensures EvaluateAccess(k.grants + k.created, k.names, principal, bucket, rq, required, later)
      == EvaluateAccess(k.grants, k.names, principal, bucket, rq, required, later)
  {
    DoneIsSettled(k);
    FolderNameIsNormal(k.folder);
    FolderMatchIsChain(k.folder, RequestPath(rq));
    if InChain(k.folder, WalkStart(rq)) {
      CopyIsNeutralBelow(k, principal, bucket, rq, required, later);
    } else {
      assert Relevant(k.grants + k.created, k.names, principal, bucket, rq, later)
        == Relevant(k.grants, k.names, principal, bucket, rq, later);
    }
  }

  /** The decision of the file level and the walk below it, on a set of relevant grants. */
  ghost predicate WalkFrom(names: Names, relevant: set<Grant>, start: string, required: Permission, default: bool) {
    LevelAllows(names, relevant, FileLevel, required, default, WalkFolders(names, relevant, start, required, default))
  }

  /** Evaluation is the walk over the relevant grants, for a principal of the company. */
  lemma EvaluateIsWalkFrom(grants: set<Grant>, names: Names, principal: Principal, bucket: Bucket, rq: Request,
                           required: Permission, now: int, relevant: set<Grant>)
    requires FoldersWellPlaced(grants, names, bucket.id) &&
      relevant == Relevant(grants, names, principal, bucket, rq, now)
    ensures EvaluateAccess(grants, names, principal, bucket, rq, required, now)
      <==> (SameCompany(principal, bucket) &&
        WalkFrom(names, relevant, WalkStart(rq), required, KindDefaultAllows(principal, bucket, required)))
  {
    WellPlacedIsMet(grants, names, bucket.id);
    ScoredMaximumIsWalk(grants, names, principal, bucket, rq, required, now);
  }

  /** Only the cells of one folder differ, and from that folder upwards the walks agree: then they agree. */
  lemma WalksAgree(names: Names, a: set<Grant>, b: set<Grant>, start: string, from: string, required: Permission,
                   default: bool)
    requires InChain(from, start)
    requires forall level: Level, s | level != FolderLevel(from) :: Cell(names, a, level, s) == Cell(names, b, level, s)
    requires WalkFolders(names, a, from, required, default) == WalkFolders(names, b, from, required, default)
    ensures WalkFrom(names, a, start, required, default) == WalkFrom(names, b, start, required, default)
  {
    WalkAgrees(names, a, b, start, from, required, default);
  }

  lemma CopyIsNeutralBelow(k: Copying, principal: Principal, bucket: Bucket, rq: Request, required: Permission,
                           later: int)
    requires k.Settled() && k.now <= later
    requires bucket.id == k.target.bucketId && bucket.companyId == k.target.companyId
    requires InChain(k.folder, WalkStart(rq))
    ensures EvaluateAccess(k.grants + k.created, k.names, principal, bucket, rq, required, later)
      == EvaluateAccess(k.grants, k.names, principal, bucket, rq, required, later)
  {
    var before := Relevant(k.grants, k.names, principal, bucket, rq, later);
    var after := Relevant(k.grants + k.created, k.names, principal, bucket, rq, later);
    EvaluateIsWalkFrom(k.grants, k.names, principal, bucket, rq, required, later, before);
    EvaluateIsWalkFrom(k.grants + k.created, k.names, principal, bucket, rq, required, later, after);
    AllOtherCells(k, principal, bucket, rq, later, before, after);
    FolderTailAgrees(k, principal, bucket, rq, required, later);
    WalksAgree(k.names, after, before, WalkStart(rq), k.folder, required,
      KindDefaultAllows(principal, bucket, required));
  }

  lemma {:induction false} ChainLength(f: string, p: string)
    requires InChain(f, p)
    ensures |f| <= |p|
    decreases |p|
  {
    if f != p { ChainLength(f, Parent(p)); }
  }

  // ------------------------------------------------------ private by default

  /** `g` sits above the target: on the bucket, or on a folder that encloses it. */
  predicate Above(names: Names, g: Grant, target: Target, resourceType: ResourceType)
    requires target.id in names
  {
    g.resourceType == WholeBucket ||
    (g.resourceType == Folder &&
     (resourceType == File ||
      (var f := FolderPathFromPlaceholder(names[target.id]);
       TargetFolder(names, g) != f && InChain(TargetFolder(names, g), f))))
  }

  /**
   Wherever the default pair is the most specific thing that matches, its creator may do everything
   and every other member, owner or staff included, may do nothing, whatever sits above it.
   */
  lemma DefaultIsPrivate(grants: set<Grant>, pair: set<Grant>, names: Names, target: Target,
                         resourceType: ResourceType, creator: nat, principal: Principal, bucket: Bucket, rq: Request,
                         required: Permission, now: int)
    requires pair <= grants && PrivatePair(pair, target, resourceType, creator)
    requires resourceType == File || resourceType == Folder
    requires target.id in names && |names[target.id]| <= MAX_NAME && FoldersWellPlaced(grants, names, bucket.id)
    requires bucket.id == target.bucketId && bucket.companyId == target.companyId
    requires SameCompany(principal, bucket)
    requires forall g :: g in pair ==> ResourceMatches(names, g, bucket, rq)
    requires forall g :: g in Relevant(grants, names, principal, bucket, rq, now) - pair ==>
      Above(names, g, target, resourceType)
    ensures EvaluateAccess(grants, names, principal, bucket, rq, required, now) <==> principal.userId == Some(creator)
  {
    forall g, own | g in Relevant(grants, names, principal, bucket, rq, now) - pair && own in pair
      ensures Score(names, g).0 < Score(names, own).0
    {
      AboveScoresLower(grants, names, g, own, target, resourceType);
    }
    PairDecides(grants, pair, names, target, resourceType, creator, principal, bucket, rq, required, now);
  }

  /** Everything else that matches is less specific than the pair. */
  ghost predicate Outscores(pair: set<Grant>, grants: set<Grant>, names: Names, principal: Principal, bucket: Bucket,
                            rq: Request, now: int) {
    forall g, own :: g in Relevant(grants, names, principal, bucket, rq, now) - pair && own in pair ==>
      Score(names, g).0 < Score(names, own).0
  }

  lemma PairDecides(grants: set<Grant>, pair: set<Grant>, names: Names, target: Target, resourceType: ResourceType,
                    creator: nat, principal: Principal, bucket: Bucket, rq: Request, required: Permission, now: int)
    requires pair <= grants && PrivatePair(pair, target, resourceType, creator)
    requires InBucket(bucket, target) && SameCompany(principal, bucket)
    requires forall g :: g in pair ==> ResourceMatches(names, g, bucket, rq)
    requires Outscores(pair, grants, names, principal, bucket, rq, now)
    ensures EvaluateAccess(grants, names, principal, bucket, rq, required, now) <==> principal.userId == Some(creator)
  {
    var i, j :| pair == {DenyCompany(i, target, resourceType), AllowUser(j, target, resourceType, creator)};
    var deny, allow := DenyCompany(i, target, resourceType), AllowUser(j, target, resourceType, creator);
    var relevant := Relevant(grants, names, principal, bucket, rq, now);
    assert deny in relevant;
    DecimalInjective(creator, principal.userId.value);
    DecimalInjective(principal.userId.value, creator);
    assert allow in relevant <==> principal.userId == Some(creator);
    forall g | g in relevant && g != deny && g != allow ensures Score(names, g).0 < Score(names, deny).0 {
      assert g !in pair && deny in pair;
    }
    TopOfPair(names, relevant, deny, allow);
  }

  /** A company-wide denial and a user's allowance that outscore the rest. */
  lemma TopOfPair(names: Names, relevant: set<Grant>, deny: Grant, allow: Grant)
    requires deny in relevant && deny.subjectType == Company && deny.effect == Deny && deny.permission == Read
    requires allow.subjectType == User && allow.effect == Allow && allow.permission == Admin
    requires Score(names, deny).0 == Score(names, allow).0
    requires forall g :: g in relevant && g != deny && g != allow ==> Score(names, g).0 < Score(names, deny).0
    ensures forall required, default :: Decide(Top(names, relevant), required, default) <==> allow in relevant
  {
    if allow in relevant {
      assert Top(names, relevant) == {allow};
      assert allow in Top(names, relevant);
    } else {
      assert Top(names, relevant) == {deny};
      assert deny in Top(names, relevant);
    }
  }

  lemma AboveScoresLower(grants: set<Grant>, names: Names, g: Grant, own: Grant, target: Target,
                         resourceType: ResourceType)
    requires g in grants && own in grants && FoldersWellPlaced(grants, names, target.bucketId)
    requires g.bucketId == target.bucketId && own.bucketId == target.bucketId
    requires own.target == Some(target.id) && own.resourceType == resourceType && target.id in names
    requires resourceType == File || resourceType == Folder
    requires g.resourceType == Folder ==> TargetName(names, g).Some?
    requires Above(names, g, target, resourceType)
    ensures Score(names, g).0 < Score(names, own).0
  {
    if resourceType == Folder { FolderScoreBelowFile(grants, names, own); }
    if g.resourceType == Folder {
      FolderScoreBelowFile(grants, names, g);
      if resourceType == Folder { ChainDepth(TargetFolder(names, g), TargetFolder(names, own)); }
    }
  }
}
