/**
 Where the scored evaluator and the walk part (apps/storage/access.py:198-373): exactly on
 folders whose path changes when it is normalised, or whose depth reaches the score of a file.
 Folder markers that MKCOL and uploads store can be of the first kind, such as "a /".
 */
module WalkLimits {
  import opened Prelude
  import opened Paths
  import opened Access
  import opened AccessWalk

  /** Folder grants of the bucket stand on the given objects only. */
  predicate StandOn(grants: set<Grant>, names: Names, bucketId: nat, ids: set<nat>) {
    forall g :: g in grants && g.bucketId == bucketId && g.resourceType == Folder && TargetName(names, g).Some? ==>
      g.target.value in ids
  }

  /** The evaluator is the walk for every grant set that stands on the given objects. */
  ghost predicate RulesAgree(names: Names, bucketId: nat, ids: set<nat>) {
    forall grants, principal, bucket: Bucket, rq, required, now | bucket.id == bucketId &&
      StandOn(grants, names, bucketId, ids) ::
      EvaluateAccess(grants, names, principal, bucket, rq, required, now)
      <==> WalkAllows(grants, names, principal, bucket, rq, required, now)
  }

  /** The rules agree on folder grants of a set of objects if and only if each of their folders is met by both. */
  lemma RulesAgreeExactly(names: Names, bucketId: nat, ids: set<nat>)
    ensures RulesAgree(names, bucketId, ids)
      <==> forall id :: id in ids && id in names ==> MetFolder(FolderPathFromPlaceholder(names[id]))
  {
    if forall id :: id in ids && id in names ==> MetFolder(FolderPathFromPlaceholder(names[id])) {
      forall grants, principal, bucket: Bucket, rq, required, now | bucket.id == bucketId &&
        StandOn(grants, names, bucketId, ids)
        ensures EvaluateAccess(grants, names, principal, bucket, rq, required, now)
          <==> WalkAllows(grants, names, principal, bucket, rq, required, now)
      {
        ScoredMaximumIsWalk(grants, names, principal, bucket, rq, required, now);
      }
    }
    forall id | id in ids && id in names && !MetFolder(FolderPathFromPlaceholder(names[id]))
      ensures !RulesAgree(names, bucketId, ids)
    {
      UnmetFolderParts(names, bucketId, ids, id);
    }
  }

  /** For a name within the length limit of stored names, only normalising can part the rules. */
  lemma StoredFolderIsMet(name: string)
    requires Clean(name) && |name| <= MAX_NAME
    ensures var f := FolderPathFromPlaceholder(name); MetFolder(f) <==> NormalizePath(f) == f
  {
    var f := FolderPathFromPlaceholder(name);
    StoredDepth(name);
  }

  // ------------------------------------------------------- the other direction

  const MEMBER := Principal(Some(0), Some(0), false, false)

  function Shared(bucketId: nat): Bucket { Bucket(bucketId, 0, CompanyBucket) }

  /** Read denied to the whole company on a folder. */
  function DenyOn(bucketId: nat, id: nat, subject: SubjectType): Grant {
    Grant(0, 0, bucketId, Some(id), subject, Decimal(0), Folder, Read, Deny, None)
  }

  function AllowFile(bucketId: nat, id: nat): Grant {
    Grant(1, 0, bucketId, Some(id), User, Decimal(0), File, Admin, Allow, None)
  }

  lemma UnmetFolderParts(names: Names, bucketId: nat, ids: set<nat>, id: nat)
    requires id in ids && id in names && !MetFolder(FolderPathFromPlaceholder(names[id]))
    ensures !RulesAgree(names, bucketId, ids)
  {
    if NormalizePath(FolderPathFromPlaceholder(names[id])) == FolderPathFromPlaceholder(names[id]) {
      DeepFolderParts(names, bucketId, ids, id);
    } else {
      StrayFolderParts(names, bucketId, ids, id);
    }
  }

  lemma DeepFolderParts(names: Names, bucketId: nat, ids: set<nat>, id: nat)
    requires id in ids && id in names
    requires var f := FolderPathFromPlaceholder(names[id]); NormalizePath(f) == f && FolderDepth(f) >= 900
    ensures !RulesAgree(names, bucketId, ids)
  {
    var f := FolderPathFromPlaceholder(names[id]);
    DeepFolderBeatsFile(names, bucketId, id);
    PairStandsOn(names, bucketId, ids, id);
    TheyPart(names, bucketId, ids, {DenyOn(bucketId, id, User), AllowFile(bucketId, id)}, Request(Some(f), Some(id)));
  }

  lemma PairStandsOn(names: Names, bucketId: nat, ids: set<nat>, id: nat)
    requires id in ids
    ensures StandOn({DenyOn(bucketId, id, User), AllowFile(bucketId, id)}, names, bucketId, ids)
  {
  }

  lemma StrayFolderParts(names: Names, bucketId: nat, ids: set<nat>, id: nat)
    requires id in ids && id in names
    requires NormalizePath(FolderPathFromPlaceholder(names[id])) != FolderPathFromPlaceholder(names[id])
    ensures !RulesAgree(names, bucketId, ids)
  {
    StrayDenyReaches(names, bucketId, id);
    TheyPart(names, bucketId, ids, {DenyOn(bucketId, id, Company)}, StrayRequest(FolderPathFromPlaceholder(names[id])));
  }

  lemma TheyPart(names: Names, bucketId: nat, ids: set<nat>, grants: set<Grant>, rq: Request)
    requires StandOn(grants, names, bucketId, ids)
    requires !EvaluateAccess(grants, names, MEMBER, Shared(bucketId), rq, Read, 0)
    requires WalkAllows(grants, names, MEMBER, Shared(bucketId), rq, Read, 0)
    ensures !RulesAgree(names, bucketId, ids)
  {
    assert Shared(bucketId).id == bucketId;
  }

  /** A request below what the folder normalises to, through one more stripping than the evaluator's scan makes. */
  function Tail(f: string): string { seq(|f|, i => 'x') }

  function Stray(f: string): string {
    var n := NormalizePath(f);
    if n == "" then Tail(f) else n + "/" + Tail(f)
  }

  function StrayRequest(f: string): Request { Request(Some(" / /" + Stray(f)), None) }

  lemma StrayEnds(f: string)
    requires NormalizePath(f) != f
    ensures var q := Stray(f); q != "" && q[0] != '/' && q[|q| - 1] == 'x' && f != ""
  {
    NormalizeFixed("");
    NormalizedHasNoEdgeSlash(f);
    var t, q := Tail(f), Stray(f);
    assert q[|q| - 1] == t[|t| - 1] == 'x';
  }

  /** Two strippings of the requested path leave the stray path. */
  lemma StrayStart(f: string)
    requires NormalizePath(f) != f
    ensures RequestPath(StrayRequest(f)) == " /" + Stray(f) && WalkStart(StrayRequest(f)) == Stray(f)
    ensures NormalizePath(" /" + Stray(f)) == Stray(f)
  {
    StrayEnds(f);
    StripOnce(Stray(f));
    StripTwice(Stray(f));
  }

  lemma StripOnce(q: string)
    requires q != "" && q[|q| - 1] == 'x'
    ensures NormalizePath(" / /" + q) == " /" + q
  {
    var p, t, u := " / /" + q, "/ /" + q, " /" + q;
    assert p[1..] == t && t[1..] == u;
    assert p[|p| - 1] == t[|t| - 1] == u[|u| - 1] == 'x';
    assert TrimLeft(p, IsSpace) == t;
    assert TrimLeft(t, IsSlash) == u;
  }

  lemma StripTwice(q: string)
    requires q != "" && q[0] != '/' && q[|q| - 1] == 'x'
    ensures NormalizePath(" /" + q) == q
  {
    var u, t := " /" + q, "/" + q;
    assert u[1..] == t && t[1..] == q;
    assert u[|u| - 1] == t[|t| - 1] == q[|q| - 1] == 'x';
    assert TrimLeft(u, IsSpace) == t;
    assert TrimLeft(t, IsSlash) == q;
  }

  /** The evaluator finds the folder above the stray path, the walk does not pass it. */
  lemma StrayIsOffTheChain(f: string)
    requires NormalizePath(f) != f
    ensures FolderMatches(f, RequestPath(StrayRequest(f))) && !InChain(f, Stray(f))
  {
    StrayStart(f);
    StrayEnds(f);
    NormalizeShortens(f);
    var n, t, q := NormalizePath(f), Tail(f), Stray(f);
    if n != "" { assert q[..|n| + 1] == n + "/"; }
    if InChain(f, q) {
      ChainIsPrefix(f, q);
      StrayIsNoPrefix(f);
      assert false;
    }
  }

  lemma StrayIsNoPrefix(f: string)
    requires NormalizePath(f) != f && f != ""
    ensures f != Stray(f) && !StartsWith(Stray(f), f + "/")
  {
    NormalizeShortens(f);
    var n, t, q := NormalizePath(f), Tail(f), Stray(f);
    if n == "" {
      assert q == t && '/' !in t;
      assert t[0] == 'x' && t[|t| - 1] == 'x';
      if f == t { NormalizeFixed(t); }
    } else {
      FolderAt(q, f);
      if |f| == |n| {
        assert q[..|f|] == n;
      } else {
        assert q[|f|] == t[|f| - |n| - 1] == 'x';
      }
    }
  }

  lemma FolderAt(q: string, f: string)
    ensures StartsWith(q, f + "/") ==> |f| < |q| && q[..|f|] == f && q[|f|] == '/'
  {
    if StartsWith(q, f + "/") {
      assert q[..|f| + 1][..|f|] == f;
      assert q[..|f| + 1][|f|] == '/';
    }
  }

  /** With no grant on its way the walk falls through to the default. */
  lemma {:induction false} WalkFallsThrough(names: Names, g: Grant, folder: string, required: Permission, default: bool)
    requires g.resourceType == Folder && !InChain(TargetFolder(names, g), folder)
    ensures WalkFolders(names, {g}, folder, required, default) == default
    decreases |folder|
  {
    forall s: SubjectType, level: Level | level == FolderLevel(folder) || level == BucketLevel
      ensures Cell(names, {g}, level, s) == {}
    {
    }
    if folder != "" { WalkFallsThrough(names, g, Parent(folder), required, default); }
  }

  /** One company-wide read denial on such a folder: the evaluator denies a path where the walk allows it. */
  lemma StrayDenyReaches(names: Names, bucketId: nat, id: nat)
    requires id in names && NormalizePath(FolderPathFromPlaceholder(names[id])) != FolderPathFromPlaceholder(names[id])
    ensures var rq := StrayRequest(FolderPathFromPlaceholder(names[id]));
            var grants := {DenyOn(bucketId, id, Company)};
            !EvaluateAccess(grants, names, MEMBER, Shared(bucketId), rq, Read, 0)
            && WalkAllows(grants, names, MEMBER, Shared(bucketId), rq, Read, 0)
  {
    var f := FolderPathFromPlaceholder(names[id]);
    var rq, g := StrayRequest(f), DenyOn(bucketId, id, Company);
    StrayIsOffTheChain(f);
    StrayStart(f);
    assert Relevant({g}, names, MEMBER, Shared(bucketId), rq, 0) == {g};
    OnlyDenyDecides(names, g, Read, true);
    WalkFallsThrough(names, g, Stray(f), Read, true);
    FileLevelFallsThrough(names, g, Read, true, WalkFolders(names, {g}, Stray(f), Read, true));
  }

  lemma OnlyDenyDecides(names: Names, g: Grant, required: Permission, default: bool)
    requires g.effect == Deny && g.permission == Read
    ensures !Decide(Top(names, {g}), required, default)
  {
    assert g in Top(names, {g});
  }

  lemma FileLevelFallsThrough(names: Names, g: Grant, required: Permission, default: bool, next: bool)
    requires g.resourceType != File
    ensures LevelAllows(names, {g}, FileLevel, required, default, next) == next
  {
    forall s: SubjectType ensures Cell(names, {g}, FileLevel, s) == {} {}
  }

  // ----------------------------------------------------------- deep folders

  lemma DeepFolderBeatsFile(names: Names, bucketId: nat, id: nat)
    requires id in names
    requires var f := FolderPathFromPlaceholder(names[id]); NormalizePath(f) == f && FolderDepth(f) >= 900
    ensures var rq := Request(Some(FolderPathFromPlaceholder(names[id])), Some(id));
            var grants := {DenyOn(bucketId, id, User), AllowFile(bucketId, id)};
            !EvaluateAccess(grants, names, MEMBER, Shared(bucketId), rq, Read, 0)
            && WalkAllows(grants, names, MEMBER, Shared(bucketId), rq, Read, 0)
  {
    var f := FolderPathFromPlaceholder(names[id]);
    var deny, allow := DenyOn(bucketId, id, User), AllowFile(bucketId, id);
    DeepPairTies(names, deny, allow, f);
    BothMatch(names, bucketId, id);
    TiedDenyDecides(names, deny, allow);
    FileAllowDecides(names, deny, allow,
      WalkFolders(names, {deny, allow}, WalkStart(Request(Some(f), Some(id))), Read, true));
  }

  lemma DeepPairTies(names: Names, deny: Grant, allow: Grant, f: string)
    requires deny.resourceType == Folder && allow.resourceType == File && deny.subjectType == allow.subjectType
    requires TargetFolder(names, deny) == f && NormalizePath(f) == f && FolderDepth(f) >= 900
    ensures ScoreLe(Score(names, allow), Score(names, deny))
  {
  }

  lemma BothMatch(names: Names, bucketId: nat, id: nat)
    requires id in names
    requires var f := FolderPathFromPlaceholder(names[id]); NormalizePath(f) == f
    ensures var rq := Request(Some(FolderPathFromPlaceholder(names[id])), Some(id));
            var pair := {DenyOn(bucketId, id, User), AllowFile(bucketId, id)};
            Relevant(pair, names, MEMBER, Shared(bucketId), rq, 0) == pair
  {
  }

  lemma TiedDenyDecides(names: Names, deny: Grant, allow: Grant)
    requires deny.effect == Deny && deny.permission == Read && ScoreLe(Score(names, allow), Score(names, deny))
    ensures !Decide(Top(names, {deny, allow}), Read, true)
  {
    assert deny in Top(names, {deny, allow});
  }

  lemma FileAllowDecides(names: Names, deny: Grant, allow: Grant, next: bool)
    requires deny.resourceType == Folder && allow.resourceType == File && allow.subjectType == User
    requires allow.effect == Allow && allow.permission == Admin
    ensures LevelAllows(names, {deny, allow}, FileLevel, Read, true, next)
  {
    assert Cell(names, {deny, allow}, FileLevel, User) == {allow};
    assert CellAllows({allow}, Read, true) by { assert allow in {allow}; }
  }

  // ---------------------------------------------------------- stored markers

  /** No two slashes in a row. */
  predicate SingleSlashes(p: string) { forall i :: 0 <= i && i + 1 < |p| ==> p[i] != '/' || p[i + 1] != '/' }

  lemma CleanHasSingleSlashes(p: string)
    requires Clean(p)
    ensures SingleSlashes(p)
  {
    forall i | 0 <= i && i + 1 < |p| && p[i] == '/' ensures p[i + 1] != '/' {
      var a, rest := p[..i], p[i + 1..];
      assert p == a + "/" + rest;
      CleanConcat(a, rest);
      CleanIsTrimmed(rest);
    }
  }

  lemma DropDrop(s: string, k: nat)
    requires k < |s|
    ensures s[1..][k..] == s[k + 1..]
  {
  }

  /** Left trimming drops a number of characters. */
  lemma {:induction false} TrimLeftDrops(s: string, drop: char -> bool) returns (k: nat)
    ensures k <= |s| && TrimLeft(s, drop) == s[k..]
  {
    k := 0;
    if s != "" && drop(s[0]) {
      k := TrimLeftDrops(s[1..], drop);
      DropDrop(s, k);
      k := k + 1;
    }
  }

  lemma TrimKeepsSingleSlashes(s: string, drop: char -> bool)
    requires SingleSlashes(s)
    ensures SingleSlashes(Trim(s, drop))
  {
    var k := TrimLeftDrops(s, drop);
    TrimRightEdge(TrimLeft(s, drop), drop);
  }

  lemma {:induction false} SingleSlashDepth(p: string)
    requires SingleSlashes(p)
    ensures 2 * |Split(p)| <= |p| + 3
    ensures p != "" && p[0] != '/' ==> 2 * |Split(p)| <= |p| + 2
    decreases |p|
  {
    if '/' in p {
      var i := FirstSlash(p);
      SingleSlashDepth(p[i + 1..]);
    }
  }

  /** The folder read from a clean name of 1024 characters has fewer than 900 levels. */
  lemma StoredDepth(name: string)
    requires Clean(name) && |name| <= MAX_NAME
    ensures FolderDepth(FolderPathFromPlaceholder(name)) < 900
  {
    NormalizeShortens(name);
    CleanHasSingleSlashes(name);
    TrimKeepsSingleSlashes(name, IsSpace);
    TrimKeepsSingleSlashes(Trim(name, IsSpace), IsSlash);
    SingleSlashDepth(FolderPathFromPlaceholder(name));
  }
}
