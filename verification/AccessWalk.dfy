/**
 The rule of docs/access.md as a walk: the file itself, then its folders from the
 deepest up to the bucket root, then the bucket; at each resource the user before
 the company; the first of these cells that holds a grant decides. The scored
 evaluator is proved equal to it.
 */
module AccessWalk {
  import opened Prelude
  import opened Paths
  import opened Access

  datatype Level = FileLevel | FolderLevel(folder: string) | BucketLevel

  function LevelOf(names: Names, g: Grant): Level {
    match g.resourceType
    case File => FileLevel
    case Folder => FolderLevel(TargetFolder(names, g))
    case WholeBucket => BucketLevel
  }

  function Cell(names: Names, relevant: set<Grant>, level: Level, subject: SubjectType): set<Grant> {
    set g | g in relevant && LevelOf(names, g) == level && g.subjectType == subject
  }

  /** Which denials stop a use: read stops all, write stops writing and administering. */
  predicate Stops(denied: Permission, required: Permission) {
    match denied
    case Read => true
    case Write => required != Read
    case Admin => required == Admin
  }

  /** Which allowances are enough: admin includes write, write includes read. */
  predicate Covers(granted: Permission, required: Permission) {
    match granted
    case Read => required == Read
    case Write => required != Admin
    case Admin => true
  }

  ghost predicate CellAllows(cell: set<Grant>, required: Permission, default: bool) {
    (forall g :: g in cell && g.effect == Deny ==> !Stops(g.permission, required)) &&
    ((exists g :: g in cell && g.effect == Allow) ==>
      exists g :: g in cell && g.effect == Allow && Covers(g.permission, required)) &&
    ((forall g :: g in cell ==> g.effect == Deny) ==> default)
  }

  function LastSlash(p: string): (i: nat)
    requires '/' in p
    ensures i < |p| && p[i] == '/' && '/' !in p[i + 1..]
  {
    if p[|p| - 1] == '/' then |p| - 1 else LastSlash(p[..|p| - 1])
  }

  /** The enclosing folder; the root for a top-level name. */
  function Parent(p: string): (q: string)
    ensures p != "" ==> |q| < |p|
  {
    if '/' in p then p[..LastSlash(p)] else ""
  }

  /** The user cell, the company cell, or else the next level. */
  ghost predicate LevelAllows(names: Names, relevant: set<Grant>, level: Level, required: Permission, default: bool,
                              next: bool) {
    if Cell(names, relevant, level, User) != {} then CellAllows(Cell(names, relevant, level, User), required, default)
    else if Cell(names, relevant, level, Company) != {} then
      CellAllows(Cell(names, relevant, level, Company), required, default)
    else next
  }

  ghost predicate WalkFolders(names: Names, relevant: set<Grant>, folder: string, required: Permission, default: bool)
    decreases |folder|
  {
    LevelAllows(names, relevant, FolderLevel(folder), required, default,
      if folder == "" then LevelAllows(names, relevant, BucketLevel, required, default, default)
      else WalkFolders(names, relevant, Parent(folder), required, default))
  }

  /** Where the walk enters the folder chain: the requested path, normalised as the evaluator does. */
  function WalkStart(rq: Request): string { NormalizePath(RequestPath(rq)) }

  ghost predicate WalkAllows(grants: set<Grant>, names: Names, principal: Principal, bucket: Bucket, rq: Request,
                             required: Permission, now: int)
  {
    SameCompany(principal, bucket) &&
    var relevant := Relevant(grants, names, principal, bucket, rq, now);
    var default := KindDefaultAllows(principal, bucket, required);
    LevelAllows(names, relevant, FileLevel, required, default,
      WalkFolders(names, relevant, WalkStart(rq), required, default))
  }

  /** A folder that the evaluator sees as the walk does: normalising leaves it alone, and no file score is reached. */
  predicate MetFolder(f: string) { NormalizePath(f) == f && FolderDepth(f) < 900 }

  /** The folder grants of the bucket stand on such folders. */
  predicate FoldersMet(grants: set<Grant>, names: Names, bucketId: nat) {
    forall g :: g in grants && g.bucketId == bucketId && g.resourceType == Folder && TargetName(names, g).Some? ==>
      MetFolder(TargetFolder(names, g))
  }

  /** Folder grants point at markers of canonical folders, under the stored-name length limit. */
  predicate FoldersWellPlaced(grants: set<Grant>, names: Names, bucketId: nat) {
    forall g :: g in grants && g.bucketId == bucketId && g.resourceType == Folder && TargetName(names, g).Some? ==>
      FolderName(TargetFolder(names, g)) && |TargetName(names, g).value| <= MAX_NAME
  }

  // ------------------------------------------------------------ folder chain

  /** The folders passed by the walk from `p` to the root. */
  predicate InChain(f: string, p: string)
    decreases |p|
  {
    f == p || (p != "" && InChain(f, Parent(p)))
  }

  lemma {:induction false} PrefixIsInChain(f: string, p: string)
    requires StartsWith(p, f + "/")
    ensures InChain(f, p)
    decreases |p|
  {
    assert p[|f|] == '/' by { assert p[..|f| + 1] == f + "/"; }
    var k := LastSlash(p);
    forall i | k < i < |p| ensures p[i] != '/' { assert p[k + 1..][i - k - 1] == p[i]; }
    var q := Parent(p);
    if |f| == k {
      assert q == f;
    } else {
      assert q[..|f| + 1] == p[..|f| + 1];
      PrefixIsInChain(f, q);
    }
  }

  lemma {:induction false} RootIsInChain(p: string)
    ensures InChain("", p)
    decreases |p|
  {
    if p != "" { RootIsInChain(Parent(p)); }
  }

  lemma {:induction false} ChainIsPrefix(f: string, p: string)
    requires InChain(f, p) && f != ""
    ensures f == p || StartsWith(p, f + "/")
    decreases |p|
  {
    if f != p {
      var q := Parent(p);
      ChainIsPrefix(f, q);
      if f == q {
        assert p[..|f| + 1] == f + "/";
      } else {
        assert p[..|f| + 1] == q[..|f| + 1];
      }
    }
  }

  /** The levels counted by the score of a folder. */
  function FolderDepth(f: string): nat { if f == "" then 0 else |Split(f)| }

  lemma CutLast(p: string)
    requires '/' in p
    ensures var tail := p[LastSlash(p) + 1..]; p == Parent(p) + "/" + tail && '/' !in tail
  {
  }

  lemma ParentDepth(p: string)
    requires p != ""
    ensures FolderDepth(Parent(p)) < FolderDepth(p)
  {
    if '/' in p {
      CutLast(p);
      SplitLast(Parent(p), p[LastSlash(p) + 1..]);
    }
  }

  lemma {:induction false} ChainDepth(f: string, p: string)
    requires InChain(f, p) && f != p
    ensures FolderDepth(f) < FolderDepth(p)
    decreases |p|
  {
    ParentDepth(p);
    if f != Parent(p) { ChainDepth(f, Parent(p)); }
  }

  lemma {:induction false} CleanDepth(p: string)
    requires Clean(p)
    ensures 2 * |Split(p)| <= |p| + 1
    decreases |p|
  {
    assert CleanSegment(Split(p)[0]);
    if '/' in p {
      var i := FirstSlash(p);
      assert p == p[..i] + "/" + p[i + 1..];
      CleanConcat(p[..i], p[i + 1..]);
      CleanDepth(p[i + 1..]);
    }
  }

  lemma NormalizeShortens(s: string)
    ensures |NormalizePath(s)| <= |s|
  {
    TrimShortens(s, IsSpace);
    TrimShortens(Trim(s, IsSpace), IsSlash);
  }

  /** A folder score stays below the score of a file grant: at most 512 levels fit in a name. */
  lemma FolderScoreBelowFile(grants: set<Grant>, names: Names, g: Grant)
    requires FoldersWellPlaced(grants, names, g.bucketId) && g in grants
    requires g.resourceType == Folder && TargetName(names, g).Some?
    ensures Score(names, g).0 == 100 + FolderDepth(TargetFolder(names, g))
    ensures 100 <= Score(names, g).0 <= 612
  {
    var f := TargetFolder(names, g);
    NormalizeShortens(TargetName(names, g).value);
    if f != "" {
      CanonicalIsNormal(f);
      CleanDepth(f);
    }
  }

  /** Markers of canonical folders within the stored-name length are seen alike. */
  lemma WellPlacedIsMet(grants: set<Grant>, names: Names, bucketId: nat)
    requires FoldersWellPlaced(grants, names, bucketId)
    ensures FoldersMet(grants, names, bucketId)
  {
    forall g | g in grants && g.bucketId == bucketId && g.resourceType == Folder && TargetName(names, g).Some?
      ensures MetFolder(TargetFolder(names, g))
    {
      var f := TargetFolder(names, g);
      FolderScoreBelowFile(grants, names, g);
      FolderNameIsNormal(f);
    }
  }

  lemma FolderMatchIsChain(f: string, path: string)
    requires NormalizePath(f) == f
    ensures FolderMatches(f, path) <==> InChain(f, NormalizePath(path))
  {
    var p := NormalizePath(path);
    if f == "" {
      RootIsInChain(p);
    } else {
      if StartsWith(p, f + "/") { PrefixIsInChain(f, p); }
      if InChain(f, p) { ChainIsPrefix(f, p); }
    }
  }

  lemma FolderNameIsNormal(f: string)
    requires FolderName(f)
    ensures NormalizePath(f) == f
  {
    if f == "" { NormalizeFixed(""); } else { CanonicalIsNormal(f); }
  }

  // ------------------------------------------------- the scored maximum walks

  /** The grants left when the walk stands at `folder`. */
  ghost predicate AtMost(names: Names, relevant: set<Grant>, folder: string) {
    forall g :: g in relevant ==>
      (g.subjectType == User || g.subjectType == Company) &&
      (g.resourceType == WholeBucket ||
       (g.resourceType == Folder && InChain(TargetFolder(names, g), folder) &&
        Score(names, g).0 == 100 + FolderDepth(TargetFolder(names, g))))
  }

  lemma DecideIsCell(cell: set<Grant>, required: Permission, default: bool)
    ensures Decide(cell, required, default) <==> CellAllows(cell, required, default)
  {
    forall p: Permission, q: Permission
      ensures DenyBlocks(p, q) <==> Stops(p, q)
      ensures PermissionAtLeast(p, q) <==> Covers(p, q)
    {
    }
    if forall g :: g in cell ==> g.effect == Deny {
    } else {
      var g :| g in cell && g.effect == Allow;
    }
  }

  /** A non-empty user cell, or company cell below an empty user cell, at the highest level is the top. */
  lemma TopIsCell(names: Names, relevant: set<Grant>, level: Level, resource: int)
    requires forall g :: g in relevant ==> g.subjectType == User || g.subjectType == Company
    requires forall g :: g in relevant ==> Score(names, g).0 <= resource
    requires forall g :: g in relevant ==> (Score(names, g).0 == resource <==> LevelOf(names, g) == level)
    ensures Cell(names, relevant, level, User) != {} ==> Top(names, relevant) == Cell(names, relevant, level, User)
    ensures Cell(names, relevant, level, User) == {} && Cell(names, relevant, level, Company) != {} ==>
      Top(names, relevant) == Cell(names, relevant, level, Company)
  {
    var users, members := Cell(names, relevant, level, User), Cell(names, relevant, level, Company);
    if users != {} {
      var u :| u in users;
      forall g | g in Top(names, relevant) ensures g in users { assert ScoreLe(Score(names, u), Score(names, g)); }
      assert Top(names, relevant) == users;
    } else if members != {} {
      var m :| m in members;
      forall g | g in relevant && LevelOf(names, g) == level ensures g in members { assert g !in users; }
      forall g | g in Top(names, relevant) ensures g in members { assert ScoreLe(Score(names, m), Score(names, g)); }
      assert Top(names, relevant) == members;
    }
  }

  lemma BucketStep(names: Names, relevant: set<Grant>, required: Permission, default: bool)
    requires forall g :: g in relevant ==>
      g.resourceType == WholeBucket && (g.subjectType == User || g.subjectType == Company)
    ensures LevelAllows(names, relevant, BucketLevel, required, default, default) ==
      Decide(Top(names, relevant), required, default)
  {
    TopIsCell(names, relevant, BucketLevel, 1);
    DecideIsCell(Top(names, relevant), required, default);
    if Cell(names, relevant, BucketLevel, User) == {} && Cell(names, relevant, BucketLevel, Company) == {} {
      assert relevant == Cell(names, relevant, BucketLevel, User) + Cell(names, relevant, BucketLevel, Company);
    }
  }

  lemma {:induction false} FolderSteps(names: Names, relevant: set<Grant>, folder: string, required: Permission,
                                       default: bool)
    requires AtMost(names, relevant, folder)
    ensures WalkFolders(names, relevant, folder, required, default) == Decide(Top(names, relevant), required, default)
    decreases |folder|
  {
    var level := FolderLevel(folder);
    forall g | g in relevant
      ensures Score(names, g).0 <= 100 + FolderDepth(folder)
      ensures Score(names, g).0 == 100 + FolderDepth(folder) <==> LevelOf(names, g) == level
    {
      if g.resourceType == Folder && TargetFolder(names, g) != folder { ChainDepth(TargetFolder(names, g), folder); }
    }
    TopIsCell(names, relevant, level, 100 + FolderDepth(folder));
    DecideIsCell(Top(names, relevant), required, default);
    if Cell(names, relevant, level, User) == {} && Cell(names, relevant, level, Company) == {} {
      forall g | g in relevant ensures LevelOf(names, g) != level {
        assert g !in Cell(names, relevant, level, User);
        assert g !in Cell(names, relevant, level, Company);
      }
      if folder == "" { BucketStep(names, relevant, required, default); }
      else { FolderSteps(names, relevant, Parent(folder), required, default); }
    }
  }

  /** The highest score decides exactly as the walk does, for every path, principal and permission. */
  lemma ScoredMaximumIsWalk(grants: set<Grant>, names: Names, principal: Principal, bucket: Bucket, rq: Request,
                            required: Permission, now: int)
    requires FoldersMet(grants, names, bucket.id)
    ensures EvaluateAccess(grants, names, principal, bucket, rq, required, now)
      <==> WalkAllows(grants, names, principal, bucket, rq, required, now)
  {
    var relevant := Relevant(grants, names, principal, bucket, rq, now);
    var default := KindDefaultAllows(principal, bucket, required);
    forall g | g in relevant && g.resourceType == Folder
      ensures InChain(TargetFolder(names, g), WalkStart(rq))
      ensures 100 <= Score(names, g).0 == 100 + FolderDepth(TargetFolder(names, g)) < 1000
    {
      FolderMatchIsChain(TargetFolder(names, g), RequestPath(rq));
    }
    TopIsCell(names, relevant, FileLevel, 1000);
    DecideIsCell(Top(names, relevant), required, default);
    if Cell(names, relevant, FileLevel, User) == {} && Cell(names, relevant, FileLevel, Company) == {} {
      forall g | g in relevant ensures g.resourceType != File {
        assert g !in Cell(names, relevant, FileLevel, User);
        assert g !in Cell(names, relevant, FileLevel, Company);
      }
      FolderSteps(names, relevant, WalkStart(rq), required, default);
    }
  }

  /** For a canonical path the walk starts at the path itself. */
  lemma CanonicalWalkStart(p: string, objectId: Option<nat>)
    requires Canonical(p)
    ensures WalkStart(Request(Some(p), objectId)) == p
  {
    CanonicalIsNormal(p);
  }

  // ----------------------------------------------- ancestors found by name

  /** The parent folders of a path, outermost first, as used for lookups by marker name. */
  function AncestorPrefixes(path: string): (r: seq<string>) {
    var p := NormalizePath(path);
    if p == "" || '/' !in p then [] else
      var parts := Split(p);
      seq(|parts| - 1, i requires 0 <= i < |parts| - 1 => Join(parts[..i + 1]))
  }

  /** The lookup by name and the string test of the evaluator find the same folders. */
  lemma AncestorsAreMatches(q: string, p: string)
    requires Canonical(q) && Canonical(p) && q != p
    ensures q in AncestorPrefixes(p) <==> FolderMatches(q, p)
  {
    CanonicalIsNormal(p);
    CanonicalIsNormal(q);
    AncestorsArePrefixes(q, p);
  }

  lemma AncestorsArePrefixes(q: string, p: string)
    requires NormalizePath(p) == p
    ensures q in AncestorPrefixes(p) <==> StartsWith(p, q + "/")
  {
    if q in AncestorPrefixes(p) { AncestorIsPrefix(q, p); }
    if StartsWith(p, q + "/") { PrefixIsAncestor(q, p); }
  }

  lemma AncestorIsPrefix(q: string, p: string)
    requires NormalizePath(p) == p
    requires q in AncestorPrefixes(p)
    ensures StartsWith(p, q + "/")
  {
    var parts := Split(p);
    var i :| 0 <= i < |AncestorPrefixes(p)| && AncestorPrefixes(p)[i] == q;
    var front, back := parts[..i + 1], parts[i + 1..];
    assert parts == front + back;
    JoinConcat(front, back);
    JoinSplit(p);
    assert p == q + "/" + Join(back);
  }

  lemma PrefixIsAncestor(q: string, p: string)
    requires NormalizePath(p) == p
    requires StartsWith(p, q + "/")
    ensures q in AncestorPrefixes(p)
  {
    var rest := p[|q| + 1..];
    assert p == q + "/" + rest;
    assert p[|q|] == '/';
    SplitConcat(q, rest);
    JoinSplit(q);
    var i := |Split(q)| - 1;
    assert Split(p)[..i + 1] == Split(q);
    assert AncestorPrefixes(p)[i] == q;
  }
}
