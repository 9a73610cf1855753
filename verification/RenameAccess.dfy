/**
 Renaming a folder to a sibling name moves its grants along with its objects:
 nobody gains or loses access to anything, except to a file that carries exactly
 the name of the source folder (apps/storage/services.py:590-633 against
 apps/storage/access.py:324-373).
 */
module RenameAccess {
  import opened Prelude
  import opened Paths
  import opened Access
  import opened AccessWalk
  import opened GrantTable
  import opened ObjectStore
  import StoreService
  import WalkLimits

  /** The names of a bucket's objects, as the grants of that bucket see them. */
  function NamesOf(objects: Objects, bucketId: nat): Names {
    map id | id in objects && objects[id].bucketId == bucketId :: objects[id].name
  }

  /** Grants of the bucket stand on objects with canonical names. */
  predicate TargetsCanonical(grants: set<Grant>, names: Names, bucketId: nat) {
    forall g :: g in grants && g.bucketId == bucketId && TargetName(names, g).Some? ==>
      Canonical(TargetName(names, g).value)
  }

  /** A rename inside one bucket, reduced to what access evaluation looks at. */
  datatype Rename = Rename(grants: set<Grant>, bucketId: nat, names: Names, src: string, dst: string)
  {
    predicate Moves(name: string) { StartsWith(name, src + "/") }

    function NewName(name: string): string { if Moves(name) then dst + name[|src|..] else name }

    function NewNames(): Names { map id | id in names :: NewName(names[id]) }

    /** Sibling folders with canonical names, a free destination, and grants of the bucket on canonical names. */
    predicate Sound() {
      Canonical(src) && Canonical(dst) && src != dst && Parent(src) == Parent(dst) &&
      (forall id :: id in names ==> names[id] != dst && !StartsWith(names[id], dst + "/")) &&
      UniqueNames(names) && MarkersPlaced(grants, names, bucketId) && TargetsCanonical(grants, names, bucketId)
    }
  }

  // -------------------------------------------------------- moving prefixes

  /** A folder that moves: the source itself or one below it. */
  predicate FolderMoves(r: Rename, f: string) { f == r.src || StartsWith(f, r.src + "/") }

  function NewFolder(r: Rename, f: string): string {
    if FolderMoves(r, f) then r.dst + f[|r.src|..] else f
  }

  lemma {:induction false} Cut(n: string, p: string)
    requires StartsWith(n, p + "/")
    ensures n == p + "/" + n[|p| + 1..] && n[|p|..] == "/" + n[|p| + 1..]
  {
    assert n == n[..|p| + 1] + n[|p| + 1..];
    assert n[|p|] == '/' by { assert n[..|p| + 1] == p + "/"; }
  }

  /** Matching below two prefixes depends only on what follows the prefix. */
  lemma SameTail(a: string, b: string, f: string, n: string)
    ensures (a + n == a + f || StartsWith(a + n, a + f + "/")) <==> (b + n == b + f || StartsWith(b + n, b + f + "/"))
  {
    TailOnly(a, f, n);
    TailOnly(b, f, n);
  }

  lemma TailOnly(a: string, f: string, n: string)
    ensures (a + n == a + f || StartsWith(a + n, a + f + "/")) <==> (n == f || StartsWith(n, f + "/"))
  {
    assert (a + n)[|a|..] == n && (a + f)[|a|..] == f;
    if StartsWith(a + n, a + f + "/") {
      assert n[..|f| + 1] == (a + n)[..|a| + |f| + 1][|a|..] == (a + f + "/")[|a|..] == f + "/";
    }
    if StartsWith(n, f + "/") {
      assert (a + n)[..|a| + |f| + 1] == a + n[..|f| + 1] == a + f + "/";
    }
  }

  /** Strict ancestors of the source and of its sibling are the same. */
  lemma SiblingAncestors(r: Rename, f: string)
    requires Canonical(r.src) && Canonical(r.dst) && Parent(r.src) == Parent(r.dst) && f != ""
    ensures StartsWith(r.src, f + "/") <==> StartsWith(r.dst, f + "/")
  {
    CanonicalIsNormal(r.src);
    CanonicalIsNormal(r.dst);
    StrictAncestor(f, r.src);
    StrictAncestor(f, r.dst);
  }

  lemma StrictAncestor(f: string, p: string)
    requires f != "" && p != ""
    ensures StartsWith(p, f + "/") <==> InChain(f, Parent(p))
  {
    if StartsWith(p, f + "/") { PrefixIsInChain(f, p); }
    if InChain(f, Parent(p)) {
      ChainLength(f, Parent(p));
      ChainIsPrefix(f, p);
    }
  }

  // --------------------------------------------------------- grants that move

  lemma MarkerFolder(r: Rename, g: Grant)
    requires r.Sound() && g in r.grants && g.bucketId == r.bucketId && g.resourceType == Folder &&
      TargetName(r.names, g).Some?
    ensures var f := TargetFolder(r.names, g);
            FolderName(f) && r.names[g.target.value] == (if f == "" then MARKER else f + "/" + MARKER) &&
            f != r.dst && !StartsWith(f, r.dst + "/")
  {
    var f := TargetFolder(r.names, g);
    MarkerNormal(f);
    CanonicalIsNormal(r.dst);
    assert !StartsWith(r.names[g.target.value], r.dst + "/");
    if f != "" {
      var n := f + "/" + MARKER;
      assert n[..|f| + 1] == f + "/" && n[..|f|] == f;
      StartsWithTransitive(n, f, r.dst + "/");
    }
  }

  /** After the rename a folder grant stands on the renamed folder. */
  lemma FolderFollows(r: Rename, g: Grant)
    requires r.Sound() && g in r.grants && g.bucketId == r.bucketId && g.resourceType == Folder &&
      TargetName(r.names, g).Some?
    ensures var f := TargetFolder(r.names, g);
            TargetName(r.NewNames(), g).Some? && TargetFolder(r.NewNames(), g) == NewFolder(r, f) &&
              FolderName(NewFolder(r, f))
  {
    MarkerFolder(r, g);
    MarkerMoves(r, TargetFolder(r.names, g));
    assert TargetName(r.NewNames(), g) == Some(r.NewName(r.names[g.target.value]));
  }

  lemma MarkerMoves(r: Rename, f: string)
    requires Canonical(r.src) && Canonical(r.dst) && FolderName(f)
    ensures FolderName(NewFolder(r, f))
    ensures FolderPathFromPlaceholder(r.NewName(if f == "" then MARKER else f + "/" + MARKER)) == NewFolder(r, f)
  {
    if f == "" { RootMarkerStays(r); } else { FolderMarkerMoves(r, f); }
  }

  lemma RootMarkerStays(r: Rename)
    requires Canonical(r.src)
    ensures r.NewName(MARKER) == MARKER && FolderPathFromPlaceholder(MARKER) == "" && NewFolder(r, "") == ""
  {
    MarkerIsClean();
    CanonicalIsNormal(r.src);
    var m := MARKER;
    if r.Moves(m) { Cut(m, r.src); }
    MarkerNormal("");
    MarkerRoundTrip("");
  }

  lemma FolderMarkerMoves(r: Rename, f: string)
    requires Canonical(r.src) && Canonical(r.dst) && Canonical(f)
    ensures Canonical(NewFolder(r, f)) && FolderPathFromPlaceholder(r.NewName(f + "/" + MARKER)) == NewFolder(r, f)
  {
    MarkerIsClean();
    var h, name := NewFolder(r, f), f + "/" + MARKER;
    CanonicalIsNormal(f);
    MovesWithMarker(r, f);
    NewFolderCanonical(r, f);
    CanonicalIsNormal(h);
    MarkerRoundTrip(h);
    MarkerNormal(h);
    NewTailName(r, f, MARKER);
  }

  lemma NewTailName(r: Rename, f: string, m: string)
    requires r.Moves(f + "/" + m) <==> FolderMoves(r, f)
    ensures r.NewName(f + "/" + m) == NewFolder(r, f) + "/" + m
  {
    if FolderMoves(r, f) {
      FrontAndTail(f, r.src);
      DropFrontSlash(f, m, |r.src|);
      Regrouped(r.dst, f[|r.src|..], m);
    }
  }

  lemma DropFrontSlash(f: string, m: string, k: nat)
    requires k <= |f|
    ensures (f + "/" + m)[k..] == f[k..] + ("/" + m)
  {
  }

  lemma Regrouped(d: string, x: string, m: string)
    ensures d + (x + ("/" + m)) == d + x + "/" + m
  {
  }

  lemma MovesWithMarker(r: Rename, f: string)
    requires f != "" && '/' !in MARKER
    ensures r.Moves(f + "/" + MARKER) <==> FolderMoves(r, f)
  {
    var n := f + "/" + MARKER;
    assert n[..|f|] == f && n[..|f| + 1] == f + "/";
    StartsWithTransitive(n, f, r.src + "/");
    forall i | |f| < i < |n| ensures n[i] != '/' { assert n[i] == MARKER[i - |f| - 1]; }
    if r.Moves(n) {
      assert n[|r.src|] == '/' by { assert n[..|r.src| + 1] == r.src + "/"; }
      StoreService.PrefixesNest(r.src, f, n);
    }
  }

  lemma NewFolderCanonical(r: Rename, f: string)
    requires Canonical(f) && Canonical(r.src) && Canonical(r.dst)
    ensures Canonical(NewFolder(r, f))
  {
    if StartsWith(f, r.src + "/") {
      Cut(f, r.src);
      var rest := f[|r.src| + 1..];
      MovedBelow(r.src, r.dst, rest);
      assert NewFolder(r, f) == r.dst + "/" + rest;
    } else if f == r.src {
      assert NewFolder(r, f) == r.dst;
    }
  }

  lemma MovedBelow(a: string, b: string, rest: string)
    requires Canonical(a + "/" + rest) && Canonical(b)
    ensures Canonical(b + "/" + rest)
  {
    CleanConcat(a, rest);
    CleanConcat(b, rest);
    CleanIsTrimmed(rest);
    CleanIsTrimmed(b);
    var n, m := a + "/" + rest, b + "/" + rest;
    assert n[|n| - 1] == m[|m| - 1] == rest[|rest| - 1] && m[0] == b[0];
  }

  lemma SameDepth(r: Rename, f: string)
    requires Canonical(f) && Canonical(r.src) && Canonical(r.dst) && Parent(r.src) == Parent(r.dst)
    ensures FolderDepth(NewFolder(r, f)) == FolderDepth(f)
  {
    DepthOfParent(r.src);
    DepthOfParent(r.dst);
    CanonicalIsNormal(f);
    if f == r.src {
      assert NewFolder(r, f) == r.dst;
    } else if StartsWith(f, r.src + "/") {
      Cut(f, r.src);
      TailDepth(r.src, r.dst, f[|r.src| + 1..]);
      assert NewFolder(r, f) == r.dst + "/" + f[|r.src| + 1..];
    }
  }

  lemma TailDepth(a: string, b: string, rest: string)
    requires a != "" && b != "" && FolderDepth(a) == FolderDepth(b)
    ensures FolderDepth(a + "/" + rest) == FolderDepth(b + "/" + rest)
  {
    SplitConcat(a, rest);
    SplitConcat(b, rest);
  }

  lemma DepthOfParent(p: string)
    requires Canonical(p)
    ensures p != "" && FolderDepth(p) == FolderDepth(Parent(p)) + 1
  {
    CanonicalIsNormal(p);
    if '/' in p {
      CutLast(p);
      ParentIsNonEmpty(p);
      SplitLast(Parent(p), p[LastSlash(p) + 1..]);
    }
  }

  lemma ParentIsNonEmpty(p: string)
    requires Canonical(p) && '/' in p
    ensures Parent(p) != ""
  {
    CanonicalIsNormal(p);
    CutLast(p);
  }

  lemma ScoreFollows(r: Rename, g: Grant)
    requires r.Sound() && g in r.grants && g.bucketId == r.bucketId
    requires g.resourceType == Folder ==> TargetName(r.names, g).Some?
    ensures Score(r.NewNames(), g) == Score(r.names, g)
  {
    if g.resourceType == Folder {
      FolderFollows(r, g);
      MarkerFolder(r, g);
      FolderScoreFollows(r, TargetFolder(r.names, g));
      ScoreByFolder(r.NewNames(), r.names, g);
    }
  }

  lemma ScoreByFolder(a: Names, b: Names, g: Grant)
    requires g.resourceType == Folder
    requires TargetFolder(a, g) == "" <==> TargetFolder(b, g) == ""
    requires TargetFolder(b, g) != "" ==>
      |Split(NormalizePath(TargetFolder(a, g)))| == |Split(NormalizePath(TargetFolder(b, g)))|
    ensures Score(a, g) == Score(b, g)
  {
  }

  lemma FolderScoreFollows(r: Rename, f: string)
    requires Canonical(r.src) && Canonical(r.dst) && Parent(r.src) == Parent(r.dst) && FolderName(f)
    ensures NewFolder(r, f) == "" <==> f == ""
    ensures f != "" ==> |Split(NormalizePath(NewFolder(r, f)))| == |Split(NormalizePath(f))|
  {
    CanonicalIsNormal(r.src);
    if f != "" {
      NewFolderCanonical(r, f);
      CanonicalIsNormal(f);
      CanonicalIsNormal(NewFolder(r, f));
      SameDepth(r, f);
    }
  }

  // ----------------------------------------------------------- what matches

  /** A folder of the bucket covers a moved object before the rename exactly when it does after. */
  lemma MovedMatch(r: Rename, f: string, n: string)
    requires Canonical(r.src) && Canonical(r.dst) && Parent(r.src) == Parent(r.dst)
    requires Canonical(f) && f != r.dst && !StartsWith(f, r.dst + "/") && r.Moves(n)
    ensures (n == f || StartsWith(n, f + "/")) <==>
      (r.NewName(n) == NewFolder(r, f) || StartsWith(r.NewName(n), NewFolder(r, f) + "/"))
  {
    CanonicalIsNormal(f);
    if FolderMoves(r, f) { MovedMatchInside(r, f, n); } else { MovedMatchOutside(r, f, n); }
  }

  /** The folder moves with the object. */
  lemma MovedMatchInside(r: Rename, f: string, n: string)
    requires FolderMoves(r, f) && r.Moves(n)
    ensures (n == f || StartsWith(n, f + "/")) <==>
      (r.NewName(n) == NewFolder(r, f) || StartsWith(r.NewName(n), NewFolder(r, f) + "/"))
  {
    FrontAndTail(n, r.src);
    FrontAndTail(f, r.src);
    MovedBoth(r, f[|r.src|..], n[|r.src|..]);
  }

  lemma FrontAndTail(n: string, p: string)
    requires n == p || StartsWith(n, p + "/")
    ensures |p| <= |n| && n == p + n[|p|..]
  {
    if n != p { Cut(n, p); }
  }

  /** The folder stays: it covers the object as a common ancestor of both siblings, or not at all. */
  lemma MovedMatchOutside(r: Rename, f: string, n: string)
    requires Canonical(r.src) && Canonical(r.dst) && Parent(r.src) == Parent(r.dst) && f != "" && !FolderMoves(r, f)
    requires f != r.dst && !StartsWith(f, r.dst + "/") && r.Moves(n)
    ensures (n == f || StartsWith(n, f + "/")) <==> (r.NewName(n) == f || StartsWith(r.NewName(n), f + "/"))
  {
    MovedTail(r, n);
    SiblingAncestors(r, f);
    OnlyAncestors(f, r.src, n);
    OnlyAncestors(f, r.dst, r.NewName(n));
  }

  lemma MovedBoth(r: Rename, x: string, tail: string)
    ensures (r.src + tail == r.src + x || StartsWith(r.src + tail, (r.src + x) + "/"))
      <==> (r.dst + tail == r.dst + x || StartsWith(r.dst + tail, (r.dst + x) + "/"))
  {
    SameTail(r.src, r.dst, x, tail);
    assert (r.src + x) + "/" == r.src + x + "/" && (r.dst + x) + "/" == r.dst + x + "/";
  }

  /** A folder neither equal to `p` nor below it covers what lies below `p` only as an ancestor of `p`. */
  lemma OnlyAncestors(f: string, p: string, n: string)
    requires StartsWith(n, p + "/") && f != p && !StartsWith(f, p + "/") && f != ""
    ensures (n == f || StartsWith(n, f + "/")) <==> StartsWith(p, f + "/")
  {
    if StartsWith(n, f + "/") { StoreService.PrefixesNest(f, p, n); }
    StartsWithTransitive(n, p + "/", p);
    StartsWithTransitive(n, p, f + "/");
  }

  /** An object that stays, and is not named like the source, is covered by no moved folder. */
  lemma StayingMatch(r: Rename, f: string, n: string)
    requires !r.Moves(n) && n != r.src && n != r.dst && !StartsWith(n, r.dst + "/")
    ensures (n == f || StartsWith(n, f + "/")) <==> (n == NewFolder(r, f) || StartsWith(n, NewFolder(r, f) + "/"))
  {
    if FolderMoves(r, f) {
      NotBelow(r.src, f, n);
      var h := NewFolder(r, f);
      if f != r.src {
        Cut(f, r.src);
        assert h == r.dst + "/" + f[|r.src| + 1..];
        assert h[..|r.dst| + 1] == r.dst + "/";
      } else {
        assert h == r.dst;
      }
      NotBelow(r.dst, h, n);
    }
  }

  lemma NotBelow(p: string, f: string, n: string)
    requires f == p || StartsWith(f, p + "/")
    requires n != p && !StartsWith(n, p + "/")
    ensures n != f && !StartsWith(n, f + "/")
  {
    StartsWithTransitive(n, f + "/", f);
    StartsWithTransitive(n, f, p + "/");
  }

  lemma NewNameCanonical(r: Rename, n: string)
    requires Canonical(n) && Canonical(r.src) && Canonical(r.dst)
    ensures Canonical(r.NewName(n))
  {
    if r.Moves(n) {
      NewFolderCanonical(r, n);
    }
  }

  lemma NewNamesUnique(r: Rename)
    requires r.Sound()
    ensures UniqueNames(r.NewNames())
  {
    forall i, j | i in r.names && j in r.names && r.NewName(r.names[i]) == r.NewName(r.names[j]) ensures i == j {
      NewNameInjective(r, r.names[i], r.names[j]);
    }
  }

  lemma NewNameInjective(r: Rename, a: string, b: string)
    requires r.NewName(a) == r.NewName(b)
    requires !StartsWith(a, r.dst + "/") && !StartsWith(b, r.dst + "/")
    ensures a == b
  {
    MovedTail(r, a);
    MovedTail(r, b);
  }

  /** A moved name is told by its front, and its tail gives the old name back. */
  lemma MovedTail(r: Rename, a: string)
    ensures r.Moves(a) ==> StartsWith(r.NewName(a), r.dst + "/") && a == r.src + r.NewName(a)[|r.dst|..]
  {
    if r.Moves(a) {
      Cut(a, r.src);
      assert r.NewName(a)[..|r.dst| + 1] == r.dst + "/";
      assert r.NewName(a)[|r.dst|..] == a[|r.src|..];
    }
  }

  function Ask(names: Names, id: nat): Request
    requires id in names
  {
    Request(Some(names[id]), Some(id))
  }

  /** What a folder grant on a marker covers, in terms of the object's own name. */
  lemma FolderMatch(names: Names, g: Grant, bucket: Bucket, id: nat)
    requires g.bucketId == bucket.id && g.resourceType == Folder && TargetName(names, g).Some?
    requires FolderName(TargetFolder(names, g)) && id in names && Canonical(names[id])
    ensures var f, n := TargetFolder(names, g), names[id];
            ResourceMatches(names, g, bucket, Ask(names, id)) <==> f == "" || n == f || StartsWith(n, f + "/")
  {
    CanonicalIsNormal(names[id]);
    FolderNameIsNormal(TargetFolder(names, g));
  }

  lemma FolderMatchFollows(r: Rename, g: Grant, bucket: Bucket, id: nat)
    requires r.Sound() && g in r.grants && g.bucketId == bucket.id == r.bucketId
    requires g.resourceType == Folder && TargetName(r.names, g).Some?
    requires id in r.names && r.names[id] != r.src && Canonical(r.names[id])
    ensures ResourceMatches(r.names, g, bucket, Ask(r.names, id)) <==>
      ResourceMatches(r.NewNames(), g, bucket, Ask(r.NewNames(), id))
  {
    var n, f := r.names[id], TargetFolder(r.names, g);
    NewNameCanonical(r, n);
    FolderFollows(r, g);
    MarkerFolder(r, g);
    FolderMatch(r.names, g, bucket, id);
    FolderMatch(r.NewNames(), g, bucket, id);
    FolderScoreFollows(r, f);
    if f != "" {
      if r.Moves(n) { MovedMatch(r, f, n); } else { StayingMatch(r, f, n); }
    }
  }

  lemma FileMatchFollows(r: Rename, g: Grant, bucket: Bucket, id: nat)
    requires r.Sound() && g in r.grants && g.bucketId == bucket.id == r.bucketId
    requires g.resourceType == File && TargetName(r.names, g).Some? && id in r.names && Canonical(r.names[id])
    ensures ResourceMatches(r.names, g, bucket, Ask(r.names, id)) <==>
      ResourceMatches(r.NewNames(), g, bucket, Ask(r.NewNames(), id))
  {
    FileMatch(r.names, g, id);
    NewNamesUnique(r);
    NewNameCanonical(r, r.names[id]);
    NewNameCanonical(r, r.names[g.target.value]);
    FileMatch(r.NewNames(), g, id);
    CanonicalIsNormal(r.names[id]);
    CanonicalIsNormal(r.NewName(r.names[id]));
  }

  /** The same grants match an object before and after. */
  lemma MatchFollows(r: Rename, g: Grant, bucket: Bucket, id: nat)
    requires r.Sound() && g in r.grants && bucket.id == r.bucketId
    requires id in r.names && r.names[id] != r.src && Canonical(r.names[id])
    ensures ResourceMatches(r.names, g, bucket, Ask(r.names, id)) <==>
      ResourceMatches(r.NewNames(), g, bucket, Ask(r.NewNames(), id))
  {
    if g.bucketId == bucket.id && TargetName(r.names, g).Some? {
      if g.resourceType == Folder { FolderMatchFollows(r, g, bucket, id); }
      if g.resourceType == File { FileMatchFollows(r, g, bucket, id); }
    }
  }

  /** With unique canonical names a file grant matches its own file only. */
  lemma FileMatch(names: Names, g: Grant, id: nat)
    requires UniqueNames(names) && id in names && TargetName(names, g).Some?
    requires Canonical(names[id]) && Canonical(names[g.target.value])
    ensures (Some(id) == g.target || NormalizePath(TargetName(names, g).value) == RequestPath(Ask(names, id))) <==>
      g.target == Some(id)
  {
    CanonicalIsNormal(names[id]);
    CanonicalIsNormal(names[g.target.value]);
  }

  /** Access is unchanged for every object not named exactly like the source folder. */
  lemma AccessFollows(r: Rename, principal: Principal, bucket: Bucket, id: nat, required: Permission, now: int)
    requires r.Sound() && bucket.id == r.bucketId && id in r.names && r.names[id] != r.src && Canonical(r.names[id])
    ensures EvaluateAccess(r.grants, r.NewNames(), principal, bucket, Ask(r.NewNames(), id), required, now)
      == EvaluateAccess(r.grants, r.names, principal, bucket, Ask(r.names, id), required, now)
  {
    var before := Relevant(r.grants, r.names, principal, bucket, Ask(r.names, id), now);
    var after := Relevant(r.grants, r.NewNames(), principal, bucket, Ask(r.NewNames(), id), now);
    forall g | g in r.grants ensures g in before <==> g in after { MatchFollows(r, g, bucket, id); }
    assert before == after;
    forall g | g in before ensures Score(r.NewNames(), g) == Score(r.names, g) { ScoreFollows(r, g); }
    assert Top(r.names, before) == Top(r.NewNames(), before);
  }

  // ------------------------------------------------------- the folder rename

  /** Grants of the bucket stand on canonical names, folder grants on markers of canonical folders. */
  ghost predicate GrantsPlaced(s: State, grants: set<Grant>, bucketId: nat) {
    var names := NamesOf(s.objects, bucketId);
    TargetsCanonical(grants, names, bucketId) && MarkersPlaced(grants, names, bucketId)
  }

  /**
   A successful rename of a folder to a sibling name keeps, for every principal and permission, the
   decision on every moved object (old path before, new path after) and on every other object, a file
   named exactly like the source excepted.
   */
  lemma RenamePreservesAccess(s: State, bucketId: nat, source: string, dest: string, grants: set<Grant>,
                              principal: Principal, bucket: Bucket, id: nat, required: Permission, now: int)
    requires Consistent(s) && RenameFolder(s, bucketId, source, dest).Ok? &&
      SafeObjectPath(source) != SafeObjectPath(dest)
    requires var src, dst := SafeObjectPath(source).value, SafeObjectPath(dest).value;
             Canonical(src) && Canonical(dst) && Parent(src) == Parent(dst)
    requires GrantsPlaced(s, grants, bucketId) && bucket.id == bucketId
    requires id in NamesOf(s.objects, bucketId) && Canonical(s.objects[id].name) &&
      s.objects[id].name != SafeObjectPath(source).value
    ensures var after := NamesOf(RenameFolder(s, bucketId, source, dest).value.objects, bucketId);
            var before := NamesOf(s.objects, bucketId);
            id in after && EvaluateAccess(grants, after, principal, bucket, Ask(after, id), required, now)
              == EvaluateAccess(grants, before, principal, bucket, Ask(before, id), required, now)
  {
    var r := Rename(grants, bucketId, NamesOf(s.objects, bucketId), SafeObjectPath(source).value,
      SafeObjectPath(dest).value);
    RenameIsSound(s, bucketId, source, dest, grants);
    RenameChangesNames(s, bucketId, source, dest, grants);
    AccessFollowsNames(r, r.NewNames(), principal, bucket, id, required, now);
  }

  /** The same with the new names given by equality. */
  lemma AccessFollowsNames(r: Rename, after: Names, principal: Principal, bucket: Bucket, id: nat,
                           required: Permission, now: int)
    requires r.Sound() && bucket.id == r.bucketId && after == r.NewNames()
    requires id in r.names && r.names[id] != r.src && Canonical(r.names[id])
    ensures id in after
    ensures EvaluateAccess(r.grants, after, principal, bucket, Ask(after, id), required, now)
      == EvaluateAccess(r.grants, r.names, principal, bucket, Ask(r.names, id), required, now)
  {
    AccessFollows(r, principal, bucket, id, required, now);
  }

  lemma RenameChangesNames(s: State, bucketId: nat, source: string, dest: string, grants: set<Grant>)
    requires RenameFolder(s, bucketId, source, dest).Ok? && SafeObjectPath(source) != SafeObjectPath(dest)
    ensures NamesOf(RenameFolder(s, bucketId, source, dest).value.objects, bucketId)
      == Rename(grants, bucketId, NamesOf(s.objects, bucketId), SafeObjectPath(source).value,
        SafeObjectPath(dest).value).NewNames()
  {
    assert RenameFolder(s, bucketId, source, dest).value.objects
        == RenamedObjects(s.objects, bucketId, SafeObjectPath(source).value, SafeObjectPath(dest).value);
  }

  lemma RenameIsSound(s: State, bucketId: nat, source: string, dest: string, grants: set<Grant>)
    requires Consistent(s) && RenameFolder(s, bucketId, source, dest).Ok? &&
      SafeObjectPath(source) != SafeObjectPath(dest)
    requires var src, dst := SafeObjectPath(source).value, SafeObjectPath(dest).value;
             Canonical(src) && Canonical(dst) && Parent(src) == Parent(dst)
    requires GrantsPlaced(s, grants, bucketId)
    ensures Rename(grants, bucketId, NamesOf(s.objects, bucketId), SafeObjectPath(source).value,
      SafeObjectPath(dest).value).Sound()
  {
    var dst := SafeObjectPath(dest).value;
    var names := NamesOf(s.objects, bucketId);
    forall id | id in names ensures names[id] != dst && !StartsWith(names[id], dst + "/") {
      assert !At(s.objects, bucketId, dst, id);
      assert !InFolder(s.objects[id], bucketId, dst);
    }
  }

  // -------------------------------------------- the file named like the source

  /** The grant stands on the source folder. */
  predicate OnSource(r: Rename, g: Grant) {
    g.bucketId == r.bucketId && g.resourceType == Folder && TargetName(r.names, g).Some? &&
      TargetFolder(r.names, g) == r.src
  }

  function WithoutSourceGrants(r: Rename): set<Grant> { set g | g in r.grants && !OnSource(r, g) }

  /** The destination never encloses its sibling. */
  lemma SiblingIsOutside(r: Rename)
    requires Canonical(r.src) && Canonical(r.dst) && Parent(r.src) == Parent(r.dst)
    ensures !StartsWith(r.src, r.dst + "/")
  {
    CanonicalIsNormal(r.src);
    CanonicalIsNormal(r.dst);
    StrictAncestor(r.dst, r.src);
    if InChain(r.dst, Parent(r.dst)) { ChainLength(r.dst, Parent(r.dst)); }
  }

  /** A folder other than the source covers the file named like it before the rename exactly when it does after. */
  lemma SourceFileMatch(r: Rename, f: string)
    requires Canonical(r.src) && Canonical(r.dst) && Parent(r.src) == Parent(r.dst) && r.src != r.dst
    ensures r.src == NewFolder(r, f) || StartsWith(r.src, NewFolder(r, f) + "/")
      <==> f != r.src && (r.src == f || StartsWith(r.src, f + "/"))
  {
    SiblingIsOutside(r);
    if FolderMoves(r, f) {
      var h := NewFolder(r, f);
      if f != r.src {
        Cut(f, r.src);
        assert h == r.dst + "/" + f[|r.src| + 1..];
        assert h[..|r.dst| + 1] == r.dst + "/";
      } else {
        assert h == r.dst;
      }
      NotBelow(r.dst, h, r.src);
    }
  }

  lemma FolderMatchAtSource(r: Rename, g: Grant, bucket: Bucket, id: nat)
    requires r.Sound() && g in r.grants && g.bucketId == bucket.id == r.bucketId
    requires g.resourceType == Folder && TargetName(r.names, g).Some? && id in r.names && r.names[id] == r.src
    ensures ResourceMatches(r.NewNames(), g, bucket, Ask(r.NewNames(), id))
      <==> ResourceMatches(r.names, g, bucket, Ask(r.names, id)) && !OnSource(r, g)
  {
    var f := TargetFolder(r.names, g);
    CanonicalIsNormal(r.src);
    FolderFollows(r, g);
    MarkerFolder(r, g);
    NewNameCanonical(r, r.src);
    FolderMatch(r.names, g, bucket, id);
    FolderMatch(r.NewNames(), g, bucket, id);
    FolderScoreFollows(r, f);
    SourceFileMatch(r, f);
  }

  /** The grants that match the file after the rename are those that matched before and do not stand on the source. */
  lemma MatchAtSource(r: Rename, g: Grant, bucket: Bucket, id: nat)
    requires r.Sound() && g in r.grants && bucket.id == r.bucketId && id in r.names && r.names[id] == r.src
    ensures ResourceMatches(r.NewNames(), g, bucket, Ask(r.NewNames(), id))
      <==> ResourceMatches(r.names, g, bucket, Ask(r.names, id)) && !OnSource(r, g)
  {
    if g.bucketId == bucket.id && TargetName(r.names, g).Some? {
      if g.resourceType == Folder { FolderMatchAtSource(r, g, bucket, id); }
      if g.resourceType == File { FileMatchFollows(r, g, bucket, id); }
    }
  }

  /**
   What a rename does to a file named exactly like the source: the decision afterwards is the one
   that the grants without those on the source folder gave before. So it is kept if and only if
   dropping the folder's own grants changes nothing for this file.
   */
  lemma SourceFileAccess(r: Rename, principal: Principal, bucket: Bucket, id: nat, required: Permission, now: int)
    requires r.Sound() && bucket.id == r.bucketId && id in r.names && r.names[id] == r.src
    ensures EvaluateAccess(r.grants, r.NewNames(), principal, bucket, Ask(r.NewNames(), id), required, now)
      == EvaluateAccess(WithoutSourceGrants(r), r.names, principal, bucket, Ask(r.names, id), required, now)
    ensures var before := EvaluateAccess(r.grants, r.names, principal, bucket, Ask(r.names, id), required, now);
            var renamed := r.NewNames();
            var after := EvaluateAccess(r.grants, renamed, principal, bucket, Ask(renamed, id), required, now);
            var without :=
              EvaluateAccess(WithoutSourceGrants(r), r.names, principal, bucket, Ask(r.names, id), required, now);
            after == before <==> without == before
  {
    var before := Relevant(WithoutSourceGrants(r), r.names, principal, bucket, Ask(r.names, id), now);
    var after := Relevant(r.grants, r.NewNames(), principal, bucket, Ask(r.NewNames(), id), now);
    forall g | g in r.grants ensures g in before <==> g in after { MatchAtSource(r, g, bucket, id); }
    assert before == after;
    forall g | g in before ensures Score(r.NewNames(), g) == Score(r.names, g) { ScoreFollows(r, g); }
    assert Top(r.names, before) == Top(r.NewNames(), before);
  }

  /** The same for a successful rename of the store. */
  lemma RenameAtSourceFile(s: State, bucketId: nat, source: string, dest: string, grants: set<Grant>,
                           principal: Principal, bucket: Bucket, id: nat, required: Permission, now: int)
    requires Consistent(s) && RenameFolder(s, bucketId, source, dest).Ok? &&
      SafeObjectPath(source) != SafeObjectPath(dest)
    requires var src, dst := SafeObjectPath(source).value, SafeObjectPath(dest).value;
             Canonical(src) && Canonical(dst) && Parent(src) == Parent(dst)
    requires GrantsPlaced(s, grants, bucketId) && bucket.id == bucketId
    requires id in NamesOf(s.objects, bucketId) && s.objects[id].name == SafeObjectPath(source).value
    ensures var after := NamesOf(RenameFolder(s, bucketId, source, dest).value.objects, bucketId);
            var before := NamesOf(s.objects, bucketId);
            var r := Rename(grants, bucketId, before, SafeObjectPath(source).value, SafeObjectPath(dest).value);
            id in after && EvaluateAccess(grants, after, principal, bucket, Ask(after, id), required, now)
              == EvaluateAccess(WithoutSourceGrants(r), before, principal, bucket, Ask(before, id), required, now)
  {
    var r := Rename(grants, bucketId, NamesOf(s.objects, bucketId), SafeObjectPath(source).value,
      SafeObjectPath(dest).value);
    RenameIsSound(s, bucketId, source, dest, grants);
    RenameChangesNames(s, bucketId, source, dest, grants);
    SourceFileAccess(r, principal, bucket, id, required, now);
  }

  // -------------------------------------------------------- a decision that flips

  /** A folder with a company-wide read denial, and a file of the folder's name. */
  function Flip(src: string, dst: string): Rename {
    Rename({WalkLimits.DenyOn(1, 1, Company)}, 1, map[1 := src + "/" + MARKER, 2 := src], src, dst)
  }

  /** For all siblings the rename can flip a decision: the file is denied to members before and open to them after. */
  lemma SourceFileFlips(src: string, dst: string)
    requires Canonical(src) && Canonical(dst) && src != dst && Parent(src) == Parent(dst) && |src| <= 1000
    ensures var r := Flip(src, dst);
            r.Sound()
            && !EvaluateAccess(r.grants, r.names, WalkLimits.MEMBER, WalkLimits.Shared(1), Ask(r.names, 2), Read, 0)
            && EvaluateAccess(r.grants, r.NewNames(), WalkLimits.MEMBER, WalkLimits.Shared(1), Ask(r.NewNames(), 2),
              Read, 0)
  {
    var r, deny := Flip(src, dst), WalkLimits.DenyOn(1, 1, Company);
    var member, bucket := WalkLimits.MEMBER, WalkLimits.Shared(1);
    FlipIsSound(src, dst);
    SourceFileAccess(r, member, bucket, 2, Read, 0);
    FlipFolder(src, dst);
    FolderMatch(r.names, deny, bucket, 2);
    assert OnSource(r, deny) && WithoutSourceGrants(r) == {};
    MatchingDenyRefuses(r.names, deny, member, bucket, Ask(r.names, 2));
    NoGrantsOpen(r.names, member, bucket, Ask(r.names, 2));
  }

  lemma MatchingDenyRefuses(names: Names, deny: Grant, principal: Principal, bucket: Bucket, rq: Request)
    requires deny.effect == Deny && deny.permission == Read && deny.companyId == bucket.companyId &&
      deny.expiresAt.None?
    requires SubjectMatches(deny, principal) && ResourceMatches(names, deny, bucket, rq)
    ensures !EvaluateAccess({deny}, names, principal, bucket, rq, Read, 0)
  {
    assert Relevant({deny}, names, principal, bucket, rq, 0) == {deny};
    WalkLimits.OnlyDenyDecides(names, deny, Read, KindDefaultAllows(principal, bucket, Read));
  }

  lemma NoGrantsOpen(names: Names, principal: Principal, bucket: Bucket, rq: Request)
    ensures EvaluateAccess({}, names, principal, bucket, rq, Read, 0) <==> KindDefaultAllows(principal, bucket, Read)
  {
    assert Relevant({}, names, principal, bucket, rq, 0) == {};
  }

  lemma FlipFolder(src: string, dst: string)
    requires Canonical(src)
    ensures var r, deny := Flip(src, dst), WalkLimits.DenyOn(1, 1, Company);
            TargetName(r.names, deny) == Some(src + "/" + MARKER) && TargetFolder(r.names, deny) == src
            && FolderPlaceholderPath(src) == src + "/" + MARKER && Canonical(src + "/" + MARKER)
  {
    CanonicalIsNormal(src);
    MarkerNormal(src);
    MarkerRoundTrip(src);
  }

  lemma FlipIsSound(src: string, dst: string)
    requires Canonical(src) && Canonical(dst) && src != dst && Parent(src) == Parent(dst) && |src| <= 1000
    ensures Flip(src, dst).Sound()
  {
    var r := Flip(src, dst);
    FlipFolder(src, dst);
    FlipIsPlaced(src, dst);
    CanonicalIsNormal(src);
    SiblingIsOutside(r);
    SuffixStarts(src, MARKER);
    MarkerOutsideSibling(r, src + "/" + MARKER);
  }

  lemma SuffixStarts(f: string, m: string)
    ensures StartsWith(f + "/" + m, f + "/") && f + "/" + m != f
  {
    assert (f + "/" + m)[..|f| + 1] == f + "/";
  }

  lemma FlipIsPlaced(src: string, dst: string)
    requires Canonical(src) && |src| <= 1000
    ensures var r := Flip(src, dst);
            MarkersPlaced(r.grants, r.names, r.bucketId) && TargetsCanonical(r.grants, r.names, r.bucketId)
  {
    FlipFolder(src, dst);
    MarkerChars();
    assert |src + "/" + MARKER| == |src| + 24;
  }

  lemma MarkerOutsideSibling(r: Rename, n: string)
    requires Canonical(r.src) && Canonical(r.dst) && r.src != r.dst && Parent(r.src) == Parent(r.dst) &&
      StartsWith(n, r.src + "/")
    ensures n != r.dst && !StartsWith(n, r.dst + "/")
  {
    var back := Rename({}, 0, map[], r.dst, r.src);
    SiblingIsOutside(r);
    SiblingIsOutside(back);
    if StartsWith(n, r.dst + "/") { StoreService.PrefixesNest(r.dst, r.src, n); }
  }

  /**
   The exception is real: a file named exactly like the source folder is covered by every grant on
   that folder before the rename and by none of them after it.
   */
  lemma FileNamedLikeSourceIsUncovered(r: Rename, g: Grant, bucket: Bucket, id: nat)
    requires r.Sound() && g in r.grants && g.bucketId == r.bucketId == bucket.id && id in r.names &&
      r.names[id] == r.src
    requires g.resourceType == Folder && TargetName(r.names, g).Some? && TargetFolder(r.names, g) == r.src
    ensures ResourceMatches(r.names, g, bucket, Ask(r.names, id))
    ensures r.NewNames()[id] == r.src && !ResourceMatches(r.NewNames(), g, bucket, Ask(r.NewNames(), id))
  {
    CanonicalIsNormal(r.src);
    CanonicalIsNormal(r.dst);
    FolderFollows(r, g);
    assert NewFolder(r, r.src) == r.dst;
  }
}
