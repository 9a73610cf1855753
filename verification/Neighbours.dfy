/**
 Names that normalise to those of a neighbour (apps/storage/access.py:198-244, apps/webdav/views.py:300-386):
 what the private pair of such a new folder or file takes from other members, and what its creator
 gains.
 */
module Neighbours {
  import opened Prelude
  import opened Paths
  import opened Access
  import opened AccessWalk
  import opened GrantTable
  import opened WalkLimits
  import opened PrivateFolders

  // -------------------------------------------------------- names with blanks

  predicate Blanks(w: string) { w != "" && forall i :: 0 <= i < |w| ==> IsSpace(w[i]) }

  /** A canonical path followed by white space reads back from its marker, and normalises to the path without it. */
  lemma BlankEnded(a: string, w: string)
    requires Canonical(a) && Blanks(w)
    ensures FolderPathFromPlaceholder(a + w + "/" + MARKER) == a + w && NormalizePath(a + w) == a
    ensures NormalizePath(a + w + "/" + MARKER) == a + w + "/" + MARKER
  {
    CanonicalIsNormal(a);
    MarkerIsClean();
    MarkerChars();
    var f, n := a + w, a + w + "/" + MARKER;
    assert n[0] == a[0] && n[|n| - 1] == MARKER[|MARKER| - 1];
    NormalizeFixed(n);
    SuffixCut(f, MARKER);
    StripBlanks(a, w);
    assert f[0] == a[0];
    assert TrimLeft(f, IsSpace) == f;
    assert Trim(a, IsSlash) == a;
  }

  lemma {:induction false} StripBlanks(a: string, w: string)
    requires a != "" && !IsSpace(a[|a| - 1]) && forall i :: 0 <= i < |w| ==> IsSpace(w[i])
    ensures TrimRight(a + w, IsSpace) == a
    decreases |w|
  {
    if w == "" {
      assert a + w == a;
    } else {
      assert (a + w)[..|a + w| - 1] == a + w[..|w| - 1];
      StripBlanks(a, w[..|w| - 1]);
    }
  }

  /** Such a marker name is one that uploads and MKCOL store as it is. */
  lemma BlankEndedIsStorable(a: string, w: string)
    requires Canonical(a) && Blanks(w)
    ensures SafeObjectPath(a + w + "/" + MARKER) == Ok(a + w + "/" + MARKER) && Clean(a + w)
  {
    MarkerIsClean();
    BlankEndedIsClean(a, w);
    CleanConcat(a + w, MARKER);
    SafePathFixedPoints(a + w + "/" + MARKER);
  }

  lemma BlankEndedIsClean(a: string, w: string)
    requires Canonical(a) && Blanks(w)
    ensures Clean(a + w)
  {
    if '/' in a {
      CutLast(a);
      BlankLastSegment(Parent(a), a[LastSlash(a) + 1..], w);
    } else {
      BlankSegment(a, w);
    }
  }

  lemma BlankLastSegment(init: string, seg: string, w: string)
    requires Clean(init + "/" + seg) && '/' !in seg && Blanks(w)
    ensures Clean(init + "/" + seg + w)
  {
    CleanConcat(init, seg);
    BlankSegment(seg, w);
    CleanConcat(init, seg + w);
    assert init + "/" + seg + w == init + "/" + (seg + w);
  }

  lemma BlankSegment(seg: string, w: string)
    requires Clean(seg) && '/' !in seg && Blanks(w)
    ensures Clean(seg + w)
  {
    assert Split(seg) == [seg] && CleanSegment(Split(seg)[0]);
    var x := seg + w;
    assert x[|x| - 1] == w[|w| - 1] && x[0] == seg[0];
    assert '/' !in w && '\\' !in w;
    assert Split(x) == [x];
  }

  /** The same at the front: such a name is stored as it is and normalises to the path without the blanks. */
  lemma BlankFronted(w: string, y: string)
    requires Canonical(y) && Blanks(w)
    ensures NormalizePath(w + y) == y && SafeObjectPath(w + y) == Ok(w + y)
  {
    CanonicalIsNormal(y);
    StripFront(w, y);
    BlankFrontedIsClean(w, y);
    SafePathFixedPoints(w + y);
  }

  lemma {:induction false} StripFront(w: string, y: string)
    requires y != "" && !IsSpace(y[0]) && forall i :: 0 <= i < |w| ==> IsSpace(w[i])
    ensures TrimLeft(w + y, IsSpace) == y
    decreases |w|
  {
    if w == "" {
      assert w + y == y;
    } else {
      assert (w + y)[1..] == w[1..] + y;
      StripFront(w[1..], y);
    }
  }

  lemma BlankFrontedIsClean(w: string, y: string)
    requires Canonical(y) && Blanks(w)
    ensures Clean(w + y)
  {
    if '/' in y {
      var i := FirstSlash(y);
      CutAt(y, i);
      BlankFirstOf(w, y[..i], y[i + 1..]);
    } else {
      BlankFirstSegment(w, y);
    }
  }

  lemma BlankFirstOf(w: string, seg: string, rest: string)
    requires Clean(seg + "/" + rest) && '/' !in seg && Blanks(w)
    ensures Clean(w + (seg + "/" + rest))
  {
    CleanConcat(seg, rest);
    BlankFirstSegment(w, seg);
    CleanConcat(w + seg, rest);
    Regroup(w, seg, "/", rest);
  }

  lemma Regroup(a: string, b: string, c: string, d: string)
    ensures a + (b + c + d) == a + b + c + d
  {
  }

  lemma BlankFirstSegment(w: string, seg: string)
    requires Clean(seg) && '/' !in seg && Blanks(w)
    ensures Clean(w + seg)
  {
    assert Split(seg) == [seg] && CleanSegment(Split(seg)[0]);
    var x := w + seg;
    assert x[0] == w[0] && x[|x| - 1] == seg[|seg| - 1];
    assert '/' !in w && '\\' !in w;
    assert Split(x) == [x];
  }

  // --------------------------------------------------- what other members lose

  /**
   Whatever canonical path a pair reaches, it also reaches under every stored name that is the path
   after white space. Such a name is not in the new folder when that is canonical.
   */
  lemma NormalisedNamesAreReached(w: string, y: string, names: Names, target: Target, resourceType: ResourceType,
                                  pair: set<Grant>, creator: nat, principal: Principal, bucket: Bucket, now: int)
    requires Canonical(y) && Blanks(w) && target.id in names && (resourceType == File || resourceType == Folder)
    requires PrivatePair(pair, target, resourceType, creator) && InBucket(bucket, target)
    requires SameCompany(principal, bucket) && bucket.kind == CompanyBucket && principal.userId != Some(creator)
    requires Reaches(names[target.id], target.id, resourceType, Request(Some(y), None))
    ensures SafeObjectPath(w + y) == Ok(w + y)
    ensures Canonical(StoredFolder(names[target.id])) ==> !Inside(StoredFolder(names[target.id]), w + y)
    ensures !EvaluateAccess(pair, names, principal, bucket, Request(Some(w + y), None), Read, now)
  {
    BlankFronted(w, y);
    CanonicalIsNormal(y);
    var folder := StoredFolder(names[target.id]);
    if Canonical(folder) {
      CanonicalIsNormal(folder);
      assert (w + y)[0] == w[0] && IsSpace(w[0]);
      if Inside(folder, w + y) { FirstOfInside(folder, w + y); }
    }
    assert RequestPath(Request(Some(w + y), None)) == RequestPath(Request(Some(y), None));
    NobodyElse(pair, names, target, resourceType, creator, principal, bucket, Request(Some(w + y), None), now);
  }

  lemma FirstOfInside(folder: string, path: string)
    requires folder != "" && Inside(folder, path)
    ensures path != "" && path[0] == folder[0]
  {
    FolderAt(path, folder);
  }

  /** What lies in the blank-ended folder itself is not covered by a grant on it; its neighbour is. */
  lemma BlankEndedCovers(a: string, w: string, tail: string)
    requires Canonical(a) && Blanks(w) && Canonical(tail)
    ensures NormalizePath(a + "/" + tail) == a + "/" + tail && NormalizePath(a + w + "/" + tail) == a + w + "/" + tail
    ensures FolderMatches(a + w, a + "/" + tail) && !FolderMatches(a + w, a + w + "/" + tail)
  {
    BlankEnded(a, w);
    BlankEndedIsStorable(a, w);
    CanonicalIsNormal(a);
    assert (a + w)[0] == a[0] && (a + w)[|a|] == w[0];
    CanonicalJoin(a, tail);
    CanonicalJoin(a + w, tail);
    CanonicalIsNormal(a + "/" + tail);
    CanonicalIsNormal(a + w + "/" + tail);
    assert (a + "/" + tail)[..|a| + 1] == a + "/";
    FolderAt(a + w + "/" + tail, a);
    assert (a + w + "/" + tail)[|a|] == w[0];
  }

  /**
   A new folder "a " (any canonical path followed by white space) gets its private pair on a marker
   that covers the neighbour "a" instead: other members lose what lies under "a", and keep the
   bucket's default on what the creator puts into "a ".
   */
  lemma MisplacedPrivacy(a: string, w: string, tail: string, names: Names, target: Target, pair: set<Grant>,
                         creator: nat, principal: Principal, bucket: Bucket, now: int)
    requires Canonical(a) && Blanks(w) && Canonical(tail)
    requires target.id in names && names[target.id] == a + w + "/" + MARKER
    requires PrivatePair(pair, target, Folder, creator) && InBucket(bucket, target) && bucket.kind == CompanyBucket
    requires SameCompany(principal, bucket) && principal.userId != Some(creator)
    ensures !EvaluateAccess(pair, names, principal, bucket, Request(Some(a + "/" + tail), None), Read, now)
    ensures EvaluateAccess(pair, names, principal, bucket, Request(Some(a + w + "/" + tail), None), Read, now)
  {
    BlankEnded(a, w);
    BlankEndedCovers(a, w, tail);
    NobodyElse(pair, names, target, Folder, creator, principal, bucket, Request(Some(a + "/" + tail), None), now);
    NobodyElse(pair, names, target, Folder, creator, principal, bucket, Request(Some(a + w + "/" + tail), None), now);
  }

  // ------------------------------------------------------- a file of that kind

  /**
   A new file "x " (any canonical path followed by white space, in a bucket without grants) takes the
   stored file "x": before, every member could read it and plain members could not administer it;
   after, whatever less specific grants are added, its creator alone has access. The write check on
   the path of the new file passes beforehand.
   */
  lemma FileTakesNeighbour(x: string, w: string, names: Names, near: nat, target: Target, pair: set<Grant>,
                           nearest: Option<string>, creator: nat, grants: set<Grant>, principal: Principal,
                           bucket: Bucket, required: Permission, stored: int, now: int)
    requires Canonical(x) && Blanks(w) && near in names && names[near] == x
    requires target.id in names && names[target.id] == x + w && InBucket(bucket, target)
    requires Ensured({}, names, Some(creator), target, File, stored, pair, nearest)
    requires SameCompany(principal, bucket) && bucket.kind == CompanyBucket && pair <= grants
    ensures SafeObjectPath(x + w) == Ok(x + w) && near != target.id && nearest.None?
    ensures EvaluateAccess({}, names, principal, bucket, Request(Some(x + w), None), Write, now)
    ensures EvaluateAccess({}, names, principal, bucket, Request(Some(x), Some(near)), Read, now)
    ensures EvaluateAccess({}, names, principal, bucket, Request(Some(x), Some(near)), Admin, now)
      <==> principal.isCompanyOwner || principal.isStaff
    ensures Outscores(pair, grants, names, principal, bucket, Request(Some(x), Some(near)), now) ==>
      (EvaluateAccess(grants, names, principal, bucket, Request(Some(x), Some(near)), required, now)
       <==> principal.userId == Some(creator))
  {
    BlankEnded(x, w);
    BlankEndedIsClean(x, w);
    SafePathFixedPoints(x + w);
    CanonicalIsNormal(x);
    assert |x + w| > |x|;
    OpenWithoutGrants(names, principal, bucket, Request(Some(x + w), None), now);
    OpenWithoutGrants(names, principal, bucket, Request(Some(x), Some(near)), now);
    assert DefaultPath(names, target, File) == x;
    NothingIsFound(names, target, File, creator, stored, pair, nearest);
    FileIsReached(pair, names, target, creator, bucket, Request(Some(x), Some(near)));
    if Outscores(pair, grants, names, principal, bucket, Request(Some(x), Some(near)), now) {
      PairDecides(grants, pair, names, target, File, creator, principal, bucket, Request(Some(x), Some(near)),
        required, now);
    }
  }

  /** Where there are no grants at all a named object gets its pair. */
  lemma NothingIsFound(names: Names, target: Target, resourceType: ResourceType, creator: nat, now: int,
                       created: set<Grant>, nearest: Option<string>)
    requires target.id in names && DefaultPath(names, target, resourceType) != "" && resourceType != WholeBucket
    requires Ensured({}, names, Some(creator), target, resourceType, now, created, nearest)
    ensures nearest.None? && PrivatePair(created, target, resourceType, creator)
  {
  }

  lemma FileIsReached(pair: set<Grant>, names: Names, target: Target, creator: nat, bucket: Bucket, rq: Request)
    requires PrivatePair(pair, target, File, creator) && target.id in names && InBucket(bucket, target)
    requires Reaches(names[target.id], target.id, File, rq)
    ensures forall g :: g in pair ==> ResourceMatches(names, g, bucket, rq)
  {
  }

  // ------------------------------------------------- a neighbour that is private

  /** The grants on "a" are not among those that a new folder "a " would inherit, so it gets a pair of its own. */
  lemma NeighbourIsNotInherited(a: string, w: string, names: Names, near: Target, target: Target, guard: set<Grant>,
                                created: set<Grant>, nearest: Option<string>, other: nat, creator: nat, now: int)
    requires Canonical(a) && Blanks(w) && near.id in names && names[near.id] == a + "/" + MARKER
    requires target.id in names && names[target.id] == a + w + "/" + MARKER && PrivatePair(guard, near, Folder, other)
    requires Ensured(guard, names, Some(creator), target, Folder, now, created, nearest)
    ensures nearest.None? && PrivatePair(created, target, Folder, creator)
  {
    NeighbourFolder(a, near, names);
    BlankEnded(a, w);
    CanonicalIsNormal(a);
    assert |names[near.id]| != |names[target.id]|;
    assert AncestorPrefixes(a + w) == AncestorPrefixes(a);
    AncestorsArePrefixes(a, a);
  }

  /**
   With "a" private to another user, what a member may do before and after the marker of "a " is
   stored with the grants that come with it: nothing under "a" before, everything after. The write
   check on the path of the marker passes beforehand, the one on the path of the folder does not.
   */
  lemma CreatorGainsNeighbour(a: string, w: string, tail: string, names: Names, near: Target, target: Target,
                              guard: set<Grant>, pair: set<Grant>, nearest: Option<string>, other: nat, creator: nat,
                              principal: Principal, bucket: Bucket, stored: int, now: int)
    requires Canonical(a) && Blanks(w) && Canonical(tail) && InBucket(bucket, near) && InBucket(bucket, target)
    requires near.id in names && names[near.id] == a + "/" + MARKER
    requires target.id in names && names[target.id] == a + w + "/" + MARKER
    requires PrivatePair(guard, near, Folder, other) && other != creator
    requires Ensured(guard, names, Some(creator), target, Folder, stored, pair, nearest)
    requires SameCompany(principal, bucket) && principal.userId == Some(creator) && bucket.kind == CompanyBucket
    ensures !EvaluateAccess(guard, names, principal, bucket, Request(Some(a + "/" + tail), None), Read, now)
    ensures EvaluateAccess(guard + pair, names, principal, bucket, Request(Some(a + "/" + tail), None), Admin, now)
    ensures EvaluateAccess(guard, names, principal, bucket, Request(Some(a + w + "/" + MARKER), None), Write, now)
    ensures !EvaluateAccess(guard, names, principal, bucket, Request(Some(a + w), None), Write, now)
  {
    NeighbourIsNotInherited(a, w, names, near, target, guard, pair, nearest, other, creator, stored);
    NeighbourFolder(a, near, names);
    BlankEnded(a, w);
    BlankEndedCovers(a, w, tail);
    ContentsAreCovered(a, tail);
    MarkerIsElsewhere(a, w);
    CanonicalIsNormal(a);
    NobodyElse(guard, names, near, Folder, other, principal, bucket, Request(Some(a + "/" + tail), None), now);
    GuardLets(guard, names, near, other, principal, bucket, Request(Some(a + w + "/" + MARKER), None), now);
    NobodyElse(guard, names, near, Folder, other, principal, bucket, Request(Some(a + w), None), now);
    PermissionsAreNested(guard, names, principal, bucket, Request(Some(a + w), None), now);
    CreatorWins(guard, pair, names, near, target, other, creator, principal, bucket,
      Request(Some(a + "/" + tail), None), now);
  }

  lemma NeighbourFolder(a: string, near: Target, names: Names)
    requires Canonical(a) && near.id in names && names[near.id] == a + "/" + MARKER
    ensures FolderPathFromPlaceholder(names[near.id]) == a
  {
    MarkerNormal(a);
    CanonicalIsNormal(a);
    MarkerRoundTrip(a);
  }

  lemma ContentsAreCovered(a: string, tail: string)
    requires Canonical(a) && Canonical(tail)
    ensures FolderMatches(a, a + "/" + tail)
  {
    CanonicalIsNormal(a);
    CanonicalJoin(a, tail);
    CanonicalIsNormal(a + "/" + tail);
    assert (a + "/" + tail)[..|a| + 1] == a + "/";
  }

  lemma MarkerIsElsewhere(a: string, w: string)
    requires Canonical(a) && Blanks(w)
    ensures !FolderMatches(a, a + w + "/" + MARKER)
  {
    BlankEnded(a, w);
    CanonicalIsNormal(a);
    var n := a + w + "/" + MARKER;
    FolderAt(n, a);
    assert n[|a|] == w[0];
  }

  /** Where the guard does not match, members write as before. */
  lemma GuardLets(guard: set<Grant>, names: Names, near: Target, other: nat, principal: Principal, bucket: Bucket,
                  rq: Request, now: int)
    requires PrivatePair(guard, near, Folder, other) && near.id in names
    requires SameCompany(principal, bucket) && bucket.kind == CompanyBucket
    requires !FolderMatches(FolderPathFromPlaceholder(names[near.id]), RequestPath(rq))
    ensures EvaluateAccess(guard, names, principal, bucket, rq, Write, now)
  {
    assert Relevant(guard, names, principal, bucket, rq, now) == {};
  }

  /** Of two pairs that match with one score the allowance of the creator is the only user grant. */
  lemma CreatorWins(guard: set<Grant>, pair: set<Grant>, names: Names, near: Target, target: Target, other: nat,
                    creator: nat, principal: Principal, bucket: Bucket, rq: Request, now: int)
    requires PrivatePair(guard, near, Folder, other) && PrivatePair(pair, target, Folder, creator) && other != creator
    requires near.id in names && target.id in names && InBucket(bucket, near) && InBucket(bucket, target)
    requires SameCompany(principal, bucket) && principal.userId == Some(creator)
    requires var f, n := FolderPathFromPlaceholder(names[target.id]), FolderPathFromPlaceholder(names[near.id]);
             f != "" && n != "" && Depth(f) == Depth(n) && FolderMatches(f, RequestPath(rq))
    ensures EvaluateAccess(guard + pair, names, principal, bucket, rq, Admin, now)
  {
    var i, j :| pair == {DenyCompany(i, target, Folder), AllowUser(j, target, Folder, creator)};
    var k, l :| guard == {DenyCompany(k, near, Folder), AllowUser(l, near, Folder, other)};
    var allow, theirs := AllowUser(j, target, Folder, creator), AllowUser(l, near, Folder, other);
    var d, e := DenyCompany(i, target, Folder), DenyCompany(k, near, Folder);
    DecimalInjective(creator, other);
    OthersAreNotAsked(theirs, principal, creator, other);
    AllowanceApplies(j, names, target, creator, principal, bucket, rq, now);
    SameFolderScore(names, d, allow);
    SameFolderScore(names, e, allow);
    OwnAllowanceDecides(guard + pair, allow, theirs, d, e, names, principal, bucket, rq, now);
  }

  /** Of equally specific grants the only one that is not for the company prevails. */
  lemma OwnAllowanceDecides(grants: set<Grant>, own: Grant, theirs: Grant, d: Grant, e: Grant, names: Names,
                            principal: Principal, bucket: Bucket, rq: Request, now: int)
    requires grants == {e, theirs} + {d, own} && !SubjectMatches(theirs, principal) && SameCompany(principal, bucket)
    requires own.companyId == bucket.companyId && Active(own, now) && SubjectMatches(own, principal)
      && ResourceMatches(names, own, bucket, rq)
    requires own.subjectType == User && own.effect == Allow && own.permission == Admin
    requires d.subjectType == e.subjectType == Company
    requires Score(names, d).0 == Score(names, e).0 == Score(names, own).0
    ensures EvaluateAccess(grants, names, principal, bucket, rq, Admin, now)
  {
    var relevant := Relevant(grants, names, principal, bucket, rq, now);
    assert own in relevant && relevant <= {own, d, e};
    assert Top(names, relevant) == {own};
    assert own in Top(names, relevant);
  }

  lemma OthersAreNotAsked(g: Grant, principal: Principal, creator: nat, other: nat)
    requires g.subjectType == User && g.subjectId == Decimal(other) != Decimal(creator)
    requires principal.userId == Some(creator)
    ensures !SubjectMatches(g, principal)
  {
  }

  lemma AllowanceApplies(j: nat, names: Names, target: Target, creator: nat, principal: Principal, bucket: Bucket,
                         rq: Request, now: int)
    requires target.id in names && InBucket(bucket, target) && SameCompany(principal, bucket)
    requires principal.userId == Some(creator)
    requires FolderMatches(FolderPathFromPlaceholder(names[target.id]), RequestPath(rq))
    ensures var g := AllowUser(j, target, Folder, creator);
            g.companyId == bucket.companyId && Active(g, now) && SubjectMatches(g, principal)
            && ResourceMatches(names, g, bucket, rq)
  {
  }

  /** The number of segments that the score counts. */
  function Depth(folder: string): nat { |Split(NormalizePath(folder))| }

  lemma SameFolderScore(names: Names, g: Grant, h: Grant)
    requires g.resourceType == Folder && h.resourceType == Folder
    requires TargetFolder(names, g) != "" && TargetFolder(names, h) != ""
    ensures Score(names, g).0 <= Score(names, h).0 <==> Depth(TargetFolder(names, g)) <= Depth(TargetFolder(names, h))
  {
  }

  // ------------------------------------------- a folder that normalises to nothing

  /**
   A new folder whose path normalises to nothing reaches the whole bucket, with the score of one
   segment. With any canonical folder "a" private to another user, its creator may administer what is
   in "a" if and only if "a" is at the top; nothing of it could be read before.
   */
  lemma CreatorGainsTopLevel(a: string, tail: string, names: Names, near: Target, target: Target, guard: set<Grant>,
                             pair: set<Grant>, nearest: Option<string>, other: nat, creator: nat,
                             principal: Principal, bucket: Bucket, stored: int, now: int)
    requires Canonical(a) && Canonical(tail) && InBucket(bucket, near) && InBucket(bucket, target)
    requires near.id in names && names[near.id] == a + "/" + MARKER && target.id in names
    requires var f := FolderPathFromPlaceholder(names[target.id]); f != "" && NormalizePath(f) == ""
    requires PrivatePair(guard, near, Folder, other) && other != creator
    requires Ensured(guard, names, Some(creator), target, Folder, stored, pair, nearest)
    requires SameCompany(principal, bucket) && principal.userId == Some(creator) && bucket.kind == CompanyBucket
    ensures !EvaluateAccess(guard, names, principal, bucket, Request(Some(a + "/" + tail), None), Read, now)
    ensures EvaluateAccess(guard + pair, names, principal, bucket, Request(Some(a + "/" + tail), None), Admin, now)
      <==> '/' !in a
  {
    var rq := Request(Some(a + "/" + tail), None);
    NeighbourFolder(a, near, names);
    CanonicalIsNormal(a);
    ContentsAreCovered(a, tail);
    CanonicalJoin(a, tail);
    CanonicalIsNormal(a + "/" + tail);
    NobodyElse(guard, names, near, Folder, other, principal, bucket, rq, now);
    NowhereIsNotInherited(names, near, target, guard, pair, nearest, other, creator, stored);
    TopLevelDepth(a);
    if '/' !in a {
      CreatorWins(guard, pair, names, near, target, other, creator, principal, bucket, rq, now);
    } else {
      GuardWins(guard, pair, names, near, target, other, creator, principal, bucket, rq, now);
    }
  }

  lemma TopLevelDepth(a: string)
    requires NormalizePath(a) == a
    ensures '/' !in a ==> Depth(a) == 1
    ensures '/' in a ==> Depth(a) > 1
    ensures Depth("") == 1
  {
    NormalizeFixed("");
  }

  lemma NowhereIsNotInherited(names: Names, near: Target, target: Target, guard: set<Grant>, created: set<Grant>,
                              nearest: Option<string>, other: nat, creator: nat, now: int)
    requires near.id in names && target.id in names && PrivatePair(guard, near, Folder, other)
    requires var f := FolderPathFromPlaceholder(names[target.id]); f != "" && NormalizePath(f) == ""
    requires NormalizePath(FolderPathFromPlaceholder(names[near.id])) != ""
    requires Ensured(guard, names, Some(creator), target, Folder, now, created, nearest)
    ensures nearest.None? && PrivatePair(created, target, Folder, creator)
  {
    assert near.id != target.id;
    assert AncestorPrefixes(FolderPathFromPlaceholder(names[target.id])) == [];
  }

  /** A guard with the higher score decides. */
  lemma GuardWins(guard: set<Grant>, pair: set<Grant>, names: Names, near: Target, target: Target, other: nat,
                  creator: nat, principal: Principal, bucket: Bucket, rq: Request, now: int)
    requires PrivatePair(guard, near, Folder, other) && PrivatePair(pair, target, Folder, creator) && other != creator
    requires near.id in names && target.id in names && InBucket(bucket, near) && InBucket(bucket, target)
    requires SameCompany(principal, bucket) && principal.userId == Some(creator)
    requires var f, n := FolderPathFromPlaceholder(names[target.id]), FolderPathFromPlaceholder(names[near.id]);
             f != "" && n != "" && Depth(f) < Depth(n) && FolderMatches(n, RequestPath(rq))
    ensures !EvaluateAccess(guard + pair, names, principal, bucket, rq, Admin, now)
  {
    PairIsOfTarget(pair, target, Folder, creator);
    PairIsOfTarget(guard, near, Folder, other);
    ReachedIsMatched(guard, names, near, bucket, rq, other);
    forall g, own | g in Relevant(guard + pair, names, principal, bucket, rq, now) - guard && own in guard
      ensures Score(names, g).0 < Score(names, own).0
    {
      SameFolderScore(names, own, g);
    }
    PairDecides(guard + pair, guard, names, near, Folder, other, principal, bucket, rq, Admin, now);
  }

  /** Of a folder " /s" only "s" is read, and it is set up unless trimming "s" once more leaves nothing. */
  lemma BlankFirstSegmentIsDropped(s: string)
    requires s != "" && s[0] != '/'
    ensures var name := " /" + s + "/" + MARKER;
            FolderPathFromPlaceholder(name) == s && CreatedKind(name, false) == Folder
            && (NothingToSetUp(name, false) <==> Lead(s) == "")
  {
    MarkerIsClean();
    LeadOfBlank(s);
    FolderOfMarker(" /" + s);
    NormalBelow(" /" + s, MARKER);
    FolderOfMarker(s);
    SuffixCut(s, MARKER);
  }

  lemma BlankMarkerIsStorable(folder: string)
    requires Clean(folder)
    ensures SafeObjectPath(folder + "/" + MARKER) == Ok(folder + "/" + MARKER)
  {
    MarkerIsClean();
    CleanConcat(folder, MARKER);
    SafePathFixedPoints(folder + "/" + MARKER);
  }

  /** Three blank segments make a folder that reads as nothing: the marker is stored as it is, and gets a pair. */
  lemma BlankSegmentsReadAsNothing()
    ensures var folder := " / / ";
            var name := folder + "/" + MARKER;
            var f := FolderPathFromPlaceholder(name);
            SafeObjectPath(name) == Ok(name) && f != "" && NormalizePath(f) == "" && CreatedKind(name, false) == Folder
            && !NothingToSetUp(name, false)
  {
    BlanksAreClean();
    BlankMarkerIsStorable(" / / ");
    assert " /" + " / " == " / / ";
    BlankFirstSegmentIsDropped(" / ");
    BlankIsNothing();
    assert " /" + " " == " / ";
    LeadOfBlank(" ");
  }

  /** Two do not: the folder is read again from the normalised name, and nothing is set up. */
  lemma TwoBlankSegmentsAreSkipped()
    ensures var folder := " / ";
            var name := folder + "/" + MARKER;
            SafeObjectPath(name) == Ok(name) && FolderPathFromPlaceholder(name) == " " && NothingToSetUp(name, false)
  {
    BlanksAreClean();
    BlankMarkerIsStorable(" / ");
    assert " /" + " " == " / ";
    BlankFirstSegmentIsDropped(" ");
    OneBlank();
  }

  lemma OneBlank()
    ensures Lead(" ") == ""
  {
    assert " "[1..] == "";
    assert TrimLeft(" ", IsSpace) == "";
  }

  lemma LeadOfBlank(s: string)
    requires s != "" && s[0] != '/'
    ensures Lead(" /" + s) == s
  {
    var t := "/" + s;
    assert (" /" + s)[1..] == t && t[1..] == s;
    assert TrimLeft(" /" + s, IsSpace) == t;
    assert TrimLeft(t, IsSlash) == s;
  }

  lemma BlankIsNothing()
    ensures NormalizePath(" / ") == ""
  {
    assert " / "[1..] == "/ " && "/ "[..1] == "/" && "/"[1..] == "";
    assert TrimLeft(" / ", IsSpace) == "/ ";
    assert TrimRight("/ ", IsSpace) == "/";
    assert TrimLeft("/", IsSlash) == "";
  }

  lemma BlanksAreClean()
    ensures Clean(" ") && Clean(" / ") && Clean(" / / ")
  {
    assert Split(" ") == [" "] && CleanSegment(" ");
    CleanConcat(" ", " ");
    assert " " + "/" + " " == " / ";
    CleanConcat(" / ", " ");
    assert " / " + "/" + " " == " / / ";
  }
}
