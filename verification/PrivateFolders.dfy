/**
 Whom the private pair of a new folder or file reaches (apps/storage/access.py:198-244 and 706-818).
 The pair stands on the stored object and is matched by normalised paths, so it spares everything
 else if and only if normalising leads from the new object back to it, or to no canonical path.
 */
module PrivateFolders {
  import opened Prelude
  import opened Paths
  import opened Access
  import opened AccessWalk
  import opened GrantTable
  import opened WalkLimits

  // ---------------------------------------------------------- leading trimming

  /** What normalising takes from the front. */
  function Lead(s: string): string { TrimLeft(TrimLeft(s, IsSpace), IsSlash) }

  lemma {:induction false} TrimLeftConcat(a: string, b: string, drop: char -> bool)
    requires b != "" && !drop(b[0])
    ensures TrimLeft(a + b, drop) == TrimLeft(a, drop) + b
    decreases |a|
  {
    if a == "" {
      assert a + b == b;
    } else if drop(a[0]) {
      assert (a + b)[1..] == a[1..] + b;
      TrimLeftConcat(a[1..], b, drop);
    }
  }

  lemma {:induction false} TrimLeftSlash(s: string)
    ensures TrimLeft(s + "/", IsSlash) == var t := TrimLeft(s, IsSlash); if t == "" then "" else t + "/"
    decreases |s|
  {
    if s == "" {
      assert s + "/" == "/" && "/"[1..] == "";
    } else if s[0] == '/' {
      assert (s + "/")[1..] == s[1..] + "/";
      TrimLeftSlash(s[1..]);
    }
  }

  /** Below a folder only the front of the folder is trimmed. */
  lemma NormalBelow(s: string, tail: string)
    requires Canonical(tail)
    ensures NormalizePath(s + "/" + tail) == if Lead(s) == "" then tail else Lead(s) + "/" + tail
  {
    CanonicalIsNormal(tail);
    var l := TrimLeft(s, IsSpace);
    var x := l + "/" + tail;
    TrimBlanksBelow(s, tail);
    TrimSlashesBelow(l, tail);
    var y := TrimLeft(x, IsSlash);
    assert x[|x| - 1] == y[|y| - 1] == tail[|tail| - 1];
  }

  lemma TrimBlanksBelow(s: string, tail: string)
    ensures TrimLeft(s + "/" + tail, IsSpace) == TrimLeft(s, IsSpace) + "/" + tail
  {
    var b := "/" + tail;
    TrimLeftConcat(s, b, IsSpace);
    assert s + "/" + tail == s + b;
    assert TrimLeft(s, IsSpace) + "/" + tail == TrimLeft(s, IsSpace) + b;
  }

  lemma TrimSlashesBelow(l: string, tail: string)
    requires tail != "" && tail[0] != '/'
    ensures var t := TrimLeft(l, IsSlash);
            TrimLeft(l + "/" + tail, IsSlash) == if t == "" then tail else t + "/" + tail
  {
    TrimLeftConcat(l + "/", tail, IsSlash);
    TrimLeftSlash(l);
    assert "" + tail == tail;
  }

  /** The folder read from a marker is the stored one without what normalising takes from its front. */
  lemma FolderOfMarker(folder: string)
    ensures StoredFolder(folder + "/" + MARKER) == folder
    ensures FolderPathFromPlaceholder(folder + "/" + MARKER) == Lead(folder)
  {
    MarkerIsClean();
    NormalBelow(folder, MARKER);
    SuffixCut(folder, MARKER);
    SuffixCut(Lead(folder), MARKER);
  }

  lemma {:induction false} TrimLeftOfFront(x: string, k: nat, drop: char -> bool)
    requires k <= |x|
    ensures var y, z := TrimLeft(x[..k], drop), TrimLeft(x, drop); |y| <= |z| && y == z[..|y|]
    decreases |x|
  {
    if k > 0 && drop(x[0]) {
      assert x[..k][1..] == x[1..][..k - 1];
      TrimLeftOfFront(x[1..], k - 1, drop);
    }
  }

  /** Normalising leaves a front of what is left by trimming the front. */
  lemma NormalIsFront(f: string)
    ensures var h, l := NormalizePath(f), Lead(f); |h| <= |l| && h == l[..|h|]
  {
    var x := TrimLeft(f, IsSpace);
    TrimRightEdge(x, IsSpace);
    var y := TrimRight(x, IsSpace);
    TrimLeftOfFront(x, |y|, IsSlash);
    var z := TrimLeft(y, IsSlash);
    TrimRightEdge(z, IsSlash);
    var h, l := NormalizePath(f), Lead(f);
    assert l[..|z|][..|h|] == l[..|h|];
  }

  // ------------------------------------------------------ what a folder covers

  /** A folder covers nothing but itself and what is below it if and only if normalising leaves it alone. */
  lemma CoversOnlyItself(f: string)
    requires f != ""
    ensures (forall p :: FolderMatches(f, p) ==> Inside(f, NormalizePath(p))) <==> NormalizePath(f) == f
  {
    if NormalizePath(f) != f {
      StrayStart(f);
      StrayIsOffTheChain(f);
      StrayIsNoPrefix(f);
      assert FolderMatches(f, " /" + Stray(f)) && !Inside(f, NormalizePath(" /" + Stray(f)));
    }
  }

  /**
   A folder covers what is below it, its path trimmed once more, if and only if it normalises to
   nothing, or to that path or an ancestor of it.
   */
  lemma CoversItsContents(f: string, tail: string)
    requires Canonical(tail)
    ensures FolderMatches(f, f + "/" + tail) <==> KeepsContents(f)
  {
    NormalIsFront(f);
    NormalBelow(f, tail);
    var h, l := NormalizePath(f), Lead(f);
    if h != "" { FrontCovers(h, l, tail); }
  }

  predicate KeepsContents(f: string) {
    var h := NormalizePath(f);
    h == "" || Inside(h, Lead(f))
  }

  lemma FrontCovers(h: string, l: string, tail: string)
    requires h != "" && |h| <= |l| && h == l[..|h|]
    ensures Inside(h, l + "/" + tail) <==> Inside(h, l)
  {
    var p := l + "/" + tail;
    assert p[..|h|] == h;
    FolderAt(p, h);
    FolderAt(l, h);
    if |h| == |l| {
      assert h == l && p[..|l| + 1] == l + "/";
    } else {
      assert p[..|h| + 1] == l[..|h| + 1];
    }
  }

  /** The path that a request for something in a stored folder is decided by. */
  lemma RequestBelow(folder: string, tail: string, objectId: Option<nat>)
    requires Canonical(tail) && Lead(folder) != ""
    ensures RequestPath(Request(Some(folder + "/" + tail), objectId)) == Lead(folder) + "/" + tail
  {
    NormalBelow(folder, tail);
  }

  // ----------------------------------------------------- whom the pair spares

  /** Whatever grants there are, the private pair changes no decision elsewhere. */
  ghost predicate SparesOthers(names: Names, target: Target, resourceType: ResourceType, creator: nat)
    requires target.id in names
  {
    forall grants, pair | PrivatePair(pair, target, resourceType, creator) ::
      Spares(grants, pair, names, target, resourceType)
  }

  /** The path a default is computed for is empty: no pair is made. */
  predicate Nameless(name: string, resourceType: ResourceType) {
    if resourceType == Folder then FolderPathFromPlaceholder(name) == "" else NormalizePath(name) == ""
  }

  /**
   The private pair of a new folder or file spares every canonical path outside the stored folder, or
   other than the stored file, for all other grants, principals and permissions, if and only if
   normalising leads back to the stored name or to no canonical path.
   */
  lemma PairSparesExactly(names: Names, target: Target, resourceType: ResourceType, creator: nat)
    requires target.id in names && (resourceType == File || resourceType == Folder)
    requires !Nameless(names[target.id], resourceType)
    ensures SparesOthers(names, target, resourceType, creator) <==> KeepsApart(names[target.id], resourceType)
  {
    if KeepsApart(names[target.id], resourceType) {
      forall grants, pair | PrivatePair(pair, target, resourceType, creator)
        ensures Spares(grants, pair, names, target, resourceType)
      {
        PairSpares(grants, pair, names, target, resourceType, creator);
      }
    } else {
      var pair := PairOn(target, resourceType, creator);
      PairOnIsPrivate(target, resourceType, creator);
      VictimIsShutOut(names, target, resourceType, creator);
      assert !Spares({}, pair, names, target, resourceType);
    }
  }

  /** A canonical path that is not the new object and is covered by its pair. */
  function Victim(name: string, resourceType: ResourceType): string {
    if resourceType != Folder then NormalizePath(name) else
      var h, folder := NormalizePath(FolderPathFromPlaceholder(name)), StoredFolder(name);
      if h == "" then Letter(folder, "") else h + "/" + Letter(folder, h + "/")
  }

  function Letter(folder: string, above: string): string { if folder == above + "x" then "y" else "x" }

  lemma VictimIsElsewhere(name: string, id: nat, resourceType: ResourceType)
    requires resourceType == File || resourceType == Folder
    requires !Nameless(name, resourceType) && !KeepsApart(name, resourceType)
    ensures var rq := Request(Some(Victim(name, resourceType)), None);
            Elsewhere(name, id, resourceType, rq) && Reaches(name, id, resourceType, rq)
  {
    if resourceType == Folder {
      FolderVictim(name);
    } else {
      CanonicalIsNormal(NormalizePath(name));
    }
  }

  lemma FolderVictim(name: string)
    requires !Nameless(name, Folder) && !KeepsApart(name, Folder)
    ensures var p := Victim(name, Folder);
            Canonical(p) && RequestPath(Request(Some(p), None)) == p && !Inside(StoredFolder(name), p)
            && FolderMatches(FolderPathFromPlaceholder(name), p)
  {
    var h, folder := NormalizePath(FolderPathFromPlaceholder(name)), StoredFolder(name);
    var p := Victim(name, Folder);
    LetterIsCanonical('x');
    LetterIsCanonical('y');
    if h == "" {
      FolderAt(p, folder);
    } else {
      NormalIsShorter(name);
      assert h + "/" + "x" == h + "/x";
      CanonicalJoin(h, "x");
      CanonicalJoin(h, Letter(folder, h + "/"));
      NotInFolder(folder, h, Letter(folder, h + "/"));
      assert p[..|h| + 1] == h + "/";
    }
    CanonicalIsNormal(p);
  }

  lemma NotInFolder(folder: string, h: string, letter: string)
    requires |h| <= |folder| && h != folder && |letter| == 1 && letter[0] != '/' && folder != h + "/" + letter
    ensures !Inside(folder, h + "/" + letter)
  {
    var p := h + "/" + letter;
    FolderAt(p, folder);
    assert p[..|h|] == h;
  }

  lemma NormalIsShorter(name: string)
    requires FolderPathFromPlaceholder(name) != ""
    ensures |NormalizePath(FolderPathFromPlaceholder(name))| <= |StoredFolder(name)|
  {
    var f := FolderPathFromPlaceholder(name);
    NormalizeShortens(f);
    if EndsWith(name, "/" + MARKER) {
      var folder := StoredFolder(name);
      assert name == folder + "/" + MARKER;
      FolderOfMarker(folder);
      TrimLeftShortens(folder, IsSpace);
      TrimLeftShortens(TrimLeft(folder, IsSpace), IsSlash);
    } else {
      NormalizeShortens(name);
    }
  }

  function PairOn(target: Target, resourceType: ResourceType, creator: nat): set<Grant> {
    {DenyCompany(0, target, resourceType), AllowUser(1, target, resourceType, creator)}
  }

  lemma PairOnIsPrivate(target: Target, resourceType: ResourceType, creator: nat)
    ensures PrivatePair(PairOn(target, resourceType, creator), target, resourceType, creator)
  {
  }

  /** A company member other than the creator. */
  function Other(target: Target, creator: nat): Principal {
    Principal(Some(creator + 1), Some(target.companyId), false, false)
  }

  function Home(target: Target): Bucket { Bucket(target.bucketId, target.companyId, CompanyBucket) }

  lemma VictimIsShutOut(names: Names, target: Target, resourceType: ResourceType, creator: nat)
    requires target.id in names && (resourceType == File || resourceType == Folder)
    requires !Nameless(names[target.id], resourceType) && !KeepsApart(names[target.id], resourceType)
    ensures var rq, pair := Request(Some(Victim(names[target.id], resourceType)), None),
              PairOn(target, resourceType, creator);
            Elsewhere(names[target.id], target.id, resourceType, rq)
            && EvaluateAccess({}, names, Other(target, creator), Home(target), rq, Read, 0)
            && !EvaluateAccess({} + pair, names, Other(target, creator), Home(target), rq, Read, 0)
  {
    var rq, pair := Request(Some(Victim(names[target.id], resourceType)), None), PairOn(target, resourceType, creator);
    VictimIsElsewhere(names[target.id], target.id, resourceType);
    assert {} + pair == pair;
    PairOnIsPrivate(target, resourceType, creator);
    NobodyElse(pair, names, target, resourceType, creator, Other(target, creator), Home(target), rq, 0);
    OpenWithoutGrants(names, Other(target, creator), Home(target), rq, 0);
  }

  lemma OpenWithoutGrants(names: Names, principal: Principal, bucket: Bucket, rq: Request, now: int)
    requires SameCompany(principal, bucket) && bucket.kind == CompanyBucket
    ensures EvaluateAccess({}, names, principal, bucket, rq, Read, now)
    ensures EvaluateAccess({}, names, principal, bucket, rq, Write, now)
    ensures EvaluateAccess({}, names, principal, bucket, rq, Admin, now)
      <==> principal.isCompanyOwner || principal.isStaff
  {
    assert Relevant({}, names, principal, bucket, rq, now) == {};
  }

  /** Where the pair matches, members other than its creator are refused; where not, they keep the default. */
  lemma NobodyElse(pair: set<Grant>, names: Names, target: Target, resourceType: ResourceType, creator: nat,
                   principal: Principal, bucket: Bucket, rq: Request, now: int)
    requires PrivatePair(pair, target, resourceType, creator) && target.id in names && InBucket(bucket, target)
    requires resourceType == File || resourceType == Folder
    requires SameCompany(principal, bucket) && bucket.kind == CompanyBucket && principal.userId != Some(creator)
    ensures EvaluateAccess(pair, names, principal, bucket, rq, Read, now)
      <==> !Reaches(names[target.id], target.id, resourceType, rq)
  {
    DecimalInjective(principal.userId.value, creator);
    var i, j :| pair == {DenyCompany(i, target, resourceType), AllowUser(j, target, resourceType, creator)};
    var deny, allow := DenyCompany(i, target, resourceType), AllowUser(j, target, resourceType, creator);
    DenialApplies(i, names, target, resourceType, principal, bucket, rq, now);
    assert !SubjectMatches(allow, principal);
    if Reaches(names[target.id], target.id, resourceType, rq) {
      assert Relevant(pair, names, principal, bucket, rq, now) == {deny};
      OnlyDenyDecides(names, deny, Read, true);
    } else {
      assert Relevant(pair, names, principal, bucket, rq, now) == {};
    }
  }

  lemma DenialApplies(i: nat, names: Names, target: Target, resourceType: ResourceType, principal: Principal,
                      bucket: Bucket, rq: Request, now: int)
    requires target.id in names && InBucket(bucket, target) && SameCompany(principal, bucket)
    requires resourceType == File || resourceType == Folder
    ensures var g := DenyCompany(i, target, resourceType);
            g in Relevant({g}, names, principal, bucket, rq, now)
            <==> Reaches(names[target.id], target.id, resourceType, rq)
  {
  }

  // ---------------------------------------------------------- decisions inside

  /**
   What is stored in a new folder belongs to its creator alone, whatever less specific grants there
   are, if and only if the folder read from the marker keeps its contents; if not, the pair has no
   part in the decision at all.
   */
  lemma ContentsArePrivateExactly(folder: string, tail: string, names: Names, target: Target, grants: set<Grant>,
                                  pair: set<Grant>, creator: nat, principal: Principal, bucket: Bucket,
                                  required: Permission, now: int)
    requires Canonical(tail) && target.id in names && names[target.id] == folder + "/" + MARKER
    requires FolderPathFromPlaceholder(names[target.id]) != ""
    requires PrivatePair(pair, target, Folder, creator) && pair <= grants && InBucket(bucket, target)
    requires SameCompany(principal, bucket)
    ensures var f, rq := FolderPathFromPlaceholder(names[target.id]), Request(Some(folder + "/" + tail), None);
            if KeepsContents(f) then
              Outscores(pair, grants, names, principal, bucket, rq, now) ==>
                (EvaluateAccess(grants, names, principal, bucket, rq, required, now)
                 <==> principal.userId == Some(creator))
            else
              EvaluateAccess(grants, names, principal, bucket, rq, required, now)
              == EvaluateAccess(grants - pair, names, principal, bucket, rq, required, now)
  {
    var rq := Request(Some(folder + "/" + tail), None);
    ContentsAreReachedExactly(folder, tail, names[target.id], target.id);
    PairIsOfTarget(pair, target, Folder, creator);
    if KeepsContents(FolderPathFromPlaceholder(names[target.id])) {
      ReachedIsMatched(pair, names, target, bucket, rq, creator);
      if Outscores(pair, grants, names, principal, bucket, rq, now) {
        PairDecides(grants, pair, names, target, Folder, creator, principal, bucket, rq, required, now);
      }
    } else {
      UnreachedIsUnmatched(pair, names, target, Folder, bucket, rq);
      UnmatchedIsIdle(grants - pair, pair, names, principal, bucket, rq, required, now);
      assert (grants - pair) + pair == grants;
    }
  }

  lemma ContentsAreReachedExactly(folder: string, tail: string, name: string, id: nat)
    requires Canonical(tail) && name == folder + "/" + MARKER && FolderPathFromPlaceholder(name) != ""
    ensures Reaches(name, id, Folder, Request(Some(folder + "/" + tail), None))
      <==> KeepsContents(FolderPathFromPlaceholder(name))
  {
    FolderOfMarker(folder);
    RequestBelow(folder, tail, None);
    CoversItsContents(Lead(folder), tail);
  }

  lemma ReachedIsMatched(pair: set<Grant>, names: Names, target: Target, bucket: Bucket, rq: Request, creator: nat)
    requires PrivatePair(pair, target, Folder, creator) && target.id in names && InBucket(bucket, target)
    requires Reaches(names[target.id], target.id, Folder, rq)
    ensures forall g :: g in pair ==> ResourceMatches(names, g, bucket, rq)
  {
  }
}
