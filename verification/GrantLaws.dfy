/**
 Which rows a new folder or file gets, read off the rows there are (apps/storage/access.py:554-780): when
 there are rows of its own, when it inherits and from where, and what the inherited rows say.
 */
module GrantLaws {
  import opened Prelude
  import opened Paths
  import opened Access
  import opened AccessWalk
  import opened GrantTable

  predicate Lives(g: Grant, now: int) { g.expiresAt.None? || now < g.expiresAt.value }

  predicate OfPlace(g: Grant, target: Target) { g.companyId == target.companyId && g.bucketId == target.bucketId }

  /** A live grant on the folder, in the bucket of the target. */
  predicate StandsOn(g: Grant, names: Names, target: Target, folder: string, now: int) {
    OfPlace(g, target) && g.resourceType == Folder && Lives(g, now)
    && g.target.Some? && g.target.value in names && names[g.target.value] == folder + "/" + MARKER
  }

  /** A live grant of its own on the object. */
  predicate HasOwn(grants: set<Grant>, target: Target, resourceType: ResourceType, now: int) {
    exists g :: g in grants && OfPlace(g, target) && g.resourceType == resourceType && Lives(g, now)
      && g.target == Some(target.id)
  }

  /** The path and all folders above it are canonical. */
  ghost predicate CanonicalThrough(path: string) {
    Canonical(path) && forall q :: StartsWith(path, q + "/") ==> Canonical(q)
  }

  /** The new row says of the target what the old one says of its folder. */
  predicate SameTerms(source: Grant, row: Grant, target: Target) {
    OfPlace(row, target) && row.target == Some(target.id) && row.resourceType == source.resourceType
    && row.subjectType == source.subjectType && row.subjectId == source.subjectId && row.permission == source.permission
    && row.effect == source.effect && row.expiresAt == source.expiresAt
  }

  /** What a new path inherits from one of the folders above it. */
  function Sources(before: set<Grant>, names: Names, target: Target, path: string, n: string, now: int): set<Grant> {
    OnFolder(FoundByName(before, names, target.bucketId, target.companyId, AncestorPrefixes(path), now), names, n)
  }

  /** The live grants on a folder. */
  function Standing(before: set<Grant>, names: Names, target: Target, folder: string, now: int): set<Grant> {
    set g | g in before && StandsOn(g, names, target, folder, now)
  }

  lemma AncestorMarker(path: string, q: string)
    requires CanonicalThrough(path) && q in AncestorPrefixes(path)
    ensures FolderPlaceholderPath(q) == q + "/" + MARKER && FolderPathFromPlaceholder(q + "/" + MARKER) == q
  {
    CanonicalIsNormal(path);
    AncestorsArePrefixes(q, path);
    CanonicalIsNormal(q);
    MarkerNormal(q);
    MarkerRoundTrip(q);
  }

  /** A name is the marker of a listed folder that it reads as if and only if it is that folder's marker. */
  lemma MarkerIsOfItsFolder(path: string, n: string, name: string)
    requires CanonicalThrough(path) && n in AncestorPrefixes(path)
    ensures IsMarkerOfOne(name, AncestorPrefixes(path)) && FolderPathFromPlaceholder(name) == n
      <==> name == n + "/" + MARKER
  {
    AncestorMarker(path, n);
    var folders := AncestorPrefixes(path);
    if i :| 0 <= i < |folders| && name == FolderPlaceholderPath(folders[i]) { AncestorMarker(path, folders[i]); }
    if name == n + "/" + MARKER {
      var i :| 0 <= i < |folders| && folders[i] == n;
      assert name == FolderPlaceholderPath(folders[i]);
    }
  }

  lemma SourcesStand(before: set<Grant>, names: Names, target: Target, path: string, n: string, now: int)
    requires CanonicalThrough(path) && n in AncestorPrefixes(path)
    ensures Sources(before, names, target, path, n, now) == Standing(before, names, target, n, now)
  {
    forall g | g in before && g.target.Some? && g.target.value in names
      ensures IsMarkerOfOne(names[g.target.value], AncestorPrefixes(path)) && TargetFolder(names, g) == n
        <==> names[g.target.value] == n + "/" + MARKER
    {
      MarkerIsOfItsFolder(path, n, names[g.target.value]);
    }
  }

  /** The folder or file has a path of its own, and no grants. */
  ghost predicate IsNew(before: set<Grant>, names: Names, target: Target, resourceType: ResourceType, now: int,
                        path: string) {
    target.id in names && (resourceType == Folder || resourceType == File) && CanonicalThrough(path)
    && DefaultPath(names, target, resourceType) == path && !HasOwn(before, target, resourceType, now)
  }

  ghost predicate Granted(before: set<Grant>, names: Names, target: Target, folder: string, now: int) {
    exists g :: g in before && StandsOn(g, names, target, folder, now)
  }

  /**
   A new folder or file gets a private pair if and only if no folder above it has a live grant; else it
   inherits from the deepest one that has, a folder by copies and a file without rows.
   */
  lemma PairOrInheritance(before: set<Grant>, names: Names, userId: nat, target: Target, resourceType: ResourceType,
                          now: int, created: set<Grant>, nearest: Option<string>, path: string)
    requires IsNew(before, names, target, resourceType, now, path)
    requires Ensured(before, names, Some(userId), target, resourceType, now, created, nearest)
    ensures nearest.None? <==> forall n :: StartsWith(path, n + "/") ==> !Granted(before, names, target, n, now)
    ensures nearest.None? ==> PrivatePair(created, target, resourceType, userId)
    ensures nearest.Some? ==>
      StartsWith(path, nearest.value + "/") && Granted(before, names, target, nearest.value, now)
      && forall n :: StartsWith(path, n + "/") && Granted(before, names, target, n, now) ==> |n| <= |nearest.value|
    ensures nearest.Some? && resourceType == File ==> created == {}
  {
    CanonicalIsNormal(path);
    assert !ResourceGrantsExist(before, target, resourceType, now);
    DeepestIsNearest(before, names, target, path, now, nearest);
  }

  /** The deepest listed folder with sources is the longest folder above the path that is granted. */
  lemma DeepestIsNearest(before: set<Grant>, names: Names, target: Target, path: string, now: int,
                         nearest: Option<string>)
    requires CanonicalThrough(path)
    requires var folders := AncestorPrefixes(path);
             var found := FoundByName(before, names, target.bucketId, target.companyId, folders, now);
             IsDeepest(found, names, folders, nearest)
    ensures nearest.None? <==> forall n :: StartsWith(path, n + "/") ==> !Granted(before, names, target, n, now)
    ensures nearest.Some? ==>
      StartsWith(path, nearest.value + "/") && Granted(before, names, target, nearest.value, now)
      && forall n :: StartsWith(path, n + "/") && Granted(before, names, target, n, now) ==> |n| <= |nearest.value|
  {
    CanonicalIsNormal(path);
    var folders := AncestorPrefixes(path);
    forall n ensures StartsWith(path, n + "/") <==> n in folders { AncestorsArePrefixes(n, path); }
    forall n | n in folders
      ensures Sources(before, names, target, path, n, now) != {} <==> Granted(before, names, target, n, now)
    {
      OnFolderIsGranted(before, names, target, path, n, now);
    }
    if nearest.Some? {
      var i :| 0 <= i < |folders| && folders[i] == nearest.value &&
        forall j :: i < j < |folders| ==> Sources(before, names, target, path, folders[j], now) == {};
      forall n | n in folders && Granted(before, names, target, n, now) ensures |n| <= |nearest.value| {
        var j :| 0 <= j < |folders| && folders[j] == n;
        LaterIsLonger(path, j, i);
      }
    } else {
      assert forall n :: n in folders ==> Sources(before, names, target, path, n, now) == {};
    }
  }

  lemma OnFolderIsGranted(before: set<Grant>, names: Names, target: Target, path: string, n: string, now: int)
    requires CanonicalThrough(path) && n in AncestorPrefixes(path)
    ensures Sources(before, names, target, path, n, now) != {} <==> Granted(before, names, target, n, now)
  {
    SourcesStand(before, names, target, path, n, now);
    if Granted(before, names, target, n, now) {
      var g :| g in before && StandsOn(g, names, target, n, now);
      assert g in Standing(before, names, target, n, now);
    }
  }

  lemma LaterIsLonger(path: string, j: nat, i: nat)
    requires NormalizePath(path) == path && j <= i < |AncestorPrefixes(path)|
    ensures |AncestorPrefixes(path)[j]| <= |AncestorPrefixes(path)[i]|
  {
    FrontIsShorter(Split(path), j + 1, i + 1);
  }

  lemma FrontIsShorter(parts: seq<string>, j: nat, i: nat)
    requires 0 < j <= i <= |parts|
    ensures |Join(parts[..j])| <= |Join(parts[..i])|
  {
    if j < i {
      assert parts[..i] == parts[..j] + parts[j..i];
      JoinConcat(parts[..j], parts[j..i]);
    }
  }

  /** What a new folder inherits: a row with the terms of each live grant on the nearest folder, and no other row. */
  lemma InheritedTerms(before: set<Grant>, names: Names, userId: nat, target: Target, now: int, created: set<Grant>,
                       nearest: string, path: string)
    requires IsNew(before, names, target, Folder, now, path)
    requires Ensured(before, names, Some(userId), target, Folder, now, created, Some(nearest))
    ensures SameRows(Standing(before, names, target, nearest, now), created, target) && created != {}
  {
    InheritsSources(before, names, userId, target, now, created, nearest, path);
    SourcesStand(before, names, target, path, nearest, now);
    CopiesAreSameRows(Standing(before, names, target, nearest, now), created, target);
  }

  /** One row with the same terms for each source. */
  ghost predicate SameRows(sources: set<Grant>, created: set<Grant>, target: Target) {
    |created| == |sources| && (forall g :: g in sources ==> exists row :: row in created && SameTerms(g, row, target))
    && (forall row :: row in created ==> exists g :: g in sources && SameTerms(g, row, target))
  }

  lemma CopiesAreSameRows(sources: set<Grant>, created: set<Grant>, target: Target)
    requires Copies(sources, created, target)
    ensures SameRows(sources, created, target)
  {
    CopiesCarry(sources, created, target);
    CopiesCome(sources, created, target);
    CopiesCount(sources, created, target);
  }

  lemma InheritsSources(before: set<Grant>, names: Names, userId: nat, target: Target, now: int, created: set<Grant>,
                        nearest: string, path: string)
    requires IsNew(before, names, target, Folder, now, path)
    requires Ensured(before, names, Some(userId), target, Folder, now, created, Some(nearest))
    ensures nearest in AncestorPrefixes(path)
    ensures Copies(Sources(before, names, target, path, nearest, now), created, target)
    ensures Sources(before, names, target, path, nearest, now) != {}
  {
    CanonicalIsNormal(path);
    assert !ResourceGrantsExist(before, target, Folder, now);
  }

  lemma CopyHasTerms(g: Grant, id: nat, target: Target)
    ensures SameTerms(g, CopyTo(g, id, target), target)
  {
  }

  lemma CopiesCarry(sources: set<Grant>, created: set<Grant>, target: Target)
    requires Copies(sources, created, target)
    ensures forall g :: g in sources ==> exists row :: row in created && SameTerms(g, row, target)
  {
    var ids: map<Grant, nat> :| ids.Keys == sources && Injective(ids) && created == CopySet(ids, target);
    forall g | g in sources ensures exists row :: row in created && SameTerms(g, row, target) {
      CopyHasTerms(g, ids[g], target);
      assert g in ids && CopyTo(g, ids[g], target) in created;
    }
  }

  lemma CopiesCome(sources: set<Grant>, created: set<Grant>, target: Target)
    requires Copies(sources, created, target)
    ensures forall row :: row in created ==> exists g :: g in sources && SameTerms(g, row, target)
  {
    var ids: map<Grant, nat> :| ids.Keys == sources && Injective(ids) && created == CopySet(ids, target);
    forall row | row in created ensures exists g :: g in sources && SameTerms(g, row, target) {
      var g :| g in ids && row == CopyTo(g, ids[g], target);
      CopyHasTerms(g, ids[g], target);
    }
  }

  /** One row for each source. */
  lemma CopiesCount(sources: set<Grant>, created: set<Grant>, target: Target)
    requires Copies(sources, created, target)
    ensures |created| == |sources|
  {
    var ids: map<Grant, nat> :| ids.Keys == sources && Injective(ids) && created == CopySet(ids, target);
    CopySetSize(ids, target);
  }

  lemma {:induction false} CopySetSize(ids: map<Grant, nat>, target: Target)
    requires Injective(ids)
    ensures |CopySet(ids, target)| == |ids.Keys|
    decreases |ids|
  {
    if ids == map[] {
      assert CopySet(ids, target) == {};
    } else {
      var s :| s in ids;
      var rest := ids - {s};
      CopySetSize(rest, target);
      assert rest[s := ids[s]] == ids;
      CopySetGrows(rest, s, ids[s], target);
      assert CopyTo(s, ids[s], target) !in CopySet(rest, target);
      assert ids.Keys == rest.Keys + {s};
    }
  }

  /** Objects that have live grants of their own get none, so asking again while they live creates nothing. */
  lemma AskedAgain(before: set<Grant>, names: Names, userId: nat, target: Target, resourceType: ResourceType, now: int,
                   created: set<Grant>, nearest: Option<string>, again: set<Grant>, nearestAgain: Option<string>)
    requires target.id in names && created != {}
    requires Ensured(before, names, Some(userId), target, resourceType, now, created, nearest)
    requires Ensured(before + created, names, Some(userId), target, resourceType, now, again, nearestAgain)
    ensures HasOwn(before + created, target, resourceType, now) && again == {} && nearestAgain.None?
  {
    CreatedAreOwn(before, names, userId, target, resourceType, now, created, nearest);
    var row :| row in created;
    assert row in before + created;
    assert ResourceGrantsExist(before + created, target, resourceType, now);
  }

  lemma CreatedAreOwn(before: set<Grant>, names: Names, userId: nat, target: Target, resourceType: ResourceType,
                      now: int, created: set<Grant>, nearest: Option<string>)
    requires target.id in names && Ensured(before, names, Some(userId), target, resourceType, now, created, nearest)
    ensures forall row :: row in created ==>
      OfPlace(row, target) && row.resourceType == resourceType && Lives(row, now) && row.target == Some(target.id)
  {
    if created != {} && nearest.Some? {
      var sources := Sources(before, names, target, DefaultPath(names, target, resourceType), nearest.value, now);
      assert resourceType == Folder;
      CopiesCome(sources, created, target);
      forall row | row in created ensures row.resourceType == Folder && Lives(row, now) && OfPlace(row, target) {
        var g :| g in sources && SameTerms(g, row, target);
      }
    }
  }

  /** What is set up for a stored name: its folder for a marker, the file for any other name, nothing for the root's. */
  lemma SetUpByName(path: string)
    requires Canonical(path)
    ensures var name := path + "/" + MARKER;
            CreatedKind(name, false) == Folder && !NothingToSetUp(name, false)
            && FolderPathFromPlaceholder(name) == path
    ensures path != MARKER && !EndsWith(path, "/" + MARKER) ==>
      CreatedKind(path, false) == File && !NothingToSetUp(path, false) && NormalizePath(path) == path
    ensures NothingToSetUp(MARKER, false)
  {
    CanonicalIsNormal(path);
    MarkerNormal(path);
    MarkerNormal("");
    MarkerRoundTrip(path);
    MarkerIsClean();
    SuffixCut(path, MARKER);
    NormalizeFixed("");
  }
}
