/**
 Folder listings and prefix summaries (apps/storage/services.py:144-231 and
 485-529). Folders exist only as name prefixes, so a walk through the listings
 and one summary of the prefix must find the same objects.
 */
module Listing {
  import opened Prelude
  import opened Paths
  import opened ObjectStore
  import opened AccessWalk

  /** The objects under a prefix that the caller may read. */
  function Visible(objects: Objects, bucketId: nat, prefix: string, readable: set<nat>): set<nat> {
    UnderPrefix(objects, bucketId, prefix) * readable
  }

  /** What is left of a name below the prefix. */
  function Rest(objects: Objects, prefix: string, id: nat): string
    requires id in objects
  {
    var p := PrefixFilter(prefix);
    if StartsWith(objects[id].name, p) then objects[id].name[|p|..] else ""
  }

  /** The child folder an object lies in: the first of several remaining segments. */
  function ChildOf(rest: string): Option<string> {
    if '/' in rest then Some(rest[..FirstSlash(rest)]) else None
  }

  predicate InChild(objects: Objects, prefix: string, id: nat, child: string)
    requires id in objects
  {
    ChildOf(Rest(objects, prefix, id)) == Some(child)
  }

  /** The object is the marker of the child folder. */
  predicate IsMarkerOf(objects: Objects, prefix: string, id: nat, child: string)
    requires id in objects
  {
    InChild(objects, prefix, id, child) && Rest(objects, prefix, id)[|child| + 1..] == MARKER
  }

  ghost function FilesIn(objects: Objects, bucketId: nat, prefix: string, readable: set<nat>): set<nat> {
    set id | id in Visible(objects, bucketId, prefix, readable) && Rest(objects, prefix, id) != "" &&
      ChildOf(Rest(objects, prefix, id)).None?
  }

  /** The visible objects that lie below some child folder. */
  ghost function Below(objects: Objects, bucketId: nat, prefix: string, readable: set<nat>,
                       children: set<string>): set<nat> {
    set id | id in Visible(objects, bucketId, prefix, readable) && ChildOf(Rest(objects, prefix, id)).Some?
      && ChildOf(Rest(objects, prefix, id)).value in children
  }

  ghost predicate IsFolderEntry(objects: Objects, bucketId: nat, prefix: string, readable: set<nat>, child: string) {
    exists id :: id in Visible(objects, bucketId, prefix, readable) && InChild(objects, prefix, id, child)
  }

  /** What is left of each visible name. */
  function Rests(objects: Objects, bucketId: nat, prefix: string, readable: set<nat>): map<nat, string> {
    map id | id in Visible(objects, bucketId, prefix, readable) :: Rest(objects, prefix, id)
  }

  predicate MarksChild(rest: string, child: string) { ChildOf(rest) == Some(child) && rest[|child| + 1..] == MARKER }

  /** The listing of the objects seen so far. */
  ghost predicate Listed(rests: map<nat, string>, seen: set<nat>, files: set<nat>, folders: set<string>,
                         folderIds: map<string, nat>) {
    (forall id :: id in files <==> id in rests && id in seen && rests[id] != "" && ChildOf(rests[id]).None?)
    && (forall child :: child in folders <==>
      exists id :: id in rests && id in seen && ChildOf(rests[id]) == Some(child))
    && (forall child :: child in folderIds ==> folderIds[child] in rests && MarksChild(rests[folderIds[child]], child))
    && (forall id, child :: id in rests && id in seen && MarksChild(rests[id], child) ==> child in folderIds)
  }

  /** Enters one object into the listing. */
  method AddEntry(ghost rests: map<nat, string>, ghost seen: set<nat>, id: nat, rest: string,
                  files: set<nat>, folders: set<string>, folderIds: map<string, nat>)
    returns (files': set<nat>, folders': set<string>, folderIds': map<string, nat>)
    requires Listed(rests, seen, files, folders, folderIds) && id in rests && rests[id] == rest
    ensures Listed(rests, seen + {id}, files', folders', folderIds')
  {
    files', folders', folderIds' := files, folders, folderIds;
    if rest == "" {
      assert ChildOf(rest).None?;
      return;
    }
    if '/' in rest {
      var i := FirstSlash(rest);
      var child := rest[..i];
      assert ChildOf(rest) == Some(child) && |child| == i;
      folders' := folders + {child};
      if rest[i + 1..] == MARKER { folderIds' := folderIds[child := id]; }
      EntryIsListed(rests, seen, id, child, files, folders, folderIds, folderIds');
    } else {
      files' := files + {id};
      assert ChildOf(rest).None?;
    }
  }

  lemma EntryIsListed(rests: map<nat, string>, seen: set<nat>, id: nat, child: string,
                      files: set<nat>, folders: set<string>, folderIds: map<string, nat>, folderIds': map<string, nat>)
    requires Listed(rests, seen, files, folders, folderIds) && id in rests && ChildOf(rests[id]) == Some(child)
    requires folderIds' == if MarksChild(rests[id], child) then folderIds[child := id] else folderIds
    ensures Listed(rests, seen + {id}, files, folders + {child}, folderIds')
  {
    forall c
      ensures c in folders + {child} <==> exists j :: j in rests && j in seen + {id} && ChildOf(rests[j]) == Some(c)
    {
      if c in folders {
        var j :| j in rests && j in seen && ChildOf(rests[j]) == Some(c);
        assert j in seen + {id};
      } else if c == child {
        assert id in seen + {id};
      }
    }
  }

  /** One unpaged listing without search: files, child folders, and the ids of visible folder markers. */
  method ListObjects(objects: Objects, bucketId: nat, prefix: string, readable: set<nat>)
    returns (files: set<nat>, folders: set<string>, folderIds: map<string, nat>)
    ensures files == FilesIn(objects, bucketId, prefix, readable)
    ensures forall child :: child in folders <==> IsFolderEntry(objects, bucketId, prefix, readable, child)
    ensures forall child :: child in folderIds ==>
      folderIds[child] in Visible(objects, bucketId, prefix, readable) &&
        IsMarkerOf(objects, prefix, folderIds[child], child)
    ensures forall id, child | id in Visible(objects, bucketId, prefix, readable) ::
      IsMarkerOf(objects, prefix, id, child) ==> child in folderIds
  {
    var filter := PrefixFilter(prefix);
    ghost var rests := Rests(objects, bucketId, prefix, readable);
    files, folders, folderIds := {}, {}, map[];
    var todo := UnderPrefix(objects, bucketId, prefix);
    ghost var seen: set<nat> := {};
    while todo != {}
      invariant seen + todo == UnderPrefix(objects, bucketId, prefix)
      invariant Listed(rests, seen, files, folders, folderIds)
      decreases |todo|
    {
      var id :| id in todo;
      todo := todo - {id};
      if id in readable {
        files, folders, folderIds := AddEntry(rests, seen, id, objects[id].name[|filter|..], files, folders, folderIds);
      }
      seen := seen + {id};
    }
    ListedAll(objects, bucketId, prefix, readable, seen, files, folders, folderIds);
  }

  lemma ListedAll(objects: Objects, bucketId: nat, prefix: string, readable: set<nat>, seen: set<nat>,
                  files: set<nat>, folders: set<string>, folderIds: map<string, nat>)
    requires seen == UnderPrefix(objects, bucketId, prefix)
    requires Listed(Rests(objects, bucketId, prefix, readable), seen, files, folders, folderIds)
    ensures files == FilesIn(objects, bucketId, prefix, readable)
    ensures forall child :: child in folders <==> IsFolderEntry(objects, bucketId, prefix, readable, child)
    ensures forall child :: child in folderIds ==>
      folderIds[child] in Visible(objects, bucketId, prefix, readable) &&
        IsMarkerOf(objects, prefix, folderIds[child], child)
    ensures forall id, child | id in Visible(objects, bucketId, prefix, readable) ::
      IsMarkerOf(objects, prefix, id, child) ==> child in folderIds
  {
    forall child ensures child in folders <==> IsFolderEntry(objects, bucketId, prefix, readable, child) {
      ListedFolder(objects, bucketId, prefix, readable, seen, child);
    }
    ListedFiles(objects, bucketId, prefix, readable, seen, files, folders, folderIds);
    ListedMarkers(objects, bucketId, prefix, readable, seen, files, folders, folderIds);
  }

  lemma ListedFiles(objects: Objects, bucketId: nat, prefix: string, readable: set<nat>, seen: set<nat>,
                    files: set<nat>, folders: set<string>, folderIds: map<string, nat>)
    requires seen == UnderPrefix(objects, bucketId, prefix)
    requires Listed(Rests(objects, bucketId, prefix, readable), seen, files, folders, folderIds)
    ensures files == FilesIn(objects, bucketId, prefix, readable)
  {
    var rests := Rests(objects, bucketId, prefix, readable);
    forall id ensures id in files <==> id in FilesIn(objects, bucketId, prefix, readable) {
      assert id in Visible(objects, bucketId, prefix, readable) <==> id in rests;
    }
  }

  lemma ListedMarkers(objects: Objects, bucketId: nat, prefix: string, readable: set<nat>, seen: set<nat>,
                      files: set<nat>, folders: set<string>, folderIds: map<string, nat>)
    requires seen == UnderPrefix(objects, bucketId, prefix)
    requires Listed(Rests(objects, bucketId, prefix, readable), seen, files, folders, folderIds)
    ensures forall child :: child in folderIds ==>
      folderIds[child] in Visible(objects, bucketId, prefix, readable) &&
        IsMarkerOf(objects, prefix, folderIds[child], child)
    ensures forall id, child | id in Visible(objects, bucketId, prefix, readable) ::
      IsMarkerOf(objects, prefix, id, child) ==> child in folderIds
  {
    var rests := Rests(objects, bucketId, prefix, readable);
    forall id, child | id in Visible(objects, bucketId, prefix, readable) && IsMarkerOf(objects, prefix, id, child)
      ensures child in folderIds
    {
      assert id in rests && MarksChild(rests[id], child);
    }
  }

  lemma ListedFolder(objects: Objects, bucketId: nat, prefix: string, readable: set<nat>, seen: set<nat>, child: string)
    requires seen == UnderPrefix(objects, bucketId, prefix)
    ensures var rests := Rests(objects, bucketId, prefix, readable);
            (exists id :: id in rests && id in seen && ChildOf(rests[id]) == Some(child))
            <==> IsFolderEntry(objects, bucketId, prefix, readable, child)
  {
    var rests := Rests(objects, bucketId, prefix, readable);
    forall id | id in rests ensures id in seen &&
      (ChildOf(rests[id]) == Some(child) <==> InChild(objects, prefix, id, child)) {}
    if IsFolderEntry(objects, bucketId, prefix, readable, child) {
      var id :| id in Visible(objects, bucketId, prefix, readable) && InChild(objects, prefix, id, child);
      assert id in rests;
    }
  }

  // ---------------------------------------------------- listings by the names

  /** The object may be read and lies in the folder: the path without slashes at its ends, or the whole bucket. */
  predicate Shown(objects: Objects, bucketId: nat, folder: string, readable: set<nat>, id: nat) {
    id in objects && id in readable && objects[id].bucketId == bucketId
    && (folder == "" || StartsWith(objects[id].name, folder + "/"))
  }

  lemma VisibleIsShown(objects: Objects, bucketId: nat, prefix: string, readable: set<nat>, id: nat)
    ensures id in Visible(objects, bucketId, prefix, readable)
      <==> Shown(objects, bucketId, Trim(prefix, IsSlash), readable, id)
  {
  }

  /** The object is directly in the folder, under this name. */
  predicate IsFile(objects: Objects, folder: string, id: nat, leaf: string)
    requires id in objects
  {
    leaf != "" && '/' !in leaf && objects[id].name == (if folder == "" then leaf else folder + "/" + leaf)
  }

  /** The object is in this child of the folder, under this rest of its name. */
  predicate IsBelow(objects: Objects, folder: string, id: nat, child: string, rest: string)
    requires id in objects
  {
    '/' !in child && objects[id].name == (if folder == "" then "" else folder + "/") + child + "/" + rest
  }

  /** What the listing shows, by the names of the objects. */
  lemma ListedByName(objects: Objects, bucketId: nat, prefix: string, readable: set<nat>, id: nat)
    requires Shown(objects, bucketId, Trim(prefix, IsSlash), readable, id)
    ensures id in FilesIn(objects, bucketId, prefix, readable)
      <==> exists leaf :: IsFile(objects, Trim(prefix, IsSlash), id, leaf)
    ensures forall child ::
      (InChild(objects, prefix, id, child) <==> exists rest :: IsBelow(objects, Trim(prefix, IsSlash), id, child, rest))
    ensures forall child ::
      (IsMarkerOf(objects, prefix, id, child) <==> IsBelow(objects, Trim(prefix, IsSlash), id, child, MARKER))
  {
    VisibleIsShown(objects, bucketId, prefix, readable, id);
    FileByName(objects, bucketId, prefix, readable, id);
    forall child
      ensures InChild(objects, prefix, id, child)
        <==> exists rest :: IsBelow(objects, Trim(prefix, IsSlash), id, child, rest)
      ensures IsMarkerOf(objects, prefix, id, child) <==> IsBelow(objects, Trim(prefix, IsSlash), id, child, MARKER)
    {
      ChildOfName(objects, bucketId, prefix, readable, id, child);
    }
  }

  lemma FileByName(objects: Objects, bucketId: nat, prefix: string, readable: set<nat>, id: nat)
    requires id in Visible(objects, bucketId, prefix, readable)
    ensures id in FilesIn(objects, bucketId, prefix, readable)
      <==> exists leaf :: IsFile(objects, Trim(prefix, IsSlash), id, leaf)
  {
    var p, rest := PrefixFilter(prefix), Rest(objects, prefix, id);
    assert objects[id].name == p + rest;
    if rest != "" && '/' !in rest { assert IsFile(objects, Trim(prefix, IsSlash), id, rest); }
    if leaf :| IsFile(objects, Trim(prefix, IsSlash), id, leaf) { assert objects[id].name == p + leaf; }
  }

  lemma ChildOfName(objects: Objects, bucketId: nat, prefix: string, readable: set<nat>, id: nat, child: string)
    requires id in Visible(objects, bucketId, prefix, readable)
    ensures InChild(objects, prefix, id, child)
      <==> exists rest :: IsBelow(objects, Trim(prefix, IsSlash), id, child, rest)
    ensures IsMarkerOf(objects, prefix, id, child) <==> IsBelow(objects, Trim(prefix, IsSlash), id, child, MARKER)
  {
    var folder, p, rest := Trim(prefix, IsSlash), PrefixFilter(prefix), Rest(objects, prefix, id);
    assert objects[id].name == p + rest;
    forall r | IsBelow(objects, folder, id, child, r) ensures ChildOf(rest) == Some(child) && rest[|child| + 1..] == r {
      BelowIsChild(objects[id].name, p, child, r);
    }
    if ChildOf(rest) == Some(child) {
      ChildIsBelow(p, rest);
      assert IsBelow(objects, folder, id, child, rest[|child| + 1..]);
    }
  }

  lemma BelowIsChild(name: string, p: string, child: string, r: string)
    requires '/' !in child && name == p + child + "/" + r
    ensures |p| <= |name| && var rest := name[|p|..]; rest == child + "/" + r && ChildOf(rest) == Some(child)
  {
    var rest := child + "/" + r;
    assert name == p + rest;
    FirstSlashIs(rest, |child|);
    assert rest[..|child|] == child;
  }

  lemma ChildIsBelow(p: string, rest: string)
    requires '/' in rest
    ensures var child := rest[..FirstSlash(rest)]; p + rest == p + child + "/" + rest[|child| + 1..]
  {
    CutAt(rest, FirstSlash(rest));
  }

  // ------------------------------------------------------------------ sizes

  function Part(objects: Objects, ids: set<nat>): Objects {
    map id | id in objects && id in ids :: objects[id]
  }

  /** The bytes of a set of objects. */
  ghost function SizeOf(objects: Objects, ids: set<nat>): int {
    TotalSize(Part(objects, ids))
  }

  lemma SizeOfNothing(objects: Objects)
    ensures SizeOf(objects, {}) == 0
  {
    assert Sizes(Part(objects, {})) == map[];
  }

  lemma SizeOfAdd(objects: Objects, ids: set<nat>, id: nat)
    requires id in objects && id !in ids
    ensures SizeOf(objects, ids + {id}) == SizeOf(objects, ids) + objects[id].size
  {
    var part := Part(objects, ids);
    assert Part(objects, ids + {id}) == part[id := objects[id]];
    TotalPut(part, id, objects[id]);
  }

  lemma {:induction false} SizeOfUnion(objects: Objects, a: set<nat>, b: set<nat>)
    requires b <= objects.Keys && forall id :: id in b ==> id !in a
    ensures SizeOf(objects, a + b) == SizeOf(objects, a) + SizeOf(objects, b)
    decreases b
  {
    if b == {} {
      assert a + b == a;
      SizeOfNothing(objects);
    } else {
      var x :| x in b;
      var c := b - {x};
      SizeOfUnion(objects, a, c);
      SizeOfAdd(objects, a + c, x);
      SizeOfAdd(objects, c, x);
      assert a + b == a + c + {x} && b == c + {x};
    }
  }

  // ---------------------------------------------------------------- summary

  predicate IsMarkerName(name: string) { name == MARKER || EndsWith(name, "/" + MARKER) }

  /** A name is a marker's if and only if its last segment is the marker. */
  lemma MarkerNamesEndInMarker(name: string)
    ensures IsMarkerName(name) <==> Split(name)[|Split(name)| - 1] == MARKER
  {
    if '/' in name {
      CutLast(name);
      EndsInMarker(Parent(name), name[LastSlash(name) + 1..]);
    } else {
      MarkerNeedsSlash(name);
    }
  }

  lemma MarkerNeedsSlash(name: string)
    ensures EndsWith(name, "/" + MARKER) ==> '/' in name
  {
    if EndsWith(name, "/" + MARKER) { assert name[|name| - |MARKER| - 1..][0] == '/'; }
  }

  lemma LastSegment(init: string, last: string)
    requires '/' !in last
    ensures var parts := Split(init + "/" + last); parts[|parts| - 1] == last
  {
    SplitConcat(init, last);
    assert Split(last) == [last];
  }

  lemma EndsInMarker(init: string, last: string)
    requires '/' !in last
    ensures var name := init + "/" + last;
            IsMarkerName(name) <==> Split(name)[|Split(name)| - 1] == MARKER
  {
    var name := init + "/" + last;
    MarkerIsClean();
    LastSegment(init, last);
    SuffixCut(init, last);
    assert name[|init|] == '/';
    if EndsWith(name, "/" + MARKER) {
      var front := name[..|name| - |MARKER| - 1];
      assert name == front + "/" + MARKER;
      LastSegment(front, MARKER);
    }
  }

  ghost function Markers(objects: Objects, ids: set<nat>): set<nat> {
    set id | id in ids && id in objects && IsMarkerName(objects[id].name)
  }

  lemma MarkersAdd(objects: Objects, ids: set<nat>, id: nat)
    requires id in objects && id !in ids
    ensures |Markers(objects, ids + {id})| == |Markers(objects, ids)| + if IsMarkerName(objects[id].name) then 1 else 0
  {
    var more := Markers(objects, ids + {id});
    if IsMarkerName(objects[id].name) {
      assert more == Markers(objects, ids) + {id};
    } else {
      assert more == Markers(objects, ids);
    }
  }

  lemma MarkersSplit(objects: Objects, ids: set<nat>)
    ensures |ids - Markers(objects, ids)| == |ids| - |Markers(objects, ids)| && |Markers(objects, ids)| <= |ids|
  {
    var markers := Markers(objects, ids);
    assert (ids - markers) + markers == ids;
  }

  /** The counts and bytes under a prefix; the file count is never cut off at zero. */
  method SummarizePrefix(objects: Objects, bucketId: nat, prefix: string, readable: set<nat>)
    returns (objectCount: int, fileCount: int, placeholderCount: int, totalBytes: int)
    ensures var visible := Visible(objects, bucketId, prefix, readable);
            objectCount == |visible| && placeholderCount == |Markers(objects, visible)| &&
            fileCount == |visible - Markers(objects, visible)| && fileCount == objectCount - placeholderCount &&
            totalBytes == SizeOf(objects, visible)
  {
    var under := UnderPrefix(objects, bucketId, prefix);
    ghost var visible := Visible(objects, bucketId, prefix, readable);
    ghost var seen: set<nat> := {};
    objectCount, placeholderCount, totalBytes := 0, 0, 0;
    var todo := under;
    SizeOfNothing(objects);
    while todo != {}
      invariant todo <= under && seen <= visible
      invariant forall x :: x in visible ==> (x in seen <==> x !in todo)
      invariant objectCount == |seen| && placeholderCount == |Markers(objects, seen)|
      invariant totalBytes == SizeOf(objects, seen)
    {
      var id :| id in todo;
      todo := todo - {id};
      if id !in readable { continue; }
      SizeOfAdd(objects, seen, id);
      MarkersAdd(objects, seen, id);
      seen := seen + {id};
      objectCount := objectCount + 1;
      totalBytes := totalBytes + objects[id].size;
      if IsMarkerName(objects[id].name) { placeholderCount := placeholderCount + 1; }
    }
    assert seen == visible;
    MarkersSplit(objects, visible);
    fileCount := if objectCount - placeholderCount < 0 then 0 else objectCount - placeholderCount;
  }

  // ------------------------------------------------------------------- walk

  ghost predicate StoredNames(objects: Objects, bucketId: nat) {
    forall id :: id in objects && objects[id].bucketId == bucketId ==>
      Clean(objects[id].name) && |objects[id].name| <= MAX_NAME
  }

  /** The path of a child folder. */
  function ChildPath(prefix: string, child: string): string {
    if prefix == "" then child else prefix + "/" + child
  }

  lemma FilterOf(prefix: string)
    requires prefix == "" || Clean(prefix)
    ensures PrefixFilter(prefix) == if prefix == "" then "" else prefix + "/"
  {
    if prefix != "" { CleanIsTrimmed(prefix); }
  }

  /** A visible name is the prefix followed by its rest; the rest is clean, so it has no empty segment. */
  lemma RestIsClean(objects: Objects, bucketId: nat, prefix: string, id: nat)
    requires StoredNames(objects, bucketId) && (prefix == "" || Clean(prefix)) &&
      id in UnderPrefix(objects, bucketId, prefix)
    ensures objects[id].name == PrefixFilter(prefix) + Rest(objects, prefix, id) && Clean(Rest(objects, prefix, id))
    ensures Rest(objects, prefix, id) != ""
  {
    FilterOf(prefix);
    var name, rest := objects[id].name, Rest(objects, prefix, id);
    assert name == PrefixFilter(prefix) + rest;
    if prefix != "" { CleanConcat(prefix, rest); } else { assert "" + rest == rest; }
    CleanIsTrimmed(rest);
  }

  lemma ChildObjects(objects: Objects, bucketId: nat, prefix: string, child: string)
    requires StoredNames(objects, bucketId) && (prefix == "" || Clean(prefix)) && Clean(child) && '/' !in child
    ensures UnderPrefix(objects, bucketId, ChildPath(prefix, child))
      == set id | id in UnderPrefix(objects, bucketId, prefix) && InChild(objects, prefix, id, child)
  {
    var path, p := ChildPath(prefix, child), PrefixFilter(prefix);
    FilterOf(prefix);
    if prefix != "" { CleanConcat(prefix, child); }
    CleanIsTrimmed(path);
    FilterOf(path);
    assert PrefixFilter(path) == p + child + "/";
    forall id | id in objects && objects[id].bucketId == bucketId
      ensures StartsWith(objects[id].name, p + child + "/") <==>
        StartsWith(objects[id].name, p) && InChild(objects, prefix, id, child)
    {
      ChildByName(objects[id].name, p, child);
    }
  }

  lemma ChildByName(name: string, p: string, child: string)
    requires '/' !in child
    ensures StartsWith(name, p + child + "/") <==>
      StartsWith(name, p) && var rest := name[|p|..]; '/' in rest && rest[..FirstSlash(rest)] == child
  {
    if StartsWith(name, p + child + "/") {
      assert name[..|p|] == name[..|p| + |child| + 1][..|p|] == p;
      var rest := name[|p|..];
      assert rest[..|child| + 1] == name[..|p| + |child| + 1][|p|..] == child + "/";
      assert rest[|child|] == '/' && rest[..|child|] == rest[..|child| + 1][..|child|] == child;
      FirstSlashIs(rest, |child|);
    }
    if StartsWith(name, p) && '/' in name[|p|..] && name[|p|..][..FirstSlash(name[|p|..])] == child {
      var rest := name[|p|..];
      assert rest[..|child| + 1] == child + "/";
      assert name[..|p| + |child| + 1] == p + rest[..|child| + 1];
    }
  }

  lemma ChildIsClean(objects: Objects, bucketId: nat, prefix: string, id: nat, child: string)
    requires StoredNames(objects, bucketId) && (prefix == "" || Clean(prefix))
    requires id in UnderPrefix(objects, bucketId, prefix) && InChild(objects, prefix, id, child)
    ensures Clean(child) && '/' !in child
    ensures Clean(ChildPath(prefix, child)) && |prefix| < |ChildPath(prefix, child)| < |objects[id].name|
  {
    RestIsClean(objects, bucketId, prefix, id);
    FilterOf(prefix);
    var rest := Rest(objects, prefix, id);
    FirstSegment(rest);
    CleanIsTrimmed(child);
    if prefix != "" { CleanConcat(prefix, child); }
  }

  lemma FirstSegment(rest: string)
    requires Clean(rest) && '/' in rest
    ensures Clean(rest[..FirstSlash(rest)]) && '/' !in rest[..FirstSlash(rest)]
  {
    var i := FirstSlash(rest);
    assert rest == rest[..i] + "/" + rest[i + 1..];
    CleanConcat(rest[..i], rest[i + 1..]);
  }

  lemma ShownByPrefix(objects: Objects, bucketId: nat, prefix: string, readable: set<nat>)
    requires prefix == "" || Clean(prefix)
    ensures forall id ::
      (id in Visible(objects, bucketId, prefix, readable) <==> Shown(objects, bucketId, prefix, readable, id))
  {
    FilterOf(prefix);
  }

  /** A client that opens every folder it is shown, starting from `prefix`. */
  method WalkTree(objects: Objects, bucketId: nat, prefix: string, readable: set<nat>)
    returns (reached: multiset<nat>, bytes: int)
    requires StoredNames(objects, bucketId) && (prefix == "" || Clean(prefix)) && |prefix| <= MAX_NAME
    ensures reached == multiset(Visible(objects, bucketId, prefix, readable))
    ensures bytes == SizeOf(objects, Visible(objects, bucketId, prefix, readable))
    ensures forall id :: reached[id] == if Shown(objects, bucketId, prefix, readable, id) then 1 else 0
    decreases MAX_NAME - |prefix|, 1
  {
    ShownByPrefix(objects, bucketId, prefix, readable);
    var files, folders, _ := ListObjects(objects, bucketId, prefix, readable);
    var inside, size := WalkChildren(objects, bucketId, prefix, readable, files, folders);
    bytes := AddSizes(objects, files);
    reached, bytes := multiset(files) + inside, bytes + size;
  }

  /** Opens every child folder of one listing. */
  method WalkChildren(objects: Objects, bucketId: nat, prefix: string, readable: set<nat>, ghost files: set<nat>,
                      folders: set<string>)
    returns (reached: multiset<nat>, bytes: int)
    requires StoredNames(objects, bucketId) && (prefix == "" || Clean(prefix)) && |prefix| <= MAX_NAME
    requires files == FilesIn(objects, bucketId, prefix, readable)
    requires forall child :: child in folders <==> IsFolderEntry(objects, bucketId, prefix, readable, child)
    ensures multiset(files) + reached == multiset(Visible(objects, bucketId, prefix, readable))
    ensures SizeOf(objects, files) + bytes == SizeOf(objects, Visible(objects, bucketId, prefix, readable))
    decreases MAX_NAME - |prefix|, 0
  {
    reached, bytes := multiset{}, 0;
    ghost var visited: set<string> := {};
    NothingOpened(objects, bucketId, prefix, readable, files);
    var todo := folders;
    while todo != {}
      invariant forall child :: child in folders <==> child in visited || child in todo
      invariant forall child :: child in todo ==> child !in visited
      invariant Opened(objects, bucketId, prefix, readable, files, visited, reached, bytes)
      decreases |todo|
    {
      var child :| child in todo;
      EntryIsClean(objects, bucketId, prefix, readable, child);
      var inside, size := WalkTree(objects, bucketId, ChildPath(prefix, child), readable);
      OpenedStep(objects, bucketId, prefix, readable, files, visited, child, reached, bytes, inside, size);
      visited, todo := visited + {child}, todo - {child};
      reached, bytes := reached + inside, bytes + size;
    }
    AllOpened(objects, bucketId, prefix, readable, files, visited);
  }

  /** Opening one more child adds the objects below it, none of which was reached before. */
  lemma OpenChild(objects: Objects, bucketId: nat, prefix: string, readable: set<nat>, files: set<nat>,
                  visited: set<string>, child: string)
    requires StoredNames(objects, bucketId) && (prefix == "" || Clean(prefix))
    requires files == FilesIn(objects, bucketId, prefix, readable) && child !in visited && Clean(child) && '/' !in child
    ensures var covered := files + Below(objects, bucketId, prefix, readable, visited);
            var found := Visible(objects, bucketId, ChildPath(prefix, child), readable);
            var next := files + Below(objects, bucketId, prefix, readable, visited + {child});
            multiset(next) == multiset(covered) + multiset(found) &&
              SizeOf(objects, next) == SizeOf(objects, covered) + SizeOf(objects, found)
  {
    var covered := files + Below(objects, bucketId, prefix, readable, visited);
    var found := Visible(objects, bucketId, ChildPath(prefix, child), readable);
    BelowGrows(objects, bucketId, prefix, readable, visited, child);
    assert files + Below(objects, bucketId, prefix, readable, visited + {child}) == covered + found;
    SizeOfUnion(objects, covered, found);
    DisjointMultisets(covered, found);
  }

  lemma BelowGrows(objects: Objects, bucketId: nat, prefix: string, readable: set<nat>, visited: set<string>,
                   child: string)
    requires StoredNames(objects, bucketId) && (prefix == "" || Clean(prefix)) && child !in visited && Clean(child) &&
      '/' !in child
    ensures var found := Visible(objects, bucketId, ChildPath(prefix, child), readable);
            Below(objects, bucketId, prefix, readable, visited + {child}) ==
              Below(objects, bucketId, prefix, readable, visited) + found &&
            (forall id :: id in found ==>
              id !in Below(objects, bucketId, prefix, readable, visited) &&
              id !in FilesIn(objects, bucketId, prefix, readable)) &&
            found <= objects.Keys
  {
    var found := Visible(objects, bucketId, ChildPath(prefix, child), readable);
    ChildObjects(objects, bucketId, prefix, child);
    forall id
      ensures id in found <==> id in Visible(objects, bucketId, prefix, readable) && InChild(objects, prefix, id, child)
    {
    }
    BelowSplits(objects, bucketId, prefix, readable, visited, child, found);
  }

  lemma BelowSplits(objects: Objects, bucketId: nat, prefix: string, readable: set<nat>, visited: set<string>,
                    child: string, found: set<nat>)
    requires child !in visited
    requires forall id :: id in found <==>
      id in Visible(objects, bucketId, prefix, readable) && InChild(objects, prefix, id, child)
    ensures Below(objects, bucketId, prefix, readable, visited + {child}) ==
      Below(objects, bucketId, prefix, readable, visited) + found
    ensures forall id :: id in found ==>
      id !in Below(objects, bucketId, prefix, readable, visited) && id !in FilesIn(objects, bucketId, prefix, readable)
    ensures found <= objects.Keys
  {
    forall id ensures id in Below(objects, bucketId, prefix, readable, visited + {child})
      <==> id in Below(objects, bucketId, prefix, readable, visited) || id in found {}
  }

  lemma AllOpened(objects: Objects, bucketId: nat, prefix: string, readable: set<nat>, files: set<nat>,
                  visited: set<string>)
    requires StoredNames(objects, bucketId) && (prefix == "" || Clean(prefix))
    requires files == FilesIn(objects, bucketId, prefix, readable)
    requires forall child :: child in visited <==> IsFolderEntry(objects, bucketId, prefix, readable, child)
    ensures files + Below(objects, bucketId, prefix, readable, visited) == Visible(objects, bucketId, prefix, readable)
  {
    var covered := files + Below(objects, bucketId, prefix, readable, visited);
    forall id | id in Visible(objects, bucketId, prefix, readable) ensures id in covered {
      RestIsClean(objects, bucketId, prefix, id);
      var rest := Rest(objects, prefix, id);
      if '/' in rest {
        assert InChild(objects, prefix, id, rest[..FirstSlash(rest)]);
        assert IsFolderEntry(objects, bucketId, prefix, readable, rest[..FirstSlash(rest)]);
      }
    }
  }

  /** Files and opened children so far: every object reached once, and its bytes counted. */
  ghost predicate Opened(objects: Objects, bucketId: nat, prefix: string, readable: set<nat>, files: set<nat>,
                         visited: set<string>, reached: multiset<nat>, bytes: int)
  {
    var covered := files + Below(objects, bucketId, prefix, readable, visited);
    multiset(files) + reached == multiset(covered) && SizeOf(objects, files) + bytes == SizeOf(objects, covered)
  }

  lemma OpenedStep(objects: Objects, bucketId: nat, prefix: string, readable: set<nat>, files: set<nat>,
                   visited: set<string>, child: string, reached: multiset<nat>, bytes: int, inside: multiset<nat>,
                   size: int)
    requires StoredNames(objects, bucketId) && (prefix == "" || Clean(prefix))
    requires files == FilesIn(objects, bucketId, prefix, readable) && child !in visited && Clean(child) && '/' !in child
    requires Opened(objects, bucketId, prefix, readable, files, visited, reached, bytes)
    requires inside == multiset(Visible(objects, bucketId, ChildPath(prefix, child), readable))
    requires size == SizeOf(objects, Visible(objects, bucketId, ChildPath(prefix, child), readable))
    ensures Opened(objects, bucketId, prefix, readable, files, visited + {child}, reached + inside, bytes + size)
  {
    OpenChild(objects, bucketId, prefix, readable, files, visited, child);
    assert multiset(files) + (reached + inside) == (multiset(files) + reached) + inside;
  }

  lemma NothingOpened(objects: Objects, bucketId: nat, prefix: string, readable: set<nat>, files: set<nat>)
    ensures Opened(objects, bucketId, prefix, readable, files, {}, multiset{}, 0)
  {
    assert files + Below(objects, bucketId, prefix, readable, {}) == files;
  }

  lemma EntryIsClean(objects: Objects, bucketId: nat, prefix: string, readable: set<nat>, child: string)
    requires StoredNames(objects, bucketId) && (prefix == "" || Clean(prefix)) && |prefix| <= MAX_NAME
    requires IsFolderEntry(objects, bucketId, prefix, readable, child)
    ensures Clean(child) && '/' !in child
    ensures Clean(ChildPath(prefix, child)) && |prefix| < |ChildPath(prefix, child)| <= MAX_NAME
  {
    var id :| id in Visible(objects, bucketId, prefix, readable) && InChild(objects, prefix, id, child);
    ChildIsClean(objects, bucketId, prefix, id, child);
  }

  lemma DisjointMultisets(a: set<nat>, b: set<nat>)
    requires a !! b
    ensures multiset(a) + multiset(b) == multiset(a + b)
  {
  }

  method AddSizes(objects: Objects, ids: set<nat>) returns (bytes: int)
    requires ids <= objects.Keys
    ensures bytes == SizeOf(objects, ids)
  {
    bytes := 0;
    var todo := ids;
    ghost var seen: set<nat> := {};
    SizeOfNothing(objects);
    while todo != {}
      invariant todo <= ids && seen == ids - todo && bytes == SizeOf(objects, seen)
    {
      var id :| id in todo;
      SizeOfAdd(objects, seen, id);
      seen := seen + {id};
      todo := todo - {id};
      bytes := bytes + objects[id].size;
    }
    assert seen == ids;
  }
}
