/**
 Object paths: trimming, segments, folder markers and the normalisation applied
 to every path a client sends.
 */
module Paths {
  import opened Prelude

  /** The object name that stands for an empty folder (apps/storage/models.py:14). */
  const MARKER := ".emptyFolderPlaceholder"

  /** Longest name a stored object can have (apps/storage/models.py:106). */
  const MAX_NAME := 1024

  // ---------------------------------------------------------------- trimming

  /** The characters removed by a plain strip. */
  predicate IsSpace(c: char) {
    var i := c as int;
    9 <= i <= 13 || 28 <= i <= 32 || i == 0x85 || i == 0xa0 || i == 0x1680 ||
    0x2000 <= i <= 0x200a || i == 0x2028 || i == 0x2029 || i == 0x202f || i == 0x205f || i == 0x3000
  }

  predicate IsSlash(c: char) { c == '/' }

  function TrimLeft(s: string, drop: char -> bool): string {
    if s != "" && drop(s[0]) then TrimLeft(s[1..], drop) else s
  }

  function TrimRight(s: string, drop: char -> bool): string {
    if s != "" && drop(s[|s| - 1]) then TrimRight(s[..|s| - 1], drop) else s
  }

  function Trim(s: string, drop: char -> bool): string {
    TrimRight(TrimLeft(s, drop), drop)
  }

  predicate Trimmed(s: string, drop: char -> bool) {
    s == "" || (!drop(s[0]) && !drop(s[|s| - 1]))
  }

  lemma {:induction false} TrimLeftEdge(s: string, drop: char -> bool)
    ensures var r := TrimLeft(s, drop); r == "" || !drop(r[0])
  {
    if s != "" && drop(s[0]) { TrimLeftEdge(s[1..], drop); }
  }

  lemma {:induction false} TrimRightEdge(s: string, drop: char -> bool)
    ensures var r := TrimRight(s, drop);
            (r == "" || !drop(r[|r| - 1])) && |r| <= |s| && r == s[..|r|]
  {
    if s != "" && drop(s[|s| - 1]) { TrimRightEdge(s[..|s| - 1], drop); }
  }

  lemma TrimTrims(s: string, drop: char -> bool)
    ensures Trimmed(Trim(s, drop), drop)
  {
    TrimLeftEdge(s, drop);
    TrimRightEdge(TrimLeft(s, drop), drop);
  }

  lemma {:induction false} TrimLeftShortens(s: string, drop: char -> bool)
    ensures |TrimLeft(s, drop)| <= |s|
  {
    if s != "" && drop(s[0]) { TrimLeftShortens(s[1..], drop); }
  }

  lemma TrimShortens(s: string, drop: char -> bool)
    ensures |Trim(s, drop)| <= |s| && |TrimRight(s, drop)| <= |s|
  {
    TrimLeftShortens(s, drop);
    TrimRightEdge(TrimLeft(s, drop), drop);
    TrimRightEdge(s, drop);
  }

  function NormalizePath(path: string): string {
    Trim(Trim(path, IsSpace), IsSlash)
  }

  lemma NormalizeFixed(p: string)
    requires Trimmed(p, IsSpace) && Trimmed(p, IsSlash)
    ensures NormalizePath(p) == p
  {
  }

  lemma NormalizedHasNoEdgeSlash(p: string)
    ensures Trimmed(NormalizePath(p), IsSlash)
  {
    TrimTrims(Trim(p, IsSpace), IsSlash);
  }

  // ---------------------------------------------------------------- segments

  predicate StartsWith(s: string, p: string) { |p| <= |s| && s[..|p|] == p }

  predicate EndsWith(s: string, p: string) { |p| <= |s| && s[|s| - |p|..] == p }

  lemma StartsWithTransitive(a: string, b: string, c: string)
    ensures StartsWith(a, b) && StartsWith(b, c) ==> StartsWith(a, c)
  {
    if StartsWith(a, b) && StartsWith(b, c) {
      assert a[..|c|] == a[..|b|][..|c|];
    }
  }

  function FirstSlash(s: string): (i: nat)
    requires '/' in s
    ensures i < |s| && s[i] == '/' && '/' !in s[..i]
  {
    if s[0] == '/' then 0 else FirstSlash(s[1..]) + 1
  }

  function Split(s: string): (parts: seq<string>)
    ensures |parts| > 0
    ensures forall i :: 0 <= i < |parts| ==> '/' !in parts[i]
    decreases |s|
  {
    if '/' !in s then [s] else
      var i := FirstSlash(s);
      [s[..i]] + Split(s[i + 1..])
  }

  function Join(parts: seq<string>): string
    requires |parts| > 0
  {
    if |parts| == 1 then parts[0] else parts[0] + "/" + Join(parts[1..])
  }

  lemma CutAt(s: string, i: nat)
    requires i < |s| && s[i] == '/'
    ensures s[..i] + "/" + s[i + 1..] == s
  {
  }

  lemma {:induction false} JoinSplit(s: string)
    ensures Join(Split(s)) == s
    decreases |s|
  {
    if '/' in s {
      var i := FirstSlash(s);
      JoinSplit(s[i + 1..]);
      SplitUnfolds(s);
      assert Split(s)[1..] == Split(s[i + 1..]);
      CutAt(s, i);
    }
  }

  lemma SplitUnfolds(s: string)
    requires '/' in s
    ensures Split(s) == [s[..FirstSlash(s)]] + Split(s[FirstSlash(s) + 1..])
  {
  }

  lemma SplitAt(s: string, j: nat)
    requires j < |s| && s[j] == '/' && '/' !in s[..j]
    ensures Split(s) == [s[..j]] + Split(s[j + 1..])
  {
    FirstSlashIs(s, j);
    SplitUnfolds(s);
  }

  /** A last segment adds one. */
  lemma SplitLast(a: string, b: string)
    requires '/' !in b
    ensures Split(a + "/" + b) == Split(a) + [b]
  {
    SplitConcat(a, b);
    assert Split(b) == [b];
  }

  lemma SlicesOfConcat(a: string, b: string, j: nat)
    requires j < |a|
    ensures var s := a + "/" + b; s[..j] == a[..j] && s[j] == a[j] && s[j + 1..] == a[j + 1..] + "/" + b
  {
  }

  /** The first segment of a joined text that starts with a slashed part. */
  lemma SplitConcatHead(a: string, b: string, j: nat)
    requires j < |a| && a[j] == '/' && '/' !in a[..j]
    ensures Split(a + "/" + b) == [a[..j]] + Split(a[j + 1..] + "/" + b)
  {
    SlicesOfConcat(a, b, j);
    SplitAt(a + "/" + b, j);
  }

  lemma SplitConcatPlain(a: string, b: string)
    requires '/' !in a
    ensures Split(a + "/" + b) == [a] + Split(b) && Split(a) == [a]
  {
    var s := a + "/" + b;
    assert s[..|a|] == a && s[|a|] == '/' && s[|a| + 1..] == b;
    SplitAt(s, |a|);
  }

  lemma AssocSegments(a: seq<string>, b: seq<string>, c: seq<string>)
    ensures a + (b + c) == (a + b) + c
  {
  }

  lemma {:induction false} SplitConcat(a: string, b: string)
    ensures Split(a + "/" + b) == Split(a) + Split(b)
    decreases |a|
  {
    if '/' in a {
      var j := FirstSlash(a);
      SplitConcatHead(a, b, j);
      SplitConcat(a[j + 1..], b);
      SplitAt(a, j);
      AssocSegments([a[..j]], Split(a[j + 1..]), Split(b));
    } else {
      SplitConcatPlain(a, b);
    }
  }

  lemma FirstSlashIs(s: string, j: nat)
    requires j < |s| && s[j] == '/' && '/' !in s[..j]
    ensures '/' in s && FirstSlash(s) == j
  {
    var i := FirstSlash(s);
    forall k | 0 <= k < i ensures s[k] != '/' { assert s[..i][k] == s[k]; }
    forall k | 0 <= k < j ensures s[k] != '/' { assert s[..j][k] == s[k]; }
  }

  lemma {:induction false} SplitJoin(parts: seq<string>)
    requires |parts| > 0
    requires forall i :: 0 <= i < |parts| ==> '/' !in parts[i]
    ensures Split(Join(parts)) == parts
    decreases |parts|
  {
    if |parts| > 1 {
      var rest := parts[1..];
      forall i | 0 <= i < |rest| ensures '/' !in rest[i] { assert rest[i] == parts[i + 1]; }
      SplitJoin(rest);
      SplitConcatPlain(parts[0], Join(rest));
      assert parts == [parts[0]] + rest;
    }
  }

  lemma {:induction false} JoinConcat(a: seq<string>, b: seq<string>)
    requires |a| > 0 && |b| > 0
    ensures Join(a + b) == Join(a) + "/" + Join(b)
    decreases |a|
  {
    if |a| == 1 {
      assert (a + b)[1..] == b;
    } else {
      JoinConcat(a[1..], b);
      assert (a + b)[1..] == a[1..] + b;
    }
  }

  // ------------------------------------------------------- well-formed paths

  predicate CleanSegment(seg: string) {
    seg != "" && seg != "." && seg != ".." && '\\' !in seg
  }

  /** What safe_object_path lets through: no empty, "." or ".." segment and no backslash. */
  predicate Clean(p: string) { AllClean(Split(p)) }

  /** A clean path without white space at either end. */
  predicate Canonical(p: string) {
    Clean(p) && Trimmed(p, IsSpace)
  }

  predicate AllClean(parts: seq<string>) { forall i :: 0 <= i < |parts| ==> CleanSegment(parts[i]) }

  lemma AllCleanConcat(a: seq<string>, b: seq<string>)
    ensures AllClean(a + b) <==> AllClean(a) && AllClean(b)
  {
    if AllClean(a + b) {
      forall i | 0 <= i < |a| ensures CleanSegment(a[i]) { assert (a + b)[i] == a[i]; }
      forall i | 0 <= i < |b| ensures CleanSegment(b[i]) { assert (a + b)[|a| + i] == b[i]; }
    }
  }

  lemma CleanConcat(a: string, b: string)
    ensures Clean(a + "/" + b) <==> Clean(a) && Clean(b)
  {
    SplitConcat(a, b);
    AllCleanConcat(Split(a), Split(b));
  }

  lemma CleanIsTrimmed(p: string)
    requires Clean(p)
    ensures p != "" && Trimmed(p, IsSlash)
  {
    assert Split("") == [""] && !CleanSegment(Split("")[0]);
    assert p != "";
    var tail, init := p[1..], p[..|p| - 1];
    CleanConcat("", tail);
    assert p[0] == '/' ==> "" + "/" + tail == p;
    CleanConcat(init, "");
    assert p[|p| - 1] == '/' ==> init + "/" + "" == p;
  }

  lemma CanonicalIsNormal(p: string)
    requires Canonical(p)
    ensures p != "" && Trimmed(p, IsSlash) && NormalizePath(p) == p
  {
    CleanIsTrimmed(p);
    NormalizeFixed(p);
  }

  /** At or below the folder. */
  predicate Inside(folder: string, path: string) { path == folder || StartsWith(path, folder + "/") }

  lemma CanonicalJoin(folder: string, tail: string)
    requires folder != "" && Canonical(tail)
    ensures Canonical(folder + "/" + tail) <==> Clean(folder) && !IsSpace(folder[0])
  {
    var p := folder + "/" + tail;
    CleanConcat(folder, tail);
    CanonicalIsNormal(tail);
    assert p[0] == folder[0] && p[|p| - 1] == tail[|tail| - 1];
  }

  /** A folder above a canonical path is clean and does not begin with white space. */
  lemma AboveCanonical(folder: string, path: string)
    requires folder != "" && Canonical(path) && Inside(folder, path)
    ensures Clean(folder) && !IsSpace(folder[0])
  {
    CanonicalIsNormal(path);
    if path != folder {
      var rest := path[|folder| + 1..];
      assert path == folder + "/" + rest;
      CleanConcat(folder, rest);
      assert path[0] == folder[0];
    }
  }

  lemma LetterIsCanonical(c: char)
    requires 'a' <= c <= 'z'
    ensures Canonical([c])
  {
    assert Split([c]) == [[c]];
    assert CleanSegment([c]);
  }

  // ---------------------------------------------------------- folder markers

  function FolderPlaceholderPath(folder: string): string {
    var f := NormalizePath(folder);
    if f == "" then MARKER else f + "/" + MARKER
  }

  function FolderPathFromPlaceholder(name: string): string {
    var n := NormalizePath(name);
    if n == MARKER then ""
    else if EndsWith(n, "/" + MARKER) then n[..|n| - |MARKER| - 1]
    else n
  }

  /** The folder a marker can stand for: the bucket root or a canonical path. */
  predicate FolderName(f: string) { f == "" || Canonical(f) }

  lemma MarkerChars()
    ensures '/' !in MARKER && '\\' !in MARKER
    ensures MARKER[0] == '.' && MARKER[|MARKER| - 1] == 'r' && |MARKER| == 23
  {
  }

  lemma MarkerIsClean()
    ensures Clean(MARKER) && Trimmed(MARKER, IsSpace) && '/' !in MARKER
  {
    MarkerChars();
    var m := MARKER;
    assert '/' !in m && '\\' !in m && |m| == 23;
    assert Split(m) == [m];
    assert CleanSegment(m);
  }

  lemma MarkerNormal(f: string)
    requires FolderName(f)
    ensures NormalizePath(FolderPlaceholderPath(f)) == FolderPlaceholderPath(f)
    ensures FolderPlaceholderPath(f) == if f == "" then MARKER else f + "/" + MARKER
    ensures Canonical(FolderPlaceholderPath(f))
  {
    MarkerIsClean();
    if f == "" {
      NormalizeFixed(f);
    } else {
      CanonicalIsNormal(f);
      CleanConcat(f, MARKER);
      var m := f + "/" + MARKER;
      assert m[|m| - 1] == MARKER[|MARKER| - 1];
    }
    CanonicalIsNormal(FolderPlaceholderPath(f));
  }

  /** The marker name of a folder leads back to that folder. */
  lemma MarkerRoundTrip(f: string)
    requires FolderName(f)
    ensures FolderPathFromPlaceholder(FolderPlaceholderPath(f)) == f
  {
    MarkerNormal(f);
    MarkerIsClean();
    if f != "" { SuffixCut(f, MARKER); }
  }

  /** The text before a slash and a name without one. */
  lemma SuffixCut(f: string, m: string)
    requires '/' !in m
    ensures var n := f + "/" + m;
            n != m && |n| == |f| + 1 + |m| && EndsWith(n, "/" + m) && n[..|n| - |m| - 1] == f
  {
    var n := f + "/" + m;
    assert n[|f|] == '/';
    assert n[|f|..] == "/" + m;
  }

  lemma TrimRightStrips(s: string, drop: char -> bool)
    requires s != "" && drop(s[|s| - 1])
    ensures |TrimRight(s, drop)| < |s|
  {
    TrimRightEdge(s[..|s| - 1], drop);
  }

  lemma BlankEndShrinks(f: string)
    requires f != "" && !IsSpace(f[0]) && IsSpace(f[|f| - 1])
    ensures |NormalizePath(f)| < |f|
  {
    TrimRightStrips(f, IsSpace);
    TrimShortens(Trim(f, IsSpace), IsSlash);
  }

  /**
   Conversely, a canonical marker name is the marker of the folder read from it if and only if that
   folder is canonical or the root: reading keeps white space at its end, building strips it.
   */
  lemma MarkerNameRoundTrip(name: string)
    requires Canonical(name)
    requires name == MARKER || EndsWith(name, "/" + MARKER)
    ensures FolderPlaceholderPath(FolderPathFromPlaceholder(name)) == name <==>
      FolderName(FolderPathFromPlaceholder(name))
    ensures Clean(FolderPathFromPlaceholder(name)) || name == MARKER
  {
    CanonicalIsNormal(name);
    if name == MARKER {
      NormalizeFixed("");
    } else {
      var f := name[..|name| - |MARKER| - 1];
      assert name == f + "/" + MARKER;
      CleanConcat(f, MARKER);
      CleanIsTrimmed(f);
      if Canonical(f) {
        CanonicalIsNormal(f);
      } else {
        BlankEndShrinks(f);
      }
    }
  }

  // -------------------------------------------------------- safe_object_path

  datatype PathError = EmptyPath | ParentSegment

  function Slashed(path: string): (r: string)
    ensures |r| == |path|
    ensures forall i :: 0 <= i < |r| ==> r[i] == if path[i] == '\\' then '/' else path[i]
  {
    seq(|path|, i requires 0 <= i < |path| => if path[i] == '\\' then '/' else path[i])
  }

  /** The segments kept: empty and "." ones are dropped. */
  function KeptSegments(parts: seq<string>): seq<string> {
    if parts == [] then []
    else if parts[0] == "" || parts[0] == "." then KeptSegments(parts[1..])
    else [parts[0]] + KeptSegments(parts[1..])
  }

  function SafeObjectPath(path: string): Result<string, PathError> {
    var raw := Trim(Slashed(path), IsSlash);
    var kept := KeptSegments(Split(raw));
    if raw == "" then Err(EmptyPath)
    else if ".." in kept then Err(ParentSegment)
    else if kept == [] then Err(EmptyPath)
    else Ok(Join(kept))
  }

  lemma KeptSegmentsAppend(a: seq<string>, b: seq<string>)
    ensures KeptSegments(a + b) == KeptSegments(a) + KeptSegments(b)
  {
    if a == [] {
      assert a + b == b;
    } else {
      assert (a + b)[1..] == a[1..] + b;
    }
  }

  /** The loop that builds the list of parts. */
  method SafeObjectPathLoop(path: string) returns (r: Result<string, PathError>)
    ensures r == SafeObjectPath(path)
  {
    var raw := Trim(Slashed(path), IsSlash);
    if raw == "" { return Err(EmptyPath); }
    var segments := Split(raw);
    var parts: seq<string> := [];
    for i := 0 to |segments|
      invariant parts == KeptSegments(segments[..i])
      invariant ".." !in parts
    {
      assert segments[..i + 1] == segments[..i] + [segments[i]];
      KeptSegmentsAppend(segments[..i], [segments[i]]);
      assert segments == segments[..i + 1] + segments[i + 1..];
      KeptSegmentsAppend(segments[..i + 1], segments[i + 1..]);
      if segments[i] == "" || segments[i] == "." { continue; }
      if segments[i] == ".." { return Err(ParentSegment); }
      parts := parts + [segments[i]];
    }
    assert segments[..|segments|] == segments;
    if parts == [] { return Err(EmptyPath); }
    return Ok(Join(parts));
  }

  lemma {:induction false} KeptSegmentsClean(parts: seq<string>)
    ensures forall x :: x in KeptSegments(parts) ==> x in parts && x != "" && x != "."
    ensures forall x :: x in parts && x != "" && x != "." ==> x in KeptSegments(parts)
  {
    if parts != [] { KeptSegmentsClean(parts[1..]); }
  }

  lemma {:induction false} KeptSegmentsAll(parts: seq<string>)
    requires forall i :: 0 <= i < |parts| ==> CleanSegment(parts[i])
    ensures KeptSegments(parts) == parts && ".." !in parts
  {
    if parts != [] { KeptSegmentsAll(parts[1..]); }
  }

  lemma {:induction false} SplitChars(s: string, c: char)
    requires c !in s
    ensures forall i :: 0 <= i < |Split(s)| ==> c !in Split(s)[i]
    decreases |s|
  {
    if '/' in s { SplitChars(s[FirstSlash(s) + 1..], c); }
  }

  lemma TrimChars(s: string, drop: char -> bool, c: char)
    requires c !in s
    ensures c !in Trim(s, drop)
  {
    TrimLeftChars(s, drop, c);
    TrimRightEdge(TrimLeft(s, drop), drop);
  }

  lemma {:induction false} TrimLeftChars(s: string, drop: char -> bool, c: char)
    requires c !in s
    ensures c !in TrimLeft(s, drop)
  {
    if s != "" && drop(s[0]) { TrimLeftChars(s[1..], drop, c); }
  }

  /** Every accepted path comes out clean. */
  lemma SafePathIsClean(path: string)
    requires SafeObjectPath(path).Ok?
    ensures Clean(SafeObjectPath(path).value)
  {
    var raw := Trim(Slashed(path), IsSlash);
    var kept := KeptSegments(Split(raw));
    TrimChars(Slashed(path), IsSlash, '\\');
    SplitChars(raw, '\\');
    KeptSegmentsClean(Split(raw));
    forall i | 0 <= i < |kept| ensures '/' !in kept[i] && CleanSegment(kept[i]) {
      assert kept[i] in kept;
    }
    SplitJoin(kept);
  }

  lemma SlashedFixed(p: string)
    requires '\\' !in p
    ensures Slashed(p) == p
  {
  }

  lemma {:induction false} CleanHasNoBackslash(p: string)
    requires Clean(p)
    ensures '\\' !in p
    decreases |p|
  {
    if '/' in p {
      var i := FirstSlash(p);
      assert p == p[..i] + "/" + p[i + 1..];
      CleanConcat(p[..i], p[i + 1..]);
      CleanHasNoBackslash(p[i + 1..]);
      assert Split(p[..i]) == [p[..i]];
      assert CleanSegment(Split(p[..i])[0]);
    } else {
      assert CleanSegment(Split(p)[0]);
    }
  }

  /** The fixed points of safe_object_path are exactly the clean paths. */
  lemma SafePathFixedPoints(p: string)
    ensures SafeObjectPath(p) == Ok(p) <==> Clean(p)
  {
    if Clean(p) {
      CleanIsTrimmed(p);
      CleanHasNoBackslash(p);
      SlashedFixed(p);
      KeptSegmentsAll(Split(p));
      JoinSplit(p);
    }
    if SafeObjectPath(p) == Ok(p) { SafePathIsClean(p); }
  }

  lemma SafePathIdempotent(path: string)
    requires SafeObjectPath(path).Ok?
    ensures SafeObjectPath(SafeObjectPath(path).value) == SafeObjectPath(path)
  {
    SafePathIsClean(path);
    SafePathFixedPoints(SafeObjectPath(path).value);
  }

  // ------------------------------------------- what safe_object_path makes of a path

  function Kept(path: string): seq<string> { KeptSegments(Split(Slashed(path))) }

  lemma {:induction false} KeptWithoutLeft(x: string)
    ensures KeptSegments(Split(TrimLeft(x, IsSlash))) == KeptSegments(Split(x))
    decreases |x|
  {
    if x != "" && x[0] == '/' {
      KeptWithoutLeft(x[1..]);
      assert x == "" + "/" + x[1..];
      KeptOfJoin("", x[1..]);
      assert Split("") == [""] && KeptSegments([""]) == [];
    }
  }

  lemma {:induction false} KeptWithoutRight(x: string)
    ensures KeptSegments(Split(TrimRight(x, IsSlash))) == KeptSegments(Split(x))
    decreases |x|
  {
    if x != "" && x[|x| - 1] == '/' {
      var init := x[..|x| - 1];
      KeptWithoutRight(init);
      assert x == init + "/";
      KeptBeforeSlash(init);
    }
  }

  lemma KeptBeforeSlash(init: string)
    ensures KeptSegments(Split(init + "/")) == KeptSegments(Split(init))
  {
    KeptOfJoin(init, "");
    assert init + "/" + "" == init + "/";
    assert Split("") == [""] && KeptSegments([""]) == [];
  }

  lemma KeptOfJoin(a: string, b: string)
    ensures KeptSegments(Split(a + "/" + b)) == KeptSegments(Split(a)) + KeptSegments(Split(b))
  {
    SplitConcat(a, b);
    KeptSegmentsAppend(Split(a), Split(b));
  }

  /** What the kept segments come to. */
  function Joined(kept: seq<string>): Result<string, PathError> {
    if ".." in kept then Err(ParentSegment) else if kept == [] then Err(EmptyPath) else Ok(Join(kept))
  }

  lemma SafePathOfKept(path: string)
    ensures SafeObjectPath(path) == Joined(Kept(path))
  {
    var x := Slashed(path);
    KeptWithoutLeft(x);
    KeptWithoutRight(TrimLeft(x, IsSlash));
    assert Split("") == [""] && KeptSegments([""]) == [];
  }

  /** Either may be refused; else what is left is joined. */
  function Both(x: Result<string, PathError>, y: Result<string, PathError>): Result<string, PathError> {
    if x == Err(ParentSegment) || y == Err(ParentSegment) then Err(ParentSegment)
    else if x.Err? then y
    else if y.Err? then x
    else Ok(x.value + "/" + y.value)
  }

  lemma JoinedBoth(a: seq<string>, b: seq<string>)
    ensures Joined(a + b) == Both(Joined(a), Joined(b))
  {
    if a != [] && b != [] { JoinConcat(a, b); }
    if a == [] { assert a + b == b; }
    if b == [] { assert a + b == a; }
  }

  /** A path without slashes and backslashes is one segment: kept, dropped, or refused. */
  lemma SafePathOfSegment(segment: string)
    requires '/' !in segment && '\\' !in segment
    ensures SafeObjectPath(segment)
      == if segment == "" || segment == "." then Err(EmptyPath)
         else if segment == ".." then Err(ParentSegment)
         else Ok(segment)
  {
    SafePathOfKept(segment);
    SlashedFixed(segment);
    assert Split(segment) == [segment];
    assert KeptSegments([segment]) == if segment == "" || segment == "." then [] else [segment];
  }

  /** The path of two halves comes to what the halves come to. */
  lemma SafePathOfJoin(a: string, b: string)
    ensures SafeObjectPath(a + "/" + b) == Both(SafeObjectPath(a), SafeObjectPath(b))
  {
    SafePathOfKept(a);
    SafePathOfKept(b);
    SafePathOfKept(a + "/" + b);
    SlashedJoin(a, b);
    KeptOfJoin(Slashed(a), Slashed(b));
    JoinedBoth(Kept(a), Kept(b));
  }

  lemma SlashedJoin(a: string, b: string)
    ensures Slashed(a + "/" + b) == Slashed(a) + "/" + Slashed(b)
  {
  }

  /** A backslash counts as a slash. */
  lemma SafePathOfBackslash(a: string, b: string)
    ensures SafeObjectPath(a + "\\" + b) == SafeObjectPath(a + "/" + b)
  {
    assert Slashed(a + "\\" + b) == Slashed(a + "/" + b);
  }
}
