/**
 The Destination header of COPY and MOVE (_destination_dav_path in apps/webdav/views.py):
 the path of the URL is decoded, the text after the first /dav/ that reaches the end of the
 line is taken, and parsing that text decodes it a second time.
 */
module WebDavDestination {
  import opened Prelude
  import opened Paths
  import opened WebDav

  // ---------------------------------------------------------- the URL's path

  /** The first position whose character satisfies `p`, or the length. */
  function IndexOf(s: string, p: char -> bool): (i: nat)
    ensures i <= |s| && (i < |s| ==> p(s[i]))
    ensures forall k :: 0 <= k < i ==> !p(s[k])
  {
    if s == "" || p(s[0]) then 0 else IndexOf(s[1..], p) + 1
  }

  predicate IsColon(c: char) { c == ':' }
  predicate IsNewline(c: char) { c == '\n' }
  predicate IsHash(c: char) { c == '#' }
  predicate IsQuestion(c: char) { c == '?' }
  predicate EndsAuthority(c: char) { c == '/' || c == '?' || c == '#' }
  predicate SchemeChar(c: char) { IsAlpha(c) || IsDigit(c) || c == '+' || c == '-' || c == '.' }

  predicate IsScheme(s: string) { s != "" && IsAlpha(s[0]) && forall i :: 0 <= i < |s| ==> SchemeChar(s[i]) }

  function DropScheme(url: string): string {
    var i := IndexOf(url, IsColon);
    if i < |url| && IsScheme(url[..i]) then url[i + 1..] else url
  }

  function DropAuthority(url: string): string {
    if StartsWith(url, "//") then url[2..][IndexOf(url[2..], EndsAuthority)..] else url
  }

  /** The path component of a URL. */
  function UrlPath(url: string): string {
    var rest := DropAuthority(DropScheme(url));
    var beforeHash := rest[..IndexOf(rest, IsHash)];
    beforeHash[..IndexOf(beforeHash, IsQuestion)]
  }

  // --------------------------------------------------------------- the match

  /** A match of "/dav/(.+)$" that starts at `i`: the group runs to the end of the text or to a newline that ends it. */
  function MatchAt(s: string, i: nat): Option<string> {
    if i + 5 <= |s| && s[i..i + 5] == "/dav/" then
      var rest := s[i + 5..];
      var j := IndexOf(rest, IsNewline);
      if j > 0 && j + 1 >= |rest| then Some(rest[..j]) else None
    else None
  }

  function Search(s: string, i: nat): Option<string>
    decreases |s| - i
  {
    if MatchAt(s, i).Some? then MatchAt(s, i)
    else if i < |s| then Search(s, i + 1)
    else None
  }

  function DestinationDavPath(header: string): Option<string> {
    var raw := Trim(header, IsSpace);
    if raw == "" then None
    else
      var path := UrlPath(raw);
      Search(Unquote(if path == "" then raw else path), 0)
  }

  // ------------------------------------------------------------- the address

  /** What may stand before the path: nothing, or a scheme and an authority. */
  datatype Origin = Relative | Absolute(scheme: string, authority: string)

  predicate ValidOrigin(o: Origin) {
    o.Absolute? ==> IsScheme(o.scheme) && forall i :: 0 <= i < |o.authority| ==> !EndsAuthority(o.authority[i])
  }

  function Prefix(o: Origin): string { if o.Relative? then "" else o.scheme + "://" + o.authority }

  lemma IndexIs(s: string, p: char -> bool, i: nat)
    requires i <= |s| && (i < |s| ==> p(s[i])) && forall k :: 0 <= k < i ==> !p(s[k])
    ensures IndexOf(s, p) == i
  {
  }

  lemma PathOfPlain(h: string)
    requires UrlText(h)
    ensures h[..IndexOf(h, IsHash)] == h && h[..IndexOf(h, IsQuestion)] == h
  {
    IndexIs(h, IsHash, |h|);
    IndexIs(h, IsQuestion, |h|);
  }

  lemma UrlPathRelative(h: string)
    requires UrlText(h) && StartsWith(h, "/dav/")
    ensures UrlPath(h) == h
  {
    IndexIs(h, IsColon, |h|);
    PathOfPlain(h);
    assert h[..5][1] == h[1];
  }

  lemma UrlPathAbsolute(scheme: string, authority: string, h: string)
    requires ValidOrigin(Absolute(scheme, authority)) && UrlText(h) && StartsWith(h, "/dav/")
    ensures UrlPath(scheme + "://" + authority + h) == h
  {
    var url := scheme + "://" + authority + h;
    IndexIs(url, IsColon, |scheme|);
    assert url[..|scheme|] == scheme && url[|scheme| + 1..] == "//" + authority + h;
    var rest := authority + h;
    assert ("//" + authority + h)[2..] == rest && ("//" + authority + h)[..2] == "//";
    assert h[..5][0] == h[0];
    IndexIs(rest, EndsAuthority, |authority|);
    assert rest[|authority|..] == h;
    PathOfPlain(h);
  }

  lemma HeaderIsTrimmed(o: Origin, h: string)
    requires ValidOrigin(o) && UrlText(h) && h != ""
    ensures var header := Prefix(o) + h; header != "" && Trim(header, IsSpace) == header
  {
    var header := Prefix(o) + h;
    assert header[|header| - 1] == h[|h| - 1] && UrlChar(h[|h| - 1]);
    assert header[0] == if o.Relative? then h[0] else o.scheme[0];
  }

  /** The header of a href, relative or absolute, is searched as the decoded address. */
  lemma HeaderIsSearched(o: Origin, bucket: string, path: string, collection: bool)
    requires ValidOrigin(o) && BucketName(bucket) && Octets(path) && Tidy(path)
    ensures DestinationDavPath(Prefix(o) + Href(bucket, path, collection))
         == Search("/dav/" + Address(bucket, path, collection), 0)
  {
    var h := Href(bucket, path, collection);
    HrefForm(bucket, path, collection);
    HrefDecodes(bucket, path, collection);
    HeaderIsTrimmed(o, h);
    if o.Relative? {
      assert "" + h == h;
      UrlPathRelative(h);
    } else {
      UrlPathAbsolute(o.scheme, o.authority, h);
    }
  }

  // -------------------------------------------------------------- round trip

  lemma SearchWithoutNewline(a: string)
    requires a != "" && '\n' !in a
    ensures Search("/dav/" + a, 0) == Some(a)
  {
    var s := "/dav/" + a;
    assert s[0..5] == "/dav/" && s[5..] == a;
    IndexIs(a, IsNewline, |a|);
    assert a[..|a|] == a;
  }

  lemma {:induction false} SearchFinds(s: string, i: nat) returns (k: nat)
    requires Search(s, i).Some?
    ensures k >= i && MatchAt(s, k) == Search(s, i)
    decreases |s| - i
  {
    k := i;
    if MatchAt(s, i).None? { k := SearchFinds(s, i + 1); }
  }

  /** What is parsed after the bucket is at least two characters shorter than the whole. */
  lemma RestIsShorter(d: string)
    ensures var rest := ParsePath(d).1; rest == "" || |rest| + 2 <= |d|
  {
    UnquoteFixes(d);
    var u := Unquote(d);
    TrimShortens(u, IsSlash);
    var cleaned := Trim(u, IsSlash);
    TrimTrims(u, IsSlash);
    if '/' in cleaned {
      var i := FirstSlash(cleaned);
      assert i > 0;
      TrimShortens(cleaned[i + 1..], IsSlash);
    }
  }

  lemma CutPathIsShorter(bucket: string, x: string)
    requires BucketName(bucket) && '%' !in bucket
    ensures |ParsePath(bucket + "/" + x).1| <= |x|
  {
    UnquotePlain(bucket + "/", x);
    assert (bucket + "/") + Unquote(x) == bucket + "/" + Unquote(x);
    SplitPathFinds(bucket, Unquote(x));
    UnquoteFixes(x);
    TrimShortens(Unquote(x), IsSlash);
    TrimShortens(TrimRight(Unquote(x), IsSlash), IsSlash);
  }

  /** A match that starts after the front of the address starts at or after the path. */
  lemma LateMatchIsInPath(bucket: string, path: string, collection: bool, i: nat)
    requires BucketName(bucket) && i > 0 && path != ""
    requires MatchAt("/dav/" + Address(bucket, path, collection), i).Some?
    ensures i + 5 >= 5 + |bucket| + 1
  {
    var s := "/dav/" + Address(bucket, path, collection);
    assert s[i..i + 5][4] == s[i + 4];
    assert forall k :: 5 <= k < 5 + |bucket| ==> s[k] == bucket[k - 5];
  }

  /** A match leaves out a newline that it starts before, and then stops one short of the end. */
  lemma MatchSkipsNewline(s: string, i: nat, at: nat)
    requires MatchAt(s, i).Some? && at < |s| && s[at] == '\n'
    ensures var g := MatchAt(s, i).value;
            if i + 5 <= at then at == |s| - 1 && g == s[i + 5..at] else |g| < |s| - at
  {
    var rest := s[i + 5..];
    if i + 5 <= at { assert rest[at - i - 5] == '\n'; }
  }

  lemma AddressAt(bucket: string, path: string, collection: bool, m: nat)
    requires m < |path|
    ensures var s := "/dav/" + Address(bucket, path, collection);
            var at := 6 + |bucket| + m;
            |s| == 6 + |bucket| + |path| + (if collection then 1 else 0) && s[at] == path[m]
            && s[5..at] == bucket + "/" + path[..m]
  {
    var y := path + if collection then "/" else "";
    assert Address(bucket, path, collection) == bucket + "/" + y;
    assert y[..m] == path[..m];
  }

  /** With a newline in the path, whatever is found parses to something shorter than the path. */
  lemma NewlineLosesPath(bucket: string, path: string, collection: bool, m: nat)
    requires BucketName(bucket) && '%' !in bucket && m < |path| && path[m] == '\n'
    requires Search("/dav/" + Address(bucket, path, collection), 0).Some?
    ensures |ParsePath(Search("/dav/" + Address(bucket, path, collection), 0).value).1| < |path|
  {
    var s := "/dav/" + Address(bucket, path, collection);
    var i := SearchFinds(s, 0);
    AddressAt(bucket, path, collection, m);
    MatchSkipsNewline(s, i, 6 + |bucket| + m);
    RestIsShorter(MatchAt(s, i).value);
    if i == 0 {
      CutPathIsShorter(bucket, path[..m]);
    } else {
      LateMatchIsInPath(bucket, path, collection, i);
    }
  }

  /**
   The bucket and path of a Destination header built from a href come back exactly when the path
   holds neither a percent escape nor a newline.
   */
  lemma DestinationRoundTrip(o: Origin, bucket: string, path: string, collection: bool)
    requires ValidOrigin(o) && BucketName(bucket) && '%' !in bucket && '\n' !in bucket && Octets(path) && Tidy(path)
    ensures var d := DestinationDavPath(Prefix(o) + Href(bucket, path, collection));
            (d.Some? && ParsePath(d.value) == (Some(bucket), path)) <==> (!HasEscape(path) && '\n' !in path)
  {
    HeaderIsSearched(o, bucket, path, collection);
    if '\n' in path {
      NewlineIsLost(bucket, path, collection);
    } else {
      PlainIsFound(bucket, path, collection);
    }
  }

  lemma NewlineIsLost(bucket: string, path: string, collection: bool)
    requires BucketName(bucket) && '%' !in bucket && '\n' in path
    ensures var d := Search("/dav/" + Address(bucket, path, collection), 0);
            d.Some? ==> ParsePath(d.value) != (Some(bucket), path)
  {
    var m: nat :| m < |path| && path[m] == '\n';
    if Search("/dav/" + Address(bucket, path, collection), 0).Some? { NewlineLosesPath(bucket, path, collection, m); }
  }

  lemma PlainIsFound(bucket: string, path: string, collection: bool)
    requires BucketName(bucket) && '%' !in bucket && '\n' !in bucket && Octets(path) && Tidy(path) && '\n' !in path
    ensures var d := Search("/dav/" + Address(bucket, path, collection), 0);
            d.Some? && (ParsePath(d.value) == (Some(bucket), path) <==> !HasEscape(path))
  {
    SearchWithoutNewline(Address(bucket, path, collection));
    DecodedTwice(bucket, path, collection);
  }
}
