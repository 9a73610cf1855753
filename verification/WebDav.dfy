/**
 WebDAV addresses (apps/webdav/views.py): percent-encoding of section 2.1 of RFC 3986, the
 href of an object, and the two ways back to its bucket and path. Names are given by their
 UTF-8 octets, one character below 256 for each octet.
 */
module WebDav {
  import opened Prelude
  import opened Paths

  predicate Octets(s: string) { forall i :: 0 <= i < |s| ==> s[i] as int < 256 }

  // ------------------------------------------------------- percent-encoding

  predicate IsAlpha(c: char) { 'a' <= c <= 'z' || 'A' <= c <= 'Z' }
  predicate IsDigit(c: char) { '0' <= c <= '9' }
  predicate Unreserved(c: char) { IsAlpha(c) || IsDigit(c) || c == '_' || c == '.' || c == '-' || c == '~' }
  predicate IsHex(c: char) { IsDigit(c) || 'a' <= c <= 'f' || 'A' <= c <= 'F' }

  function HexDigit(n: int): char
    requires 0 <= n < 16
  {
    if n < 10 then (48 + n) as char else (55 + n) as char
  }

  function HexValue(c: char): int
    requires IsHex(c)
    ensures 0 <= HexValue(c) < 16
  {
    if IsDigit(c) then c as int - 48 else if c >= 'a' then c as int - 87 else c as int - 55
  }

  function QuoteOctet(c: char): string
    requires c as int < 256
  {
    if Unreserved(c) then [c] else ['%', HexDigit(c as int / 16), HexDigit(c as int % 16)]
  }

  function Quote(s: string): string
    requires Octets(s)
  {
    if s == "" then "" else QuoteOctet(s[0]) + Quote(s[1..])
  }

  const HEX := "0123456789ABCDEF"

  /** Unreserved characters stay, every other octet becomes its two capital hexadecimal digits. */
  lemma QuoteOctetExactly(c: char)
    requires c as int < 256
    ensures QuoteOctet(c) ==
      if 'a' <= c <= 'z' || 'A' <= c <= 'Z' || '0' <= c <= '9' || c in "_.-~" then [c]
      else ['%', HEX[c as int / 16], HEX[c as int % 16]]
  {
    forall n | 0 <= n < 16 ensures HexDigit(n) == HEX[n] {}
  }

  /** A text is encoded octet by octet. */
  lemma {:induction false} QuoteConcat(a: string, b: string)
    requires Octets(a) && Octets(b)
    ensures Quote(a + b) == Quote(a) + Quote(b)
    decreases |a|
  {
    if a == "" {
      assert a + b == b;
    } else {
      assert (a + b)[0] == a[0] && (a + b)[1..] == a[1..] + b;
      QuoteConcat(a[1..], b);
    }
  }

  predicate EscapeAt(s: string, i: nat) { i + 2 < |s| && s[i] == '%' && IsHex(s[i + 1]) && IsHex(s[i + 2]) }

  function Unquote(s: string): string {
    if s == "" then ""
    else if EscapeAt(s, 0) then [(16 * HexValue(s[1]) + HexValue(s[2])) as char] + Unquote(s[3..])
    else [s[0]] + Unquote(s[1..])
  }

  /** The text holds a percent sign followed by two hexadecimal digits. */
  predicate HasEscape(s: string) { exists i: nat :: i < |s| && EscapeAt(s, i) }

  lemma Assoc(a: string, b: string, c: string)
    ensures a + (b + c) == (a + b) + c
  {
  }

  lemma QuoteOctetDecodes(c: char, y: string)
    requires c as int < 256
    ensures Unquote(QuoteOctet(c) + y) == [c] + Unquote(y)
  {
    var x := QuoteOctet(c) + y;
    if Unreserved(c) {
      assert x[1..] == y;
    } else {
      assert x[3..] == y;
      assert EscapeAt(x, 0) && 16 * (c as int / 16) + c as int % 16 == c as int;
    }
  }

  /** Decoding undoes encoding, whatever text follows. */
  lemma {:induction false} UnquoteQuote(s: string, y: string)
    requires Octets(s)
    ensures Unquote(Quote(s) + y) == s + Unquote(y)
  {
    if s == "" {
      assert Quote(s) + y == y && s + Unquote(y) == Unquote(y);
    } else {
      var first, rest := QuoteOctet(s[0]), Quote(s[1..]);
      Assoc(first, rest, y);
      QuoteOctetDecodes(s[0], rest + y);
      UnquoteQuote(s[1..], y);
      Assoc([s[0]], s[1..], Unquote(y));
      assert s == [s[0]] + s[1..];
    }
  }

  lemma {:induction false} UnquotePlain(s: string, y: string)
    requires '%' !in s
    ensures Unquote(s + y) == s + Unquote(y)
  {
    if s == "" {
      assert s + y == y && s + Unquote(y) == Unquote(y);
    } else {
      assert (s + y)[0] == s[0] && (s + y)[1..] == s[1..] + y;
      UnquotePlain(s[1..], y);
      Assoc([s[0]], s[1..], Unquote(y));
      assert s == [s[0]] + s[1..];
    }
  }

  lemma {:induction false} UnquoteSlash(s: string)
    ensures Unquote(s + "/") == Unquote(s) + "/"
    decreases |s|
  {
    var x := s + "/";
    if s == "" {
      assert x == "/" && x[1..] == "";
    } else if EscapeAt(s, 0) {
      assert EscapeAt(x, 0) && x[3..] == s[3..] + "/";
      UnquoteSlash(s[3..]);
    } else {
      assert !EscapeAt(x, 0) && x[1..] == s[1..] + "/";
      UnquoteSlash(s[1..]);
    }
  }

  /** Decoding leaves a text alone exactly when it holds no escape, and shortens it otherwise. */
  lemma {:induction false} UnquoteFixes(s: string)
    ensures !HasEscape(s) ==> Unquote(s) == s
    ensures HasEscape(s) ==> |Unquote(s)| < |s|
    ensures |Unquote(s)| <= |s|
    decreases |s|
  {
    if s != "" {
      if EscapeAt(s, 0) {
        UnquoteFixes(s[3..]);
      } else {
        UnquoteFixes(s[1..]);
        forall i: nat | i < |s[1..]| ensures EscapeAt(s[1..], i) == EscapeAt(s, i + 1) {}
        if HasEscape(s) {
          var i: nat :| i < |s| && EscapeAt(s, i);
          assert i != 0;
          var j: nat := i - 1;
          assert EscapeAt(s[1..], j);
        }
      }
    }
  }

  // ------------------------------------------------------------------- hrefs

  function NonEmpty(parts: seq<string>): seq<string> {
    if parts == [] then [] else (if parts[0] == "" then [] else [parts[0]]) + NonEmpty(parts[1..])
  }

  predicate AllOctets(parts: seq<string>) { forall i :: 0 <= i < |parts| ==> Octets(parts[i]) }

  function QuotedSegments(parts: seq<string>): string
    requires AllOctets(parts)
  {
    if parts == [] then "" else "/" + Quote(parts[0]) + QuotedSegments(parts[1..])
  }

  lemma {:induction false} NonEmptyKeepsOctets(parts: seq<string>)
    requires AllOctets(parts)
    ensures AllOctets(NonEmpty(parts))
  {
    if parts != [] { NonEmptyKeepsOctets(parts[1..]); }
  }

  lemma {:induction false} SplitKeepsOctets(s: string)
    requires Octets(s)
    ensures AllOctets(Split(s))
    decreases |s|
  {
    if '/' in s {
      var i := FirstSlash(s);
      assert Octets(s[..i]);
      SplitKeepsOctets(s[i + 1..]);
    }
  }

  function Href(bucket: string, objectPath: string, collection: bool): string
    requires Octets(bucket) && Octets(objectPath)
  {
    SplitKeepsOctets(objectPath);
    NonEmptyKeepsOctets(Split(objectPath));
    var href := "/dav" + (if bucket != "" then "/" + Quote(bucket)
      else "") + QuotedSegments(NonEmpty(Split(objectPath)));
    if collection && href[|href| - 1] != '/' then href + "/" else href
  }

  /** The part of the text before the first slash, and the part after it. */
  function SplitPath(decoded: string): (Option<string>, string) {
    var cleaned := Trim(decoded, IsSlash);
    if cleaned == "" then (None, "")
    else if '/' !in cleaned then (Some(cleaned), "")
    else
      var i := FirstSlash(cleaned);
      (if i == 0 then None else Some(cleaned[..i]), Trim(cleaned[i + 1..], IsSlash))
  }

  function ParsePath(path: string): (Option<string>, string) { SplitPath(Unquote(path)) }

  // -------------------------------------------------------------- round trip

  predicate BucketName(bucket: string) { bucket != "" && Octets(bucket) && '/' !in bucket }

  /** No empty segment; canonical paths and the empty path are of this kind. */
  predicate Tidy(path: string) { path == "" || forall i :: 0 <= i < |Split(path)| ==> Split(path)[i] != "" }

  lemma CleanIsTidy(path: string)
    requires Clean(path)
    ensures Tidy(path)
  {
    forall i | 0 <= i < |Split(path)| ensures Split(path)[i] != "" { assert CleanSegment(Split(path)[i]); }
  }

  /** The decoded address: bucket, path, and a slash at the end of a collection. */
  function Address(bucket: string, path: string, collection: bool): string {
    bucket + (if path == "" then "" else "/" + path) + (if collection then "/" else "")
  }

  lemma {:induction false} QuotedSegmentsDecode(parts: seq<string>, y: string)
    requires AllOctets(parts)
    ensures Unquote(QuotedSegments(parts) + y) == (if parts == [] then "" else "/" + Join(parts)) + Unquote(y)
    decreases |parts|
  {
    if parts == [] {
      assert QuotedSegments(parts) + y == y && "" + Unquote(y) == Unquote(y);
    } else {
      var rest := QuotedSegments(parts[1..]);
      QuotedSegmentsDecode(parts[1..], y);
      RegroupSegment(Quote(parts[0]), rest, y);
      SlashQuoted(parts[0], rest + y);
      JoinStep(parts, Unquote(y));
    }
  }

  lemma RegroupSegment(q: string, rest: string, y: string)
    ensures "/" + q + rest + y == "/" + (q + (rest + y))
  {
  }

  lemma SlashQuoted(a: string, y: string)
    requires Octets(a)
    ensures Unquote("/" + (Quote(a) + y)) == "/" + (a + Unquote(y))
  {
    UnquotePlain("/", Quote(a) + y);
    UnquoteQuote(a, y);
  }

  lemma JoinStep(parts: seq<string>, y: string)
    requires parts != []
    ensures "/" + (parts[0] + ((if parts[1..] == [] then "" else "/" + Join(parts[1..])) + y)) == "/" + Join(parts) + y
  {
  }

  lemma {:induction false} NonEmptyFixed(parts: seq<string>)
    requires forall i :: 0 <= i < |parts| ==> parts[i] != ""
    ensures NonEmpty(parts) == parts
  {
    if parts != [] { NonEmptyFixed(parts[1..]); }
  }

  predicate UrlChar(c: char) { Unreserved(c) || c == '%' || c == '/' }

  predicate UrlText(s: string) { forall i :: 0 <= i < |s| ==> UrlChar(s[i]) }

  lemma {:induction false} QuoteIsUrlText(s: string)
    requires Octets(s)
    ensures UrlText(Quote(s)) && '/' !in Quote(s) && |Quote(s)| >= |s|
  {
    if s != "" { QuoteIsUrlText(s[1..]); }
  }

  lemma {:induction false} SegmentsAreUrlText(parts: seq<string>)
    requires AllOctets(parts) && forall i :: 0 <= i < |parts| ==> parts[i] != ""
    ensures var q := QuotedSegments(parts); UrlText(q) && (q != "" ==> q[0] == '/' && q[|q| - 1] != '/')
  {
    if parts != [] {
      var a, rest := Quote(parts[0]), QuotedSegments(parts[1..]);
      QuoteIsUrlText(parts[0]);
      SegmentsAreUrlText(parts[1..]);
      var q := "/" + a + rest;
      assert q[|q| - 1] == if rest == "" then a[|a| - 1] else rest[|rest| - 1];
      UrlTextConcat("/", a);
      UrlTextConcat("/" + a, rest);
    }
  }

  lemma {:induction false} NonEmptyIsNonEmpty(parts: seq<string>)
    ensures forall i :: 0 <= i < |NonEmpty(parts)| ==> NonEmpty(parts)[i] != ""
  {
    if parts != [] { NonEmptyIsNonEmpty(parts[1..]); }
  }

  lemma UrlTextConcat(a: string, b: string)
    requires UrlText(a) && UrlText(b)
    ensures UrlText(a + b)
  {
  }

  /** The quoted segments of the path, with the slash of a collection. */
  function HrefEnd(path: string, collection: bool): string
    requires Octets(path)
  {
    SplitKeepsOctets(path);
    NonEmptyKeepsOctets(Split(path));
    QuotedSegments(NonEmpty(Split(path))) + if collection then "/" else ""
  }

  lemma HrefEndForm(path: string, collection: bool)
    requires Octets(path)
    ensures var e := HrefEnd(path, collection);
            UrlText(e) && (e != "" ==> e[0] == '/' && (e[|e| - 1] == '/' <==> collection)) && (collection ==> e != "")
  {
    SplitKeepsOctets(path);
    NonEmptyKeepsOctets(Split(path));
    NonEmptyIsNonEmpty(Split(path));
    SegmentsAreUrlText(NonEmpty(Split(path)));
  }

  lemma Regroup(b: string, q: string, y: string)
    ensures "/dav" + ("/" + b) + q + y == "/dav" + ("/" + (b + (q + y)))
  {
  }

  lemma PlainHrefEnd(b: string, q: string)
    requires b != "" && '/' !in b && (q != "" ==> q[|q| - 1] != '/')
    ensures var plain := "/dav" + ("/" + b) + q; plain[|plain| - 1] != '/'
  {
    var plain := "/dav" + ("/" + b) + q;
    assert plain[|plain| - 1] == if q == "" then b[|b| - 1] else q[|q| - 1];
  }

  /** The slash of a collection is always added, as no quoted segment ends in one. */
  lemma HrefIs(bucket: string, path: string, collection: bool)
    requires BucketName(bucket) && Octets(path)
    ensures Href(bucket, path, collection) == "/dav" + ("/" + (Quote(bucket) + HrefEnd(path, collection)))
  {
    SplitKeepsOctets(path);
    NonEmptyKeepsOctets(Split(path));
    NonEmptyIsNonEmpty(Split(path));
    QuoteIsUrlText(bucket);
    SegmentsAreUrlText(NonEmpty(Split(path)));
    PlainHref(Quote(bucket), QuotedSegments(NonEmpty(Split(path))), collection);
  }

  lemma PlainHref(b: string, q: string, collection: bool)
    requires b != "" && '/' !in b && (q != "" ==> q[|q| - 1] != '/')
    ensures var plain := "/dav" + ("/" + b) + q;
            (if collection && plain[|plain| - 1] != '/' then plain + "/" else plain)
            == "/dav" + ("/" + (b + (q + if collection then "/" else "")))
  {
    PlainHrefEnd(b, q);
    var plain := "/dav" + ("/" + b) + q;
    assert plain + "" == plain;
    Regroup(b, q, if collection then "/" else "");
  }

  /**
   An href holds nothing but unreserved characters, percent signs and slashes, and ends in a slash
   exactly for a collection.
   */
  lemma HrefForm(bucket: string, path: string, collection: bool)
    requires BucketName(bucket) && Octets(path)
    ensures var h := Href(bucket, path, collection);
            UrlText(h) && StartsWith(h, "/dav/") && (h[|h| - 1] == '/' <==> collection)
  {
    HrefIs(bucket, path, collection);
    QuoteIsUrlText(bucket);
    HrefEndForm(path, collection);
    var b, e := Quote(bucket), HrefEnd(path, collection);
    UrlTextConcat(b, e);
    UrlTextConcat("/", b + e);
    UrlTextConcat("/dav", "/" + (b + e));
    DavCut(b + e);
    EndOf(b, e);
    EndOf("/", b + e);
    EndOf("/dav", "/" + (b + e));
  }

  lemma EndOf(a: string, x: string)
    ensures x != "" ==> (a + x)[|a + x| - 1] == x[|x| - 1]
    ensures x == "" ==> a + x == a
  {
  }

  lemma HrefEndDecodes(path: string, collection: bool)
    requires Octets(path) && Tidy(path)
    ensures Unquote(HrefEnd(path, collection)) ==
      (if path == "" then "" else "/" + path) + (if collection then "/" else "")
  {
    SplitKeepsOctets(path);
    NonEmptyKeepsOctets(Split(path));
    var y := if collection then "/" else "";
    assert Unquote(y) == y by { assert "/"[1..] == ""; }
    QuotedSegmentsDecode(NonEmpty(Split(path)), y);
    if path == "" {
      assert Split(path) == [""] && NonEmpty(Split(path)) == [];
    } else {
      NonEmptyFixed(Split(path));
      JoinSplit(path);
    }
  }

  /** Decoding an href once gives back the address, percent signs and all. */
  lemma HrefDecodes(bucket: string, path: string, collection: bool)
    requires BucketName(bucket) && Octets(path) && Tidy(path)
    ensures Unquote(Href(bucket, path, collection)) == "/dav/" + Address(bucket, path, collection)
    ensures StartsWith(Href(bucket, path, collection), "/dav/")
    ensures Unquote(Href(bucket, path, collection)[4..]) == "/" + Address(bucket, path, collection)
  {
    HrefIs(bucket, path, collection);
    HrefEndDecodes(path, collection);
    DavCut(Quote(bucket) + HrefEnd(path, collection));
    TailDecodes(bucket, HrefEnd(path, collection), if path ==
      "" then "" else "/" + path, if collection then "/" else "");
  }

  lemma TailDecodes(bucket: string, e: string, middle: string, slash: string)
    requires Octets(bucket) && Unquote(e) == middle + slash
    ensures Unquote("/" + (Quote(bucket) + e)) == "/" + (bucket + middle + slash)
    ensures Unquote("/dav" + ("/" + (Quote(bucket) + e))) == "/dav/" + (bucket + middle + slash)
  {
    SlashQuoted(bucket, e);
    Assoc(bucket, middle, slash);
    UnquotePlain("/dav", "/" + (Quote(bucket) + e));
    Assoc("/dav", "/", bucket + middle + slash);
  }

  lemma DavCut(x: string)
    ensures ("/dav" + ("/" + x))[4..] == "/" + x && StartsWith("/dav" + ("/" + x), "/dav/")
  {
  }

  lemma TrimRightKeeps(a: string, y: string)
    requires a != "" && !IsSlash(a[|a| - 1])
    ensures TrimRight(a + "/" + y, IsSlash) == if TrimRight(y, IsSlash) ==
      "" then a else a + "/" + TrimRight(y, IsSlash)
    decreases |y|
  {
    if y == "" {
      ChopSlash(a);
    } else if IsSlash(y[|y| - 1]) {
      Chop(a, y);
      TrimRightKeeps(a, y[..|y| - 1]);
    } else {
      Chop(a, y);
    }
  }

  lemma ChopSlash(a: string)
    ensures (a + "/" + "")[..|a|] == a && |a + "/" + ""| == |a| + 1 && (a + "/" + "")[|a|] == '/'
  {
  }

  lemma Chop(a: string, y: string)
    requires y != ""
    ensures var s := a + "/" + y; s[|s| - 1] == y[|y| - 1] && s[..|s| - 1] == a + "/" + y[..|y| - 1]
  {
  }

  /** Splitting finds a bucket before its slash and strips what follows. */
  lemma SplitPathFinds(bucket: string, y: string)
    requires bucket != "" && '/' !in bucket
    ensures SplitPath(bucket + "/" + y) == (Some(bucket), Trim(TrimRight(y, IsSlash), IsSlash))
    ensures SplitPath(bucket) == (Some(bucket), "")
  {
    var r := TrimRight(y, IsSlash);
    TrimRightKeeps(bucket, y);
    var s := bucket + "/" + y;
    assert s[0] == bucket[0];
    assert TrimLeft(s, IsSlash) == s && Trim(bucket, IsSlash) == bucket;
    assert Trim("", IsSlash) == "";
    if r != "" {
      var cleaned := bucket + "/" + r;
      assert cleaned[..|bucket|] == bucket && cleaned[|bucket| + 1..] == r;
      FirstSlashIs(cleaned, |bucket|);
    }
  }

  lemma LeadingSlashIsStripped(s: string)
    ensures SplitPath("/" + s) == SplitPath(s)
  {
    assert ("/" + s)[1..] == s;
  }

  lemma SlashedIsUntidy(a: string, b: string)
    requires a == "" || b == ""
    ensures !Tidy(a + "/" + b)
  {
    var parts := Split(a + "/" + b);
    SplitConcat(a, b);
    assert Split("") == [""];
    assert parts[0] == Split(a)[0] && parts[|Split(a)|] == Split(b)[0];
  }

  lemma TidyIsTrimmed(path: string)
    requires Tidy(path)
    ensures Trimmed(path, IsSlash)
  {
    if path != "" {
      var tail, init := path[1..], path[..|path| - 1];
      SlashedIsUntidy("", tail);
      SlashedIsUntidy(init, "");
      assert path[0] == '/' ==> path == "" + "/" + tail;
      assert path[|path| - 1] == '/' ==> path == init + "/" + "";
    }
  }

  lemma TrimTidy(path: string, collection: bool)
    requires Tidy(path)
    ensures var y := path + (if collection then "/" else ""); Trim(TrimRight(y, IsSlash), IsSlash) == path
  {
    TidyIsTrimmed(path);
    if collection { TrimRightKeepsLength(path); } else { assert path + "" == path; }
  }

  /** Splitting the address itself gives the bucket and the path. */
  lemma AddressSplits(bucket: string, path: string, collection: bool)
    requires BucketName(bucket) && Tidy(path)
    ensures SplitPath(Address(bucket, path, collection)) == (Some(bucket), path)
    ensures SplitPath("/" + Address(bucket, path, collection)) == (Some(bucket), path)
  {
    var slash := if collection then "/" else "";
    LeadingSlashIsStripped(Address(bucket, path, collection));
    if path == "" {
      SplitPathFinds(bucket, "");
      assert bucket + "" + slash == if collection then bucket + "/" + "" else bucket;
    } else {
      AddressIs(bucket, path, slash);
      SplitPathFinds(bucket, path + slash);
      TrimTidy(path, collection);
    }
  }

  /** An address that the server hands over undecoded comes back as the bucket and the path, for every octet. */
  lemma HrefRoundTrip(bucket: string, path: string, collection: bool)
    requires BucketName(bucket) && Octets(path) && Tidy(path)
    ensures ParsePath(Href(bucket, path, collection)[4..]) == (Some(bucket), path)
  {
    HrefDecodes(bucket, path, collection);
    AddressSplits(bucket, path, collection);
  }

  /** In particular for every stored name, that is, for what safe_object_path leaves alone. */
  lemma StoredNameRoundTrip(bucket: string, path: string, collection: bool)
    requires BucketName(bucket) && Octets(path) && SafeObjectPath(path) == Ok(path)
    ensures ParsePath(Href(bucket, path, collection)[4..]) == (Some(bucket), path)
  {
    SafePathFixedPoints(path);
    CleanIsTidy(path);
    HrefRoundTrip(bucket, path, collection);
  }

  /** The address decoded once more: the path is decoded, the bucket is not touched. */
  lemma AddressDecodedAgain(bucket: string, path: string, collection: bool)
    requires BucketName(bucket) && '%' !in bucket && path != ""
    ensures Unquote(Address(bucket, path, collection)) ==
      bucket + "/" + Unquote(path) + (if collection then "/" else "")
  {
    var slash := if collection then "/" else "";
    var u := Unquote(path);
    UnquotePlain(bucket + "/", path + slash);
    UnquoteSlash(path);
    assert path + "" == path && u + "" == u;
    AddressIs(bucket, path, slash);
    Assoc(bucket + "/", u, slash);
  }

  lemma AddressIs(bucket: string, path: string, slash: string)
    ensures bucket + ("/" + path) + slash == (bucket + "/") + (path + slash)
  {
  }

  /**
   Where the server or the Destination handling has decoded the address already, parsing decodes
   it a second time: the path comes back exactly when it holds no percent escape.
   */
  lemma DecodedTwice(bucket: string, path: string, collection: bool)
    requires BucketName(bucket) && '%' !in bucket && Octets(path) && Tidy(path)
    ensures ParsePath(Address(bucket, path, collection)) == (Some(bucket), path) <==> !HasEscape(path)
  {
    UnquoteFixes(path);
    if path == "" {
      PlainAddress(bucket, collection);
    } else if HasEscape(path) {
      AddressDecodedAgain(bucket, path, collection);
      EscapedPathIsLost(bucket, path, collection);
    } else {
      PlainPathComesBack(bucket, path, collection);
    }
  }

  lemma PlainAddress(bucket: string, collection: bool)
    requires BucketName(bucket) && '%' !in bucket
    ensures ParsePath(Address(bucket, "", collection)) == (Some(bucket), "") && !HasEscape("")
  {
    var a := Address(bucket, "", collection);
    assert a == if collection then bucket + "/" else bucket;
    UnquotePlain(a, "");
    assert a + "" == a;
    AddressSplits(bucket, "", collection);
  }

  lemma PlainPathComesBack(bucket: string, path: string, collection: bool)
    requires BucketName(bucket) && '%' !in bucket && Tidy(path) && path != "" && Unquote(path) == path
    ensures ParsePath(Address(bucket, path, collection)) == (Some(bucket), path)
  {
    var slash := if collection then "/" else "";
    AddressDecodedAgain(bucket, path, collection);
    Regroup3(bucket, path, slash);
    AddressSplits(bucket, path, collection);
  }

  lemma Regroup3(bucket: string, path: string, slash: string)
    ensures bucket + ("/" + path) + slash == bucket + "/" + path + slash
  {
  }

  lemma EscapedPathIsLost(bucket: string, path: string, collection: bool)
    requires BucketName(bucket) && |Unquote(path)| < |path|
    ensures SplitPath(bucket + "/" + Unquote(path) + (if collection then "/" else "")) != (Some(bucket), path)
  {
    var u := Unquote(path);
    var y := u + if collection then "/" else "";
    assert bucket + "/" + u + (if collection then "/" else "") == bucket + "/" + y;
    SplitPathFinds(bucket, y);
    TrimRightKeepsLength(u);
    TrimShortens(u, IsSlash);
    assert u + "" == u;
    TrimShortens(TrimRight(y, IsSlash), IsSlash);
  }

  lemma TrimRightKeepsLength(u: string)
    ensures TrimRight(u + "/", IsSlash) == TrimRight(u, IsSlash)
  {
    assert (u + "/")[..|u|] == u;
  }
}
