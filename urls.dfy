/** The url keys of the lookup tables: `urldefrag(url)[0]`, and in the tables built by
    sort_by_startTime also the local replay host removed. */
module Urls {
  import opened Events

  /** The replay testbed's host prefix that the lookup tables remove. */
  const LocalHost: string := "localhost.localdomain"
  const LocalPrefix: string := "localhost.localdomain/"

  // ---------------------------------------------------------------------------------------
  // urldefrag: a url without '#' is returned as it is; one with a '#' is split by urlparse
  // and rebuilt by urlunparse without its fragment.

  predicate AsciiLetter(c: char) {
    ('a' <= c <= 'z') || ('A' <= c <= 'Z')
  }

  /** The characters urlsplit accepts in a scheme. */
  predicate SchemeChar(c: char) {
    AsciiLetter(c) || ('0' <= c <= '9') || c == '+' || c == '-' || c == '.'
  }

  function LowerChar(c: char): char {
    if 'A' <= c <= 'Z' then (c as int + 32) as char else c
  }

  /** `str.lower()` on a scheme, whose characters are all ASCII. */
  function Lower(s: string): (r: string)
    ensures |r| == |s| && forall k :: 0 <= k < |s| ==> r[k] == LowerChar(s[k])
  {
    if s == [] then [] else [LowerChar(s[0])] + Lower(s[1..])
  }

  /** Text without capital letters is its own lowercase. */
  lemma LowerKeepsLowercase(s: string)
    requires forall k :: 0 <= k < |s| ==> !('A' <= s[k] <= 'Z')
    ensures Lower(s) == s
  {
    assert forall k :: 0 <= k < |s| ==> Lower(s)[k] == s[k];
  }

  /** `s.find(c)`, with |s| standing for "not found". */
  function Find(s: string, c: char): (r: nat)
    ensures r <= |s| && (forall k :: 0 <= k < r ==> s[k] != c) && (r < |s| ==> s[r] == c)
  {
    if s == [] || s[0] == c then 0 else 1 + Find(s[1..], c)
  }

  /** The first position of any character of `d`, or |s|. */
  function FindAny(s: string, d: set<char>): (r: nat)
    ensures r <= |s| && (forall k :: 0 <= k < r ==> s[k] !in d) && (r < |s| ==> s[r] in d)
  {
    if s == [] || s[0] in d then 0 else 1 + FindAny(s[1..], d)
  }

  /** `s.rfind(c)`, for a character that occurs. */
  function RFind(s: string, c: char): (r: nat)
    requires c in s
    ensures r < |s| && s[r] == c && forall k :: r < k < |s| ==> s[k] != c
  {
    if s[|s| - 1] == c then |s| - 1
    else
      assert s == s[..|s| - 1] + [s[|s| - 1]];
      RFind(s[..|s| - 1], c)
  }

  /** The schemes whose last path segment may carry `;parameters`. */
  const UsesParams: set<string> := {"", "ftp", "hdl", "prospero", "http", "imap", "https",
    "shttp", "rtsp", "rtsps", "rtspu", "sip", "sips", "mms", "sftp", "tel"}

  /** The schemes that have a network location. */
  const UsesNetloc: set<string> := {"", "ftp", "http", "gopher", "nntp", "telnet", "imap",
    "wais", "file", "mms", "https", "shttp", "snews", "prospero", "rtsp", "rtsps", "rtspu",
    "rsync", "svn", "svn+ssh", "sftp", "nfs", "git", "git+ssh", "ws", "wss", "itms-services"}

  /** urlparse's components of a url, the fragment left out. */
  datatype UrlParts = UrlParts(scheme: string, netloc: string, path: string, params: string, query: string)

  /** urlsplit's scheme: the text before the first ':' when it is a nonempty run of scheme
      characters that starts with a letter, lowercased; otherwise there is none. */
  function SplitScheme(url: string): (string, string) {
    var i := Find(url, ':');
    if 0 < i < |url| && AsciiLetter(url[0]) && forall k :: 0 <= k < i ==> SchemeChar(url[k])
    then (Lower(url[..i]), url[i + 1..])
    else ("", url)
  }

  /** urlsplit's network location: after a leading "//", up to the first '/', '?' or '#'. */
  function SplitNetloc(rest: string): (string, string) {
    if |rest| >= 2 && rest[..2] == "//" then
      var d := 2 + FindAny(rest[2..], {'/', '?', '#'});
      (rest[2..d], rest[d..])
    else ("", rest)
  }

  /** _splitparams: the parameters follow the first ';' of the last path segment. */
  function SplitParams(path: string): (r: (string, string))
    requires ';' in path
    ensures '#' !in path ==> '#' !in r.0 && '#' !in r.1
  {
    if '/' in path then
      var j := RFind(path, '/');
      var i := j + Find(path[j..], ';');
      if i == |path| then (path, "") else (path[..i], path[i + 1..])
    else
      var i := Find(path, ';');
      (path[..i], path[i + 1..])
  }

  /** urlsplit's scheme, with no '#' in it. */
  function SchemeOf(url: string): (r: string)
    ensures '#' !in r
  {
    var r := SplitScheme(url).0;
    assert forall k :: 0 <= k < |r| ==> r[k] != '#';
    r
  }

  /** urlsplit's network location, with no '#' in it. */
  function NetlocOf(rest: string): (r: string)
    ensures '#' !in r
  {
    var r := SplitNetloc(rest).0;
    assert forall k :: 0 <= k < |r| ==> r[k] != '#';
    r
  }

  /** What precedes the fragment. */
  function BeforeHash(s: string): (r: string)
    ensures '#' !in r
  {
    var r := s[..Find(s, '#')];
    assert forall k :: 0 <= k < |r| ==> r[k] != '#';
    r
  }

  /** urlparse's split of the parameters off the path, for the schemes that have them. */
  function PathParts(scheme: string, netloc: string, path: string, query: string): (r: UrlParts)
    ensures '#' !in path ==> '#' !in r.path && '#' !in r.params
    ensures r.scheme == scheme && r.netloc == netloc && r.query == query
  {
    if scheme in UsesParams && ';' in path then
      var pp := SplitParams(path);
      UrlParts(scheme, netloc, pp.0, pp.1, query)
    else UrlParts(scheme, netloc, path, "", query)
  }

  /** urlparse, the fragment dropped. */
  function Parse(url: string): (r: UrlParts)
    ensures '#' !in r.scheme && '#' !in r.netloc && '#' !in r.path && '#' !in r.params && '#' !in r.query
  {
    var rest := SplitScheme(url).1;
    var body := BeforeHash(SplitNetloc(rest).1);
    var q := Find(body, '?');
    assert '#' !in body[..q] && '#' !in body[q..];
    PathParts(SchemeOf(url), NetlocOf(rest), body[..q], if q < |body| then body[q + 1..] else "")
  }

  /** The path with its parameters joined back; empty parameters leave no ';'. */
  function JoinParams(path: string, params: string): (r: string)
    ensures '#' !in path && '#' !in params ==> '#' !in r
  {
    if params != "" then path + ";" + params else path
  }

  /** urlunsplit's network part: "//" and the location when there is one, and also for a
      path that starts with "//" or, for the schemes that have a location, is empty or
      starts with '/'. */
  function WithNetloc(scheme: string, netloc: string, url: string): (r: string)
    ensures '#' !in netloc && '#' !in url ==> '#' !in r
  {
    if netloc != "" then "//" + netloc + (if url != "" && url[0] != '/' then "/" + url else url)
    else if |url| >= 2 && url[..2] == "//" then "//" + url
    else if scheme != "" && scheme in UsesNetloc && (url == "" || url[0] == '/') then "//" + url
    else url
  }

  /** urlunparse without a fragment: the scheme and ':' when there is one, then the rest,
      then '?' and the query when the query is not empty. */
  function Unparse(p: UrlParts): (r: string)
    ensures '#' !in p.scheme && '#' !in p.netloc && '#' !in p.path && '#' !in p.params && '#' !in p.query
      ==> '#' !in r
  {
    var url1 := WithNetloc(p.scheme, p.netloc, JoinParams(p.path, p.params));
    var url2 := if p.scheme != "" then p.scheme + ":" + url1 else url1;
    if p.query != "" then url2 + "?" + p.query else url2
  }

  /** `urldefrag(url)[0]`. */
  function Defrag(url: string): (r: string)
    ensures '#' !in r
    ensures '#' !in url ==> r == url
  {
    if '#' in url then Unparse(Parse(url))
    else url
  }

  lemma DefragIdempotent(url: string)
    ensures Defrag(Defrag(url)) == Defrag(url)
  {
  }

  /** The path as urlunparse writes it back after urlparse split its parameters off. */
  function Rejoined(scheme: string, path: string): string {
    var p := PathParts(scheme, "", path, "");
    JoinParams(p.path, p.params)
  }

  /** Splitting the parameters off and joining them back changes a path only by dropping an
      empty parameter section: a ';' that ends the path. */
  lemma RejoinedDropsOnlyEmpty(scheme: string, path: string)
    ensures var r := Rejoined(scheme, path);
      r == path || (|path| > 0 && path[|path| - 1] == ';' && r == path[..|path| - 1])
  {
    if scheme in UsesParams && ';' in path {
      var pp := SplitParams(path);
      assert Rejoined(scheme, path) == JoinParams(pp.0, pp.1);
      SplitParamsRejoins(path);
    }
  }

  /** _splitparams followed by the join, one case of the last segment at a time. */
  lemma SplitParamsRejoins(path: string)
    requires ';' in path
    ensures var pp := SplitParams(path); var r := JoinParams(pp.0, pp.1);
      r == path || (|path| > 0 && path[|path| - 1] == ';' && r == path[..|path| - 1])
  {
    if '/' in path {
      var j := RFind(path, '/');
      var i := j + Find(path[j..], ';');
      if i < |path| {
        JoinAtSemicolon(path, i);
      }
    } else {
      JoinAtSemicolon(path, Find(path, ';'));
    }
  }

  /** Cutting a path at one of its ';' and joining the two halves back. */
  lemma JoinAtSemicolon(path: string, i: nat)
    requires i < |path| && path[i] == ';'
    ensures var r := JoinParams(path[..i], path[i + 1..]);
      r == path || (i == |path| - 1 && r == path[..|path| - 1])
  {
    if i + 1 < |path| {
      assert path[..i] + ";" + path[i + 1..] == path;
    }
  }

  /** `a.find(c)` when `c` follows `a` and is not in it. */
  lemma {:induction false} FindAfter(a: string, c: char, b: string)
    requires forall k :: 0 <= k < |a| ==> a[k] != c
    ensures Find(a + [c] + b, c) == |a|
  {
    if a != [] {
      assert (a + [c] + b)[1..] == a[1..] + [c] + b;
      FindAfter(a[1..], c, b);
    }
  }

  /** The first of the characters `d` after `a`, when `b` starts with one and `a` has none. */
  lemma {:induction false} FindAnyAfter(a: string, b: string, d: set<char>)
    requires forall k :: 0 <= k < |a| ==> a[k] !in d
    requires b != [] && b[0] in d
    ensures FindAny(a + b, d) == |a|
  {
    if a != [] {
      assert (a + b)[1..] == a[1..] + b;
      FindAnyAfter(a[1..], b, d);
    }
  }

  /** A scheme urlsplit recognises: a letter, then letters, digits, '+', '-' or '.'. */
  predicate SchemeText(s: string) {
    |s| > 0 && AsciiLetter(s[0]) && forall k :: 0 <= k < |s| ==> SchemeChar(s[k])
  }

  /** A network location that the first '/', '?' or '#' after it ends. */
  predicate HostText(n: string) {
    n != [] && forall k :: 0 <= k < |n| ==> n[k] != '/' && n[k] != '?' && n[k] != '#'
  }

  /** The query of a url text: a '?' and the query, or nothing. */
  function QueryPart(qmark: bool, query: string): string {
    if qmark then ['?'] + query else []
  }

  /** The url text of the usual shape `scheme://host/path?query#fragment`, the '?' present
      or not. */
  function Hierarchical(s: string, n: string, path: string, qmark: bool, query: string, frag: string): string {
    s + [':'] + ("//" + n + (path + QueryPart(qmark, query) + ['#'] + frag))
  }

  /** The scheme of the usual shape is its lowercased text, and the rest follows the ':'. */
  lemma SchemeOfHierarchical(s: string, rest: string)
    requires SchemeText(s)
    ensures SplitScheme(s + [':'] + rest) == (Lower(s), rest)
  {
    var url := s + [':'] + rest;
    FindAfter(s, ':', rest);
    assert url[..|s|] == s && url[|s| + 1..] == rest;
  }

  /** After "//", the host runs up to the '/', '?' or '#' that starts the tail. */
  lemma NetlocOfHierarchical(n: string, tail: string)
    requires forall k :: 0 <= k < |n| ==> n[k] != '/' && n[k] != '?' && n[k] != '#'
    requires tail != [] && tail[0] in {'/', '?', '#'}
    ensures SplitNetloc("//" + n + tail) == (n, tail)
  {
    var rest := "//" + n + tail;
    assert rest[..2] == "//" && rest[2..] == n + tail;
    FindAnyAfter(n, tail, {'/', '?', '#'});
    assert rest[2..2 + |n|] == n && rest[2 + |n|..] == tail;
  }

  /** urlparse once the scheme, the network location, the body and the query are known. */
  lemma ParseFrom(url: string, netloc: string, tail: string, path: string, query: string)
    requires SplitNetloc(SplitScheme(url).1) == (netloc, tail)
    requires var body := BeforeHash(tail); var q := Find(body, '?');
      body[..q] == path && (if q < |body| then body[q + 1..] else "") == query
    ensures Parse(url) == PathParts(SplitScheme(url).0, netloc, path, query)
  {
  }

  /** The body before the fragment. */
  lemma BodyBeforeHash(body: string, frag: string)
    requires '#' !in body
    ensures BeforeHash(body + ['#'] + frag) == body
  {
    assert forall k :: 0 <= k < |body| ==> body[k] != '#';
    FindAfter(body, '#', frag);
  }

  /** The path ends at the first '?', and the query follows it. */
  lemma QuerySplit(path: string, qmark: bool, query: string)
    requires '?' !in path
    requires !qmark ==> query == []
    ensures var body := path + QueryPart(qmark, query); var q := Find(body, '?');
      body[..q] == path && (if q < |body| then body[q + 1..] else "") == query
  {
    var body := path + QueryPart(qmark, query);
    if qmark {
      assert body == path + ['?'] + query;
      assert forall k :: 0 <= k < |path| ==> path[k] != '?';
      FindAfter(path, '?', query);
      assert body[..|path|] == path && body[|path| + 1..] == query;
    } else {
      assert body == path;
    }
  }

  /** urlparse of the usual shape. */
  lemma ParseOfHierarchical(s: string, n: string, path: string, qmark: bool, query: string, frag: string)
    requires SchemeText(s)
    requires HostText(n)
    requires path == [] || path[0] == '/'
    requires '?' !in path && '#' !in path && '#' !in query
    requires !qmark ==> query == []
    ensures Parse(Hierarchical(s, n, path, qmark, query, frag)) == PathParts(Lower(s), n, path, query)
  {
    var body := path + QueryPart(qmark, query);
    var tail := body + ['#'] + frag;
    var rest := "//" + n + tail;
    SchemeOfHierarchical(s, rest);
    assert tail[0] in {'/', '?', '#'};
    NetlocOfHierarchical(n, tail);
    BodyBeforeHash(body, frag);
    QuerySplit(path, qmark, query);
    ParseFrom(Hierarchical(s, n, path, qmark, query, frag), n, tail, path, query);
  }

  lemma SchemeJoin(a: string, n: string, r: string)
    ensures a + ":" + ("//" + n + r) == a + "://" + n + r
  {
  }

  /** The usual shape has a fragment. */
  lemma HashInHierarchical(s: string, n: string, path: string, qmark: bool, query: string, frag: string)
    ensures '#' in Hierarchical(s, n, path, qmark, query, frag)
  {
    var tail := path + QueryPart(qmark, query) + ['#'] + frag;
    assert tail[|path + QueryPart(qmark, query)|] == '#';
    assert Hierarchical(s, n, path, qmark, query, frag) == s + [':'] + ("//" + n + tail);
  }

  /** A path that starts with '/' still does after the parameter round trip. */
  lemma RejoinedKeepsSlash(scheme: string, path: string)
    requires path == [] || path[0] == '/'
    ensures Rejoined(scheme, path) == [] || Rejoined(scheme, path)[0] == '/'
  {
    RejoinedDropsOnlyEmpty(scheme, path);
  }

  /** urlunparse of the usual shape's parts. */
  lemma UnparseOfHierarchical(scheme: string, n: string, path: string, query: string)
    requires scheme != [] && n != []
    requires Rejoined(scheme, path) == [] || Rejoined(scheme, path)[0] == '/'
    ensures Unparse(PathParts(scheme, n, path, query))
         == scheme + "://" + n + Rejoined(scheme, path) + (if query != [] then "?" + query else "")
  {
    var r := Rejoined(scheme, path);
    var a := scheme + ":" + ("//" + n + r);
    assert Unparse(PathParts(scheme, n, path, query)) == if query != [] then a + "?" + query else a;
    SchemeJoin(scheme, n, r);
  }

  /** A url of the usual shape `scheme://host/path?query#fragment`: the fragment goes, the
      scheme is lowercased, the path loses an empty parameter section, and the query keeps
      its '?' only when it is not empty. */
  lemma DefragOfHierarchical(s: string, n: string, path: string, qmark: bool, query: string, frag: string)
    requires SchemeText(s)
    requires HostText(n)
    requires path == [] || path[0] == '/'
    requires '?' !in path && '#' !in path && '#' !in query
    requires !qmark ==> query == []
    ensures Defrag(Hierarchical(s, n, path, qmark, query, frag))
         == Lower(s) + "://" + n + Rejoined(Lower(s), path) + (if query != [] then "?" + query else "")
  {
    var url := Hierarchical(s, n, path, qmark, query, frag);
    HashInHierarchical(s, n, path, qmark, query, frag);
    ParseOfHierarchical(s, n, path, qmark, query, frag);
    DefragThroughParts(url, PathParts(Lower(s), n, path, query));
    RejoinedKeepsSlash(Lower(s), path);
    UnparseOfHierarchical(Lower(s), n, path, query);
  }

  /** A url with a fragment is rebuilt from its parsed parts. */
  lemma DefragThroughParts(url: string, p: UrlParts)
    requires '#' in url && Parse(url) == p
    ensures Defrag(url) == Unparse(p)
  {
  }

  /** The url as Chrome writes it, with a lowercase scheme, no empty query and no empty
      parameter section: urldefrag only cuts the fragment off. */
  lemma DefragCutsCleanUrl(s: string, n: string, path: string, query: string, frag: string)
    requires SchemeText(s) && forall k :: 0 <= k < |s| ==> !('A' <= s[k] <= 'Z')
    requires HostText(n)
    requires path == [] || (path[0] == '/' && path[|path| - 1] != ';')
    requires '?' !in path && '#' !in path && '#' !in query
    ensures Defrag(Hierarchical(s, n, path, query != [], query, frag))
         == s + "://" + n + path + (if query != [] then "?" + query else "")
  {
    LowerKeepsLowercase(s);
    DefragOfHierarchical(s, n, path, query != [], query, frag);
    RejoinedDropsOnlyEmpty(s, path);
  }

  /** The scheme, host and paths of the examples below. */
  lemma ExampleSchemeAndHost()
    ensures SchemeText("https") && Lower("https") == "https"
    ensures SchemeText("HTTPS") && Lower("HTTPS") == "https"
    ensures HostText("a.com")
    ensures "/p"[0] == '/' && '?' !in "/p" && '#' !in "/p"
    ensures "/a;"[0] == '/' && '?' !in "/a;" && '#' !in "/a;"
  {
  }

  /** The url texts of the examples below in the usual shape, and the expected results. */
  lemma ExampleTexts()
    ensures "https://a.com/p?#x" == Hierarchical("https", "a.com", "/p", true, "", "x")
    ensures "https://a.com/a;#x" == Hierarchical("https", "a.com", "/a;", false, "", "x")
    ensures "HTTPS://a.com/p#x" == Hierarchical("HTTPS", "a.com", "/p", false, "", "x")
    ensures "https" + "://" + "a.com" + "/p" + "" == "https://a.com/p"
    ensures "https" + "://" + "a.com" + "/a" + "" == "https://a.com/a"
  {
  }

  /** A path without ';' is left as it is. */
  lemma RejoinedPlain()
    ensures Rejoined("https", "/p") == "/p"
  {
  }

  /** An empty query loses its '?': `https://a.com/p?#x` gives `https://a.com/p`. */
  lemma DefragDropsEmptyQuery()
    ensures Defrag("https://a.com/p?#x") == "https://a.com/p"
  {
    ExampleSchemeAndHost();
    ExampleTexts();
    RejoinedPlain();
    DefragOfHierarchical("https", "a.com", "/p", true, "", "x");
  }

  /** `_splitparams` of a last segment that ends with an empty parameter section. */
  lemma RejoinedEmptyParams()
    ensures Rejoined("https", "/a;") == "/a"
  {
    assert RFind("/a;", '/') == 0 by {
      assert "/a;"[..2] == "/a" && "/a"[..1] == "/";
      assert RFind("/", '/') == 0;
    }
    assert "/a;"[0..] == "/a;";
    assert Find("/a;", ';') == 2;
  }

  /** An empty parameter section loses its ';': `https://a.com/a;#x` gives `https://a.com/a`. */
  lemma DefragDropsEmptyParams()
    ensures Defrag("https://a.com/a;#x") == "https://a.com/a"
  {
    ExampleSchemeAndHost();
    ExampleTexts();
    RejoinedEmptyParams();
    DefragOfHierarchical("https", "a.com", "/a;", false, "", "x");
  }

  /** The scheme is lowercased: `HTTPS://a.com/p#x` gives `https://a.com/p`. */
  lemma DefragLowersScheme()
    ensures Defrag("HTTPS://a.com/p#x") == "https://a.com/p"
  {
    ExampleSchemeAndHost();
    ExampleTexts();
    RejoinedPlain();
    DefragOfHierarchical("HTTPS", "a.com", "/p", false, "", "x");
  }

  /** `s.replace(pat, '')`: occurrences removed left to right, without overlap. */
  function RemoveAll(s: string, pat: string): (r: string)
    requires |pat| > 0
    ensures |r| <= |s|
    ensures forall c :: c in r ==> c in s
    decreases |s|
  {
    if |s| < |pat| then s
    else if s[..|pat|] == pat then RemoveAll(s[|pat|..], pat)
    else [s[0]] + RemoveAll(s[1..], pat)
  }

  /** The key under which networks_lookup_url and scripts_lookup_url store an activity. */
  function LookupKey(url: string): (r: string)
    ensures '#' !in r
  {
    var u := Defrag(url);
    if Contains(u, LocalHost) then RemoveAll(u, LocalPrefix) else u
  }

  /** Removing a pattern that does not occur changes nothing. */
  lemma {:induction false} RemoveAllAbsent(s: string, pat: string)
    requires |pat| > 0
    requires !Contains(s, pat)
    ensures RemoveAll(s, pat) == s
    decreases |s|
  {
    if |s| >= |pat| {
      if s[..|pat|] == pat {
        assert OccursAt(s, pat, 0);
        assert false;
      }
      forall i | 0 <= i <= |s[1..]| - |pat|
        ensures !OccursAt(s[1..], pat, i)
      {
        assert s[1..][i..i + |pat|] == s[i + 1..i + 1 + |pat|];
        assert !OccursAt(s, pat, i + 1);
      }
      RemoveAllAbsent(s[1..], pat);
    }
  }

  /** The guard on the host name without its slash is no guard at all: the key is always
      the defragmented url with every `localhost.localdomain/` removed. */
  lemma LookupKeyRemovesLocalPrefix(url: string)
    ensures LookupKey(url) == RemoveAll(Defrag(url), LocalPrefix)
  {
    var u := Defrag(url);
    if !Contains(u, LocalHost) {
      if Contains(u, LocalPrefix) {
        var i :| 0 <= i <= |u| - |LocalPrefix| && OccursAt(u, LocalPrefix, i);
        assert u[i..i + |LocalHost|] == LocalPrefix[..|LocalHost|] == LocalHost;
        assert OccursAt(u, LocalHost, i);
        assert false;
      }
      RemoveAllAbsent(u, LocalPrefix);
    }
  }

  /** A url without fragment and without the local prefix is its own key. */
  lemma LookupKeyOfPlainUrl(url: string)
    requires '#' !in url && !Contains(url, LocalPrefix)
    ensures LookupKey(url) == url
  {
    LookupKeyRemovesLocalPrefix(url);
    RemoveAllAbsent(url, LocalPrefix);
  }
}
