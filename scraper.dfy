/**
  The site crawler: which links it follows, how it normalises a URL before
  remembering it, and the breadth-first crawl bounded to ten pages.

  URL splitting and joining follow `urllib.parse` of Python 3.11
  (`urlparse` and `urlunparse`): leading control characters and spaces are
  dropped and tabs and line breaks removed before parsing; the scheme is a
  letter followed by letters, digits, `+`, `-` or `.` before the first `:`;
  the network location follows `//` up to the first `/`, `?` or `#`; then
  the fragment, the query and, for the schemes that use them, the
  parameters after `;` are split off.
 */
module Scraper {
  import opened Wrappers
  import opened Text

  const BaseUrl: string := "https://www.madewithnestle.ca"

  /** The crawl stops once this many URLs have been visited. */
  const MaxPages: nat := 10

  const SkippedSchemes: seq<string> := ["mailto:", "tel:", "javascript:", "view::"]

  const SkippedExtensions: seq<string> :=
    [".pdf", ".svg", ".ico", ".jpg", ".jpeg", ".png", ".gif", ".mp4", ".webm", ".zip", ".exe",
     ".woff", ".ttf", ".css", ".js"]

  // ---------------------------------------------------------------------
  // URL parts

  datatype UrlParts = UrlParts(scheme: string, netloc: string, path: string, params: string,
                               query: string, fragment: string)

  /** The schemes whose last path segment may carry `;` parameters. */
  const UsesParams: set<string> :=
    {"", "ftp", "hdl", "prospero", "http", "imap", "https", "shttp", "rtsp", "rtsps", "rtspu", "sip",
     "sips", "mms", "sftp", "tel"}

  /** The schemes written with `//` even when the network location is empty. */
  const UsesNetloc: set<string> :=
    {"", "ftp", "http", "gopher", "nntp", "telnet", "imap", "wais", "file", "mms", "https", "shttp",
     "snews", "prospero", "rtsp", "rtsps", "rtspu", "rsync", "svn", "svn+ssh", "sftp", "nfs", "git",
     "git+ssh", "ws", "wss"}

  predicate IsSchemeChar(c: char) {
    IsAsciiLetter(c) || IsDigit(c) || c == '+' || c == '-' || c == '.'
  }

  /** The position of the first character of `s` in `cs`, or `|s|`. */
  function FirstIn(s: string, cs: set<char>): (i: nat)
    ensures i <= |s|
    ensures forall k :: 0 <= k < i ==> s[k] !in cs
    ensures i < |s| ==> s[i] in cs
  {
    if s == [] || s[0] in cs then 0 else 1 + FirstIn(s[1..], cs)
  }

  /** The position of the last `c` in `s`. */
  function LastIndex(s: string, c: char): (i: nat)
    requires c in s
    ensures i < |s| && s[i] == c
    ensures forall k :: i < k < |s| ==> s[k] != c
  {
    if s[|s| - 1] == c then |s| - 1 else LastIndex(s[..|s| - 1], c)
  }

  /** Leading C0 control characters and spaces are dropped. */
  function TrimControls(s: string): (r: string)
    ensures |r| <= |s|
  {
    if s != [] && s[0] <= ' ' then TrimControls(s[1..]) else s
  }

  /** Tabs and line breaks are removed wherever they are. */
  function RemoveUnsafe(s: string): (r: string)
    ensures forall k :: 0 <= k < |r| ==> r[k] !in {'\t', '\r', '\n'}
  {
    if s == [] then []
    else (if s[0] in {'\t', '\r', '\n'} then [] else [s[0]]) + RemoveUnsafe(s[1..])
  }

  /** The scheme, lower-cased, and the rest after its `:`; or no scheme. */
  function SplitScheme(url: string): (r: (string, string))
  {
    var i := FirstIn(url, {':'});
    if 0 < i < |url| && IsAsciiLetter(url[0]) && (forall k :: 0 <= k < i ==> IsSchemeChar(url[k]))
    then (Lower(url[..i]), url[i + 1..])
    else ("", url)
  }

  /** `_splitparams`: with a `/` in the string, the parameters start at the
      first `;` at or after the last `/`, and there are none when no such
      `;` exists; without a `/`, they start at the first `;`. */
  function SplitParams(url: string): (r: (string, string))
    requires ';' in url
  {
    var i := ParamsStart(url);
    if i < |url| then (url[..i], url[i + 1..]) else (url, "")
  }

  /** Where `_splitparams` looks for the `;` that opens the parameters:
      `url.find(';', url.rfind('/'))`, or `url.find(';')` without a `/`;
      `|url|` stands for "not found". */
  function ParamsStart(url: string): (i: nat)
    ensures i <= |url|
    ensures i < |url| ==> url[i] == ';'
    ensures forall k :: i <= k < |url| ==> url[k] != '/'
    ensures forall k :: 0 <= k < i && url[k] == ';' ==> '/' in url[k..i]
  {
    if '/' in url then
      var l := LastIndex(url, '/');
      var i := l + FirstIn(url[l..], {';'});
      assert forall k :: l <= k < i ==> url[l..][k - l] == url[k];
      assert url[l..i][0] == '/';
      i
    else FirstIn(url, {';'})
  }

  /** Parameters follow the last segment only: a `;` in an earlier segment
      stays in the path. */
  lemma ParamsAfterLastSlash()
    ensures SplitParams("/a;x/b/;y") == ("/a;x/b/", "y")
  {
    var u := "/a;x/b/;y";
    assert LastIndex(u, '/') == 6;
    assert u[6..] == "/;y";
    assert FirstIn(u[6..], {';'}) == 1;
    assert ParamsStart(u) == 7;
    assert u[..7] == "/a;x/b/" && u[8..] == "y";
  }

  /** The network location after a leading `//`, up to the first `/`, `?`
      or `#`, and what follows it. */
  function SplitNetloc(url: string): (r: (string, string))
  {
    if "//" <= url then
      var rest := url[2..];
      var d := FirstIn(rest, {'/', '?', '#'});
      (rest[..d], rest[d..])
    else ("", url)
  }

  /** The text before the fragment and query, the query and the fragment:
      the fragment follows the first `#`, the query the first `?` before it. */
  function SplitQuery(url: string): (r: (string, string, string))
  {
    var h := FirstIn(url, {'#'});
    var beforeFragment := url[..h];
    var fragment := if h < |url| then url[h + 1..] else "";
    var q := FirstIn(beforeFragment, {'?'});
    var query := if q < |beforeFragment| then beforeFragment[q + 1..] else "";
    (beforeFragment[..q], query, fragment)
  }

  /** `urlparse` */
  function UrlParse(s: string): UrlParts {
    var (scheme, afterScheme) := SplitScheme(RemoveUnsafe(TrimControls(s)));
    var (netloc, afterNetloc) := SplitNetloc(afterScheme);
    var (url, query, fragment) := SplitQuery(afterNetloc);
    var (path, params) := if scheme in UsesParams && ';' in url then SplitParams(url) else (url, "");
    UrlParts(scheme, netloc, path, params, query, fragment)
  }

  /** `urlunparse` */
  function UrlUnparse(p: UrlParts): string {
    var url := if p.params != "" then p.path + ";" + p.params else p.path;
    var withNetloc :=
      if p.netloc != "" || (p.scheme != "" && p.scheme in UsesNetloc && !("//" <= url)) then
        "//" + p.netloc + (if url != "" && url[0] != '/' then "/" + url else url)
      else url;
    var withScheme := if p.scheme != "" then p.scheme + ":" + withNetloc else withNetloc;
    var withQuery := if p.query != "" then withScheme + "?" + p.query else withScheme;
    if p.fragment != "" then withQuery + "#" + p.fragment else withQuery
  }

  // ---------------------------------------------------------------------
  // Following a link

  predicate HasSkippedScheme(href: string) {
    exists k :: 0 <= k < |SkippedSchemes| && SkippedSchemes[k] <= href
  }

  predicate HasSkippedExtension(href: string) {
    exists k :: 0 <= k < |SkippedExtensions| && EndsWith(Lower(href), SkippedExtensions[k])
  }

  /** `is_valid_url`: a link is followed when it is non-empty, has none of
      the skipped schemes or file extensions, and is either relative (no
      network location) or mentions the base URL somewhere. */
  function IsValidUrl(href: string): bool {
    if href == "" then false
    else if HasSkippedScheme(href) then false
    else if HasSkippedExtension(href) then false
    else if UrlParse(href).netloc == "" then true
    else Contains(href, BaseUrl)
  }

  /** Links with a skipped scheme or extension are never followed. */
  lemma SkippedLinksRejected(href: string)
    requires href == "" || HasSkippedScheme(href) || HasSkippedExtension(href)
    ensures !IsValidUrl(href)
  {
  }

  /** A link to another host is followed exactly when the base URL occurs in
      it, wherever that is. */
  lemma HostRule(href: string)
    requires href != "" && !HasSkippedScheme(href) && !HasSkippedExtension(href)
    requires UrlParse(href).netloc != ""
    ensures IsValidUrl(href) <==> Contains(href, BaseUrl)
  {
  }

  /** A relative link (no `:` and no leading `//`) has no network location,
      so it is followed unless its extension is skipped. */
  lemma RelativeLinksFollowed(href: string)
    requires href != "" && ':' !in href && !("//" <= href)
    requires forall k :: 0 <= k < |href| ==> href[k] > ' '
    requires !HasSkippedExtension(href)
    ensures IsValidUrl(href)
  {
    assert !HasSkippedScheme(href) by {
      forall k | 0 <= k < |SkippedSchemes| ensures !(SkippedSchemes[k] <= href) {
        var scheme := SkippedSchemes[k];
        assert scheme[|scheme| - 1] == ':';
      }
    }
    TrimControlsKeeps(href);
    RemoveUnsafeKeeps(href);
    var i := FirstIn(href, {':'});
    assert i == |href|;
  }

  lemma TrimControlsKeeps(s: string)
    requires s == [] || s[0] > ' '
    ensures TrimControls(s) == s
  {
  }

  lemma {:induction false} RemoveUnsafeKeeps(s: string)
    requires forall k :: 0 <= k < |s| ==> s[k] > ' '
    ensures RemoveUnsafe(s) == s
  {
    if s != [] {
      RemoveUnsafeKeeps(s[1..]);
    }
  }

  /** A host that merely starts with the base URL's host is followed too. */
  lemma LookAlikeHostFollowed()
    ensures IsValidUrl("https://www.madewithnestle.ca.example.com/")
  {
    var href := "https://www.madewithnestle.ca.example.com/";
    assert href == BaseUrl + ".example.com/";
    ContainsItself(BaseUrl);
    ContainsAppendLeft(BaseUrl, ".example.com/", BaseUrl);
    assert href[0] == 'h';
    assert !HasSkippedScheme(href);
    LowerLast(href);
  }

  /** Lower-casing keeps the last character when it is not a letter. */
  lemma LowerLast(s: string)
    requires s != [] && s[|s| - 1] == '/'
    ensures !HasSkippedExtension(s)
  {
    assert Lower(s)[|s| - 1] == '/';
  }

  // ---------------------------------------------------------------------
  // Normalising a URL

  /** The parts kept: no query, no fragment, no trailing `/` on the path. */
  function NormalizeParts(p: UrlParts): (r: UrlParts)
    ensures r.query == "" && r.fragment == ""
    ensures r.path == [] || r.path[|r.path| - 1] != '/'
    ensures r.scheme == p.scheme && r.netloc == p.netloc && r.params == p.params
    ensures r.path <= p.path
  {
    p.(path := TrimEndChar(p.path, '/'), query := "", fragment := "")
  }

  /** `normalize_url` */
  function NormalizeUrl(url: string): string {
    UrlUnparse(NormalizeParts(UrlParse(url)))
  }

  /** Normalising the parts twice changes nothing more. */
  lemma NormalizePartsIdempotent(p: UrlParts)
    ensures NormalizeParts(NormalizeParts(p)) == NormalizeParts(p)
  {
    var q := NormalizeParts(p);
    assert TrimEndChar(q.path, '/') == q.path;
  }

  /** URLs that differ only in their query and fragment normalise alike. */
  lemma QueryAndFragmentIgnored(a: string, b: string)
    requires UrlParse(a).(query := "", fragment := "") == UrlParse(b).(query := "", fragment := "")
    ensures NormalizeUrl(a) == NormalizeUrl(b)
  {
  }

  /** A normalised URL holds neither a `?` nor a `#`. */
  lemma NormalizedHasNoQuery(url: string)
    ensures '?' !in NormalizeUrl(url) && '#' !in NormalizeUrl(url)
  {
    PartsFree(url);
    NormalizeFree(UrlParse(url));
    UnparseFree(NormalizeParts(UrlParse(url)));
  }

  /** No part of a parsed URL holds a `?` or a `#`. */
  ghost predicate Free(s: string) {
    '?' !in s && '#' !in s
  }

  /** The parts with neither a `?` nor a `#`, and no query or fragment. */
  ghost predicate FreeParts(p: UrlParts) {
    Free(p.scheme) && Free(p.netloc) && Free(p.path) && Free(p.params) && p.query == "" && p.fragment == ""
  }

  lemma PartsFree(url: string)
    ensures FreeParts(UrlParse(url).(query := "", fragment := ""))
  {
    var s := RemoveUnsafe(TrimControls(url));
    SplitSchemeFree(s);
    var (scheme, afterScheme) := SplitScheme(s);
    SplitNetlocFree(afterScheme);
    var afterNetloc := SplitNetloc(afterScheme).1;
    SplitQueryFree(afterNetloc);
    var u := SplitQuery(afterNetloc).0;
    if scheme in UsesParams && ';' in u {
      SplitParamsFree(u);
    }
  }

  lemma SplitSchemeFree(url: string)
    ensures Free(SplitScheme(url).0)
  {
    SchemeFree(url);
  }

  lemma SplitNetlocFree(url: string)
    ensures Free(SplitNetloc(url).0)
  {
    if "//" <= url {
      var rest := url[2..];
      var d := FirstIn(rest, {'/', '?', '#'});
      assert forall k :: 0 <= k < d ==> rest[..d][k] == rest[k];
    }
  }

  lemma SplitQueryFree(url: string)
    ensures Free(SplitQuery(url).0)
  {
    var h := FirstIn(url, {'#'});
    var beforeFragment := url[..h];
    var q := FirstIn(beforeFragment, {'?'});
    assert forall k :: 0 <= k < q ==> beforeFragment[..q][k] == beforeFragment[k] == url[k];
  }

  lemma SplitParamsFree(url: string)
    requires ';' in url && Free(url)
    ensures Free(SplitParams(url).0) && Free(SplitParams(url).1)
  {
    var i := ParamsStart(url);
    if i < |url| {
      assert forall k :: 0 <= k < i ==> url[..i][k] == url[k];
      assert forall k :: i + 1 <= k < |url| ==> url[i + 1..][k - i - 1] == url[k];
    }
  }

  lemma NormalizeFree(p: UrlParts)
    requires FreeParts(p.(query := "", fragment := ""))
    ensures FreeParts(NormalizeParts(p))
  {
    var n := NormalizeParts(p);
    assert forall k :: 0 <= k < |n.path| ==> n.path[k] == p.path[k];
  }

  lemma SchemeFree(url: string)
    ensures var i := FirstIn(url, {':'});
      0 < i < |url| && IsAsciiLetter(url[0]) && (forall k :: 0 <= k < i ==> IsSchemeChar(url[k])) ==>
      '?' !in Lower(url[..i]) && '#' !in Lower(url[..i])
  {
    var i := FirstIn(url, {':'});
    if 0 < i < |url| && IsAsciiLetter(url[0]) && (forall k :: 0 <= k < i ==> IsSchemeChar(url[k])) {
      var s := url[..i];
      assert forall k :: 0 <= k < |s| ==> IsSchemeChar(s[k]);
      assert forall k :: 0 <= k < |Lower(s)| ==> Lower(s)[k] == LowerChar(s[k]);
    }
  }

  lemma UnparseFree(p: UrlParts)
    requires FreeParts(p)
    ensures Free(UrlUnparse(p))
  {
    FreeAppend(p.path, ";");
    FreeAppend(p.path + ";", p.params);
    var url := if p.params != "" then p.path + ";" + p.params else p.path;
    FreeAppend("/", url);
    var tail := if url != "" && url[0] != '/' then "/" + url else url;
    FreeAppend("//", p.netloc);
    FreeAppend("//" + p.netloc, tail);
    var withNetloc :=
      if p.netloc != "" || (p.scheme != "" && p.scheme in UsesNetloc && !("//" <= url)) then
        "//" + p.netloc + tail
      else url;
    FreeAppend(p.scheme, ":");
    FreeAppend(p.scheme + ":", withNetloc);
  }

  lemma FreeAppend(a: string, b: string)
    requires Free(a) && Free(b)
    ensures Free(a + b)
  {
  }

  // ---------------------------------------------------------------------
  // The crawl

  /** What fetching a page gives: `None` when the page could not be read,
      or the absolute URLs of its links, in document order. Fetching and
      parsing are outside the model. */
  type Fetch = string -> Option<seq<string>>

  /** The links of a fetched page that are queued: the valid ones whose
      text, as written, is not among the visited normalised URLs. */
  function Enqueued(links: seq<string>, visited: set<string>): (r: seq<string>)
    ensures |r| <= |links|
  {
    if links == [] then []
    else
      var init := Enqueued(links[..|links| - 1], visited);
      var link := links[|links| - 1];
      if IsValidUrl(link) && link !in visited then init + [link] else init
  }

  /** Every URL of the list passes `is_valid_url`. */
  predicate AllValid(urls: seq<string>) {
    forall k :: 0 <= k < |urls| ==> IsValidUrl(urls[k])
  }

  /** The queued links are valid and were not visited, as written. */
  lemma {:induction false} EnqueuedValid(links: seq<string>, visited: set<string>)
    ensures var r := Enqueued(links, visited);
      AllValid(r) && forall k :: 0 <= k < |r| ==> r[k] !in visited
    decreases |links|
  {
    if links != [] {
      var init := Enqueued(links[..|links| - 1], visited);
      EnqueuedValid(links[..|links| - 1], visited);
      var link := links[|links| - 1];
      if IsValidUrl(link) && link !in visited {
        SnocKeeps(init, link, u => IsValidUrl(u) && u !in visited);
      }
    }
  }

  /** A property of every element survives appending one more that has it. */
  lemma SnocKeeps<T>(init: seq<T>, x: T, p: T -> bool)
    requires forall k :: 0 <= k < |init| ==> p(init[k])
    requires p(x)
    ensures forall k :: 0 <= k < |init + [x]| ==> p((init + [x])[k])
  {
  }

  /** The crawl from a queue, written once for any way of keying a URL and
      of choosing the links of a page to queue: pops the first URL, skips it
      when its key was visited, and otherwise visits it, stores the page when
      it can be read, and queues the chosen links. It stops when the queue is
      empty or `MaxPages` URLs have been visited. Returns the stored pages,
      the visited set and the queue left over. */
  function CrawlBy(key: string -> string, follow: (seq<string>, set<string>) -> seq<string>,
                   queue: seq<string>, visited: set<string>, data: seq<string>, fetch: Fetch):
    (r: (seq<string>, set<string>, seq<string>))
    requires |visited| <= MaxPages
    decreases MaxPages - |visited|, |queue|
  {
    if queue == [] || |visited| >= MaxPages then (data, visited, queue)
    else
      var url := queue[0];
      var normalized := key(url);
      if normalized in visited then CrawlBy(key, follow, queue[1..], visited, data, fetch)
      else
        var visited' := visited + {normalized};
        match fetch(url)
        case None => CrawlBy(key, follow, queue[1..], visited', data, fetch)
        case Some(links) => CrawlBy(key, follow, queue[1..] + follow(links, visited'), visited', data + [url], fetch)
  }

  /** The crawl of `scrape_site`: URLs keyed by `normalize_url`, and the
      links of a page queued by `Enqueued`. */
  function Crawl(queue: seq<string>, visited: set<string>, data: seq<string>, fetch: Fetch):
    (r: (seq<string>, set<string>, seq<string>))
    requires |visited| <= MaxPages
  {
    CrawlBy(NormalizeUrl, Enqueued, queue, visited, data, fetch)
  }

  /** `scrape_site`: the loop over the queue. */
  method ScrapeSite(startUrl: string, fetch: Fetch) returns (data: seq<string>, visited: set<string>, queue: seq<string>)
    ensures (data, visited, queue) == Crawl([startUrl], {}, [], fetch)
  {
    visited := {};
    data := [];
    queue := [startUrl];
    while queue != [] && |visited| < MaxPages
      invariant |visited| <= MaxPages
      invariant Crawl(queue, visited, data, fetch) == Crawl([startUrl], {}, [], fetch)
      decreases MaxPages - |visited|, |queue|
    {
      queue, visited, data := VisitNext(queue, visited, data, fetch);
    }
  }

  /** One pass of the loop of `scrape_site`: pops the next URL and, unless
      its normalised form was visited, visits it. */
  method VisitNext(queue: seq<string>, visited: set<string>, data: seq<string>, fetch: Fetch)
    returns (queue': seq<string>, visited': set<string>, data': seq<string>)
    requires queue != [] && |visited| < MaxPages
    ensures |visited'| <= MaxPages
    ensures Crawl(queue', visited', data', fetch) == Crawl(queue, visited, data, fetch)
    ensures |visited'| == |visited| + 1 || (visited' == visited && |queue'| < |queue|)
  {
    var url := queue[0];
    var normalized := NormalizeUrl(url);
    if normalized in visited {
      CrawlSkips(NormalizeUrl, Enqueued, queue, visited, data, fetch);
      queue', visited', data' := queue[1..], visited, data;
    } else {
      queue', visited', data' := Visit(queue, visited, data, fetch);
    }
  }

  /** The visit of a URL whose normalised form is new: it is remembered, and
      when its page can be read the page is stored and its links queued. */
  method Visit(queue: seq<string>, visited: set<string>, data: seq<string>, fetch: Fetch)
    returns (queue': seq<string>, visited': set<string>, data': seq<string>)
    requires queue != [] && |visited| < MaxPages && NormalizeUrl(queue[0]) !in visited
    ensures |visited'| == |visited| + 1
    ensures Crawl(queue', visited', data', fetch) == Crawl(queue, visited, data, fetch)
  {
    var url := queue[0];
    var normalized := NormalizeUrl(url);
    visited' := visited + {normalized};
    assert |visited'| == |visited| + 1;
    var content := fetch(url);
    if content.Some? {
      data' := data + [url];
      queue' := EnqueueLinks(queue[1..], content.value, visited');
      CrawlFetched(NormalizeUrl, Enqueued, queue, visited, data, fetch);
    } else {
      queue', data' := queue[1..], data;
      CrawlFailed(NormalizeUrl, Enqueued, queue, visited, data, fetch);
    }
  }

  /** The inner loop of `scrape_site` over the links of a fetched page. */
  method EnqueueLinks(queue: seq<string>, links: seq<string>, visited: set<string>) returns (out: seq<string>)
    ensures out == queue + Enqueued(links, visited)
  {
    out := queue;
    for k := 0 to |links|
      invariant out == queue + Enqueued(links[..k], visited)
    {
      EnqueuedSnoc(links, k, visited);
      if IsValidUrl(links[k]) && links[k] !in visited {
        out := out + [links[k]];
      }
    }
    assert links[..|links|] == links;
  }

  lemma EnqueuedSnoc(links: seq<string>, k: nat, visited: set<string>)
    requires k < |links|
    ensures Enqueued(links[..k + 1], visited) ==
      Enqueued(links[..k], visited) + (if IsValidUrl(links[k]) && links[k] !in visited then [links[k]] else [])
  {
    assert links[..k + 1][..k] == links[..k];
  }

  /** One step of the crawl on a URL whose key was visited. */
  lemma CrawlSkips(key: string -> string, follow: (seq<string>, set<string>) -> seq<string>,
                   queue: seq<string>, visited: set<string>, data: seq<string>, fetch: Fetch)
    requires queue != [] && |visited| < MaxPages && key(queue[0]) in visited
    ensures CrawlBy(key, follow, queue, visited, data, fetch) == CrawlBy(key, follow, queue[1..], visited, data, fetch)
  {
  }

  /** One step of the crawl on a new URL whose page could not be read. */
  lemma CrawlFailed(key: string -> string, follow: (seq<string>, set<string>) -> seq<string>,
                    queue: seq<string>, visited: set<string>, data: seq<string>, fetch: Fetch)
    requires queue != [] && |visited| < MaxPages && key(queue[0]) !in visited
    requires fetch(queue[0]).None?
    ensures CrawlBy(key, follow, queue, visited, data, fetch) ==
      CrawlBy(key, follow, queue[1..], visited + {key(queue[0])}, data, fetch)
  {
  }

  /** One step of the crawl on a new URL whose page was read. */
  lemma CrawlFetched(key: string -> string, follow: (seq<string>, set<string>) -> seq<string>,
                     queue: seq<string>, visited: set<string>, data: seq<string>, fetch: Fetch)
    requires queue != [] && |visited| < MaxPages && key(queue[0]) !in visited
    requires fetch(queue[0]).Some?
    ensures var visited' := visited + {key(queue[0])};
      CrawlBy(key, follow, queue, visited, data, fetch) ==
      CrawlBy(key, follow, queue[1..] + follow(fetch(queue[0]).value, visited'), visited', data + [queue[0]], fetch)
  {
  }

  // ---------------------------------------------------------------------
  // What the crawl promises

  /** Every stored page takes one visit; the visited set only grows; and the
      crawl ends with an empty queue or `MaxPages` visits. */
  lemma {:induction false} CrawlBounds(key: string -> string, follow: (seq<string>, set<string>) -> seq<string>,
                                       queue: seq<string>, visited: set<string>, data: seq<string>, fetch: Fetch)
    requires |visited| <= MaxPages
    ensures var (data', visited', queue') := CrawlBy(key, follow, queue, visited, data, fetch);
      visited <= visited' && |visited'| <= MaxPages && |data'| + |visited| <= |data| + |visited'| &&
      (queue' == [] || |visited'| == MaxPages)
    decreases MaxPages - |visited|, |queue|
  {
    if queue == [] || |visited| >= MaxPages {
    } else {
      var normalized := key(queue[0]);
      if normalized in visited {
        CrawlBounds(key, follow, queue[1..], visited, data, fetch);
      } else {
        var visited' := visited + {normalized};
        match fetch(queue[0])
        case None =>
          CrawlBounds(key, follow, queue[1..], visited', data, fetch);
        case Some(links) =>
          CrawlBounds(key, follow, queue[1..] + follow(links, visited'), visited', data + [queue[0]], fetch);
      }
    }
  }

  /** `scrape_site` stores at most as many pages as it visits, at most ten,
      and stops early only when it runs out of links. */
  lemma ScrapeBounds(startUrl: string, fetch: Fetch)
    ensures var (data, visited, queue) := Crawl([startUrl], {}, [], fetch);
      |data| <= |visited| <= MaxPages && (queue == [] || |visited| == MaxPages)
  {
    CrawlBounds(NormalizeUrl, Enqueued, [startUrl], {}, [], fetch);
  }

  /** The keys of the stored pages, in order. */
  function Keys(key: string -> string, data: seq<string>): (r: seq<string>)
    ensures |r| == |data|
  {
    if data == [] then [] else Keys(key, data[..|data| - 1]) + [key(data[|data| - 1])]
  }

  lemma {:induction false} KeysAt(key: string -> string, data: seq<string>, i: nat)
    requires i < |data|
    ensures Keys(key, data)[i] == key(data[i])
    decreases |data|
  {
    if i < |data| - 1 {
      KeysAt(key, data[..|data| - 1], i);
    }
  }

  /** The stored pages have pairwise different keys, all of them visited. */
  predicate StoredOnce(key: string -> string, data: seq<string>, visited: set<string>) {
    var keys := Keys(key, data);
    (forall i :: 0 <= i < |keys| ==> keys[i] in visited) &&
    (forall i, j :: 0 <= i < j < |keys| ==> keys[i] != keys[j])
  }

  lemma {:induction false} CrawlStoresOnce(key: string -> string, follow: (seq<string>, set<string>) -> seq<string>,
                                           queue: seq<string>, visited: set<string>, data: seq<string>, fetch: Fetch)
    requires |visited| <= MaxPages && StoredOnce(key, data, visited)
    ensures var (data', visited', _) := CrawlBy(key, follow, queue, visited, data, fetch);
      StoredOnce(key, data', visited')
    decreases MaxPages - |visited|, |queue|
  {
    if queue == [] || |visited| >= MaxPages {
    } else {
      var normalized := key(queue[0]);
      if normalized in visited {
        CrawlStoresOnce(key, follow, queue[1..], visited, data, fetch);
      } else {
        var visited' := visited + {normalized};
        match fetch(queue[0])
        case None =>
          CrawlStoresOnce(key, follow, queue[1..], visited', data, fetch);
        case Some(links) =>
          StoredOnceSnoc(key, data, visited, queue[0]);
          CrawlStoresOnce(key, follow, queue[1..] + follow(links, visited'), visited', data + [queue[0]], fetch);
      }
    }
  }

  lemma StoredOnceSnoc(key: string -> string, data: seq<string>, visited: set<string>, url: string)
    requires StoredOnce(key, data, visited) && key(url) !in visited
    ensures StoredOnce(key, data + [url], visited + {key(url)})
  {
    var data' := data + [url];
    assert data'[..|data'| - 1] == data;
    assert Keys(key, data') == Keys(key, data) + [key(url)];
  }

  /** No page is stored twice under the same normalised URL. */
  lemma ScrapeStoresOnce(startUrl: string, fetch: Fetch, i: nat, j: nat)
    requires var data := Crawl([startUrl], {}, [], fetch).0; i < j < |data|
    ensures var (data, visited, _) := Crawl([startUrl], {}, [], fetch);
      NormalizeUrl(data[i]) != NormalizeUrl(data[j]) && NormalizeUrl(data[i]) in visited
  {
    CrawlStoresOnce(NormalizeUrl, Enqueued, [startUrl], {}, [], fetch);
    var data := Crawl([startUrl], {}, [], fetch).0;
    KeysAt(NormalizeUrl, data, i);
    KeysAt(NormalizeUrl, data, j);
  }

  /** Every URL of the list has the property `ok`. */
  predicate Every(ok: string -> bool, urls: seq<string>) {
    forall k :: 0 <= k < |urls| ==> ok(urls[k])
  }

  /** When every queued link has a property, so does every stored page and
      every URL left in the queue, provided the queue starts out with it. */
  lemma {:induction false} CrawlFollowsValid(key: string -> string, follow: (seq<string>, set<string>) -> seq<string>,
                                             ok: string -> bool,
                                             queue: seq<string>, visited: set<string>, data: seq<string>, fetch: Fetch)
    requires forall links, v :: Every(ok, follow(links, v))
    requires |visited| <= MaxPages && Every(ok, queue) && Every(ok, data)
    ensures var (data', _, queue') := CrawlBy(key, follow, queue, visited, data, fetch);
      Every(ok, data') && Every(ok, queue')
    decreases MaxPages - |visited|, |queue|
  {
    if queue == [] || |visited| >= MaxPages {
    } else {
      var normalized := key(queue[0]);
      assert Every(ok, queue[1..]);
      if normalized in visited {
        CrawlFollowsValid(key, follow, ok, queue[1..], visited, data, fetch);
      } else {
        var visited' := visited + {normalized};
        match fetch(queue[0])
        case None =>
          CrawlFollowsValid(key, follow, ok, queue[1..], visited', data, fetch);
        case Some(links) =>
          EveryAppend(ok, queue[1..], follow(links, visited'));
          EveryAppend(ok, data, [queue[0]]);
          CrawlFollowsValid(key, follow, ok, queue[1..] + follow(links, visited'), visited', data + [queue[0]], fetch);
      }
    }
  }

  lemma EveryAppend(ok: string -> bool, a: seq<string>, b: seq<string>)
    requires Every(ok, a) && Every(ok, b)
    ensures Every(ok, a + b)
  {
    assert forall k :: |a| <= k < |a + b| ==> (a + b)[k] == b[k - |a|];
  }

  /** Apart from the start URL, which is visited first, every stored page and
      every URL left in the queue passed `is_valid_url`. */
  lemma ScrapeFollowsValid(startUrl: string, fetch: Fetch)
    ensures var (data, _, queue) := Crawl([startUrl], {}, [], fetch);
      AllValid(queue) && (data == [] || (data[0] == startUrl && AllValid(data[1..])))
  {
    EnqueuedAllValid();
    StartFollows(NormalizeUrl, Enqueued, IsValidUrl, startUrl, fetch);
  }

  /** A crawl from a single start URL stores it first, if at all, and then
      only queued links. */
  lemma StartFollows(key: string -> string, follow: (seq<string>, set<string>) -> seq<string>,
                     ok: string -> bool, start: string, fetch: Fetch)
    requires forall links, v :: Every(ok, follow(links, v))
    ensures var (data, _, queue) := CrawlBy(key, follow, [start], {}, [], fetch);
      Every(ok, queue) && (data == [] || (data[0] == start && Every(ok, data[1..])))
  {
    var visited' := {key(start)};
    assert {} + {key(start)} == visited';
    match fetch(start)
    case None =>
      CrawlFailed(key, follow, [start], {}, [], fetch);
    case Some(links) =>
      CrawlFetched(key, follow, [start], {}, [], fetch);
      var queue := follow(links, visited');
      assert [start][1..] + queue == queue;
      assert [] + [start] == [start];
      CrawlFollowsValid(key, follow, ok, queue, visited', [], fetch);
      CrawlShift(key, follow, queue, visited', [start], fetch);
  }

  lemma EnqueuedAllValid()
    ensures forall links, v :: Every(IsValidUrl, Enqueued(links, v))
  {
    forall links, v
      ensures Every(IsValidUrl, Enqueued(links, v))
    {
      EnqueuedValid(links, v);
    }
  }

  /** The pages stored so far do not change the rest of the crawl: it
      appends to them what a crawl from no stored pages would store. */
  lemma {:induction false} CrawlShift(key: string -> string, follow: (seq<string>, set<string>) -> seq<string>,
                                      queue: seq<string>, visited: set<string>, data: seq<string>, fetch: Fetch)
    requires |visited| <= MaxPages
    ensures var (stored, visited', queue') := CrawlBy(key, follow, queue, visited, [], fetch);
      CrawlBy(key, follow, queue, visited, data, fetch) == (data + stored, visited', queue')
    decreases MaxPages - |visited|, |queue|
  {
    if queue == [] || |visited| >= MaxPages {
      assert data + [] == data;
    } else {
      var normalized := key(queue[0]);
      if normalized in visited {
        CrawlShift(key, follow, queue[1..], visited, data, fetch);
      } else {
        var visited' := visited + {normalized};
        match fetch(queue[0])
        case None =>
          CrawlShift(key, follow, queue[1..], visited', data, fetch);
        case Some(links) =>
          var next := queue[1..] + follow(links, visited');
          CrawlShift(key, follow, next, visited', data + [queue[0]], fetch);
          CrawlShift(key, follow, next, visited', [queue[0]], fetch);
          assert [] + [queue[0]] == [queue[0]];
          AppendAssoc(data, [queue[0]], CrawlBy(key, follow, next, visited', [], fetch).0);
      }
    }
  }

  lemma AppendAssoc<T>(a: seq<T>, b: seq<T>, c: seq<T>)
    ensures a + b + c == a + (b + c)
  {
  }
}
