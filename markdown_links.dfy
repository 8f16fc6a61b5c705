/**
  The two Markdown link shapes the answer post-processing recognises, as
  hand-written scanners with the meaning Python's `re.finditer` gives the
  patterns:

    BoldInside   `\[\*\*(.*?)\*\*\]\((.*?)\)`      e.g. [**Name**](url)
    BoldOutside  `\*\*\[([^\]]+)\]\(([^)]+)\)\*\*`  e.g. **[Name](url)**

  For BoldInside both groups are lazy and exclude newlines: the text runs to
  the first `**](` and the URL to the first `)`, and a newline before
  either means no match at that position (taking a longer text cannot help,
  since it would have to cover the newline). For BoldOutside both groups are
  maximal runs of the excluded character, so no backtracking applies.
 */
module MarkdownLinks {
  import opened Wrappers
  import opened Text

  datatype Shape = BoldInside | BoldOutside

  /** One match: its span `[start, end)` and its two groups. */
  datatype LinkMatch = LinkMatch(start: nat, end: nat, text: string, url: string)

  /** The span of the shape's opening marker, text and URL, when a link of
      that shape starts exactly at the beginning of `t`. */
  function MatchPrefix(shape: Shape, t: string): (r: Option<(nat, string, string)>)
    ensures r.Some? ==> 0 < r.value.0 <= |t|
  {
    match shape
    case BoldInside => MatchBoldInside(t)
    case BoldOutside => MatchBoldOutside(t)
  }

  function MatchBoldInside(t: string): (r: Option<(nat, string, string)>)
    ensures r.Some? ==> 0 < r.value.0 <= |t|
  {
    if !("[**" <= t) then None
    else
      var body := t[3..];
      match LazyRun(body, "**](")
      case None => None
      case Some(i) =>
        var rest := body[i + 4..];
        match LazyRun(rest, ")")
        case None => None
        case Some(j) => Some((3 + i + 4 + j + 1, body[..i], rest[..j]))
  }

  /** A lazy group `(.*?)` followed by `close`: the length of the shortest
      newline-free prefix of `s` that is followed by `close`. */
  function LazyRun(s: string, close: string): (r: Option<nat>)
    ensures r.Some? ==> r.value + |close| <= |s| && s[r.value..r.value + |close|] == close
    ensures r.Some? ==> '\n' !in s[..r.value]
  {
    FindSpec(s, close);
    match Find(s, close)
    case None => None
    case Some(i) => if '\n' in s[..i] then None else Some(i)
  }

  function MatchBoldOutside(t: string): (r: Option<(nat, string, string)>)
    ensures r.Some? ==> 0 < r.value.0 <= |t|
  {
    if !("**[" <= t) then None
    else
      var body := t[3..];
      match GreedyRun(body, ']', "](")
      case None => None
      case Some(i) =>
        var rest := body[i + 2..];
        match GreedyRun(rest, ')', ")**")
        case None => None
        case Some(j) => Some((3 + i + 2 + j + 3, body[..i], rest[..j]))
  }

  /** A greedy group `([^c]+)` followed by `follow`: the non-empty run of
      characters other than `c` at the start of `s`, when `follow` comes
      right after it. */
  function GreedyRun(s: string, c: char, follow: string): (r: Option<nat>)
    ensures r.Some? ==> 0 < r.value && r.value + |follow| <= |s| && s[r.value..r.value + |follow|] == follow
    ensures r.Some? ==> c !in s[..r.value]
  {
    FindSpec(s, [c]);
    match Find(s, [c])
    case None => None
    case Some(i) =>
      if i == 0 || !(follow <= s[i..]) then None
      else
        assert forall k :: 0 <= k < i ==> s[k..][0] == s[k];
        Some(i)
  }

  /** The match starting at position `p`, if any. */
  function MatchAt(shape: Shape, s: string, p: nat): (r: Option<LinkMatch>)
    requires p <= |s|
    ensures r.Some? ==> r.value.start == p < r.value.end <= |s|
  {
    match MatchPrefix(shape, s[p..])
    case None => None
    case Some((n, text, url)) => Some(LinkMatch(p, p + n, text, url))
  }

  /** `finditer` from position `p`: left to right, non-overlapping. */
  function ScanFrom(shape: Shape, s: string, p: nat): (r: seq<LinkMatch>)
    requires p <= |s|
    ensures forall k :: 0 <= k < |r| ==> p <= r[k].start < r[k].end <= |s|
    ensures forall k :: 0 < k < |r| ==> r[k - 1].end <= r[k].start
    decreases |s| - p
  {
    if p == |s| then []
    else match MatchAt(shape, s, p)
      case Some(m) =>
        var tail := ScanFrom(shape, s, m.end);
        OrderedCons(m, tail, p, |s|);
        [m] + tail
      case None => ScanFrom(shape, s, p + 1)
  }

  /** Matches within `[p, n)`, in order and not overlapping. */
  ghost predicate Ordered(ms: seq<LinkMatch>, p: nat, n: nat) {
    && (forall k :: 0 <= k < |ms| ==> p <= ms[k].start < ms[k].end <= n)
    && (forall k :: 0 < k < |ms| ==> ms[k - 1].end <= ms[k].start)
  }

  lemma OrderedCons(m: LinkMatch, tail: seq<LinkMatch>, p: nat, n: nat)
    requires p <= m.start < m.end <= n
    requires forall k :: 0 <= k < |tail| ==> m.end <= tail[k].start < tail[k].end <= n
    requires forall k :: 0 < k < |tail| ==> tail[k - 1].end <= tail[k].start
    ensures Ordered([m] + tail, p, n)
  {
  }

  /** The matches after the first lie past its end. */
  lemma {:induction false} OrderedTail(ms: seq<LinkMatch>, p: nat, n: nat)
    requires |ms| > 0 && Ordered(ms, p, n)
    ensures Ordered(ms[1..], ms[0].end, n)
    decreases |ms|
  {
    if |ms| > 1 {
      OrderedTail(ms[1..], p, n);
      assert ms[1..][1..] == ms[2..];
      forall k | 0 <= k < |ms[1..]|
        ensures ms[0].end <= ms[1..][k].start
      {
        if k > 0 {
          assert ms[1..][k] == ms[2..][k - 1];
        }
      }
    }
  }

  /** A shape's opening marker. */
  function Opener(shape: Shape): string {
    match shape
    case BoldInside => "[**"
    case BoldOutside => "**["
  }

  /** No match starts where the opening marker does not. */
  lemma MatchNeedsOpener(shape: Shape, s: string, p: nat)
    requires p <= |s| && !(Opener(shape) <= s[p..])
    ensures MatchAt(shape, s, p).None?
  {
  }

  /** All matches of the shape in `s`, in text order. */
  function FindAll(shape: Shape, s: string): seq<LinkMatch> {
    ScanFrom(shape, s, 0)
  }

  /** `[**text**](url)`, the form a validated link is rewritten to. */
  function RenderBoldInside(text: string, url: string): string {
    "[**" + text + "**](" + url + ")"
  }

  /** Round trip: a rendered link is recognised again, with the same text and
      URL, when the text has no `*` or newline and the URL no `)` or
      newline. */
  lemma RenderedLinkFound(text: string, url: string)
    requires '*' !in text && '\n' !in text && ')' !in url && '\n' !in url
    ensures MatchBoldInside(RenderBoldInside(text, url)) == Some((|text| + |url| + 8, text, url))
  {
    RenderedGroups(text, url);
    BoldInsideSteps(RenderBoldInside(text, url), |text|, |url|);
  }

  /** Both lazy groups of a rendered link end where its text and URL end. */
  lemma RenderedGroups(text: string, url: string)
    requires '*' !in text && '\n' !in text && ')' !in url && '\n' !in url
    ensures var t := RenderBoldInside(text, url);
      && "[**" <= t
      && LazyRun(t[3..], "**](") == Some(|text|) && t[3..][..|text|] == text
      && LazyRun(t[3..][|text| + 4..], ")") == Some(|url|) && t[3..][|text| + 4..][..|url|] == url
  {
    var t := RenderBoldInside(text, url);
    var rest := url + ")";
    var body := text + ("**](" + rest);
    assert t == "[**" + body;
    assert t[3..] == body;
    LazyRunPast(text, "**](" + rest, "**](");
    assert body[..|text|] == text;
    assert body[|text| + 4..] == rest;
    LazyRunPast(url, ")", ")");
    assert rest[..|url|] == url;
  }

  /** `MatchBoldInside` once both lazy groups are known. */
  lemma BoldInsideSteps(t: string, i: nat, j: nat)
    requires "[**" <= t
    requires LazyRun(t[3..], "**](") == Some(i)
    requires LazyRun(t[3..][i + 4..], ")") == Some(j)
    ensures MatchBoldInside(t) == Some((i + j + 8, t[3..][..i], t[3..][i + 4..][..j]))
  {
  }

  /** The lazy group stops at the first `close` when the text before it
      holds neither a newline nor the first character of `close`. */
  lemma LazyRunPast(x: string, y: string, close: string)
    requires close != [] && close <= y && close[0] !in x && '\n' !in x
    ensures LazyRun(x + y, close) == Some(|x|)
  {
    FindPastFree(x, y, close);
    assert (x + y)[..|x|] == x;
  }
}
