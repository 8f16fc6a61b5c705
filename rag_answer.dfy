/**
  The plain vector-search answer path: the filter and numbering of search
  hits into a context and a reference list (`search_context`), and the
  linking of reference titles inside the model's answer (the tail of
  `ask_with_context`). The embedding call, the index search and the
  language model are outside the model: the search hits and the model's
  answer are inputs.
 */
module RagAnswer {
  import opened Wrappers
  import opened Text
  import opened Records
  import SplitChunks

  /** One result of the index search: its distance and its row in the
      metadata list. The index reports a missing result as row -1. */
  datatype SearchHit = SearchHit(distance: real, index: int)

  /** One element of the metadata list: `item.get("metadata", {})` and
      `item.get("content", "")` read their defaults when a key is absent. */
  datatype StoredChunk = StoredChunk(metadata: Option<Fields>, content: Option<string>)

  /** A reference as `search_context` builds it. */
  datatype Reference = Reference(title: Value, brand: Value, category: Value, chunkType: Value,
                                 url: Value, number: nat)

  /** The outcome of `search_context`: the context and the references, or
      the `IndexError` of a row below `-len(metadata)`. */
  datatype SearchResult = Found(context: string, references: seq<Reference>) | IndexError

  const ContextSeparator := "\n---\n"
  const DefaultThreshold: real := 1.5

  /** The filter: the row is below `len(metadata)` (a negative row passes)
      and the distance is below the threshold. */
  predicate Keeps(h: SearchHit, rows: nat, threshold: real) {
    h.index < rows && h.distance < threshold
  }

  /** The position Python's `metadata[i]` reads, or `None` for the
      `IndexError` of a row below `-rows`. */
  function Slot(i: int, rows: nat): (r: Option<nat>)
    requires i < rows
    ensures r.Some? ==> r.value < rows
    ensures r.None? <==> i + rows < 0
  {
    if i >= 0 then Some(i)
    else if i + rows >= 0 then Some(i + rows)
    else None
  }

  function MetaOf(item: StoredChunk): Fields {
    if item.metadata.Some? then item.metadata.value else map[]
  }

  function ContentOf(item: StoredChunk): string {
    if item.content.Some? then item.content.value else ""
  }

  /** The reference built for a kept item, numbered `number`. */
  function ReferenceOf(item: StoredChunk, number: nat): Reference {
    var meta := MetaOf(item);
    Reference(Get(meta, "product_name"), Get(meta, "brand"), Get(meta, "category"),
              Get(meta, "chunk_type"), Get(meta, "url"), number)
  }

  /** The kept hits, in search order. */
  function KeptHits(hits: seq<SearchHit>, rows: nat, threshold: real): seq<SearchHit> {
    if hits == [] then []
    else
      var last := hits[|hits| - 1];
      KeptHits(hits[..|hits| - 1], rows, threshold) + (if Keeps(last, rows, threshold) then [last] else [])
  }

  /** A hit is kept exactly when it is a search hit that passes the filter. */
  lemma {:induction false} KeptHitsMembership(hits: seq<SearchHit>, rows: nat, threshold: real, h: SearchHit)
    ensures h in KeptHits(hits, rows, threshold) <==> h in hits && Keeps(h, rows, threshold)
  {
    if hits != [] {
      var init := hits[..|hits| - 1];
      KeptHitsMembership(init, rows, threshold, h);
      assert hits == init + [hits[|hits| - 1]];
    }
  }

  /** The contents and references the loop collects over `hits`, or `None`
      once a kept row is out of range. */
  function Collect(hits: seq<SearchHit>, metadata: seq<StoredChunk>, threshold: real)
    : (r: Option<(seq<string>, seq<Reference>)>)
    ensures r.Some? ==> |r.value.0| == |r.value.1|
    ensures r.Some? ==> forall k :: 0 <= k < |r.value.1| ==> r.value.1[k].number == k + 1
  {
    if hits == [] then Some(([], []))
    else
      var h := hits[|hits| - 1];
      match Collect(hits[..|hits| - 1], metadata, threshold)
      case None => None
      case Some((contents, refs)) =>
        if !Keeps(h, |metadata|, threshold) then Some((contents, refs))
        else match Slot(h.index, |metadata|)
          case None => None
          case Some(i) =>
            Some((contents + [ContentOf(metadata[i])], refs + [ReferenceOf(metadata[i], |refs| + 1)]))
  }

  /** `search_context` over the hits the index returned. */
  function SearchOf(hits: seq<SearchHit>, metadata: seq<StoredChunk>, threshold: real): SearchResult {
    match Collect(hits, metadata, threshold)
    case None => IndexError
    case Some((contents, refs)) => Found(Join(contents, ContextSeparator), refs)
  }

  /** The search fails exactly when a kept hit names a row below
      `-len(metadata)`. */
  lemma {:induction false} CollectFails(hits: seq<SearchHit>, metadata: seq<StoredChunk>, threshold: real)
    ensures Collect(hits, metadata, threshold).None? <==>
      exists h :: h in KeptHits(hits, |metadata|, threshold) && h.index + |metadata| < 0
  {
    if hits != [] {
      var init := hits[..|hits| - 1];
      var h := hits[|hits| - 1];
      CollectFails(init, metadata, threshold);
      var kept0 := KeptHits(init, |metadata|, threshold);
      if Keeps(h, |metadata|, threshold) {
        assert KeptHits(hits, |metadata|, threshold) == kept0 + [h];
      } else {
        assert KeptHits(hits, |metadata|, threshold) == kept0;
      }
    }
  }

  /** Entry `k` of the result is the content and the reference of the
      `k`-th kept hit's row, numbered `k + 1`. */
  lemma {:induction false} CollectKept(hits: seq<SearchHit>, metadata: seq<StoredChunk>, threshold: real)
    requires Collect(hits, metadata, threshold).Some?
    ensures var r := Collect(hits, metadata, threshold).value;
      var kept := KeptHits(hits, |metadata|, threshold);
      && |r.1| == |kept|
      && forall k :: 0 <= k < |kept| ==>
           kept[k].index < |metadata| && Slot(kept[k].index, |metadata|).Some? &&
           var item := metadata[Slot(kept[k].index, |metadata|).value];
           r.0[k] == ContentOf(item) && r.1[k] == ReferenceOf(item, k + 1)
  {
    if hits != [] {
      var init := hits[..|hits| - 1];
      CollectKept(init, metadata, threshold);
    }
  }

  /** `search_context`'s loop. */
  method SearchContext(hits: seq<SearchHit>, metadata: seq<StoredChunk>, threshold: real)
    returns (r: SearchResult)
    ensures r == SearchOf(hits, metadata, threshold)
  {
    var contexts: seq<string> := [];
    var references: seq<Reference> := [];
    for k := 0 to |hits|
      invariant Collect(hits[..k], metadata, threshold) == Some((contexts, references))
    {
      var h := hits[k];
      assert hits[..k + 1][..k] == hits[..k];
      if h.index < |metadata| && h.distance < threshold {
        var slot := Slot(h.index, |metadata|);
        if slot.None? {
          CollectStaysFailed(hits, k + 1, metadata, threshold);
          return IndexError;
        }
        var item := metadata[slot.value];
        contexts := contexts + [ContentOf(item)];
        references := references + [ReferenceOf(item, |references| + 1)];
      }
    }
    assert hits[..|hits|] == hits;
    r := Found(Join(contexts, ContextSeparator), references);
  }

  /** Once a prefix fails, so does the whole search. */
  lemma {:induction false} CollectStaysFailed(hits: seq<SearchHit>, n: nat, metadata: seq<StoredChunk>, threshold: real)
    requires n <= |hits| && Collect(hits[..n], metadata, threshold).None?
    ensures Collect(hits, metadata, threshold).None?
    decreases |hits| - n
  {
    if n < |hits| {
      assert hits[..n + 1][..n] == hits[..n];
      CollectStaysFailed(hits, n + 1, metadata, threshold);
    } else {
      assert hits[..n] == hits;
    }
  }

  /** The context reads back as the kept contents, in order, when no
      content holds a newline. */
  lemma ContextPieces(hits: seq<SearchHit>, metadata: seq<StoredChunk>, threshold: real)
    requires var r := Collect(hits, metadata, threshold);
      r.Some? && r.value.0 != [] && forall k :: 0 <= k < |r.value.0| ==> '\n' !in r.value.0[k]
    ensures Split(SearchOf(hits, metadata, threshold).context, ContextSeparator) ==
      Collect(hits, metadata, threshold).value.0
  {
    SplitJoin(Collect(hits, metadata, threshold).value.0, ContextSeparator);
  }

  // ---------------------------------------------------------------------
  // Linking reference titles in the answer

  /** The text a linked title becomes: `[title](url)[n]`. */
  function Citation(title: string, url: Value, number: nat): string {
    "[" + title + "](" + Show(url) + ")[" + NatToString(number) + "]"
  }

  /** The stripped titles of the references. */
  function Titles(refs: seq<Reference>): set<string> {
    set j | 0 <= j < |refs| && refs[j].title.Str? :: Strip(refs[j].title.s)
  }

  /** What the loop does from reference `refs[0]` on, with the titles
      already linked in `used`: the final answer and the titles it linked,
      in order, or `None` for the `AttributeError` of a missing title. */
  function LinkFrom(answer: string, refs: seq<Reference>, used: set<string>)
    : (r: Option<(string, seq<string>)>)
    ensures r.Some? ==> forall k :: 0 <= k < |r.value.1| ==> r.value.1[k] !in used && r.value.1[k] in Titles(refs)
    ensures r.Some? ==> forall k, l :: 0 <= k < l < |r.value.1| ==> r.value.1[k] != r.value.1[l]
    decreases |refs|
  {
    if refs == [] then Some((answer, []))
    else
      var ref := refs[0];
      if ref.title.Null? then None
      else
        var product := Strip(ref.title.s);
        TitlesCons(refs);
        if Contains(answer, product) && product !in used then
          match LinkFrom(Replace(answer, product, Citation(product, ref.url, ref.number)), refs[1..], used + {product})
          case None => None
          case Some((a, linked)) =>
            ConsLinked(product, linked, used, Titles(refs), Titles(refs[1..]));
            Some((a, [product] + linked))
        else
          match LinkFrom(answer, refs[1..], used)
          case None => None
          case Some((a, linked)) => Some((a, linked))
  }

  /** Linking one more new title keeps the linked titles new and distinct:
      `all` are the titles from the current reference on, `rest` those after
      it. */
  lemma ConsLinked<T>(x: T, linked: seq<T>, used: set<T>, all: set<T>, rest: set<T>)
    requires x !in used && all == {x} + rest
    requires forall k :: 0 <= k < |linked| ==> linked[k] !in used + {x} && linked[k] in rest
    requires forall k, l :: 0 <= k < l < |linked| ==> linked[k] != linked[l]
    ensures var r := [x] + linked;
      (forall k :: 0 <= k < |r| ==> r[k] !in used && r[k] in all) &&
      (forall k, l :: 0 <= k < l < |r| ==> r[k] != r[l])
  {
    var r := [x] + linked;
    forall k | 1 <= k < |r|
      ensures r[k] !in used && r[k] in all && r[k] != x
    {
      assert r[k] == linked[k - 1];
    }
    forall k, l | 0 <= k < l < |r|
      ensures r[k] != r[l]
    {
      if k > 0 {
        assert r[k] == linked[k - 1] && r[l] == linked[l - 1];
      }
    }
  }

  lemma TitlesCons(refs: seq<Reference>)
    requires refs != [] && refs[0].title.Str?
    ensures Titles(refs) == {Strip(refs[0].title.s)} + Titles(refs[1..])
  {
    forall t | t in Titles(refs) ensures t in {Strip(refs[0].title.s)} + Titles(refs[1..]) {
      var j :| 0 <= j < |refs| && refs[j].title.Str? && Strip(refs[j].title.s) == t;
      if j > 0 {
        assert refs[1..][j - 1] == refs[j];
      }
    }
    forall t | t in Titles(refs[1..]) ensures t in Titles(refs) {
      var j :| 0 <= j < |refs[1..]| && refs[1..][j].title.Str? && Strip(refs[1..][j].title.s) == t;
      assert refs[j + 1] == refs[1..][j];
    }
  }

  /** The loop fails exactly when some reference has no title. */
  lemma {:induction false} LinkFromFails(answer: string, refs: seq<Reference>, used: set<string>)
    ensures LinkFrom(answer, refs, used).None? <==> exists j :: 0 <= j < |refs| && refs[j].title.Null?
    decreases |refs|
  {
    if refs != [] && refs[0].title.Str? {
      var product := Strip(refs[0].title.s);
      if Contains(answer, product) && product !in used {
        LinkFromFails(Replace(answer, product, Citation(product, refs[0].url, refs[0].number)), refs[1..], used + {product});
      } else {
        LinkFromFails(answer, refs[1..], used);
      }
      assert forall j :: 1 <= j < |refs| ==> refs[j] == refs[1..][j - 1];
    }
  }

  /** One reference: a title that occurs in the answer and was not linked
      before is linked, and every occurrence of it becomes its citation
      (each left-to-right, non-overlapping occurrence, with the text
      between kept); any other title leaves the answer as it is. */
  lemma LinkFromFirst(answer: string, refs: seq<Reference>, used: set<string>)
    requires refs != [] && refs[0].title.Str?
    ensures var p := Strip(refs[0].title.s);
      var cited := Replace(answer, p, Citation(p, refs[0].url, refs[0].number));
      var next := LinkFrom(cited, refs[1..], used + {p});
      Contains(answer, p) && p !in used ==>
        (LinkFrom(answer, refs, used).None? <==> next.None?) &&
        (next.Some? ==> LinkFrom(answer, refs, used) == Some((next.value.0, [p] + next.value.1)))
    ensures var p := Strip(refs[0].title.s);
      var c := Citation(p, refs[0].url, refs[0].number);
      p != [] ==> Replace(answer, p, c) == Join(Split(answer, p), c)
    ensures var p := Strip(refs[0].title.s);
      !(Contains(answer, p) && p !in used) ==> LinkFrom(answer, refs, used) == LinkFrom(answer, refs[1..], used)
  {
    var p := Strip(refs[0].title.s);
    if p != [] {
      ReplaceIsJoinSplit(answer, p, Citation(p, refs[0].url, refs[0].number));
    }
  }

  /** A title that does not occur in the answer, or was linked before,
      leaves the answer as it is. */
  lemma {:induction false} LinkFromUnchanged(answer: string, refs: seq<Reference>, used: set<string>)
    requires forall j :: 0 <= j < |refs| ==> refs[j].title.Str?
    requires forall j :: 0 <= j < |refs| ==>
      var p := Strip(refs[j].title.s); !Contains(answer, p) || p in used
    ensures LinkFrom(answer, refs, used) == Some((answer, []))
    decreases |refs|
  {
    if refs != [] {
      assert forall j :: 1 <= j < |refs| ==> refs[j] == refs[1..][j - 1];
      LinkFromUnchanged(answer, refs[1..], used);
    }
  }

  /** The title-linking loop of `ask_with_context`; `None` stands for the
      `AttributeError` a reference without title raises. */
  method LinkTitles(answer: string, refs: seq<Reference>) returns (r: Option<string>)
    ensures LinkFrom(answer, refs, {}).None? ==> r.None?
    ensures LinkFrom(answer, refs, {}).Some? ==> r == Some(LinkFrom(answer, refs, {}).value.0)
  {
    var base := answer;
    var used: set<string> := {};
    for i := 0 to |refs|
      invariant var f := LinkFrom(base, refs[i..], used);
        var g := LinkFrom(answer, refs, {});
        (f.None? <==> g.None?) && (f.Some? ==> f.value.0 == g.value.0)
    {
      assert refs[i..][1..] == refs[i + 1..];
      var ref := refs[i];
      if ref.title.Null? {
        return None;
      }
      var product := Strip(ref.title.s);
      if Contains(base, product) && product !in used {
        base := Replace(base, product, Citation(product, ref.url, ref.number));
        used := used + {product};
      }
    }
    r := Some(base);
  }

  /** `ask_with_context`: search with the default threshold, let the
      language model answer from the context (`llm`, given the context and
      the question), trim its answer and link the titles. `None` stands for
      an exception. */
  method AskWithContext(question: string, hits: seq<SearchHit>, metadata: seq<StoredChunk>,
                        llm: (string, string) -> string)
    returns (r: Option<(string, seq<Reference>)>)
    ensures SearchOf(hits, metadata, DefaultThreshold).IndexError? ==> r.None?
    ensures match SearchOf(hits, metadata, DefaultThreshold)
      case IndexError => true
      case Found(context, refs) =>
        match LinkFrom(Strip(llm(context, question)), refs, {})
        case None => r.None?
        case Some((answer, _)) => r == Some((answer, refs))
  {
    var search := SearchContext(hits, metadata, DefaultThreshold);
    if search.IndexError? {
      return None;
    }
    var baseAnswer := Strip(llm(search.context, question));
    var linked := LinkTitles(baseAnswer, search.references);
    if linked.None? {
      return None;
    }
    r := Some((linked.value, search.references));
  }

  /** Every reference built from a stored chunk has no URL, so its citation
      shows the text "None" in place of a link: the stored chunks are the
      ones chunk construction writes, and none of them has a "url" key. */
  lemma StoredChunksHaveNoUrl(raw: seq<BrandRecord>, k: nat, number: nat)
    requires k < |SplitChunks.AllChunks(raw)|
    ensures var c := SplitChunks.AllChunks(raw)[k];
      var reference := ReferenceOf(StoredChunk(Some(c.metadata), Some(c.content)), number);
      reference.url == Null && Show(reference.url) == "None"
  {
    SplitChunks.NoChunkHasUrl(raw);
    assert SplitChunks.AllChunks(raw)[k] in SplitChunks.AllChunks(raw);
  }
}
