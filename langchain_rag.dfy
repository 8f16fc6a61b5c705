/**
  The link and image post-processing of the LangChain retrieval answer
  (rag/langchain/rag_answer.py): the product-link manager that loads link
  and image tables from the chunk metadata and the brand catalogue,
  validates the Markdown links of a generated answer against those tables,
  inserts product images after the links, and the pieces of the answer
  pipeline around it (the chat-history prompt text and the "Related Links"
  footer).
 */
module LangchainRag {
  import opened Wrappers
  import opened Text
  import opened Records
  import opened MarkdownLinks

  // ---------------------------------------------------------------------
  // Product and brand link tables
  // ---------------------------------------------------------------------

  /** A product-link entry: the product URL, the name to display and the
      brand (empty when the chunk has none). */
  datatype LinkEntry = LinkEntry(url: string, displayName: string, brand: string)

  /** "P (B)" when there is a brand, "P" otherwise. */
  function DisplayName(product: string, brand: string): string {
    if brand != "" then product + " (" + brand + ")" else product
  }

  /** The composite key `f"{a}_{b}".strip("_")`. */
  function CompositeKey(a: string, b: string): string {
    StripChar(a + "_" + b, '_')
  }

  /** Chunk metadata that carries a product link. */
  predicate HasProductLink(md: map<string, string>) {
    "product_name" in md && "product_url" in md
  }

  /** Chunk metadata that carries a brand link. */
  predicate HasBrandLink(md: map<string, string>) {
    "brand" in md && "brand_url" in md
  }

  /** The entry a chunk with a product link stores. */
  function EntryOf(md: map<string, string>): (e: LinkEntry)
    requires HasProductLink(md)
    ensures e.url == md["product_url"] && e.brand == FieldOr(md, "brand", "")
  {
    var brand := FieldOr(md, "brand", "");
    LinkEntry(md["product_url"], DisplayName(md["product_name"], brand), brand)
  }

  /** The composite key a chunk with a product link stores its entry under. */
  function ChunkKey(md: map<string, string>): string
    requires HasProductLink(md)
  {
    CompositeKey(Lower(md["product_name"]), Lower(FieldOr(md, "brand", "")))
  }

  /** The chunk stores an entry under key `k`: its composite key or its
      lower-cased product name. */
  predicate ProducesKey(md: map<string, string>, k: string) {
    HasProductLink(md) && (k == ChunkKey(md) || k == Lower(md["product_name"]))
  }

  /** The product-link update for one chunk. */
  function AddProductLinks(links: map<string, LinkEntry>, md: map<string, string>): map<string, LinkEntry> {
    if HasProductLink(md) then
      links[ChunkKey(md) := EntryOf(md)][Lower(md["product_name"]) := EntryOf(md)]
    else links
  }

  /** The brand-link update for one chunk. */
  function AddBrandLink(links: map<string, string>, md: map<string, string>): map<string, string> {
    if HasBrandLink(md) then links[Lower(md["brand"]) := md["brand_url"]] else links
  }

  /** The product-link table after the chunks, in order, starting from
      `start`. */
  function ProductLinksFrom(start: map<string, LinkEntry>, mds: seq<map<string, string>>): map<string, LinkEntry> {
    if mds == [] then start
    else AddProductLinks(ProductLinksFrom(start, mds[..|mds| - 1]), mds[|mds| - 1])
  }

  /** The brand-link table after the chunks, in order, starting from
      `start`. */
  function BrandLinksFrom(start: map<string, string>, mds: seq<map<string, string>>): map<string, string> {
    if mds == [] then start
    else AddBrandLink(BrandLinksFrom(start, mds[..|mds| - 1]), mds[|mds| - 1])
  }

  /** The latest chunk that produces a key decides its entry. */
  lemma {:induction false} ProductLinksLatest(start: map<string, LinkEntry>, mds: seq<map<string, string>>, k: string, i: nat)
    requires i < |mds| && ProducesKey(mds[i], k)
    requires forall j :: i < j < |mds| ==> !ProducesKey(mds[j], k)
    ensures k in ProductLinksFrom(start, mds) && ProductLinksFrom(start, mds)[k] == EntryOf(mds[i])
  {
    var n := |mds| - 1;
    if i < n {
      assert mds[..n][i] == mds[i];
      ProductLinksLatest(start, mds[..n], k, i);
    }
  }

  /** A key no chunk produces keeps what the starting table had. */
  lemma {:induction false} ProductLinksUntouched(start: map<string, LinkEntry>, mds: seq<map<string, string>>, k: string)
    requires forall j :: 0 <= j < |mds| ==> !ProducesKey(mds[j], k)
    ensures k in ProductLinksFrom(start, mds) <==> k in start
    ensures k in start ==> ProductLinksFrom(start, mds)[k] == start[k]
  {
    if mds != [] {
      var n := |mds| - 1;
      assert forall j :: 0 <= j < n ==> mds[..n][j] == mds[j];
      ProductLinksUntouched(start, mds[..n], k);
    }
  }

  /** The latest chunk with a brand link decides the brand's URL. */
  lemma {:induction false} BrandLinksLatest(start: map<string, string>, mds: seq<map<string, string>>, i: nat)
    requires i < |mds| && HasBrandLink(mds[i])
    requires forall j :: i < j < |mds| ==> !(HasBrandLink(mds[j]) && Lower(mds[j]["brand"]) == Lower(mds[i]["brand"]))
    ensures var b := Lower(mds[i]["brand"]);
      b in BrandLinksFrom(start, mds) && BrandLinksFrom(start, mds)[b] == mds[i]["brand_url"]
  {
    var n := |mds| - 1;
    if i < n {
      assert mds[..n][i] == mds[i];
      forall j | i < j < n
        ensures !(HasBrandLink(mds[..n][j]) && Lower(mds[..n][j]["brand"]) == Lower(mds[i]["brand"]))
      {
        assert mds[..n][j] == mds[j];
      }
      BrandLinksLatest(start, mds[..n], i);
    }
  }

  /** The three keys `get_product_link` tries, in order. */
  function LookupKeys(product: string, brand: string): seq<string> {
    [CompositeKey(Lower(product), Lower(brand)), Lower(product), CompositeKey(Lower(brand), Lower(product))]
  }

  /** The entry under the first of `keys` present in the table. */
  function FirstHit(keys: seq<string>, links: map<string, LinkEntry>): (r: Option<LinkEntry>)
    ensures r.None? <==> forall i :: 0 <= i < |keys| ==> keys[i] !in links
    ensures r.Some? ==> exists i :: 0 <= i < |keys| && keys[i] in links && links[keys[i]] == r.value &&
                                    forall j :: 0 <= j < i ==> keys[j] !in links
  {
    if keys == [] then None
    else if keys[0] in links then Some(links[keys[0]])
    else
      var r := FirstHit(keys[1..], links);
      assert forall i :: 1 <= i < |keys| ==> keys[i] == keys[1..][i - 1];
      r
  }

  /** `get_product_link`: the entry under the composite product-brand key,
      else under the product name alone, else under the brand-product
      key. */
  function LookupProduct(links: map<string, LinkEntry>, product: string, brand: string): (r: Option<LinkEntry>)
    ensures var ks := LookupKeys(product, brand);
      (r.None? <==> ks[0] !in links && ks[1] !in links && ks[2] !in links) &&
      (ks[0] in links ==> r == Some(links[ks[0]])) &&
      (ks[0] !in links && ks[1] in links ==> r == Some(links[ks[1]])) &&
      (ks[0] !in links && ks[1] !in links && ks[2] in links ==> r == Some(links[ks[2]]))
  {
    FirstHit(LookupKeys(product, brand), links)
  }

  /** `get_brand_link`: the brand's URL, or the empty string. */
  function LookupBrand(links: map<string, string>, brand: string): (r: string)
    ensures Lower(brand) in links ==> r == links[Lower(brand)]
    ensures Lower(brand) !in links ==> r == ""
  {
    if Lower(brand) in links then links[Lower(brand)] else ""
  }

  /** Round trip between loading and lookup: asking for the product and
      brand of a chunk finds that chunk's entry, unless a later chunk
      stored another entry under the same composite key. */
  lemma LookupAfterLoad(start: map<string, LinkEntry>, mds: seq<map<string, string>>, i: nat)
    requires i < |mds| && HasProductLink(mds[i])
    requires forall j :: i < j < |mds| ==> !ProducesKey(mds[j], ChunkKey(mds[i]))
    ensures LookupProduct(ProductLinksFrom(start, mds), mds[i]["product_name"], FieldOr(mds[i], "brand", ""))
            == Some(EntryOf(mds[i]))
  {
    ProductLinksLatest(start, mds, ChunkKey(mds[i]), i);
  }

  // ---------------------------------------------------------------------
  // Image table: a dictionary that keeps insertion order
  // ---------------------------------------------------------------------

  /** `image_map` as its (key, image URL) items in insertion order. */
  type ImageTable = seq<(string, string)>

  predicate DistinctKeys(t: ImageTable) {
    forall i, j :: 0 <= i < j < |t| ==> t[i].0 != t[j].0
  }

  /** `image_map.get(k)` */
  function Lookup(t: ImageTable, k: string): (r: Option<string>)
    ensures r.None? <==> forall i :: 0 <= i < |t| ==> t[i].0 != k
    ensures r.Some? ==> exists i :: 0 <= i < |t| && t[i] == (k, r.value)
  {
    if t == [] then None
    else if t[0].0 == k then Some(t[0].1)
    else
      assert forall i :: 1 <= i < |t| ==> t[i] == t[1..][i - 1];
      Lookup(t[1..], k)
  }

  /** `image_map[k] = v`: an existing key keeps its place and takes the new
      value; a new key goes last. */
  function Put(t: ImageTable, k: string, v: string): (r: ImageTable)
    ensures (forall i :: 0 <= i < |t| ==> t[i].0 != k) ==> r == t + [(k, v)]
    ensures |t| <= |r| <= |t| + 1
    ensures forall i :: 0 <= i < |t| ==> r[i].0 == t[i].0
    ensures forall i :: 0 <= i < |r| ==> r[i].0 == k || (i < |t| && r[i] == t[i])
  {
    if t == [] then [(k, v)]
    else if t[0].0 == k then [(k, v)] + t[1..]
    else
      var rest := Put(t[1..], k, v);
      assert forall i :: 1 <= i < |t| ==> t[i] == t[1..][i - 1];
      [t[0]] + rest
  }

  /** `Put` keeps the keys distinct. */
  lemma {:induction false} PutDistinct(t: ImageTable, k: string, v: string)
    requires DistinctKeys(t)
    ensures DistinctKeys(Put(t, k, v))
  {
    if t != [] {
      var t' := t[1..];
      DistinctTail(t);
      if t[0].0 != k {
        PutDistinct(t', k, v);
        DistinctCons(t[0], Put(t', k, v));
      } else {
        DistinctCons((k, v), t');
      }
    }
  }

  lemma DistinctTail(t: ImageTable)
    requires t != [] && DistinctKeys(t)
    ensures DistinctKeys(t[1..])
    ensures forall i :: 0 <= i < |t[1..]| ==> t[1..][i].0 != t[0].0
  {
    assert forall i :: 1 <= i < |t| ==> t[i] == t[1..][i - 1];
  }

  lemma DistinctCons(x: (string, string), rest: ImageTable)
    requires DistinctKeys(rest)
    requires forall i :: 0 <= i < |rest| ==> rest[i].0 != x.0
    ensures DistinctKeys([x] + rest)
  {
    assert forall i :: 1 <= i <= |rest| ==> ([x] + rest)[i] == rest[i - 1];
  }

  /** After `Put`, `k` finds `v` and every other key what it found
      before. */
  lemma {:induction false} PutLookup(t: ImageTable, k: string, v: string, k': string)
    ensures Lookup(Put(t, k, v), k') == if k' == k then Some(v) else Lookup(t, k')
  {
    if t != [] && t[0].0 != k {
      PutLookup(t[1..], k, v, k');
      assert Put(t, k, v) == [t[0]] + Put(t[1..], k, v);
    }
  }

  /** The image-table update for one product of a brand: the lower-cased
      name, and with a brand also "name (brand)" and "brand name",
      lower-cased; nothing unless both name and image URL are non-blank. */
  function AddProductImage(t: ImageTable, brand: string, p: ProductRecord): ImageTable {
    var name := Strip(FieldOr(p.fields, "name", ""));
    var img := Strip(FieldOr(p.fields, "image_url", ""));
    if name != "" && img != "" then
      var t1 := Put(t, Lower(name), img);
      if brand != "" then Put(Put(t1, Lower(name + " (" + brand + ")"), img), Lower(brand + " " + name), img)
      else t1
    else t
  }

  /** The image table after the products of one brand, in order. */
  function AddProductImages(t: ImageTable, brand: string, ps: seq<ProductRecord>): ImageTable {
    if ps == [] then t
    else AddProductImage(AddProductImages(t, brand, ps[..|ps| - 1]), brand, ps[|ps| - 1])
  }

  /** The brand name as the image loader reads it. */
  function BrandNameOf(b: BrandRecord): string {
    Strip(FieldOr(b.fields, "brand", ""))
  }

  /** The image table after the brands of the catalogue, in order. */
  function ImagesFrom(t: ImageTable, bs: seq<BrandRecord>): ImageTable {
    if bs == [] then t
    else
      var b := bs[|bs| - 1];
      AddProductImages(ImagesFrom(t, bs[..|bs| - 1]), BrandNameOf(b), b.products)
  }

  /** A product with a non-blank name and image URL can be found by its
      lower-cased name, and with a brand also by "name (brand)" and
      "brand name"; the three keys differ in length, so none hides another. */
  lemma ProductImageRegistered(t: ImageTable, brand: string, p: ProductRecord, k: string)
    requires DistinctKeys(t)
    ensures DistinctKeys(AddProductImage(t, brand, p))
    ensures var name := Strip(FieldOr(p.fields, "name", ""));
      var img := Strip(FieldOr(p.fields, "image_url", ""));
      name != "" && img != "" ==>
        Lookup(AddProductImage(t, brand, p), Lower(name)) == Some(img) &&
        (brand != "" ==>
          Lookup(AddProductImage(t, brand, p), Lower(name + " (" + brand + ")")) == Some(img) &&
          Lookup(AddProductImage(t, brand, p), Lower(brand + " " + name)) == Some(img))
    ensures var name := Strip(FieldOr(p.fields, "name", ""));
      var img := Strip(FieldOr(p.fields, "image_url", ""));
      name == "" || img == "" ==> AddProductImage(t, brand, p) == t
  {
    var name := Strip(FieldOr(p.fields, "name", ""));
    var img := Strip(FieldOr(p.fields, "image_url", ""));
    if name != "" && img != "" {
      var k1 := Lower(name);
      var t1 := Put(t, k1, img);
      PutDistinct(t, k1, img);
      PutLookup(t, k1, img, k1);
      if brand != "" {
        var k2 := Lower(name + " (" + brand + ")");
        var k3 := Lower(brand + " " + name);
        assert |k1| < |k3| < |k2|;
        var t2 := Put(t1, k2, img);
        PutDistinct(t1, k2, img);
        PutDistinct(t2, k3, img);
        PutLookup(t1, k2, img, k1);
        PutLookup(t1, k2, img, k2);
        PutLookup(t2, k3, img, k1);
        PutLookup(t2, k3, img, k2);
        PutLookup(t2, k3, img, k3);
      }
    }
  }

  /** Loading a catalogue keeps the image keys distinct. */
  lemma {:induction false} ImagesDistinct(t: ImageTable, bs: seq<BrandRecord>)
    requires DistinctKeys(t)
    ensures DistinctKeys(ImagesFrom(t, bs))
  {
    if bs != [] {
      var b := bs[|bs| - 1];
      ImagesDistinct(t, bs[..|bs| - 1]);
      ProductImagesDistinct(ImagesFrom(t, bs[..|bs| - 1]), BrandNameOf(b), b.products);
    }
  }

  lemma {:induction false} ProductImagesDistinct(t: ImageTable, brand: string, ps: seq<ProductRecord>)
    requires DistinctKeys(t)
    ensures DistinctKeys(AddProductImages(t, brand, ps))
  {
    if ps != [] {
      ProductImagesDistinct(t, brand, ps[..|ps| - 1]);
      ProductImageRegistered(AddProductImages(t, brand, ps[..|ps| - 1]), brand, ps[|ps| - 1], "");
    }
  }

  // ---------------------------------------------------------------------
  // Link validation
  // ---------------------------------------------------------------------

  /** The product and brand a link text names: "P (B)" gives the stripped
      text before the first `(` and the stripped text between the first and
      the second `(` with every `)` removed; a text without both
      parentheses is all product. */
  function LinkParts(display: string): (string, string) {
    if '(' in display && ')' in display then
      var pieces := Split(display, "(");
      assert |pieces| >= 2 by {
        assert Find(display, "(").Some? by {
          var i :| 0 <= i < |display| && display[i] == '(';
          assert display[i..i + 1] == "(";
          ContainsAt(display, i, "(");
          FindSpec(display, "(");
        }
      }
      (Strip(pieces[0]), Strip(Replace(pieces[1], ")", "")))
    else (Strip(display), "")
  }

  /** Display names split back into their product and brand, when both
      are stripped and free of parentheses. */
  lemma LinkPartsOfDisplayName(product: string, brand: string)
    requires product != "" && !IsSpace(product[0]) && !IsSpace(product[|product| - 1])
    requires brand == [] || (!IsSpace(brand[0]) && !IsSpace(brand[|brand| - 1]))
    requires '(' !in product && ')' !in product && '(' !in brand && ')' !in brand
    ensures LinkParts(DisplayName(product, brand)) == (product, brand)
  {
    if brand != "" {
      var rest := brand + ")";
      var d := (product + " ") + ("(" + rest);
      assert DisplayName(product, brand) == d;
      DisplayNameSplit(product, rest);
      assert ')' in d by {
        assert d[|d| - 1] == ')';
      }
      LinkPartsOfSplit(d, product + " ", rest);
      StripTrailingSpace(product);
      ReplaceClosing(brand);
      StripNoSpace(brand);
    } else {
      StripNoSpace(product);
    }
  }

  /** Splitting "P (rest" at `(` when neither side holds another `(`. */
  lemma DisplayNameSplit(product: string, rest: string)
    requires '(' !in product && '(' !in rest
    ensures Split((product + " ") + ("(" + rest), "(") == [product + " ", rest]
  {
    var d := (product + " ") + ("(" + rest);
    var i := |product| + 1;
    FindPastFree(product + " ", "(" + rest, "(");
    SplitStep(d, "(", i);
    assert d[..i] == product + " ";
    assert d[i + 1..] == rest;
    FindSpec(rest, "(");
    MissingCharNotContained(rest, "(", 0);
  }

  /** `LinkParts` of a text that splits at `(` into exactly two pieces. */
  lemma LinkPartsOfSplit(d: string, a: string, b: string)
    requires ')' in d && Split(d, "(") == [a, b]
    ensures LinkParts(d) == (Strip(a), Strip(Replace(b, ")", "")))
  {
    assert '(' in d by {
      if '(' !in d {
        MissingCharNotContained(d, "(", 0);
        FindSpec(d, "(");
      }
    }
  }

  lemma StripTrailingSpace(s: string)
    requires s != [] && !IsSpace(s[0]) && !IsSpace(s[|s| - 1])
    ensures Strip(s + " ") == s
  {
    assert TrimStart(s + " ") == s + " ";
    assert (s + " ")[..|s|] == s;
    assert TrimEnd(s + " ") == TrimEnd(s);
  }

  lemma {:induction false} ReplaceClosing(s: string)
    requires ')' !in s
    ensures Replace(s + ")", ")", "") == s
  {
    if s != [] {
      assert (s + ")")[0] == s[0];
      assert (s + ")")[1..] == s[1..] + ")";
      ReplaceClosing(s[1..]);
    } else {
      assert s + ")" == ")";
    }
  }

  /** The link text of one match, rewritten: a known product gives
      `[**display name**](url)` from the table, an unknown one the match
      exactly as written. */
  function ReplaceLink(links: map<string, LinkEntry>, s: string, m: LinkMatch): (r: string)
    requires m.start <= m.end <= |s|
  {
    var parts := LinkParts(m.text);
    match LookupProduct(links, parts.0, parts.1)
    case Some(e) => RenderBoldInside(e.displayName, e.url)
    case None => s[m.start..m.end]
  }

  /** `re.sub(pattern, replace_link, s)` from position `p`. */
  function RewriteFrom(shape: Shape, s: string, p: nat, links: map<string, LinkEntry>): string
    requires p <= |s|
    decreases |s| - p
  {
    if p == |s| then ""
    else match MatchAt(shape, s, p)
      case Some(m) => ReplaceLink(links, s, m) + RewriteFrom(shape, s, m.end, links)
      case None => [s[p]] + RewriteFrom(shape, s, p + 1, links)
  }

  /** No link the table knows: every link found misses the table. */
  predicate AllMiss(ms: seq<LinkMatch>, links: map<string, LinkEntry>) {
    forall k :: 0 <= k < |ms| ==> Misses(links, ms[k])
  }

  predicate Misses(links: map<string, LinkEntry>, m: LinkMatch) {
    LookupProduct(links, LinkParts(m.text).0, LinkParts(m.text).1).None?
  }

  /** When every link found misses the table, the rewrite is the identity:
      unknown links are left exactly as written. */
  lemma {:induction false} RewriteMisses(shape: Shape, s: string, p: nat, links: map<string, LinkEntry>)
    requires p <= |s| && AllMiss(ScanFrom(shape, s, p), links)
    ensures RewriteFrom(shape, s, p, links) == s[p..]
    decreases |s| - p
  {
    if p < |s| {
      var q := MissStep(shape, s, p, links);
      RewriteMisses(shape, s, q, links);
      SliceJoin(s, p, q);
    }
  }

  /** One step of a rewrite in which every link misses: a stretch `s[p..q]`
      is copied unchanged and the links after it still miss. */
  lemma MissStep(shape: Shape, s: string, p: nat, links: map<string, LinkEntry>) returns (q: nat)
    requires p < |s| && AllMiss(ScanFrom(shape, s, p), links)
    ensures p < q <= |s| && AllMiss(ScanFrom(shape, s, q), links)
    ensures RewriteFrom(shape, s, p, links) == s[p..q] + RewriteFrom(shape, s, q, links)
  {
    var found := MatchAt(shape, s, p);
    if found.Some? {
      q := found.value.end;
      MissFirst(shape, s, p, links, found.value);
    } else {
      q := p + 1;
      NoMatchCopied(shape, s, p, links);
      assert s[p..q] == [s[p]];
    }
  }

  /** Without a link at `p` the character there is copied and the scan
      goes on from the next one. */
  lemma NoMatchCopied(shape: Shape, s: string, p: nat, links: map<string, LinkEntry>)
    requires p < |s| && MatchAt(shape, s, p).None?
    ensures ScanFrom(shape, s, p) == ScanFrom(shape, s, p + 1)
    ensures RewriteFrom(shape, s, p, links) == [s[p]] + RewriteFrom(shape, s, p + 1, links)
  {
  }

  /** A missed link at `p` is copied, and the remaining links still miss. */
  lemma MissFirst(shape: Shape, s: string, p: nat, links: map<string, LinkEntry>, m: LinkMatch)
    requires p < |s| && MatchAt(shape, s, p) == Some(m) && AllMiss(ScanFrom(shape, s, p), links)
    ensures AllMiss(ScanFrom(shape, s, m.end), links)
    ensures RewriteFrom(shape, s, p, links) == s[p..m.end] + RewriteFrom(shape, s, m.end, links)
  {
    var all := ScanFrom(shape, s, p);
    var rest := ScanFrom(shape, s, m.end);
    assert all == [m] + rest;
    assert Misses(links, all[0]);
    forall k | 0 <= k < |rest|
      ensures Misses(links, rest[k])
    {
      assert rest[k] == all[k + 1];
    }
  }

  /** `extract_and_validate_links`: links of the first shape are rewritten
      first, then links of the second shape in the result. */
  function ValidateLinks(links: map<string, LinkEntry>, s: string): string {
    var first := RewriteFrom(BoldInside, s, 0, links);
    RewriteFrom(BoldOutside, first, 0, links)
  }

  /** An answer whose links all miss the table comes back byte for byte. */
  lemma ValidateMisses(links: map<string, LinkEntry>, s: string)
    requires AllMiss(FindAll(BoldInside, s), links) && AllMiss(FindAll(BoldOutside, s), links)
    ensures ValidateLinks(links, s) == s
  {
    RewriteMisses(BoldInside, s, 0, links);
    RewriteMisses(BoldOutside, s, 0, links);
  }

  /** With an empty link table every answer comes back unchanged. */
  lemma ValidateWithoutLinks(s: string)
    ensures ValidateLinks(map[], s) == s
  {
    ValidateMisses(map[], s);
  }

  /** The text from `p` with the span of each match in `ms` replaced by
      the corresponding string of `reps`, and everything between the
      matches copied. */
  ghost function Spliced(s: string, p: nat, ms: seq<LinkMatch>, reps: seq<string>): string
    requires p <= |s| && Ordered(ms, p, |s|) && |reps| == |ms|
    decreases |ms|
  {
    if ms == [] then s[p..]
    else
      OrderedTail(ms, p, |s|);
      s[p..ms[0].start] + reps[0] + Spliced(s, ms[0].end, ms[1..], reps[1..])
  }

  /** What `replace_link` returns for a match inside `s`. */
  function ReplaceAt(links: map<string, LinkEntry>, s: string): LinkMatch -> string {
    (m: LinkMatch) => if m.start <= m.end <= |s| then ReplaceLink(links, s, m) else ""
  }

  /** `f` applied to every element, in order. */
  function MapSeq<A, B>(f: A -> B, xs: seq<A>): (r: seq<B>)
    ensures |r| == |xs| && forall k :: 0 <= k < |xs| ==> r[k] == f(xs[k])
  {
    if xs == [] then [] else [f(xs[0])] + MapSeq(f, xs[1..])
  }

  /** What `replace_link` returns for each match. */
  function Replacements(links: map<string, LinkEntry>, s: string, ms: seq<LinkMatch>): seq<string> {
    MapSeq(ReplaceAt(links, s), ms)
  }

  /** The rewrite replaces exactly the matches `finditer` reports, each by
      what `replace_link` returns for it, and copies the rest: this is the
      meaning of `re.sub(pattern, replace_link, ...)`. */
  lemma {:induction false} RewriteIsSubstitution(shape: Shape, s: string, p: nat, links: map<string, LinkEntry>)
    requires p <= |s|
    ensures var ms := ScanFrom(shape, s, p);
      RewriteFrom(shape, s, p, links) == Spliced(s, p, ms, Replacements(links, s, ms))
    decreases |s| - p
  {
    if p < |s| {
      var found := MatchAt(shape, s, p);
      if found.Some? {
        var m := found.value;
        RewriteIsSubstitution(shape, s, m.end, links);
        RewriteTakes(shape, s, p, links, m);
        SubstitutionHit(shape, s, p, links, m);
      } else {
        RewriteIsSubstitution(shape, s, p + 1, links);
        var ms := ScanFrom(shape, s, p + 1);
        NoMatchCopied(shape, s, p, links);
        SplicedShift(s, p, ms, Replacements(links, s, ms));
      }
    }
  }

  /** With a match at `p`, the substitution starts with its replacement. */
  lemma SubstitutionHit(shape: Shape, s: string, p: nat, links: map<string, LinkEntry>, m: LinkMatch)
    requires p < |s| && MatchAt(shape, s, p) == Some(m)
    ensures var all := ScanFrom(shape, s, p);
      var tail := ScanFrom(shape, s, m.end);
      Spliced(s, p, all, Replacements(links, s, all)) == ReplaceLink(links, s, m) + Spliced(s, m.end, tail, Replacements(links, s, tail))
  {
    ScanHit(shape, s, p, m);
    SplicedTakes(links, s, m, ScanFrom(shape, s, m.end));
  }

  /** Where a link starts, the rewrite emits its replacement and resumes after it. */
  lemma RewriteTakes(shape: Shape, s: string, p: nat, links: map<string, LinkEntry>, m: LinkMatch)
    requires p < |s| && MatchAt(shape, s, p) == Some(m)
    ensures RewriteFrom(shape, s, p, links) == ReplaceLink(links, s, m) + RewriteFrom(shape, s, m.end, links)
  {
  }

  /** The substitution of a match list emits the first match's
      replacement and goes on with the later matches. */
  lemma SplicedTakes(links: map<string, LinkEntry>, s: string, m: LinkMatch, tail: seq<LinkMatch>)
    requires m.start < m.end <= |s| && Ordered([m] + tail, m.start, |s|) && Ordered(tail, m.end, |s|)
    ensures Spliced(s, m.start, [m] + tail, Replacements(links, s, [m] + tail))
              == ReplaceLink(links, s, m) + Spliced(s, m.end, tail, Replacements(links, s, tail))
  {
    ReplacementsCons(links, s, m, tail);
    SplicedFirst(s, m.start, m, tail, ReplaceLink(links, s, m), Replacements(links, s, tail));
  }

  lemma ScanHit(shape: Shape, s: string, p: nat, m: LinkMatch)
    requires p < |s| && MatchAt(shape, s, p) == Some(m)
    ensures ScanFrom(shape, s, p) == [m] + ScanFrom(shape, s, m.end)
  {
  }

  lemma ReplacementsCons(links: map<string, LinkEntry>, s: string, m: LinkMatch, tail: seq<LinkMatch>)
    requires m.start <= m.end <= |s|
    ensures Replacements(links, s, [m] + tail) == [ReplaceLink(links, s, m)] + Replacements(links, s, tail)
  {
    MapSeqCons(ReplaceAt(links, s), m, tail);
  }

  lemma MapSeqCons<A, B>(f: A -> B, x: A, xs: seq<A>)
    ensures MapSeq(f, [x] + xs) == [f(x)] + MapSeq(f, xs)
  {
    assert ([x] + xs)[1..] == xs;
  }

  /** A match at `p` comes first, replaced. */
  lemma SplicedFirst(s: string, p: nat, m: LinkMatch, tail: seq<LinkMatch>, rep: string, reps: seq<string>)
    requires p == m.start < m.end <= |s| && Ordered([m] + tail, p, |s|) && |reps| == |tail|
    requires Ordered(tail, m.end, |s|)
    ensures Spliced(s, p, [m] + tail, [rep] + reps) == rep + Spliced(s, m.end, tail, reps)
  {
    assert ([m] + tail)[1..] == tail;
    assert ([rep] + reps)[1..] == reps;
    assert s[p..m.start] == [];
  }

  /** Matches that start past `p` leave the character at `p` in front. */
  lemma SplicedShift(s: string, p: nat, ms: seq<LinkMatch>, reps: seq<string>)
    requires p < |s| && Ordered(ms, p + 1, |s|) && |reps| == |ms|
    ensures Spliced(s, p, ms, reps) == [s[p]] + Spliced(s, p + 1, ms, reps)
  {
    assert Ordered(ms, p, |s|);
    if ms != [] {
      OrderedTail(ms, p + 1, |s|);
      var rest := Spliced(s, ms[0].end, ms[1..], reps[1..]);
      SplicedUnfold(s, p, ms, reps);
      SplicedUnfold(s, p + 1, ms, reps);
      assert s[p..ms[0].start] == [s[p]] + s[p + 1..ms[0].start];
      ConcatAssoc([s[p]], s[p + 1..ms[0].start], reps[0]);
      ConcatAssoc([s[p]], s[p + 1..ms[0].start] + reps[0], rest);
    }
  }

  /** One step of `Spliced`: the text up to the first match, its
      replacement, then the rest. */
  lemma SplicedUnfold(s: string, p: nat, ms: seq<LinkMatch>, reps: seq<string>)
    requires p <= |s| && Ordered(ms, p, |s|) && |reps| == |ms| && ms != []
    ensures Ordered(ms[1..], ms[0].end, |s|)
    ensures Spliced(s, p, ms, reps) == s[p..ms[0].start] + reps[0] + Spliced(s, ms[0].end, ms[1..], reps[1..])
  {
    OrderedTail(ms, p, |s|);
  }

  /** A link the table knows is rewritten to `[**display name**](url)` from
      its entry, and the scan resumes after it. */
  lemma RewriteHit(shape: Shape, s: string, p: nat, links: map<string, LinkEntry>, m: LinkMatch, e: LinkEntry)
    requires p < |s| && MatchAt(shape, s, p) == Some(m)
    requires LookupProduct(links, LinkParts(m.text).0, LinkParts(m.text).1) == Some(e)
    ensures RewriteFrom(shape, s, p, links) == RenderBoldInside(e.displayName, e.url) + RewriteFrom(shape, s, m.end, links)
  {
  }

  /** Without any match from `p` on, the rest is copied. */
  lemma {:induction false} RewriteWithoutMatches(shape: Shape, s: string, p: nat, links: map<string, LinkEntry>)
    requires p <= |s|
    requires forall q :: p <= q <= |s| ==> !(Opener(shape) <= s[q..])
    ensures RewriteFrom(shape, s, p, links) == s[p..]
    decreases |s| - p
  {
    if p < |s| {
      assert !(Opener(shape) <= s[p..]);
      MatchNeedsOpener(shape, s, p);
      RewriteCopies(shape, s, p, links);
      RewriteWithoutMatches(shape, s, p + 1, links);
      assert s[p..] == [s[p]] + s[p + 1..];
    }
  }

  /** Where no link starts, the character is copied. */
  lemma RewriteCopies(shape: Shape, s: string, p: nat, links: map<string, LinkEntry>)
    requires p < |s| && MatchAt(shape, s, p).None?
    ensures RewriteFrom(shape, s, p, links) == [s[p]] + RewriteFrom(shape, s, p + 1, links)
  {
  }

  /** Text whose only `[` is at position `i` holds the opening marker
      `**[` nowhere, when `i < 2`, and `[**` at most at `i`. */
  lemma OpenersAround(s: string, i: nat)
    requires i < |s| && s[i] == '[' && forall k :: 0 <= k < |s| && k != i ==> s[k] != '['
    ensures i < 2 ==> forall q :: 0 <= q <= |s| ==> !(Opener(BoldOutside) <= s[q..])
    ensures forall q :: 0 <= q <= |s| && q != i ==> !(Opener(BoldInside) <= s[q..])
  {
    forall q | 0 <= q <= |s| && (i < 2 || q != i)
      ensures i < 2 ==> !(Opener(BoldOutside) <= s[q..])
      ensures q != i ==> !(Opener(BoldInside) <= s[q..])
    {
      if q + 2 < |s| {
        assert s[q..][2] == s[q + 2];
      }
      if q < |s| {
        assert s[q..][0] == s[q];
      }
    }
  }

  /** A rendered link with no `[` in its name or URL is left alone by the
      second pass. */
  lemma RenderedStays(d: string, u: string, links: map<string, LinkEntry>)
    requires '[' !in d && '[' !in u
    ensures RewriteFrom(BoldOutside, RenderBoldInside(d, u), 0, links) == RenderBoldInside(d, u)
  {
    var r := RenderBoldInside(d, u);
    var tail := "**" + d + "**](" + u + ")";
    assert r == "[" + tail;
    assert '[' !in tail;
    assert forall k :: 1 <= k < |r| ==> r[k] == tail[k - 1];
    OpenersAround(r, 0);
    RewriteWithoutMatches(BoldOutside, r, 0, links);
  }

  /** `[**text**](url)` whose product the table knows comes back as the
      table's `[**display name**](url)`. */
  lemma ValidateBoldInsideHit(t: string, u: string, links: map<string, LinkEntry>, e: LinkEntry)
    requires '*' !in t && '\n' !in t && ')' !in u && '\n' !in u
    requires LookupProduct(links, LinkParts(t).0, LinkParts(t).1) == Some(e)
    requires '[' !in e.displayName && '[' !in e.url
    ensures ValidateLinks(links, RenderBoldInside(t, u)) == RenderBoldInside(e.displayName, e.url)
  {
    var s := RenderBoldInside(t, u);
    var m := LinkMatch(0, |s|, t, u);
    InsideLinkMatched(t, u);
    RewriteWhole(BoldInside, s, links, m, e);
    RenderedStays(e.displayName, e.url, links);
  }

  /** `[**text**](url)` is one match of the first shape. */
  lemma InsideLinkMatched(t: string, u: string)
    requires '*' !in t && '\n' !in t && ')' !in u && '\n' !in u
    ensures MatchAt(BoldInside, RenderBoldInside(t, u), 0) == Some(LinkMatch(0, |RenderBoldInside(t, u)|, t, u))
  {
    var s := RenderBoldInside(t, u);
    RenderedLinkFound(t, u);
    assert s[0..] == s;
  }

  /** A text that is one known link is rewritten to the table's rendering. */
  lemma RewriteWhole(shape: Shape, s: string, links: map<string, LinkEntry>, m: LinkMatch, e: LinkEntry)
    requires 0 < |s| && MatchAt(shape, s, 0) == Some(m) && m.end == |s|
    requires LookupProduct(links, LinkParts(m.text).0, LinkParts(m.text).1) == Some(e)
    ensures RewriteFrom(shape, s, 0, links) == RenderBoldInside(e.displayName, e.url)
  {
    RewriteHit(shape, s, 0, links, m, e);
    assert RewriteFrom(shape, s, |s|, links) == [];
  }

  /** `**[text](url)**` whose product the table knows comes back as the
      table's `[**display name**](url)`. */
  lemma ValidateBoldOutsideHit(t: string, u: string, links: map<string, LinkEntry>, e: LinkEntry)
    requires t != [] && t[0] != '*' && ']' !in t && '[' !in t && u != [] && ')' !in u && '[' !in u
    requires LookupProduct(links, LinkParts(t).0, LinkParts(t).1) == Some(e)
    requires '[' !in e.displayName && '[' !in e.url
    ensures ValidateLinks(links, "**[" + t + "](" + u + ")**") == RenderBoldInside(e.displayName, e.url)
  {
    var s := "**[" + t + "](" + u + ")**";
    BoldOutsideFirstPass(t, u, links);
    BoldOutsideFound(t, u);
    var m := LinkMatch(0, |s|, t, u);
    assert s[0..] == s;
    assert MatchAt(BoldOutside, s, 0) == Some(m);
    RewriteWhole(BoldOutside, s, links, m, e);
  }

  /** The first pass finds no `[**` in `**[text](url)**` when the text
      does not start with `*`. */
  lemma BoldOutsideFirstPass(t: string, u: string, links: map<string, LinkEntry>)
    requires t != [] && t[0] != '*' && '[' !in t && '[' !in u
    ensures RewriteFrom(BoldInside, "**[" + t + "](" + u + ")**", 0, links) == "**[" + t + "](" + u + ")**"
  {
    var s := "**[" + t + "](" + u + ")**";
    var tail := t + "](" + u + ")**";
    assert s == "**[" + tail;
    assert '[' !in tail;
    assert forall k :: 3 <= k < |s| ==> s[k] == tail[k - 3];
    OpenersAround(s, 2);
    assert s[2..][1] == t[0];
    RewriteWithoutMatches(BoldInside, s, 0, links);
  }

  /** `**[text](url)**` is one match of the second shape. */
  lemma BoldOutsideFound(t: string, u: string)
    requires t != [] && ']' !in t && u != [] && ')' !in u
    ensures var s := "**[" + t + "](" + u + ")**";
      MatchBoldOutside(s) == Some((|s|, t, u))
  {
    OutsideGroups(t, u);
    BoldOutsideSteps("**[" + t + "](" + u + ")**", |t|, |u|);
  }

  /** Both greedy groups of `**[text](url)**` end where its text and URL
      end. */
  lemma OutsideGroups(t: string, u: string)
    requires t != [] && ']' !in t && u != [] && ')' !in u
    ensures var s := "**[" + t + "](" + u + ")**";
      && "**[" <= s
      && GreedyRun(s[3..], ']', "](") == Some(|t|) && s[3..][..|t|] == t
      && GreedyRun(s[3..][|t| + 2..], ')', ")**") == Some(|u|) && s[3..][|t| + 2..][..|u|] == u
  {
    var s := "**[" + t + "](" + u + ")**";
    var rest := u + ")**";
    var body := t + ("](" + rest);
    assert s == "**[" + body;
    assert s[3..] == body;
    GreedyRunPast(t, "](" + rest, ']', "](");
    assert body[..|t|] == t && body[|t| + 2..] == rest;
    GreedyRunPast(u, ")**", ')', ")**");
    assert rest[..|u|] == u;
  }

  /** `MatchBoldOutside` once both greedy groups are known. */
  lemma BoldOutsideSteps(t: string, i: nat, j: nat)
    requires "**[" <= t
    requires GreedyRun(t[3..], ']', "](") == Some(i)
    requires GreedyRun(t[3..][i + 2..], ')', ")**") == Some(j)
    ensures MatchBoldOutside(t) == Some((i + j + 8, t[3..][..i], t[3..][i + 2..][..j]))
  {
  }

  /** A greedy group over a non-empty `x` free of `c` ends where `x` does,
      when `follow`, which starts with `c`, comes next. */
  lemma GreedyRunPast(x: string, y: string, c: char, follow: string)
    requires x != [] && c !in x && follow <= y && follow != [] && follow[0] == c
    ensures GreedyRun(x + y, c, follow) == Some(|x|)
  {
    assert [c] <= y;
    FindPastFree(x, y, [c]);
    assert (x + y)[|x|..] == y;
  }

  // ---------------------------------------------------------------------
  // Image matching and insertion
  // ---------------------------------------------------------------------

  /** Strategy 1 (and 2 on the product part): equal ignoring case. */
  predicate SameKey(key: string, text: string) {
    Lower(text) == Lower(key)
  }

  /** Strategy 3: a key of more than three characters inside the link text
      that makes up more than half of it (`len(key) / len(text) > 0.5`). */
  predicate MostlyKey(key: string, text: string) {
    |key| > 3 && Contains(Lower(text), Lower(key)) && 2 * |key| > |text|
  }

  /** The first item, in table order, whose key equals `text` ignoring
      case. */
  function FirstSameKey(t: ImageTable, text: string): (r: Option<nat>)
    ensures r.Some? ==> r.value < |t| && SameKey(t[r.value].0, text) &&
                        forall j :: 0 <= j < r.value ==> !SameKey(t[j].0, text)
    ensures r.None? ==> forall j :: 0 <= j < |t| ==> !SameKey(t[j].0, text)
  {
    if t == [] then None
    else if SameKey(t[0].0, text) then Some(0)
    else
      assert forall j :: 1 <= j < |t| ==> t[j] == t[1..][j - 1];
      match FirstSameKey(t[1..], text)
      case None => None
      case Some(k) => Some(k + 1)
  }

  /** The first item, in table order, whose key is most of `text`. */
  function FirstMostlyKey(t: ImageTable, text: string): (r: Option<nat>)
    ensures r.Some? ==> r.value < |t| && MostlyKey(t[r.value].0, text) &&
                        forall j :: 0 <= j < r.value ==> !MostlyKey(t[j].0, text)
    ensures r.None? ==> forall j :: 0 <= j < |t| ==> !MostlyKey(t[j].0, text)
  {
    if t == [] then None
    else if MostlyKey(t[0].0, text) then Some(0)
    else
      assert forall j :: 1 <= j < |t| ==> t[j] == t[1..][j - 1];
      match FirstMostlyKey(t[1..], text)
      case None => None
      case Some(k) => Some(k + 1)
  }

  /** The stripped text before the first `(`. */
  function ProductPart(text: string): string {
    Strip(Split(text, "(")[0])
  }

  /** The image item for a link text: the first exact key, else (when the
      text has a `(`) the first key equal to the product part, else the
      first key that is most of the text. */
  function MatchImage(t: ImageTable, text: string): (r: Option<nat>)
    ensures r.Some? ==> r.value < |t|
    ensures r.Some? ==> SameKey(t[r.value].0, text) ||
                        ('(' in text && SameKey(t[r.value].0, ProductPart(text))) ||
                        MostlyKey(t[r.value].0, text)
    ensures (exists j :: 0 <= j < |t| && SameKey(t[j].0, text)) ==> r == FirstSameKey(t, text)
    ensures FirstSameKey(t, text).None? && '(' in text && FirstSameKey(t, ProductPart(text)).Some? ==>
      r == FirstSameKey(t, ProductPart(text))
    ensures FirstSameKey(t, text).None? && !('(' in text && FirstSameKey(t, ProductPart(text)).Some?) ==>
      r == FirstMostlyKey(t, text)
    ensures r.None? <==> forall j :: 0 <= j < |t| ==>
      !SameKey(t[j].0, text) && !('(' in text && SameKey(t[j].0, ProductPart(text))) && !MostlyKey(t[j].0, text)
  {
    match FirstSameKey(t, text)
    case Some(i) => Some(i)
    case None =>
      var second := if '(' in text then FirstSameKey(t, ProductPart(text)) else None;
      if second.Some? then second else FirstMostlyKey(t, text)
  }

  /** The Markdown inserted for an image. */
  function ImageMarkdown(key: string, image: string): string {
    "\n\n![" + key + "](" + image + ")"
  }

  /** The insertion point after a link: its end, moved past one following
      character from ",.;:!? ". */
  function AfterPunctuation(s: string, end: nat): (r: nat)
    requires end <= |s|
    ensures end <= r <= |s| && r <= end + 1
  {
    if end < |s| && s[end] in ",.;:!? " then end + 1 else end
  }

  /** One image insertion: the text before it, the link it follows, the
      image key and URL, and the position. */
  datatype Insertion = Insertion(before: string, link: LinkMatch, key: string, image: string, pos: nat)

  function Apply(ins: Insertion): string
    requires ins.pos <= |ins.before|
  {
    ins.before[..ins.pos] + ImageMarkdown(ins.key, ins.image) + ins.before[ins.pos..]
  }

  /** The insertions in `log` take `answer` to `r`, one after the other. */
  ghost predicate Chain(answer: string, log: seq<Insertion>, r: string) {
    (forall i :: 0 <= i < |log| ==> log[i].pos <= |log[i].before|) &&
    (log == [] ==> r == answer) &&
    (log != [] ==> log[0].before == answer && Apply(log[|log| - 1]) == r &&
                   forall i :: 0 <= i < |log| - 1 ==> Apply(log[i]) == log[i + 1].before)
  }

  lemma ChainAppend(answer: string, log: seq<Insertion>, r: string, step: Insertion)
    requires Chain(answer, log, r) && step.before == r && step.pos <= |r|
    ensures Chain(answer, log + [step], Apply(step))
  {
    var log' := log + [step];
    assert forall i :: 0 <= i < |log| ==> log'[i] == log[i];
  }

  /** Why an insertion happened: it follows one of the links found in the
      answer, its key and image are the item that link's text matches, it
      sits after the link (past one punctuation character), and its image
      URL was not in the text yet. */
  ghost predicate Justified(table: ImageTable, links: seq<LinkMatch>, ins: Insertion) {
    ins.link in links &&
    (var m := MatchImage(table, Strip(ins.link.text));
     m.Some? && table[m.value] == (ins.key, ins.image)) &&
    ins.link.end <= |ins.before| &&
    ins.pos == AfterPunctuation(ins.before, ins.link.end) &&
    !Contains(ins.before, ins.image)
  }

  /** The loop invariant of the image inserter: the original answer is
      embedded in the current text, the log leads from the answer to it,
      every insertion is justified, and each image URL is used once and is
      remembered as processed. */
  ghost predicate Progress(answer: string, links: seq<LinkMatch>, table: ImageTable, r: string,
                           log: seq<Insertion>, idx: seq<nat>, processed: set<string>) {
    |answer| <= |r| && Embeds(answer, r, idx) && Chain(answer, log, r) &&
    (forall i :: 0 <= i < |log| ==> Justified(table, links, log[i])) &&
    (forall i, j :: 0 <= i < j < |log| ==> log[i].image != log[j].image) &&
    (forall i :: 0 <= i < |log| ==> log[i].image in processed)
  }

  /** One justified insertion of an unprocessed image keeps the invariant. */
  lemma ProgressStep(answer: string, links: seq<LinkMatch>, table: ImageTable, r: string,
                     log: seq<Insertion>, idx: seq<nat>, processed: set<string>, step: Insertion)
    returns (idx': seq<nat>)
    requires Progress(answer, links, table, r, log, idx, processed)
    requires Justified(table, links, step) && step.before == r && step.image !in processed
    ensures Progress(answer, links, table, Apply(step), log + [step], idx', processed + {step.image})
  {
    idx' := EmbedsInsert(answer, r, idx, step.pos, ImageMarkdown(step.key, step.image));
    ChainAppend(answer, log, r, step);
    JustifiedAppend(table, links, log, step);
    ImagesAppend(log, processed, step);
  }

  /** The inserter's choice for the link at `k` is a justified insertion. */
  lemma StepJustified(table: ImageTable, links: seq<LinkMatch>, k: nat, r: string, item: nat, pos: nat)
    requires k < |links| && links[k].end <= |r| && item < |table|
    requires MatchImage(table, Strip(links[k].text)) == Some(item)
    requires !Contains(r, table[item].1) && pos == AfterPunctuation(r, links[k].end)
    ensures Justified(table, links, Insertion(r, links[k], table[item].0, table[item].1, pos))
  {
  }

  lemma JustifiedAppend(table: ImageTable, links: seq<LinkMatch>, log: seq<Insertion>, step: Insertion)
    requires forall i :: 0 <= i < |log| ==> Justified(table, links, log[i])
    requires Justified(table, links, step)
    ensures forall i :: 0 <= i < |log + [step]| ==> Justified(table, links, (log + [step])[i])
  {
    assert forall i :: 0 <= i < |log| ==> (log + [step])[i] == log[i];
  }

  lemma ImagesAppend(log: seq<Insertion>, processed: set<string>, step: Insertion)
    requires forall i, j :: 0 <= i < j < |log| ==> log[i].image != log[j].image
    requires forall i :: 0 <= i < |log| ==> log[i].image in processed
    requires step.image !in processed
    ensures var log' := log + [step];
      (forall i, j :: 0 <= i < j < |log'| ==> log'[i].image != log'[j].image) &&
      (forall i :: 0 <= i < |log'| ==> log'[i].image in processed + {step.image})
  {
    assert forall i :: 0 <= i < |log| ==> (log + [step])[i] == log[i];
  }

  /** `a` is a subsequence of `b` (greedy test). */
  predicate IsSubsequence(a: string, b: string) {
    if a == [] then true
    else if b == [] then false
    else if a[0] == b[0] then IsSubsequence(a[1..], b[1..])
    else IsSubsequence(a, b[1..])
  }

  /** `idx` places every character of `a` in `b`, in increasing order. */
  ghost predicate Embeds(a: string, b: string, idx: seq<nat>) {
    |idx| == |a| &&
    (forall i :: 0 <= i < |idx| ==> idx[i] < |b| && b[idx[i]] == a[i]) &&
    (forall i, j :: 0 <= i < j < |idx| ==> idx[i] < idx[j])
  }

  lemma {:induction false} EmbedsSubsequence(a: string, b: string, idx: seq<nat>)
    requires Embeds(a, b, idx)
    ensures IsSubsequence(a, b)
    decreases |b|
  {
    if a != [] {
      assert idx[0] < |b|;
      if a[0] == b[0] {
        var idx' := seq(|a| - 1, i requires 0 <= i < |a| - 1 => idx[i + 1] - 1);
        assert forall i :: 0 <= i < |idx'| ==> b[1..][idx'[i]] == b[idx[i + 1]];
        EmbedsSubsequence(a[1..], b[1..], idx');
      } else {
        assert idx[0] != 0;
        var idx' := seq(|a|, i requires 0 <= i < |a| => idx[i] - 1);
        assert forall i :: 0 <= i < |idx'| ==> b[1..][idx'[i]] == b[idx[i]];
        EmbedsSubsequence(a, b[1..], idx');
      }
    }
  }

  /** Inserting a segment keeps every embedded character, shifted past the
      segment when it lay at or after the insertion point. */
  lemma EmbedsInsert(a: string, b: string, idx: seq<nat>, pos: nat, seg: string) returns (idx': seq<nat>)
    requires Embeds(a, b, idx) && pos <= |b|
    ensures Embeds(a, b[..pos] + seg + b[pos..], idx')
  {
    idx' := seq(|idx|, i requires 0 <= i < |idx| => if idx[i] < pos then idx[i] else idx[i] + |seg|);
    var b' := b[..pos] + seg + b[pos..];
    forall i | 0 <= i < |idx'|
      ensures idx'[i] < |b'| && b'[idx'[i]] == a[i]
    {
      if idx[i] >= pos {
        assert b'[idx[i] + |seg|] == b[pos..][idx[i] - pos];
      }
    }
  }

  /** All links of both shapes, the first shape's first, as the image
      inserter collects them. */
  function AllLinks(s: string): (r: seq<LinkMatch>)
    ensures forall k :: 0 <= k < |r| ==> r[k].end <= |s|
  {
    FindAll(BoldInside, s) + FindAll(BoldOutside, s)
  }

  // ---------------------------------------------------------------------
  // The link manager
  // ---------------------------------------------------------------------

  class ProductLinkManager {
    var productLinks: map<string, LinkEntry>
    var brandLinks: map<string, string>
    var imageMap: ImageTable

    /** Loads the link tables from the chunks' metadata and the image table
        from the brand catalogue, starting from empty tables. */
    constructor (chunks: seq<map<string, string>>, brands: seq<BrandRecord>)
      ensures productLinks == ProductLinksFrom(map[], chunks)
      ensures brandLinks == BrandLinksFrom(map[], chunks)
      ensures imageMap == ImagesFrom([], brands)
      ensures DistinctKeys(imageMap)
    {
      productLinks := map[];
      brandLinks := map[];
      imageMap := [];
      new;
      LoadLinks(chunks);
      LoadImages(brands);
      ImagesDistinct([], brands);
    }

    /** `_load_links`: each chunk adds its brand link, then its product
        entry under the composite key and under the product name. */
    method LoadLinks(chunks: seq<map<string, string>>)
      modifies this
      ensures productLinks == ProductLinksFrom(old(productLinks), chunks)
      ensures brandLinks == BrandLinksFrom(old(brandLinks), chunks)
      ensures imageMap == old(imageMap)
    {
      for i := 0 to |chunks|
        invariant productLinks == ProductLinksFrom(old(productLinks), chunks[..i])
        invariant brandLinks == BrandLinksFrom(old(brandLinks), chunks[..i])
        invariant imageMap == old(imageMap)
      {
        var md := chunks[i];
        if "brand" in md && "brand_url" in md {
          brandLinks := brandLinks[Lower(md["brand"]) := md["brand_url"]];
        }
        if "product_name" in md && "product_url" in md {
          var product := md["product_name"];
          var brand := FieldOr(md, "brand", "");
          var key := CompositeKey(Lower(product), Lower(brand));
          var entry := LinkEntry(md["product_url"], DisplayName(product, brand), brand);
          productLinks := productLinks[key := entry];
          productLinks := productLinks[Lower(product) := entry];
        }
        assert chunks[..i + 1][..i] == chunks[..i];
      }
      assert chunks[..|chunks|] == chunks;
    }

    /** `_load_images`: for every brand, every product with a non-blank
        name and image URL. */
    method LoadImages(brands: seq<BrandRecord>)
      modifies this
      ensures imageMap == ImagesFrom(old(imageMap), brands)
      ensures productLinks == old(productLinks) && brandLinks == old(brandLinks)
    {
      for i := 0 to |brands|
        invariant imageMap == ImagesFrom(old(imageMap), brands[..i])
        invariant productLinks == old(productLinks) && brandLinks == old(brandLinks)
      {
        var brand := Strip(FieldOr(brands[i].fields, "brand", ""));
        LoadBrandImages(brand, brands[i].products);
        assert brands[..i + 1][..i] == brands[..i];
      }
      assert brands[..|brands|] == brands;
    }

    /** The inner loop of `_load_images`: the products of one brand. */
    method LoadBrandImages(brand: string, products: seq<ProductRecord>)
      modifies this
      ensures imageMap == AddProductImages(old(imageMap), brand, products)
      ensures productLinks == old(productLinks) && brandLinks == old(brandLinks)
    {
      for j := 0 to |products|
        invariant imageMap == AddProductImages(old(imageMap), brand, products[..j])
        invariant productLinks == old(productLinks) && brandLinks == old(brandLinks)
      {
        var name := Strip(FieldOr(products[j].fields, "name", ""));
        var img := Strip(FieldOr(products[j].fields, "image_url", ""));
        if name != "" && img != "" {
          imageMap := Put(imageMap, Lower(name), img);
          if brand != "" {
            imageMap := Put(imageMap, Lower(name + " (" + brand + ")"), img);
            imageMap := Put(imageMap, Lower(brand + " " + name), img);
          }
        }
        assert products[..j + 1][..j] == products[..j];
      }
      assert products[..|products|] == products;
    }

    /** `get_product_link` */
    function GetProductLink(product: string, brand: string): Option<LinkEntry>
      reads this
    {
      LookupProduct(productLinks, product, brand)
    }

    /** `get_brand_link` */
    function GetBrandLink(brand: string): string
      reads this
    {
      LookupBrand(brandLinks, brand)
    }

    /** `extract_and_validate_links` */
    function ExtractAndValidateLinks(response: string): string
      reads this
    {
      ValidateLinks(productLinks, response)
    }

    /** `insert_product_images`: the links of both shapes are visited in
        reverse of (first-shape links, then second-shape links); a link
        whose text matches an image item gets that image inserted after it
        (past one punctuation character), unless the image URL was already
        used or already occurs in the text. Positions are those of the
        original answer. */
    method InsertProductImages(answer: string) returns (r: string, ghost log: seq<Insertion>)
      ensures IsSubsequence(answer, r)
      ensures Chain(answer, log, r)
      ensures forall i :: 0 <= i < |log| ==> Justified(imageMap, AllLinks(answer), log[i])
      ensures forall i, j :: 0 <= i < j < |log| ==> log[i].image != log[j].image
    {
      var matches := AllLinks(answer);
      var processed: set<string> := {};
      r := answer;
      log := [];
      ghost var idx: seq<nat> := seq(|answer|, i requires 0 <= i < |answer| => i);
      var k := |matches|;
      while k > 0
        invariant 0 <= k <= |matches|
        invariant Progress(answer, matches, imageMap, r, log, idx, processed)
      {
        k := k - 1;
        var link := matches[k];
        var found := MatchImage(imageMap, Strip(link.text));
        if found.Some? {
          var (key, image) := imageMap[found.value];
          if image !in processed && !Contains(r, image) {
            var pos := link.end;
            if pos < |r| && r[pos] in ",.;:!? " {
              pos := pos + 1;
            }
            var step := Insertion(r, link, key, image, pos);
            StepJustified(imageMap, matches, k, r, found.value, pos);
            idx := ProgressStep(answer, matches, imageMap, r, log, idx, processed, step);
            log := log + [step];
            r := r[..pos] + ImageMarkdown(key, image) + r[pos..];
            processed := processed + {image};
          }
        }
      }
      EmbedsSubsequence(answer, r, idx);
    }
  }

  // ---------------------------------------------------------------------
  // Chat history and references
  // ---------------------------------------------------------------------

  /** One history line: "User: text" for the user, "Assistant: text"
      otherwise. */
  function HistoryLine(t: Turn): string {
    (if t.sender == "user" then "User" else "Assistant") + ": " + t.text
  }

  /** The turns the prompt keeps: the last six. */
  function RecentTurns(history: seq<Turn>): (r: seq<Turn>)
    ensures |r| == if |history| < 6 then |history| else 6
    ensures r == history[|history| - |r|..]
  {
    if |history| <= 6 then history else history[|history| - 6..]
  }

  /** The history text of the prompt: the recent turns' lines joined by a
      literal backslash-n pair (the source writes `"\\n"`). */
  function HistoryText(history: seq<Turn>): string {
    var recent := RecentTurns(history);
    Join(seq(|recent|, i requires 0 <= i < |recent| => HistoryLine(recent[i])), "\\n")
  }

  /** Only the last six turns reach the prompt: older turns never matter. */
  lemma HistoryIgnoresOlder(older: seq<Turn>, recent: seq<Turn>)
    requires |recent| >= 6
    ensures HistoryText(older + recent) == HistoryText(recent)
  {
    assert (older + recent)[|older + recent| - 6..] == recent[|recent| - 6..];
  }

  /** Builds the history text line by line. */
  method BuildHistory(history: seq<Turn>) returns (text: string)
    ensures text == HistoryText(history)
  {
    var recent := if |history| <= 6 then history else history[|history| - 6..];
    var lines: seq<string> := [];
    for i := 0 to |recent|
      invariant lines == seq(i, k requires 0 <= k < i => HistoryLine(recent[k]))
    {
      var role := if recent[i].sender == "user" then "User" else "Assistant";
      lines := lines + [role + ": " + recent[i].text];
    }
    text := Join(lines, "\\n");
  }

  /** A footer reference: title and URL. */
  datatype Reference = Reference(title: string, url: string)

  /** The reference a retrieved document offers: its product page when the
      metadata names a product and its URL, else its brand page when it
      names a brand and its URL. */
  function DocReference(md: map<string, string>): Option<Reference> {
    if HasProductLink(md) then
      Some(Reference(md["product_name"] + " | Made with Nestlé Canada", md["product_url"]))
    else if HasBrandLink(md) then
      Some(Reference(md["brand"] + " Brands' Products | Made With Nestlé Canada", md["brand_url"]))
    else None
  }

  function Urls(refs: seq<Reference>): (r: set<string>)
    ensures forall k :: 0 <= k < |refs| ==> refs[k].url in r
    ensures forall u :: u in r ==> exists k :: 0 <= k < |refs| && refs[k].url == u
  {
    set k | 0 <= k < |refs| :: refs[k].url
  }

  /** The references of the documents in order, skipping any whose URL an
      earlier reference already has. */
  function ReferencesOf(mds: seq<map<string, string>>): seq<Reference> {
    if mds == [] then []
    else
      var prev := ReferencesOf(mds[..|mds| - 1]);
      match DocReference(mds[|mds| - 1])
      case Some(ref) => if ref.url in Urls(prev) then prev else prev + [ref]
      case None => prev
  }

  lemma UrlsAppend(refs: seq<Reference>, ref: Reference)
    ensures Urls(refs + [ref]) == Urls(refs) + {ref.url}
  {
    var refs' := refs + [ref];
    assert forall k :: 0 <= k < |refs| ==> refs'[k] == refs[k];
    assert refs'[|refs|] == ref;
  }

  /** The last document adds its reference exactly when it has one whose
      URL is new. */
  lemma ReferencesExtend(mds: seq<map<string, string>>)
    requires mds != []
    ensures var prev := ReferencesOf(mds[..|mds| - 1]);
      var d := DocReference(mds[|mds| - 1]);
      if d.Some? && d.value.url !in Urls(prev) then
        ReferencesOf(mds) == prev + [d.value] && Urls(ReferencesOf(mds)) == Urls(prev) + {d.value.url}
      else ReferencesOf(mds) == prev
  {
    var prev := ReferencesOf(mds[..|mds| - 1]);
    var d := DocReference(mds[|mds| - 1]);
    if d.Some? && d.value.url !in Urls(prev) {
      UrlsAppend(prev, d.value);
    }
  }

  /** The footer holds each URL once. */
  lemma {:induction false} ReferencesDistinct(mds: seq<map<string, string>>)
    ensures var refs := ReferencesOf(mds);
      forall a, b :: 0 <= a < b < |refs| ==> refs[a].url != refs[b].url
  {
    if mds != [] {
      var prev := ReferencesOf(mds[..|mds| - 1]);
      ReferencesDistinct(mds[..|mds| - 1]);
      ReferencesExtend(mds);
    }
  }

  /** Every document's reference URL is in the footer. */
  lemma {:induction false} ReferencesCover(mds: seq<map<string, string>>)
    ensures forall i :: 0 <= i < |mds| && DocReference(mds[i]).Some? ==>
      DocReference(mds[i]).value.url in Urls(ReferencesOf(mds))
  {
    if mds != [] {
      var n := |mds| - 1;
      ReferencesCover(mds[..n]);
      ReferencesExtend(mds);
      assert forall i :: 0 <= i < n ==> mds[..n][i] == mds[i];
    }
  }

  /** Document `i` offers `ref`, and no earlier document offers its URL. */
  ghost predicate FirstOffer(mds: seq<map<string, string>>, i: nat, ref: Reference) {
    && i < |mds| && DocReference(mds[i]) == Some(ref)
    && forall j :: 0 <= j < i ==> DocReference(mds[j]).None? || DocReference(mds[j]).value.url != ref.url
  }

  /** Each footer entry is the reference of the first document offering its
      URL: a later document with the same URL never replaces it. */
  lemma ReferencesFirstWins(mds: seq<map<string, string>>, k: nat)
    requires k < |ReferencesOf(mds)|
    ensures exists i: nat :: FirstOffer(mds, i, ReferencesOf(mds)[k])
  {
    var i := FirstOfferOf(mds, k);
  }

  /** The document whose reference footer entry `k` is. */
  lemma {:induction false} FirstOfferOf(mds: seq<map<string, string>>, k: nat) returns (i: nat)
    requires k < |ReferencesOf(mds)|
    ensures FirstOffer(mds, i, ReferencesOf(mds)[k])
  {
    var n := |mds| - 1;
    var init := mds[..n];
    ReferencesExtend(mds);
    var prev := ReferencesOf(init);
    if k < |prev| {
      i := FirstOfferOf(init, k);
      FirstOfferGrows(mds, i, prev[k]);
    } else {
      NewUrlFirstOffer(mds);
      i := n;
    }
  }

  /** A first offer in a prefix stays a first offer. */
  lemma FirstOfferGrows(mds: seq<map<string, string>>, i: nat, ref: Reference)
    requires mds != [] && FirstOffer(mds[..|mds| - 1], i, ref)
    ensures FirstOffer(mds, i, ref)
  {
    var init := mds[..|mds| - 1];
    assert forall j :: 0 <= j <= i ==> init[j] == mds[j];
  }

  /** A reference the last document adds is its first offer. */
  lemma NewUrlFirstOffer(mds: seq<map<string, string>>)
    requires mds != []
    requires var d := DocReference(mds[|mds| - 1]);
      d.Some? && d.value.url !in Urls(ReferencesOf(mds[..|mds| - 1]))
    ensures FirstOffer(mds, |mds| - 1, DocReference(mds[|mds| - 1]).value)
  {
    var n := |mds| - 1;
    ReferencesCover(mds[..n]);
    assert forall j :: 0 <= j < n ==> mds[..n][j] == mds[j];
  }

  /** Builds the footer references with a set of URLs already seen. */
  method BuildReferences(docs: seq<map<string, string>>) returns (refs: seq<Reference>)
    ensures refs == ReferencesOf(docs)
  {
    refs := [];
    var seen: set<string> := {};
    for i := 0 to |docs|
      invariant refs == ReferencesOf(docs[..i])
      invariant seen == Urls(refs)
    {
      var meta := docs[i];
      if "product_name" in meta && "product_url" in meta {
        if meta["product_url"] !in seen {
          UrlsAppend(refs, Reference(meta["product_name"] + " | Made with Nestlé Canada", meta["product_url"]));
          refs := refs + [Reference(meta["product_name"] + " | Made with Nestlé Canada", meta["product_url"])];
          seen := seen + {meta["product_url"]};
        }
      } else if "brand" in meta && "brand_url" in meta {
        if meta["brand_url"] !in seen {
          UrlsAppend(refs, Reference(meta["brand"] + " Brands' Products | Made With Nestlé Canada", meta["brand_url"]));
          refs := refs + [Reference(meta["brand"] + " Brands' Products | Made With Nestlé Canada", meta["brand_url"])];
          seen := seen + {meta["brand_url"]};
        }
      }
      assert docs[..i + 1][..i] == docs[..i];
    }
    assert docs[..|docs|] == docs;
  }

  /** The "Related Links" footer: nothing without references, else a
      heading and one Markdown list item per reference. */
  function RelatedLinks(refs: seq<Reference>): (r: string)
    ensures refs == [] <==> r == ""
  {
    if refs == [] then ""
    else "\n\n**Related Links**\n" + Join(seq(|refs|, k requires 0 <= k < |refs| => "- [" + refs[k].title + "](" + refs[k].url + ")"), "\n")
  }

  /** Steps 6 and 7 of the answer pipeline: validate the generated answer's
      links, insert product images, and append the references of the
      retrieved documents. */
  method FinishAnswer(manager: ProductLinkManager, generated: string, docs: seq<map<string, string>>)
    returns (answer: string, ghost withImages: string, ghost log: seq<Insertion>)
    ensures answer == withImages + RelatedLinks(ReferencesOf(docs))
    ensures IsSubsequence(ValidateLinks(manager.productLinks, generated), withImages)
    ensures Chain(ValidateLinks(manager.productLinks, generated), log, withImages)
    ensures forall i :: 0 <= i < |log| ==>
      Justified(manager.imageMap, AllLinks(ValidateLinks(manager.productLinks, generated)), log[i])
    ensures forall i, j :: 0 <= i < j < |log| ==> log[i].image != log[j].image
  {
    var validated := manager.ExtractAndValidateLinks(generated);
    answer, log := manager.InsertProductImages(validated);
    withImages := answer;
    var refs := BuildReferences(docs);
    if refs != [] {
      answer := answer + RelatedLinks(refs);
    }
  }
}
