/**
  Chunk construction from the scraped catalogue: for every brand and every
  product, in order, one metadata chunk, a description chunk when there is
  a description, one chunk per usable nutrition item and one chunk per
  non-blank feature line. Reading the catalogue file and writing the chunk
  file are outside the model: the parsed catalogue is the input and the
  chunk list the output.
 */
module SplitChunks {
  import opened Wrappers
  import opened Text
  import opened Records

  /** The chunk type a chunk's metadata records. */
  function TypeOf(c: Chunk): Value {
    Get(c.metadata, "chunk_type")
  }

  /** The values every chunk of a product reads from its brand. */
  function BrandOf(b: BrandRecord): Value { Field(b.fields, "brand") }
  function BrandUrlOf(b: BrandRecord): string { FieldOr(b.fields, "url", "") }
  function NameOf(p: ProductRecord): Value { Field(p.fields, "name") }
  function ProductUrlOf(p: ProductRecord): string { FieldOr(p.fields, "product_url", "") }

  // ---------------------------------------------------------------------
  // Chunk 1: product metadata

  /** The metadata chunk; the status is added to the text and to the
      metadata only when it is a non-empty string. */
  function MetadataChunk(b: BrandRecord, p: ProductRecord): Chunk {
    var category := Field(b.fields, "category");
    var status := Field(p.fields, "status");
    var text := "Brand: " + Show(BrandOf(b)) + " | Category: " + Show(category) + " | Product: " +
      Show(NameOf(p)) + " | URL (link): " + BrandUrlOf(b);
    var meta := map["brand" := BrandOf(b), "product_name" := NameOf(p), "brand_url" := Str(BrandUrlOf(b)),
                    "category" := category, "chunk_type" := Str("product_metadata")];
    if Truthy(status) then Chunk(meta["status" := status], text + " | Status: " + status.s)
    else Chunk(meta, text)
  }

  /** The status appears in the metadata exactly when it is truthy, and then
      it also closes the text. */
  lemma MetadataStatus(b: BrandRecord, p: ProductRecord)
    ensures var c := MetadataChunk(b, p);
      var status := Field(p.fields, "status");
      && TypeOf(c) == Str("product_metadata")
      && ("status" in c.metadata <==> Truthy(status))
      && (Truthy(status) ==> c.metadata["status"] == status && EndsWith(c.content, " | Status: " + status.s))
  {
    var c := MetadataChunk(b, p);
    var status := Field(p.fields, "status");
    if Truthy(status) {
      var tail := " | Status: " + status.s;
      assert c.content[|c.content| - |tail|..] == tail;
    }
  }

  // ---------------------------------------------------------------------
  // Chunk 2: core description

  /** `description.split(".")[0].strip()`: the first sentence. */
  function FirstSentence(description: string): string {
    Strip(Split(description, ".")[0])
  }

  /** The description chunk, present only for a non-empty description. */
  function DescChunks(b: BrandRecord, p: ProductRecord): (r: seq<Chunk>)
    ensures |r| == (if FieldOr(p.fields, "description", "") != "" then 1 else 0)
  {
    var description := FieldOr(p.fields, "description", "");
    if description == "" then [] else [DescChunk(b, p)]
  }

  function DescChunk(b: BrandRecord, p: ProductRecord): Chunk {
    var spec := Field(p.fields, "specification");
    var text := Show(NameOf(p)) + " (" + Show(spec) + "): " + FirstSentence(FieldOr(p.fields, "description", "")) +
      ". " + "The url (link) of this product is: " + ProductUrlOf(p) + ". ";
    Chunk(map["brand" := BrandOf(b), "brand_url" := Str(BrandUrlOf(b)), "product_url" := Str(ProductUrlOf(p)),
              "product_name" := NameOf(p), "chunk_type" := Str("core_desc"), "specification" := spec],
          text)
  }

  /** The first sentence holds no full stop. */
  lemma FirstSentenceHasNoStop(description: string)
    ensures '.' !in FirstSentence(description)
  {
    var piece := Split(description, ".")[0];
    SplitPiecesFree(description, ".");
    assert '.' !in piece by {
      if '.' in piece {
        var i :| 0 <= i < |piece| && piece[i] == '.';
        assert piece[i..i + 1] == ".";
        ContainsAt(piece, i, ".");
      }
    }
    StripInside(piece, '.');
  }

  // ---------------------------------------------------------------------
  // Chunk 3: nutrition, one per usable item

  /** An item is used when its trimmed type and amount are both non-empty. */
  predicate UsableItem(item: map<string, string>) {
    Strip(FieldOr(item, "type", "")) != "" && Strip(FieldOr(item, "amount", "")) != ""
  }

  /** The text of a nutrition chunk, with its own wording for an empty dv. */
  function NutritionText(name: Value, brand: Value, field: string, amount: string, dv: string): string {
    if dv == "" then Show(name) + " from " + Show(brand) + " has " + amount + " " + field + " and dv is not provided."
    else Show(name) + " from " + Show(brand) + " has " + amount + " " + field + " and dv is " + dv + "."
  }

  function NutritionChunk(b: BrandRecord, p: ProductRecord, item: map<string, string>): Chunk {
    var field := Strip(FieldOr(item, "type", ""));
    var amount := Strip(FieldOr(item, "amount", ""));
    var dv := Strip(FieldOr(item, "dv", ""));
    Chunk(map["brand" := BrandOf(b), "product_name" := NameOf(p), "product_url" := Str(ProductUrlOf(p)),
              "chunk_type" := Str("nutrition"), "field" := Str(field), "amount" := Str(amount), "dv" := Str(dv)],
          NutritionText(NameOf(p), BrandOf(b), field, amount, dv))
  }

  /** The nutrition chunks of the items, in order. */
  function NutritionChunks(b: BrandRecord, p: ProductRecord, items: seq<map<string, string>>): (r: seq<Chunk>)
    ensures |r| <= |items|
  {
    if items == [] then []
    else
      var item := items[|items| - 1];
      NutritionChunks(b, p, items[..|items| - 1]) + (if UsableItem(item) then [NutritionChunk(b, p, item)] else [])
  }

  /** The number of usable items. */
  function UsableCount(items: seq<map<string, string>>): nat {
    if items == [] then 0
    else UsableCount(items[..|items| - 1]) + (if UsableItem(items[|items| - 1]) then 1 else 0)
  }

  /** One nutrition chunk per usable item. */
  lemma {:induction false} NutritionCount(b: BrandRecord, p: ProductRecord, items: seq<map<string, string>>)
    ensures |NutritionChunks(b, p, items)| == UsableCount(items)
  {
    if items != [] {
      NutritionCount(b, p, items[..|items| - 1]);
    }
  }

  /** The dv wording: the text ends with the trimmed dv, or with "not
      provided" when the trimmed dv is empty. */
  lemma NutritionWording(name: Value, brand: Value, field: string, amount: string, dv: string)
    ensures var t := NutritionText(name, brand, field, amount, dv);
      EndsWith(t, " and dv is " + (if dv == "" then "not provided" else dv) + ".")
  {
    var head := Show(name) + " from " + Show(brand) + " has " + amount + " " + field;
    if dv == "" {
      assert " and dv is " + "not provided" + "." == " and dv is not provided.";
      EndsWithAppend(head, " and dv is not provided.");
    } else {
      AppendRegroup(head, " and dv is ", dv, ".");
      EndsWithAppend(head, " and dv is " + dv + ".");
    }
  }

  lemma AppendRegroup<T>(a: seq<T>, b: seq<T>, c: seq<T>, d: seq<T>)
    ensures a + b + c + d == a + (b + c + d)
  {
  }

  // ---------------------------------------------------------------------
  // Chunk 4: features, one per non-blank line

  /** The trimmed features text split into lines. */
  function FeatureLines(p: ProductRecord): seq<string> {
    Split(Strip(FieldOr(p.fields, "features", "")), "\n")
  }

  /** The field of a feature line: the trimmed text before the first `:`,
      or "feature" for a line without one. */
  function FeatureField(line: string): string {
    if ':' in line then Strip(Split(line, ":")[0]) else "feature"
  }

  /** A feature field never holds a colon. */
  lemma FeatureFieldHasNoColon(line: string)
    ensures ':' !in FeatureField(line)
  {
    if ':' in line {
      var piece := Split(line, ":")[0];
      SplitPiecesFree(line, ":");
      assert ':' !in piece by {
        if ':' in piece {
          var i :| 0 <= i < |piece| && piece[i] == ':';
          assert piece[i..i + 1] == ":";
          ContainsAt(piece, i, ":");
        }
      }
      StripInside(piece, ':');
    }
  }

  function FeatureChunk(b: BrandRecord, p: ProductRecord, line: string): Chunk {
    var field := FeatureField(line);
    Chunk(map["brand" := BrandOf(b), "product_name" := NameOf(p), "product_url" := Str(ProductUrlOf(p)),
              "chunk_type" := Str("features"), "field" := Str(field)],
          Show(NameOf(p)) + " has the feature: " + field)
  }

  /** The feature chunks of the lines, in order: one per non-blank line. */
  function FeatureChunks(b: BrandRecord, p: ProductRecord, lines: seq<string>): (r: seq<Chunk>)
    ensures |r| <= |lines|
  {
    if lines == [] then []
    else
      var line := lines[|lines| - 1];
      FeatureChunks(b, p, lines[..|lines| - 1]) + (if Strip(line) != "" then [FeatureChunk(b, p, line)] else [])
  }

  /** The number of non-blank lines. */
  function NonBlankCount(lines: seq<string>): nat {
    if lines == [] then 0
    else NonBlankCount(lines[..|lines| - 1]) + (if Strip(lines[|lines| - 1]) != "" then 1 else 0)
  }

  lemma {:induction false} FeatureCount(b: BrandRecord, p: ProductRecord, lines: seq<string>)
    ensures |FeatureChunks(b, p, lines)| == NonBlankCount(lines)
  {
    if lines != [] {
      FeatureCount(b, p, lines[..|lines| - 1]);
    }
  }

  // ---------------------------------------------------------------------
  // The whole catalogue

  /** The chunks of one product, in the order they are appended. */
  function ProductChunks(b: BrandRecord, p: ProductRecord): seq<Chunk> {
    [MetadataChunk(b, p)] + DescChunks(b, p) + NutritionChunks(b, p, p.nutrition) +
      FeatureChunks(b, p, FeatureLines(p))
  }

  function BrandChunks(b: BrandRecord, ps: seq<ProductRecord>): seq<Chunk> {
    if ps == [] then []
    else BrandChunks(b, ps[..|ps| - 1]) + ProductChunks(b, ps[|ps| - 1])
  }

  /** All chunks: per brand, then per product. */
  function AllChunks(bs: seq<BrandRecord>): seq<Chunk> {
    if bs == [] then []
    else AllChunks(bs[..|bs| - 1]) + BrandChunks(bs[|bs| - 1], bs[|bs| - 1].products)
  }

  /** Every chunk of `cs` has type `t`. */
  predicate AllOfType(cs: seq<Chunk>, t: string) {
    forall k :: 0 <= k < |cs| ==> TypeOf(cs[k]) == Str(t)
  }

  lemma DescTypes(b: BrandRecord, p: ProductRecord)
    ensures AllOfType(DescChunks(b, p), "core_desc")
  {
  }

  /** Nutrition chunks have their type, a non-empty field and a non-empty
      amount. */
  lemma {:induction false} NutritionTypes(b: BrandRecord, p: ProductRecord, items: seq<map<string, string>>)
    ensures AllOfType(NutritionChunks(b, p, items), "nutrition")
    ensures forall c :: c in NutritionChunks(b, p, items) ==>
      Truthy(Get(c.metadata, "field")) && Truthy(Get(c.metadata, "amount"))
  {
    if items != [] {
      var init := items[..|items| - 1];
      var item := items[|items| - 1];
      NutritionTypes(b, p, init);
      if UsableItem(item) {
        var c := NutritionChunk(b, p, item);
        NutritionChunkFields(b, p, item);
        AllOfTypeSnoc(NutritionChunks(b, p, init), c, "nutrition");
      } else {
        assert NutritionChunks(b, p, items) == NutritionChunks(b, p, init);
      }
    }
  }

  /** A nutrition chunk records its type and the trimmed type and amount of
      its item. */
  lemma NutritionChunkFields(b: BrandRecord, p: ProductRecord, item: map<string, string>)
    ensures var c := NutritionChunk(b, p, item);
      && TypeOf(c) == Str("nutrition")
      && Get(c.metadata, "field") == Str(Strip(FieldOr(item, "type", "")))
      && Get(c.metadata, "amount") == Str(Strip(FieldOr(item, "amount", "")))
  {
  }

  lemma {:induction false} FeatureTypes(b: BrandRecord, p: ProductRecord, lines: seq<string>)
    ensures AllOfType(FeatureChunks(b, p, lines), "features")
  {
    if lines != [] {
      var init := lines[..|lines| - 1];
      var line := lines[|lines| - 1];
      FeatureTypes(b, p, init);
      if Strip(line) != "" {
        var c := FeatureChunk(b, p, line);
        assert TypeOf(c) == Str("features");
        AllOfTypeSnoc(FeatureChunks(b, p, init), c, "features");
      } else {
        assert FeatureChunks(b, p, lines) == FeatureChunks(b, p, init);
      }
    }
  }

  lemma AllOfTypeSnoc(cs: seq<Chunk>, c: Chunk, t: string)
    requires AllOfType(cs, t) && TypeOf(c) == Str(t)
    ensures AllOfType(cs + [c], t)
  {
  }

  /** The four parts of a concatenation, recovered by slicing. */
  lemma FourParts<T>(m: T, ds: seq<T>, ns: seq<T>, fs: seq<T>)
    ensures var cs := [m] + ds + ns + fs;
      && cs[0] == m && cs[1..1 + |ds|] == ds
      && cs[1 + |ds|..1 + |ds| + |ns|] == ns && cs[1 + |ds| + |ns|..] == fs
  {
  }

  /** The types of a product's chunks: metadata, then the description, then
      the nutrition items, then the features. */
  lemma ProductChunkOrder(b: BrandRecord, p: ProductRecord)
    ensures var cs := ProductChunks(b, p);
      var d := |DescChunks(b, p)|;
      var n := |NutritionChunks(b, p, p.nutrition)|;
      && 1 + d + n <= |cs|
      && TypeOf(cs[0]) == Str("product_metadata")
      && AllOfType(cs[1..1 + d], "core_desc")
      && AllOfType(cs[1 + d..1 + d + n], "nutrition")
      && AllOfType(cs[1 + d + n..], "features")
  {
    FourParts(MetadataChunk(b, p), DescChunks(b, p), NutritionChunks(b, p, p.nutrition),
      FeatureChunks(b, p, FeatureLines(p)));
    MetadataStatus(b, p);
    DescTypes(b, p);
    NutritionTypes(b, p, p.nutrition);
    FeatureTypes(b, p, FeatureLines(p));
  }

  /** How many chunks have type `t`. */
  function CountType(cs: seq<Chunk>, t: string): nat {
    if cs == [] then 0
    else CountType(cs[..|cs| - 1], t) + (if TypeOf(cs[|cs| - 1]) == Str(t) then 1 else 0)
  }

  lemma {:induction false} CountTypeAppend(a: seq<Chunk>, b: seq<Chunk>, t: string)
    ensures CountType(a + b, t) == CountType(a, t) + CountType(b, t)
    decreases |b|
  {
    if b == [] {
      assert a + b == a;
    } else {
      CountTypeAppend(a, b[..|b| - 1], t);
      assert (a + b)[..|a + b| - 1] == a + b[..|b| - 1];
    }
  }

  lemma {:induction false} CountTypeNone(cs: seq<Chunk>, t: string)
    requires forall k :: 0 <= k < |cs| ==> TypeOf(cs[k]) != Str(t)
    ensures CountType(cs, t) == 0
  {
    if cs != [] {
      CountTypeNone(cs[..|cs| - 1], t);
    }
  }

  /** Every product gives exactly one metadata chunk. */
  lemma ProductOneMetadata(b: BrandRecord, p: ProductRecord)
    ensures CountType(ProductChunks(b, p), "product_metadata") == 1
  {
    var m := MetadataChunk(b, p);
    var ds := DescChunks(b, p);
    var ns := NutritionChunks(b, p, p.nutrition);
    var fs := FeatureChunks(b, p, FeatureLines(p));
    MetadataStatus(b, p);
    DescTypes(b, p);
    NutritionTypes(b, p, p.nutrition);
    FeatureTypes(b, p, FeatureLines(p));
    OneOfFour(m, ds, ns, fs, "product_metadata");
  }

  /** A metadata chunk followed by chunks of three other types. */
  lemma OneOfFour(m: Chunk, ds: seq<Chunk>, ns: seq<Chunk>, fs: seq<Chunk>, t: string)
    requires TypeOf(m) == Str(t) && t == "product_metadata"
    requires AllOfType(ds, "core_desc") && AllOfType(ns, "nutrition") && AllOfType(fs, "features")
    ensures CountType([m] + ds + ns + fs, t) == 1
  {
    assert CountType([m], t) == 1 by {
      assert [m][..0] == [];
    }
    CountTypeNone(ds, t);
    CountTypeNone(ns, t);
    CountTypeNone(fs, t);
    CountTypeAppend([m], ds, t);
    CountTypeAppend([m] + ds, ns, t);
    CountTypeAppend([m] + ds + ns, fs, t);
  }

  /** The number of products in the catalogue. */
  function ProductCount(bs: seq<BrandRecord>): nat {
    if bs == [] then 0 else ProductCount(bs[..|bs| - 1]) + |bs[|bs| - 1].products|
  }

  lemma {:induction false} BrandMetadataCount(b: BrandRecord, ps: seq<ProductRecord>)
    ensures CountType(BrandChunks(b, ps), "product_metadata") == |ps|
  {
    if ps != [] {
      BrandMetadataCount(b, ps[..|ps| - 1]);
      ProductOneMetadata(b, ps[|ps| - 1]);
      CountTypeAppend(BrandChunks(b, ps[..|ps| - 1]), ProductChunks(b, ps[|ps| - 1]), "product_metadata");
    }
  }

  /** The catalogue gives exactly one metadata chunk per product. */
  lemma {:induction false} MetadataPerProduct(bs: seq<BrandRecord>)
    ensures CountType(AllChunks(bs), "product_metadata") == ProductCount(bs)
  {
    if bs != [] {
      var last := bs[|bs| - 1];
      MetadataPerProduct(bs[..|bs| - 1]);
      BrandMetadataCount(last, last.products);
      CountTypeAppend(AllChunks(bs[..|bs| - 1]), BrandChunks(last, last.products), "product_metadata");
    }
  }

  // ---------------------------------------------------------------------
  // Properties every chunk has: a property of each kind of chunk holds of
  // every chunk of the catalogue.

  predicate Every(cs: seq<Chunk>, P: Chunk -> bool) {
    forall c :: c in cs ==> P(c)
  }

  /** The kinds of chunk, each for every brand and product. */
  ghost predicate EveryKind(P: Chunk -> bool) {
    && (forall b, p :: P(MetadataChunk(b, p)))
    && (forall b, p :: P(DescChunk(b, p)))
    && (forall b, p, item :: P(NutritionChunk(b, p, item)))
    && (forall b, p, line :: P(FeatureChunk(b, p, line)))
  }

  lemma {:induction false} EveryNutrition(b: BrandRecord, p: ProductRecord, items: seq<map<string, string>>, P: Chunk -> bool)
    requires EveryKind(P)
    ensures Every(NutritionChunks(b, p, items), P)
  {
    if items != [] {
      EveryNutrition(b, p, items[..|items| - 1], P);
    }
  }

  lemma {:induction false} EveryFeature(b: BrandRecord, p: ProductRecord, lines: seq<string>, P: Chunk -> bool)
    requires EveryKind(P)
    ensures Every(FeatureChunks(b, p, lines), P)
  {
    if lines != [] {
      EveryFeature(b, p, lines[..|lines| - 1], P);
    }
  }

  lemma EveryProduct(b: BrandRecord, p: ProductRecord, P: Chunk -> bool)
    requires EveryKind(P)
    ensures Every(ProductChunks(b, p), P)
  {
    EveryNutrition(b, p, p.nutrition, P);
    EveryFeature(b, p, FeatureLines(p), P);
    assert P(MetadataChunk(b, p)) && P(DescChunk(b, p));
  }

  lemma {:induction false} EveryBrand(b: BrandRecord, ps: seq<ProductRecord>, P: Chunk -> bool)
    requires EveryKind(P)
    ensures Every(BrandChunks(b, ps), P)
  {
    if ps != [] {
      EveryBrand(b, ps[..|ps| - 1], P);
      EveryProduct(b, ps[|ps| - 1], P);
    }
  }

  /** A property of every kind of chunk holds of every chunk of the
      catalogue. */
  lemma {:induction false} EveryChunk(bs: seq<BrandRecord>, P: Chunk -> bool)
    requires EveryKind(P)
    ensures Every(AllChunks(bs), P)
  {
    if bs != [] {
      var last := bs[|bs| - 1];
      EveryChunk(bs[..|bs| - 1], P);
      EveryBrand(last, last.products, P);
    }
  }

  /** No chunk of the catalogue has a "url" metadata key: products carry
      "product_url" and "brand_url" instead. */
  lemma NoChunkHasUrl(bs: seq<BrandRecord>)
    ensures forall c :: c in AllChunks(bs) ==> "url" !in c.metadata
  {
    var P := (c: Chunk) => "url" !in c.metadata;
    forall b, p ensures P(MetadataChunk(b, p)) && P(DescChunk(b, p)) {
      ProductKeysHaveNoUrl(b, p);
    }
    forall b, p, item ensures P(NutritionChunk(b, p, item)) {
      NutritionKeysHaveNoUrl(b, p, item);
    }
    forall b, p, line ensures P(FeatureChunk(b, p, line)) {
      FeatureKeysHaveNoUrl(b, p, line);
    }
    EveryChunk(bs, P);
  }

  lemma ProductKeysHaveNoUrl(b: BrandRecord, p: ProductRecord)
    ensures "url" !in MetadataChunk(b, p).metadata && "url" !in DescChunk(b, p).metadata
  {
  }

  lemma NutritionKeysHaveNoUrl(b: BrandRecord, p: ProductRecord, item: map<string, string>)
    ensures "url" !in NutritionChunk(b, p, item).metadata
  {
  }

  lemma FeatureKeysHaveNoUrl(b: BrandRecord, p: ProductRecord, line: string)
    ensures "url" !in FeatureChunk(b, p, line).metadata
  {
  }

  // ---------------------------------------------------------------------
  // The loops

  /** The script's loop over brands. */
  method BuildChunks(raw: seq<BrandRecord>) returns (chunks: seq<Chunk>)
    ensures chunks == AllChunks(raw)
  {
    chunks := [];
    for i := 0 to |raw|
      invariant chunks == AllChunks(raw[..i])
    {
      AllChunksSnoc(raw, i);
      chunks := AddBrandChunks(chunks, raw[i]);
    }
    assert raw[..|raw|] == raw;
  }

  /** The loop over one brand's products. */
  method AddBrandChunks(chunks: seq<Chunk>, b: BrandRecord) returns (out: seq<Chunk>)
    ensures out == chunks + BrandChunks(b, b.products)
  {
    out := chunks;
    var ps := b.products;
    for j := 0 to |ps|
      invariant out == chunks + BrandChunks(b, ps[..j])
    {
      BrandChunksSnoc(b, ps, j);
      AppendAssoc(chunks, BrandChunks(b, ps[..j]), ProductChunks(b, ps[j]));
      out := AddProductChunks(out, b, ps[j]);
    }
    assert ps[..|ps|] == ps;
  }

  /** The body of the product loop: the four kinds of chunk, appended in
      order. */
  method AddProductChunks(chunks: seq<Chunk>, b: BrandRecord, p: ProductRecord) returns (out: seq<Chunk>)
    ensures out == chunks + ProductChunks(b, p)
  {
    var head := [MetadataChunk(b, p)] + DescChunks(b, p);
    out := AddNutritionChunks(chunks + head, b, p, p.nutrition);
    out := AddFeatureChunks(out, b, p, FeatureLines(p));
    AppendAssoc(chunks, head, NutritionChunks(b, p, p.nutrition));
    AppendAssoc(chunks, head + NutritionChunks(b, p, p.nutrition), FeatureChunks(b, p, FeatureLines(p)));
  }

  /** The loop over the nutrition items. */
  method AddNutritionChunks(chunks: seq<Chunk>, b: BrandRecord, p: ProductRecord, items: seq<map<string, string>>)
    returns (out: seq<Chunk>)
    ensures out == chunks + NutritionChunks(b, p, items)
  {
    out := chunks;
    for k := 0 to |items|
      invariant out == chunks + NutritionChunks(b, p, items[..k])
    {
      NutritionChunksSnoc(b, p, items, k);
      if UsableItem(items[k]) {
        out := out + [NutritionChunk(b, p, items[k])];
      }
    }
    assert items[..|items|] == items;
  }

  /** The loop over the feature lines. */
  method AddFeatureChunks(chunks: seq<Chunk>, b: BrandRecord, p: ProductRecord, lines: seq<string>)
    returns (out: seq<Chunk>)
    ensures out == chunks + FeatureChunks(b, p, lines)
  {
    out := chunks;
    for k := 0 to |lines|
      invariant out == chunks + FeatureChunks(b, p, lines[..k])
    {
      FeatureChunksSnoc(b, p, lines, k);
      if Strip(lines[k]) != "" {
        out := out + [FeatureChunk(b, p, lines[k])];
      }
    }
    assert lines[..|lines|] == lines;
  }

  lemma AppendAssoc<T>(a: seq<T>, b: seq<T>, c: seq<T>)
    ensures a + (b + c) == a + b + c
  {
  }

  lemma AllChunksSnoc(bs: seq<BrandRecord>, i: nat)
    requires i < |bs|
    ensures AllChunks(bs[..i + 1]) == AllChunks(bs[..i]) + BrandChunks(bs[i], bs[i].products)
  {
    assert bs[..i + 1][..i] == bs[..i];
  }

  lemma BrandChunksSnoc(b: BrandRecord, ps: seq<ProductRecord>, j: nat)
    requires j < |ps|
    ensures BrandChunks(b, ps[..j + 1]) == BrandChunks(b, ps[..j]) + ProductChunks(b, ps[j])
  {
    assert ps[..j + 1][..j] == ps[..j];
  }

  lemma NutritionChunksSnoc(b: BrandRecord, p: ProductRecord, items: seq<map<string, string>>, k: nat)
    requires k < |items|
    ensures NutritionChunks(b, p, items[..k + 1]) ==
      NutritionChunks(b, p, items[..k]) + (if UsableItem(items[k]) then [NutritionChunk(b, p, items[k])] else [])
  {
    assert items[..k + 1][..k] == items[..k];
  }

  lemma FeatureChunksSnoc(b: BrandRecord, p: ProductRecord, lines: seq<string>, k: nat)
    requires k < |lines|
    ensures FeatureChunks(b, p, lines[..k + 1]) ==
      FeatureChunks(b, p, lines[..k]) + (if Strip(lines[k]) != "" then [FeatureChunk(b, p, lines[k])] else [])
  {
    assert lines[..k + 1][..k] == lines[..k];
  }
}
