/**
  Loading the chunk file into the product graph. Each chunk is dispatched on
  its `chunk_type` to at most one graph write; the database itself is not
  modelled, and the writes a connector issues are kept as an append-only
  log in issue order.
 */
module Connector {
  import opened Wrappers
  import opened Text
  import opened Records
  import SplitChunks

  /** The write each branch of the dispatch issues, with its parameters. */
  datatype Write =
    | BrandNode(brand: Value, url: Value, category: Value)
    | ProductNode(brand: Value, product: Value, category: Value, status: Value)
    | ProductDetails(product: Value, specification: Value, url: Value)
    | NutritionNode(product: Value, name: Value, value: string, unit: string, dv: string)
    | FeatureNode(product: Value, feature: Value)
    | IngredientNode(product: Value, ingredient: Value)

  /** One element of the chunk file as the loader reads it: reading
      `chunk["metadata"]` fails when the key is absent. */
  datatype Record = Record(metadata: Option<Fields>)

  /** The parsed chunk file: a single object or a list of them. */
  datatype Input = Single(record: Record) | Many(records: seq<Record>)

  // ---------------------------------------------------------------------
  // Splitting an amount into its number and unit

  predicate IsNumberChar(c: char) { IsDigit(c) || c == '.' }

  /** The three character classes of the pattern: `[\d.]`, `\s` and
      `[a-zA-Z]`. */
  datatype CharClass = Number | Space | Letter

  predicate InClass(c: char, k: CharClass) {
    match k
    case Number => IsNumberChar(c)
    case Space => IsSpace(c)
    case Letter => IsAsciiLetter(c)
  }

  predicate AllIn(s: string, k: CharClass) {
    forall i :: 0 <= i < |s| ==> InClass(s[i], k)
  }

  /** The run is a prefix of characters of the class. */
  lemma RunPrefix(s: string, k: CharClass, m: nat)
    requires m == RunLength(s, k)
    ensures AllIn(s[..m], k)
  {
  }

  /** The length of the longest prefix of `s` whose characters are all in
      class `k`. */
  function RunLength(s: string, k: CharClass): (n: nat)
    ensures n <= |s|
    ensures forall i :: 0 <= i < n ==> InClass(s[i], k)
    ensures n < |s| ==> !InClass(s[n], k)
  {
    if s == [] || !InClass(s[0], k) then 0 else 1 + RunLength(s[1..], k)
  }

  /** The number and unit of an amount, as `re.match(r"([\d.]+)\s*([a-zA-Z]*)")`
      reads them: a run of digits and dots at the start, optional white
      space, then a run of letters. Without a leading digit or dot the
      amount is kept whole with an empty unit. */
  function SplitAmount(value: string): (string, string) {
    var n := RunLength(value, Number);
    if n == 0 then (value, "")
    else
      var rest := value[n..];
      var w := RunLength(rest, Space);
      var u := RunLength(rest[w..], Letter);
      (value[..n], rest[w..][..u])
  }

  /** `value` is the number, white space, the unit and a remainder, where
      each of the three runs is as long as it can be: what follows the
      number is no number character, what follows the spaces is no white
      space, and what follows the unit is no letter. */
  ghost predicate AmountLayout(value: string, number: string, spaces: string, unit: string, tail: string) {
    && value == number + spaces + unit + tail
    && number != [] && AllIn(number, Number) && AllIn(spaces, Space) && AllIn(unit, Letter)
    && (spaces + unit + tail == [] || !InClass((spaces + unit + tail)[0], Number))
    && (unit + tail == [] || !InClass((unit + tail)[0], Space))
    && (tail == [] || !InClass(tail[0], Letter))
  }

  /** An amount that starts with a digit or a dot splits into a non-empty
      number and a unit of letters, separated by white space only. */
  lemma SplitAmountMatched(value: string)
    requires value != [] && IsNumberChar(value[0])
    ensures exists spaces, tail :: AmountLayout(value, SplitAmount(value).0, spaces, SplitAmount(value).1, tail)
  {
    var n := RunLength(value, Number);
    var w := RunLength(value[n..], Space);
    var u := RunLength(value[n..][w..], Letter);
    SplitAmountOfRunLengths(value);
    var number, unit := value[..n], value[n..][w..][..u];
    var spaces, tail := value[n..][..w], value[n..][w..][u..];
    assert SplitAmount(value) == (number, unit);
    LayoutOfRuns(value, n, w, u);
    assert AmountLayout(value, number, spaces, unit, tail);
  }

  /** With a leading number character, `SplitAmount` takes the three runs. */
  lemma SplitAmountOfRunLengths(value: string)
    requires value != [] && IsNumberChar(value[0])
    ensures var n := RunLength(value, Number);
      var w := RunLength(value[n..], Space);
      0 < n && SplitAmount(value) == (value[..n], value[n..][w..][..RunLength(value[n..][w..], Letter)])
  {
  }

  /** The three runs `SplitAmount` reads lay the amount out. */
  lemma LayoutOfRuns(value: string, n: nat, w: nat, u: nat)
    requires 0 < n == RunLength(value, Number)
    requires w == RunLength(value[n..], Space)
    requires u == RunLength(value[n..][w..], Letter)
    ensures AmountLayout(value, value[..n], value[n..][..w], value[n..][w..][..u], value[n..][w..][u..])
  {
    SliceFour(value, n, w, u);
    RunPrefix(value, Number, n);
    RunPrefix(value[n..], Space, w);
    RunPrefix(value[n..][w..], Letter, u);
  }

  lemma SliceFour(v: string, n: nat, w: nat, u: nat)
    requires n <= |v| && w <= |v| - n && u <= |v| - n - w
    ensures v == v[..n] + v[n..][..w] + v[n..][w..][..u] + v[n..][w..][u..]
  {
    var rest := v[n..];
    assert rest[w..] == rest[w..][..u] + rest[w..][u..];
    assert rest == rest[..w] + rest[w..];
    assert v == v[..n] + rest;
    Reassociate(v[..n], rest[..w], rest[w..][..u], rest[w..][u..]);
  }

  lemma Reassociate(a: string, b: string, c: string, d: string)
    ensures a + (b + (c + d)) == a + b + c + d
  {
  }

  /** Any other amount is kept whole, with no unit. */
  lemma SplitAmountUnmatched(value: string)
    requires value == [] || !IsNumberChar(value[0])
    ensures SplitAmount(value) == (value, "")
  {
  }

  /** Round trip: a number written with its unit, with or without white
      space between them and followed by anything that continues none of
      the runs, splits back into that number and unit. */
  lemma SplitAmountRoundTrip(number: string, spaces: string, unit: string, tail: string)
    requires AmountLayout(number + spaces + unit + tail, number, spaces, unit, tail)
    ensures SplitAmount(number + spaces + unit + tail) == (number, unit)
  {
    var rest := spaces + (unit + tail);
    Reassociate(number, spaces, unit, tail);
    assert spaces + unit + tail == rest;
    RunOf(number, rest, Number);
    RunOf(spaces, unit + tail, Space);
    RunOf(unit, tail, Letter);
    SplitAmountOfRuns(number, spaces, unit, tail);
  }

  /** Worked examples: "10g" splits into number and unit, "5g 10" into
      the same with a remainder, and "<1g" is kept whole. */
  lemma SplitGrams()
    ensures SplitAmount("10g") == ("10", "g")
  {
    SplitAmountRoundTrip("10", "", "g", "");
    assert "10" + "" + "g" + "" == "10g";
  }

  /** "5g 10": the unit ends at the space, and what follows is ignored. */
  lemma SplitWithRemainder()
    ensures SplitAmount("5g 10") == ("5", "g")
  {
    SplitAmountRoundTrip("5", "", "g", " 10");
    assert "5" + "" + "g" + " 10" == "5g 10";
  }

  lemma KeepLessThan()
    ensures SplitAmount("<1g") == ("<1g", "")
  {
    SplitAmountUnmatched("<1g");
  }

  lemma SplitAmountOfRuns(number: string, spaces: string, unit: string, tail: string)
    requires number != []
    requires RunLength(number + (spaces + (unit + tail)), Number) == |number|
    requires RunLength(spaces + (unit + tail), Space) == |spaces|
    requires RunLength(unit + tail, Letter) == |unit|
    ensures SplitAmount(number + (spaces + (unit + tail))) == (number, unit)
  {
    var value := number + (spaces + (unit + tail));
    assert value[..|number|] == number;
    assert value[|number|..] == spaces + (unit + tail);
    assert (spaces + (unit + tail))[|spaces|..] == unit + tail;
    assert (unit + tail)[..|unit|] == unit;
  }

  /** The run over `x + y` is exactly `x` when every character of `x`
      satisfies `p` and `y` does not start with one that does. */
  lemma {:induction false} RunOf(x: string, y: string, k: CharClass)
    requires AllIn(x, k)
    requires y == [] || !InClass(y[0], k)
    ensures RunLength(x + y, k) == |x|
  {
    if x != [] {
      assert (x + y)[1..] == x[1..] + y;
      RunOf(x[1..], y, k);
    } else {
      assert x + y == y;
    }
  }

  // ---------------------------------------------------------------------
  // Dispatch on the chunk type

  /** The chunk types the dispatch recognises. */
  const KnownTypes: set<string> := {"Brand metadata", "product_metadata", "core_desc", "nutrition", "features", "ingredients"}

  /** The writes for one chunk, or `None` when the method raises: when the
      metadata is missing, or when a nutrition chunk's amount or dv is null
      (calling `.strip()` on `None`). */
  function ChunkWrites(record: Record): (r: Option<seq<Write>>)
    ensures r.Some? ==> |r.value| <= 1
  {
    match record.metadata
    case None => None
    case Some(meta) =>
      var chunkType := GetOr(meta, "chunk_type", "");
      var brand := Get(meta, "brand");
      var product := GetOr(meta, "product_name", "");
      if chunkType == Str("Brand metadata") then
        Some([BrandNode(brand, GetOr(meta, "brand_url", ""), GetOr(meta, "category", ""))])
      else if chunkType == Str("product_metadata") then
        Some([ProductNode(brand, product, GetOr(meta, "category", ""), GetOr(meta, "status", ""))])
      else if chunkType == Str("core_desc") then
        Some([ProductDetails(product, GetOr(meta, "specification", ""), GetOr(meta, "product_url", ""))])
      else if chunkType == Str("nutrition") then
        var amount := GetOr(meta, "amount", "");
        var dv := GetOr(meta, "dv", "");
        if amount.Null? || dv.Null? then None
        else
          var split := SplitAmount(Strip(amount.s));
          Some([NutritionNode(product, Get(meta, "field"), split.0, split.1, Strip(dv.s))])
      else if chunkType == Str("features") then
        var feature := GetOr(meta, "field", "");
        if Truthy(feature) then Some([FeatureNode(product, feature)]) else Some([])
      else if chunkType == Str("ingredients") then
        var ingredient := GetOr(meta, "field", "");
        if Truthy(ingredient) then Some([IngredientNode(product, ingredient)]) else Some([])
      else Some([])
  }

  /** The chunk type a write answers to. */
  function KindOf(w: Write): string {
    match w
    case BrandNode(_, _, _) => "Brand metadata"
    case ProductNode(_, _, _, _) => "product_metadata"
    case ProductDetails(_, _, _) => "core_desc"
    case NutritionNode(_, _, _, _, _) => "nutrition"
    case FeatureNode(_, _) => "features"
    case IngredientNode(_, _) => "ingredients"
  }

  /** The one write a chunk issues is the one its type selects. */
  lemma WriteMatchesType(record: Record)
    requires ChunkWrites(record).Some? && |ChunkWrites(record).value| == 1
    ensures record.metadata.Some?
    ensures GetOr(record.metadata.value, "chunk_type", "") == Str(KindOf(ChunkWrites(record).value[0]))
  {
  }

  /** An unrecognised type issues no write and raises nothing. */
  lemma UnknownTypeWritesNothing(record: Record)
    requires record.metadata.Some?
    requires var t := GetOr(record.metadata.value, "chunk_type", ""); t.Null? || t.s !in KnownTypes
    ensures ChunkWrites(record) == Some([])
  {
  }

  /** A feature or ingredient chunk with an empty or missing field issues no
      write; with a non-empty field it issues one. */
  lemma EmptyFieldWritesNothing(record: Record)
    requires record.metadata.Some?
    requires GetOr(record.metadata.value, "chunk_type", "") in {Str("features"), Str("ingredients")}
    ensures ChunkWrites(record) == Some([]) <==> !Truthy(GetOr(record.metadata.value, "field", ""))
  {
  }

  /** A nutrition chunk whose trimmed amount is laid out as a number,
      optional white space, a unit of letters and a remainder writes a
      nutrition node carrying exactly that number and that unit, with the
      trimmed dv. */
  lemma NutritionWrite(record: Record, number: string, spaces: string, unit: string, tail: string)
    requires record.metadata.Some? && GetOr(record.metadata.value, "chunk_type", "") == Str("nutrition")
    requires GetOr(record.metadata.value, "amount", "").Str? && GetOr(record.metadata.value, "dv", "").Str?
    requires AmountLayout(Strip(GetOr(record.metadata.value, "amount", "").s), number, spaces, unit, tail)
    ensures var meta := record.metadata.value;
      ChunkWrites(record) ==
        Some([NutritionNode(GetOr(meta, "product_name", ""), Get(meta, "field"), number, unit,
                            Strip(GetOr(meta, "dv", "").s))])
  {
    NutritionSplit(record);
    SplitAmountRoundTrip(number, spaces, unit, tail);
  }

  /** The nutrition write carries `SplitAmount` of the trimmed amount. */
  lemma NutritionSplit(record: Record)
    requires record.metadata.Some? && GetOr(record.metadata.value, "chunk_type", "") == Str("nutrition")
    requires GetOr(record.metadata.value, "amount", "").Str? && GetOr(record.metadata.value, "dv", "").Str?
    ensures var meta := record.metadata.value;
      var split := SplitAmount(Strip(GetOr(meta, "amount", "").s));
      ChunkWrites(record) ==
        Some([NutritionNode(GetOr(meta, "product_name", ""), Get(meta, "field"), split.0, split.1,
                            Strip(GetOr(meta, "dv", "").s))])
  {
  }

  /** A nutrition chunk whose trimmed amount does not start with a digit or
      a dot (such as "<1g") writes the whole trimmed amount with no unit. */
  lemma NutritionWriteWhole(record: Record)
    requires record.metadata.Some? && GetOr(record.metadata.value, "chunk_type", "") == Str("nutrition")
    requires GetOr(record.metadata.value, "amount", "").Str? && GetOr(record.metadata.value, "dv", "").Str?
    requires var a := Strip(GetOr(record.metadata.value, "amount", "").s); a == [] || !IsNumberChar(a[0])
    ensures var meta := record.metadata.value;
      ChunkWrites(record) ==
        Some([NutritionNode(GetOr(meta, "product_name", ""), Get(meta, "field"),
                            Strip(GetOr(meta, "amount", "").s), "", Strip(GetOr(meta, "dv", "").s))])
  {
    NutritionSplit(record);
    SplitAmountUnmatched(Strip(GetOr(record.metadata.value, "amount", "").s));
  }

  /** A chunk raises exactly when its metadata is missing, or when it is a
      nutrition chunk whose amount or dv is null. */
  lemma ChunkFailsIff(record: Record)
    ensures ChunkWrites(record).None? <==>
      record.metadata.None? ||
      (var meta := record.metadata.value;
       && GetOr(meta, "chunk_type", "") == Str("nutrition")
       && (GetOr(meta, "amount", "").Null? || GetOr(meta, "dv", "").Null?))
  {
  }

  /** The writes of a chunk, nothing when it raised. */
  function WritesOf(record: Record): seq<Write> {
    match ChunkWrites(record)
    case Some(ws) => ws
    case None => []
  }

  /** The graph connection: the writes issued so far. */
  class GraphConnector {
    var log: seq<Write>

    constructor ()
      ensures log == []
    {
      log := [];
    }

    /** Issues the chunk's write; `ok` is false when the method raises, and
        then nothing has been written. */
    method CreateBrandProductGraph(record: Record) returns (ok: bool)
      modifies this
      ensures ok <==> ChunkWrites(record).Some?
      ensures log == old(log) + WritesOf(record)
    {
      var r := ChunkWrites(record);
      if r.Some? {
        log := log + r.value;
        ok := true;
      } else {
        ok := false;
      }
    }
  }

  // ---------------------------------------------------------------------
  // The load loop

  /** A single object is loaded as a list of one. */
  function RecordsOf(input: Input): (r: seq<Record>)
    ensures input.Single? ==> r == [input.record]
    ensures input.Many? ==> r == input.records
  {
    match input
    case Single(record) => [record]
    case Many(records) => records
  }

  /** The concatenation of `f` over `xs`, in order. */
  function FlatMap<T, U>(xs: seq<T>, f: T -> seq<U>): seq<U> {
    if xs == [] then [] else FlatMap(xs[..|xs| - 1], f) + f(xs[|xs| - 1])
  }

  lemma {:induction false} FlatMapAppend<T, U>(a: seq<T>, b: seq<T>, f: T -> seq<U>)
    ensures FlatMap(a + b, f) == FlatMap(a, f) + FlatMap(b, f)
    decreases |b|
  {
    if b == [] {
      assert a + b == a;
    } else {
      FlatMapAppend(a, b[..|b| - 1], f);
      assert (a + b)[..|a + b| - 1] == a + b[..|b| - 1];
    }
  }

  /** The writes of all records, in order. */
  function Ingested(records: seq<Record>): seq<Write> {
    FlatMap(records, WritesOf)
  }

  /** The positions of the records that raised, in order. */
  function Failures(records: seq<Record>): seq<nat> {
    if records == [] then []
    else
      Failures(records[..|records| - 1]) +
        (if ChunkWrites(records[|records| - 1]).None? then [|records| - 1] else [])
  }

  /** The load loop: every record is attempted, a failure is reported and
      the loop goes on, and the count reported is the number of records
      whatever failed. */
  method LoadAndIngest(input: Input) returns (log: seq<Write>, failed: seq<nat>, reported: nat)
    ensures log == Ingested(RecordsOf(input))
    ensures failed == Failures(RecordsOf(input))
    ensures reported == |RecordsOf(input)|
  {
    var records := RecordsOf(input);
    var connector := new GraphConnector();
    failed := [];
    for i := 0 to |records|
      invariant connector.log == Ingested(records[..i])
      invariant failed == Failures(records[..i])
    {
      LoadStep(records, i);
      var ok := connector.CreateBrandProductGraph(records[i]);
      if !ok {
        failed := failed + [i];
      }
    }
    assert records[..|records|] == records;
    log := connector.log;
    reported := |records|;
  }

  /** One more record adds its writes to the log and, when it raises, its
      position to the failures. */
  lemma LoadStep(records: seq<Record>, i: nat)
    requires i < |records|
    ensures Ingested(records[..i + 1]) == Ingested(records[..i]) + WritesOf(records[i])
    ensures Failures(records[..i + 1]) == Failures(records[..i]) + (if ChunkWrites(records[i]).None? then [i] else [])
  {
    assert records[..i + 1][..i] == records[..i];
  }

  /** Records are loaded independently: the writes of two lists loaded one
      after the other are the writes of each. */
  lemma {:induction false} IngestedAppend(a: seq<Record>, b: seq<Record>)
    ensures Ingested(a + b) == Ingested(a) + Ingested(b)
    decreases |b|
  {
    FlatMapAppend(a, b, WritesOf);
  }

  /** A position is reported as failed exactly when its record raises. */
  lemma {:induction false} FailuresIff(records: seq<Record>, i: nat)
    ensures i in Failures(records) <==> i < |records| && ChunkWrites(records[i]).None?
  {
    if records != [] {
      var init := records[..|records| - 1];
      FailuresIff(init, i);
      FailuresBelow(init);
      PositionsSnoc(Failures(init), |init|, ChunkWrites(records[|init|]).None?, i);
      if i < |init| {
        assert records[i] == init[i];
      }
    }
  }

  /** Appending position `n` when `add` holds, to positions all below `n`. */
  lemma PositionsSnoc(init: seq<nat>, n: nat, add: bool, i: nat)
    requires forall k :: 0 <= k < |init| ==> init[k] < n
    ensures i in init + (if add then [n] else []) <==> i in init || (add && i == n)
    ensures i in init ==> i < n
  {
  }

  lemma {:induction false} FailuresBelow(records: seq<Record>)
    ensures forall k :: 0 <= k < |Failures(records)| ==> Failures(records)[k] < |records|
  {
    if records != [] {
      FailuresBelow(records[..|records| - 1]);
    }
  }

  // ---------------------------------------------------------------------
  // Loading what chunk construction writes

  /** Loading the chunks chunk construction writes never raises, and never
      creates a brand node: no chunk has the type "Brand metadata". */
  lemma StoredChunksLoad(raw: seq<BrandRecord>, c: Chunk)
    requires c in SplitChunks.AllChunks(raw)
    ensures ChunkWrites(Record(Some(c.metadata))).Some?
    ensures forall w :: w in WritesOf(Record(Some(c.metadata))) ==> !w.BrandNode?
  {
    var P := (c: Chunk) => Loads(c);
    forall b, p ensures P(SplitChunks.MetadataChunk(b, p)) && P(SplitChunks.DescChunk(b, p)) {
      ProductChunksLoad(b, p);
    }
    forall b, p, item ensures P(SplitChunks.NutritionChunk(b, p, item)) {
      NutritionChunkLoads(b, p, item);
    }
    forall b, p, line ensures P(SplitChunks.FeatureChunk(b, p, line)) {
      FeatureChunkLoads(b, p, line);
    }
    SplitChunks.EveryChunk(raw, P);
  }

  /** The chunk loads without raising and issues no brand write. */
  predicate Loads(c: Chunk) {
    ChunkWrites(Record(Some(c.metadata))).Some? &&
    forall w :: w in WritesOf(Record(Some(c.metadata))) ==> !w.BrandNode?
  }

  lemma ProductChunksLoad(b: BrandRecord, p: ProductRecord)
    ensures Loads(SplitChunks.MetadataChunk(b, p)) && Loads(SplitChunks.DescChunk(b, p))
  {
    var m := SplitChunks.MetadataChunk(b, p);
    assert GetOr(m.metadata, "chunk_type", "") == Str("product_metadata");
    var d := SplitChunks.DescChunk(b, p);
    assert GetOr(d.metadata, "chunk_type", "") == Str("core_desc");
  }

  lemma NutritionChunkLoads(b: BrandRecord, p: ProductRecord, item: map<string, string>)
    ensures Loads(SplitChunks.NutritionChunk(b, p, item))
  {
    var c := SplitChunks.NutritionChunk(b, p, item);
    assert GetOr(c.metadata, "chunk_type", "") == Str("nutrition");
    assert GetOr(c.metadata, "amount", "").Str? && GetOr(c.metadata, "dv", "").Str?;
  }

  lemma FeatureChunkLoads(b: BrandRecord, p: ProductRecord, line: string)
    ensures Loads(SplitChunks.FeatureChunk(b, p, line))
  {
    var c := SplitChunks.FeatureChunk(b, p, line);
    assert GetOr(c.metadata, "chunk_type", "") == Str("features");
  }
}
