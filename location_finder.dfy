/**
  The store locator (geolocation/location_finder.py): the brand and product
  keyword tables built from the parsed catalogue, the Amazon search link,
  the filtering of stores that sell the matched product nearby, and the
  context text handed to the language model. The distance to a store, the
  rounding and printing of that distance, the product matcher and the
  language model are oracles.
 */
module LocationFinder {
  import opened Wrappers
  import opened Text
  import opened Records

  // ---------------------------------------------------------------------
  // Keyword tables
  // ---------------------------------------------------------------------

  /** A brand's key: `brand.get('brand', '').strip().lower()`. */
  function BrandName(b: BrandRecord): string {
    Lower(Strip(FieldOr(b.fields, "brand", "")))
  }

  /** A product's key: `product.get('name', '').strip().lower()`. */
  function ProductName(p: ProductRecord): string {
    Lower(Strip(FieldOr(p.fields, "name", "")))
  }

  /** The keys the loader reads from one brand: its own and its products'. */
  datatype BrandKeys = BrandKeys(brand: string, products: seq<string>)

  function KeysOf(b: BrandRecord): (r: BrandKeys)
    ensures r.brand == BrandName(b) && |r.products| == |b.products|
    ensures forall j :: 0 <= j < |b.products| ==> r.products[j] == ProductName(b.products[j])
  {
    BrandKeys(BrandName(b), seq(|b.products|, j requires 0 <= j < |b.products| => ProductName(b.products[j])))
  }

  /** The keys of a whole catalogue, brand by brand. */
  function CatalogueKeys(bs: seq<BrandRecord>): (r: seq<BrandKeys>)
    ensures |r| == |bs| && forall i :: 0 <= i < |bs| ==> r[i] == KeysOf(bs[i])
  {
    seq(|bs|, i requires 0 <= i < |bs| => KeysOf(bs[i]))
  }

  /** The non-empty keys of a list, as a set. */
  function NonEmpty(ks: seq<string>): set<string> {
    if ks == [] then {}
    else NonEmpty(ks[..|ks| - 1]) + (if ks[|ks| - 1] == "" then {} else {ks[|ks| - 1]})
  }

  /** The keywords one brand contributes: nothing when its key is empty,
      otherwise its key and its non-empty product keys. */
  function BrandKeywords(e: BrandKeys): set<string> {
    if e.brand == "" then {} else {e.brand} + NonEmpty(e.products)
  }

  /** The keyword set, brand by brand. */
  function KeywordsOf(es: seq<BrandKeys>): set<string> {
    if es == [] then {} else KeywordsOf(es[..|es| - 1]) + BrandKeywords(es[|es| - 1])
  }

  /** Maps each non-empty product key of `ps` to `bn`, in list order. */
  function MapProducts(m: map<string, string>, bn: string, ps: seq<string>): map<string, string> {
    if ps == [] then m
    else
      var m' := MapProducts(m, bn, ps[..|ps| - 1]);
      var pn := ps[|ps| - 1];
      if pn == "" then m' else m'[pn := bn]
  }

  /** The product-to-brand map after one more brand: its products now point
      to it, unless its key is empty. */
  function BrandProducts(m: map<string, string>, e: BrandKeys): map<string, string> {
    if e.brand == "" then m else MapProducts(m, e.brand, e.products)
  }

  /** The product-to-brand map, brand by brand. */
  function ProductMapOf(es: seq<BrandKeys>): map<string, string> {
    if es == [] then map[] else BrandProducts(ProductMapOf(es[..|es| - 1]), es[|es| - 1])
  }

  /** Brand `e` lists product key `k`: its own key is non-empty and `k` is
      the non-empty key of one of its products. */
  predicate ListedUnder(e: BrandKeys, k: string) {
    e.brand != "" && k != "" && k in e.products
  }

  lemma {:induction false} NonEmptyMembership(ks: seq<string>, k: string)
    ensures k in NonEmpty(ks) <==> k != "" && k in ks
  {
    if ks != [] {
      NonEmptyMembership(ks[..|ks| - 1], k);
      assert ks == ks[..|ks| - 1] + [ks[|ks| - 1]];
    }
  }

  /** A keyword is exactly a non-empty brand key or a product key listed
      under such a brand. */
  lemma {:induction false} KeywordsMembership(es: seq<BrandKeys>, k: string)
    ensures k in KeywordsOf(es) <==>
      exists i :: 0 <= i < |es| && es[i].brand != "" && (k == es[i].brand || ListedUnder(es[i], k))
  {
    if es != [] {
      var init := es[..|es| - 1];
      var last := es[|es| - 1];
      KeywordsMembership(init, k);
      NonEmptyMembership(last.products, k);
      if k in KeywordsOf(init) {
        var i :| 0 <= i < |init| && init[i].brand != "" && (k == init[i].brand || ListedUnder(init[i], k));
        assert es[i] == init[i];
      }
      if exists i :: 0 <= i < |es| && es[i].brand != "" && (k == es[i].brand || ListedUnder(es[i], k)) {
        var i :| 0 <= i < |es| && es[i].brand != "" && (k == es[i].brand || ListedUnder(es[i], k));
        if i < |init| {
          assert init[i] == es[i];
        }
      }
    }
  }

  /** Mapping a product list adds exactly its non-empty keys, all pointing
      to the brand, and leaves every other entry alone. */
  lemma {:induction false} MapProductsEffect(m: map<string, string>, bn: string, ps: seq<string>, k: string)
    ensures k in MapProducts(m, bn, ps) <==> k in m || k in NonEmpty(ps)
    ensures k in NonEmpty(ps) ==> MapProducts(m, bn, ps)[k] == bn
    ensures k !in NonEmpty(ps) && k in m ==> MapProducts(m, bn, ps)[k] == m[k]
  {
    if ps != [] {
      MapProductsEffect(m, bn, ps[..|ps| - 1], k);
    }
  }

  /** The effect of one brand on the product-to-brand map. */
  lemma BrandProductsEffect(m: map<string, string>, e: BrandKeys, k: string)
    ensures k in BrandProducts(m, e) <==> k in m || ListedUnder(e, k)
    ensures ListedUnder(e, k) ==> BrandProducts(m, e)[k] == e.brand
    ensures !ListedUnder(e, k) && k in m ==> BrandProducts(m, e)[k] == m[k]
  {
    NonEmptyMembership(e.products, k);
    if e.brand != "" {
      MapProductsEffect(m, e.brand, e.products, k);
    }
  }

  /** A product key is in the map exactly when some brand lists it. */
  lemma {:induction false} ProductMapDomain(es: seq<BrandKeys>, k: string)
    ensures k in ProductMapOf(es) <==> exists i :: 0 <= i < |es| && ListedUnder(es[i], k)
  {
    if es != [] {
      var init := es[..|es| - 1];
      ProductMapDomain(init, k);
      BrandProductsEffect(ProductMapOf(init), es[|es| - 1], k);
      if exists i :: 0 <= i < |init| && ListedUnder(init[i], k) {
        var i :| 0 <= i < |init| && ListedUnder(init[i], k);
        assert es[i] == init[i];
      }
      if exists i :: 0 <= i < |es| && ListedUnder(es[i], k) {
        var i :| 0 <= i < |es| && ListedUnder(es[i], k);
        if i < |init| {
          assert init[i] == es[i];
        }
      }
    }
  }

  /** A later brand overwrites an earlier one: the key maps to the last brand
      that lists it. */
  lemma {:induction false} ProductMapLatest(es: seq<BrandKeys>, k: string, i: nat)
    requires i < |es| && ListedUnder(es[i], k)
    requires forall j :: i < j < |es| ==> !ListedUnder(es[j], k)
    ensures k in ProductMapOf(es) && ProductMapOf(es)[k] == es[i].brand
  {
    var init := es[..|es| - 1];
    BrandProductsEffect(ProductMapOf(init), es[|es| - 1], k);
    if i < |es| - 1 {
      assert init[i] == es[i];
      forall j | i < j < |init| ensures !ListedUnder(init[j], k) {
        assert init[j] == es[j];
      }
      ProductMapLatest(init, k, i);
    }
  }

  /** Every product in the map is also a keyword. */
  lemma ProductMapKeywords(es: seq<BrandKeys>, k: string)
    requires k in ProductMapOf(es)
    ensures k in KeywordsOf(es)
  {
    ProductMapDomain(es, k);
    KeywordsMembership(es, k);
  }

  lemma NonEmptySnoc(ks: seq<string>, j: nat)
    requires j < |ks|
    ensures NonEmpty(ks[..j + 1]) == NonEmpty(ks[..j]) + (if ks[j] == "" then {} else {ks[j]})
  {
    assert ks[..j + 1][..j] == ks[..j];
  }

  lemma MapProductsSnoc(m: map<string, string>, bn: string, ks: seq<string>, j: nat)
    requires j < |ks|
    ensures MapProducts(m, bn, ks[..j + 1]) ==
      (if ks[j] == "" then MapProducts(m, bn, ks[..j]) else MapProducts(m, bn, ks[..j])[ks[j] := bn])
  {
    assert ks[..j + 1][..j] == ks[..j];
  }

  lemma CatalogueSnoc(es: seq<BrandKeys>, i: nat)
    requires i < |es|
    ensures KeywordsOf(es[..i + 1]) == KeywordsOf(es[..i]) + BrandKeywords(es[i])
    ensures ProductMapOf(es[..i + 1]) == BrandProducts(ProductMapOf(es[..i]), es[i])
  {
    assert es[..i + 1][..i] == es[..i];
  }

  /** `load_brand_keywords` over the parsed catalogue: the keyword set and
      the product-to-brand map, filled brand by brand. */
  method LoadBrandKeywords(bs: seq<BrandRecord>) returns (keywords: set<string>, productToBrand: map<string, string>)
    ensures keywords == KeywordsOf(CatalogueKeys(bs))
    ensures productToBrand == ProductMapOf(CatalogueKeys(bs))
  {
    ghost var es := CatalogueKeys(bs);
    keywords := {};
    productToBrand := map[];
    for i := 0 to |bs|
      invariant keywords == KeywordsOf(es[..i])
      invariant productToBrand == ProductMapOf(es[..i])
    {
      CatalogueSnoc(es, i);
      keywords, productToBrand := LoadBrand(keywords, productToBrand, KeysOf(bs[i]));
    }
    assert es[..|bs|] == es;
  }

  /** The body of the outer loop of `load_brand_keywords`: one brand and, in
      the inner loop, its products, given by their keys. */
  method LoadBrand(keywords: set<string>, productToBrand: map<string, string>, keys: BrandKeys)
    returns (keywords': set<string>, productToBrand': map<string, string>)
    ensures keywords' == keywords + BrandKeywords(keys)
    ensures productToBrand' == BrandProducts(productToBrand, keys)
  {
    keywords', productToBrand' := keywords, productToBrand;
    var brandName := keys.brand;
    if brandName != "" {
      keywords' := keywords' + {brandName};
      var names := keys.products;
      for j := 0 to |names|
        invariant keywords' == keywords + {brandName} + NonEmpty(names[..j])
        invariant productToBrand' == MapProducts(productToBrand, brandName, names[..j])
      {
        NonEmptySnoc(names, j);
        MapProductsSnoc(productToBrand, brandName, names, j);
        var productName := names[j];
        if productName != "" {
          keywords' := keywords' + {productName};
          productToBrand' := productToBrand'[productName := brandName];
        }
      }
      assert names[..|names|] == names;
    }
  }

  /** `product_to_brand.get(product, product)`: the product's brand, or the
      product itself when it has none. */
  function BrandFor(productToBrand: map<string, string>, product: string): (r: string)
    ensures product in productToBrand ==> r == productToBrand[product]
    ensures product !in productToBrand ==> r == product
  {
    if product in productToBrand then productToBrand[product] else product
  }

  // ---------------------------------------------------------------------
  // The Amazon search link
  // ---------------------------------------------------------------------

  newtype byte = x: int | 0 <= x < 256

  /** The UTF-8 encoding of one code point. */
  function Utf8(c: char): (r: seq<byte>)
    ensures 1 <= |r| <= 4
    ensures c as int < 0x80 <==> |r| == 1
    ensures c as int < 0x80 ==> r == [c as int as byte]
  {
    var n := c as int;
    if n < 0x80 then [n as byte]
    else if n < 0x800 then [(0xC0 + n / 64) as byte, (0x80 + n % 64) as byte]
    else if n < 0x10000 then [(0xE0 + n / 4096) as byte, (0x80 + (n / 64) % 64) as byte, (0x80 + n % 64) as byte]
    else [(0xF0 + n / 262144) as byte, (0x80 + (n / 4096) % 64) as byte, (0x80 + (n / 64) % 64) as byte, (0x80 + n % 64) as byte]
  }

  /** The UTF-8 encoding of a string. */
  function Utf8String(s: string): seq<byte> {
    if s == [] then [] else Utf8(s[0]) + Utf8String(s[1..])
  }

  lemma {:induction false} Utf8StringAppend(a: string, b: string)
    ensures Utf8String(a + b) == Utf8String(a) + Utf8String(b)
  {
    if a != [] {
      assert (a + b)[0] == a[0];
      assert (a + b)[1..] == a[1..] + b;
      Utf8StringAppend(a[1..], b);
      calc {
        Utf8String(a + b);
        Utf8(a[0]) + Utf8String(a[1..] + b);
        Utf8(a[0]) + (Utf8String(a[1..]) + Utf8String(b));
        (Utf8(a[0]) + Utf8String(a[1..])) + Utf8String(b);
      }
    } else {
      assert a + b == b;
    }
  }

  /** The bytes `quote` never escapes: ASCII letters, digits and `_.-~`
      (the unreserved characters of section 2.3 of RFC 3986). */
  predicate Unreserved(b: byte) {
    ('A' as int <= b as int <= 'Z' as int) || ('a' as int <= b as int <= 'z' as int) ||
    ('0' as int <= b as int <= '9' as int) ||
    b as int == '_' as int || b as int == '.' as int || b as int == '-' as int || b as int == '~' as int
  }

  /** An upper-case hexadecimal digit, as `%{:02X}` writes it. */
  function HexDigit(n: int): char
    requires 0 <= n < 16
  {
    if n < 10 then ('0' as int + n) as char else ('A' as int + n - 10) as char
  }

  predicate IsHex(c: char) {
    ('0' <= c <= '9') || ('A' <= c <= 'F') || ('a' <= c <= 'f')
  }

  function HexValue(c: char): int
    requires IsHex(c)
  {
    if '0' <= c <= '9' then c as int - '0' as int
    else if 'A' <= c <= 'F' then c as int - 'A' as int + 10
    else c as int - 'a' as int + 10
  }

  /** A character `quote_plus` can emit: unreserved, `%`, `+`. */
  predicate QuotedChar(c: char) {
    c as int < 0x80 && (Unreserved(c as int as byte) || c == '%' || c == '+')
  }

  /** One byte as `quote_plus` writes it: unreserved bytes as themselves, the
      space as `+`, any other byte as `%XX` (section 2.1 of RFC 3986). */
  function QuoteByte(b: byte): (r: string)
    ensures forall i :: 0 <= i < |r| ==> QuotedChar(r[i])
  {
    if Unreserved(b) then [b as int as char]
    else if b == 0x20 then "+"
    else ['%', HexDigit(b as int / 16), HexDigit(b as int % 16)]
  }

  function QuoteBytes(bs: seq<byte>): (r: string)
    ensures forall i :: 0 <= i < |r| ==> QuotedChar(r[i])
  {
    if bs == [] then "" else QuoteByte(bs[0]) + QuoteBytes(bs[1..])
  }

  /** `quote_plus(s)`: percent-encoding of the UTF-8 bytes, with `+` for a
      space and no character kept besides the unreserved ones. */
  function QuotePlus(s: string): (r: string)
    ensures forall i :: 0 <= i < |r| ==> QuotedChar(r[i])
  {
    QuoteBytes(Utf8String(s))
  }

  predicate Ascii(s: string) {
    forall i :: 0 <= i < |s| ==> s[i] as int < 0x80
  }

  /** `unquote_plus` down to bytes, on ASCII text: `+` is a space, `%` with
      two hexadecimal digits is that byte, any other character is its own
      code. */
  function UnquoteBytes(s: string): seq<byte>
    requires Ascii(s)
  {
    if s == [] then []
    else if s[0] == '+' then [0x20 as byte] + UnquoteBytes(s[1..])
    else if s[0] == '%' && |s| >= 3 && IsHex(s[1]) && IsHex(s[2]) then
      [(HexValue(s[1]) * 16 + HexValue(s[2])) as byte] + UnquoteBytes(s[3..])
    else [s[0] as int as byte] + UnquoteBytes(s[1..])
  }

  /** Decoding undoes the encoding of one byte, whatever follows. */
  lemma UnquoteQuoteByte(b: byte, t: string)
    requires Ascii(t)
    ensures UnquoteBytes(QuoteByte(b) + t) == [b] + UnquoteBytes(t)
  {
    var q := QuoteByte(b) + t;
    if Unreserved(b) {
      assert q[1..] == t;
    } else if b == 0x20 {
      assert q[1..] == t;
    } else {
      assert q[3..] == t;
      var hi := b as int / 16;
      var lo := b as int % 16;
      assert HexValue(HexDigit(hi)) == hi;
      assert HexValue(HexDigit(lo)) == lo;
    }
  }

  /** Decoding undoes the encoding of a byte string, whatever follows. */
  lemma {:induction false} UnquoteQuoted(bs: seq<byte>, t: string)
    requires Ascii(t)
    ensures UnquoteBytes(QuoteBytes(bs) + t) == bs + UnquoteBytes(t)
  {
    if bs == [] {
      assert QuoteBytes(bs) + t == t;
    } else {
      var rest := QuoteBytes(bs[1..]) + t;
      AsciiQuoted(bs[1..], t);
      UnquoteQuoted(bs[1..], t);
      QuoteBytesCons(bs, t);
      UnquoteQuoteByte(bs[0], rest);
      ConsAppend(bs, UnquoteBytes(t));
    }
  }

  lemma AsciiQuoted(bs: seq<byte>, t: string)
    requires Ascii(t)
    ensures Ascii(QuoteBytes(bs) + t)
  {
  }

  lemma QuoteBytesCons(bs: seq<byte>, t: string)
    requires bs != []
    ensures QuoteBytes(bs) + t == QuoteByte(bs[0]) + (QuoteBytes(bs[1..]) + t)
  {
  }

  lemma ConsAppend(bs: seq<byte>, u: seq<byte>)
    requires bs != []
    ensures [bs[0]] + (bs[1..] + u) == bs + u
  {
  }

  /** Round trip: `unquote_plus` recovers the UTF-8 bytes of the text. */
  lemma QuotePlusRoundTrip(s: string)
    ensures UnquoteBytes(QuotePlus(s)) == Utf8String(s)
  {
    UnquoteQuoted(Utf8String(s), "");
    assert QuotePlus(s) + "" == QuotePlus(s);
  }

  const AmazonSearch := "https://www.amazon.ca/s?k="

  /** `get_amazon_link(product, brand)`. */
  function AmazonLink(product: string, brand: string): string {
    AmazonSearch + QuotePlus(product) + "+" + QuotePlus(brand)
  }

  /** The link is the search address followed by one query value made of
      quoted characters only, which decodes to the UTF-8 bytes of the
      product, a space and the UTF-8 bytes of the brand. */
  lemma AmazonLinkQuery(product: string, brand: string)
    ensures AmazonSearch <= AmazonLink(product, brand)
    ensures var v := AmazonLink(product, brand)[|AmazonSearch|..];
      (forall i :: 0 <= i < |v| ==> QuotedChar(v[i])) &&
      UnquoteBytes(v) == Utf8String(product) + [0x20 as byte] + Utf8String(brand)
  {
    AmazonLinkShape(product, brand);
    QueryValueQuoted(product, brand);
    QueryValueDecodes(Utf8String(product), Utf8String(brand));
  }

  lemma AmazonLinkShape(product: string, brand: string)
    ensures AmazonLink(product, brand) == AmazonSearch + (QuotePlus(product) + ("+" + QuotePlus(brand)))
    ensures AmazonLink(product, brand)[|AmazonSearch|..] == QuotePlus(product) + ("+" + QuotePlus(brand))
  {
  }

  lemma QueryValueQuoted(product: string, brand: string)
    ensures var v := QuotePlus(product) + ("+" + QuotePlus(brand));
      forall i :: 0 <= i < |v| ==> QuotedChar(v[i])
  {
    assert QuotedChar('+');
  }

  /** Two encoded byte strings joined by `+` decode to the two byte strings
      with a space between them. */
  lemma QueryValueDecodes(x: seq<byte>, y: seq<byte>)
    ensures Ascii(QuoteBytes(x) + ("+" + QuoteBytes(y)))
    ensures UnquoteBytes(QuoteBytes(x) + ("+" + QuoteBytes(y))) == x + [0x20 as byte] + y
  {
    var tail := "+" + QuoteBytes(y);
    AsciiQueryValue(x, y);
    UnquoteQuoted(x, tail);
    UnquoteTail(y);
    assert x + ([0x20 as byte] + y) == x + [0x20 as byte] + y;
  }

  lemma AsciiQueryValue(x: seq<byte>, y: seq<byte>)
    ensures Ascii("+" + QuoteBytes(y))
    ensures Ascii(QuoteBytes(x) + ("+" + QuoteBytes(y)))
  {
    AsciiQuoted(y, "");
    assert QuoteBytes(y) + "" == QuoteBytes(y);
    AsciiQuoted(x, "+" + QuoteBytes(y));
  }

  lemma UnquoteTail(y: seq<byte>)
    ensures Ascii("+" + QuoteBytes(y))
    ensures UnquoteBytes("+" + QuoteBytes(y)) == [0x20 as byte] + y
  {
    AsciiQueryValue([], y);
    UnquotePlusSign(QuoteBytes(y));
    UnquoteQuoted(y, "");
    assert QuoteBytes(y) + "" == QuoteBytes(y);
  }

  lemma UnquotePlusSign(t: string)
    requires Ascii(t)
    ensures UnquoteBytes("+" + t) == [0x20 as byte] + UnquoteBytes(t)
  {
    assert ("+" + t)[0] == '+';
    assert ("+" + t)[1..] == t;
  }

  lemma Utf8Cons(c: char, s: string)
    ensures Utf8String([c] + s) == Utf8(c) + Utf8String(s)
  {
    assert ([c] + s)[0] == c;
    assert ([c] + s)[1..] == s;
  }

  // ---------------------------------------------------------------------
  // Store filtering and the context text
  // ---------------------------------------------------------------------

  /** A store of the store list: its name, the products it sells and its
      coordinates. */
  datatype Store = Store(name: string, products: seq<string>, lat: real, lon: real)

  /** A kept store: its name and its rounded distance in kilometres. */
  datatype StoreHit = StoreHit(name: string, distanceKm: real)

  /** Some product of the list contains the matched product name, compared
      on the store side in lower case. */
  predicate Sells(products: seq<string>, product: string) {
    products != [] && (Contains(Lower(products[0]), product) || Sells(products[1..], product))
  }

  lemma {:induction false} SellsMembership(products: seq<string>, product: string)
    ensures Sells(products, product) <==> exists p :: p in products && Contains(Lower(p), product)
  {
    if products != [] {
      SellsMembership(products[1..], product);
      assert forall p :: p in products <==> p == products[0] || p in products[1..];
    }
  }

  const MaxDistanceKm: real := 90.0

  /** A store is kept when it sells the product and its distance is at most
      90 km. */
  predicate Kept(store: Store, product: string, distance: Store -> real) {
    Sells(store.products, product) && distance(store) <= MaxDistanceKm
  }

  /** The entry a kept store contributes: its name and rounded distance. */
  function HitOf(store: Store, distance: Store -> real, round2: real -> real): StoreHit {
    StoreHit(store.name, round2(distance(store)))
  }

  /** The kept stores, in store order, with their rounded distances. */
  function NearbyStores(stores: seq<Store>, product: string, distance: Store -> real, round2: real -> real): seq<StoreHit> {
    if stores == [] then []
    else
      var last := stores[|stores| - 1];
      NearbyStores(stores[..|stores| - 1], product, distance, round2) +
        (if Kept(last, product, distance) then [HitOf(last, distance, round2)] else [])
  }

  /** `idx` picks, in increasing order, exactly the kept stores, and the
      hits are those stores' entries. */
  predicate PicksKept(hits: seq<StoreHit>, stores: seq<Store>, idx: seq<nat>, product: string,
                      distance: Store -> real, round2: real -> real) {
    HitsOfKept(hits, stores, idx, product, distance, round2) && Increasing(idx) &&
    CoversKept(stores, idx, product, distance)
  }

  /** Hit `k` is the entry of kept store `idx[k]`. */
  predicate HitsOfKept(hits: seq<StoreHit>, stores: seq<Store>, idx: seq<nat>, product: string,
                       distance: Store -> real, round2: real -> real) {
    |idx| == |hits| &&
    forall k :: 0 <= k < |idx| ==>
      idx[k] < |stores| && Kept(stores[idx[k]], product, distance) && hits[k] == HitOf(stores[idx[k]], distance, round2)
  }

  predicate Increasing(idx: seq<nat>) {
    forall k, l :: 0 <= k < l < |idx| ==> idx[k] < idx[l]
  }

  /** Every kept store is picked. */
  predicate CoversKept(stores: seq<Store>, idx: seq<nat>, product: string, distance: Store -> real) {
    forall i :: 0 <= i < |stores| && Kept(stores[i], product, distance) ==> i in idx
  }

  /** The filter keeps exactly the stores that sell the product within
      90 km, in their original order. */
  lemma NearbyStoresKeepsExactly(stores: seq<Store>, product: string, distance: Store -> real, round2: real -> real)
    ensures exists idx :: PicksKept(NearbyStores(stores, product, distance, round2), stores, idx, product, distance, round2)
  {
    var idx := KeptIndices(stores, product, distance, round2);
  }

  /** The positions of the kept stores, as a witness for
      `NearbyStoresKeepsExactly`. */
  lemma {:induction false} KeptIndices(stores: seq<Store>, product: string, distance: Store -> real, round2: real -> real)
    returns (idx: seq<nat>)
    ensures PicksKept(NearbyStores(stores, product, distance, round2), stores, idx, product, distance, round2)
  {
    if stores == [] {
      idx := [];
      assert NearbyStores(stores, product, distance, round2) == [];
    } else {
      var init := stores[..|stores| - 1];
      var last := stores[|stores| - 1];
      var idx0 := KeptIndices(init, product, distance, round2);
      var hits0 := NearbyStores(init, product, distance, round2);
      HitsOfKeptExtend(hits0, stores, idx0, product, distance, round2);
      CoversKeptExtend(stores, idx0, product, distance);
      if Kept(last, product, distance) {
        IncreasingExtend(idx0, |init|);
        idx := idx0 + [|init|];
      } else {
        idx := idx0;
      }
    }
  }

  lemma HitsOfKeptExtend(hits0: seq<StoreHit>, stores: seq<Store>, idx0: seq<nat>, product: string,
                         distance: Store -> real, round2: real -> real)
    requires stores != [] && HitsOfKept(hits0, stores[..|stores| - 1], idx0, product, distance, round2)
    ensures var last := stores[|stores| - 1];
      var kept := Kept(last, product, distance);
      HitsOfKept(hits0 + (if kept then [HitOf(last, distance, round2)] else []), stores,
                 if kept then idx0 + [|stores| - 1] else idx0, product, distance, round2)
  {
    var init := stores[..|stores| - 1];
    var last := stores[|stores| - 1];
    var kept := Kept(last, product, distance);
    var hits := hits0 + (if kept then [HitOf(last, distance, round2)] else []);
    var idx: seq<nat> := if kept then idx0 + [|init|] else idx0;
    forall k | 0 <= k < |idx|
      ensures idx[k] < |stores| && Kept(stores[idx[k]], product, distance) && hits[k] == HitOf(stores[idx[k]], distance, round2)
    {
      if k < |idx0| {
        assert idx[k] == idx0[k] && hits[k] == hits0[k];
        assert stores[idx0[k]] == init[idx0[k]];
      }
    }
  }

  lemma IncreasingExtend(idx0: seq<nat>, n: nat)
    requires Increasing(idx0) && forall k :: 0 <= k < |idx0| ==> idx0[k] < n
    ensures Increasing(idx0 + [n])
  {
  }

  lemma CoversKeptExtend(stores: seq<Store>, idx0: seq<nat>, product: string, distance: Store -> real)
    requires stores != [] && CoversKept(stores[..|stores| - 1], idx0, product, distance)
    ensures var last := stores[|stores| - 1];
      var kept := Kept(last, product, distance);
      CoversKept(stores, if kept then idx0 + [|stores| - 1] else idx0, product, distance)
  {
    var init := stores[..|stores| - 1];
    var last := stores[|stores| - 1];
    var kept := Kept(last, product, distance);
    var idx: seq<nat> := if kept then idx0 + [|init|] else idx0;
    forall i | 0 <= i < |stores| && Kept(stores[i], product, distance)
      ensures i in idx
    {
      if i < |init| {
        assert stores[i] == init[i];
        assert i in idx0;
      } else {
        assert idx[|idx| - 1] == i;
      }
    }
  }

  /** The store filtering loop of `location_query`. */
  method FilterStores(stores: seq<Store>, product: string, distance: Store -> real, round2: real -> real)
    returns (results: seq<StoreHit>)
    ensures results == NearbyStores(stores, product, distance, round2)
  {
    results := [];
    for i := 0 to |stores|
      invariant results == NearbyStores(stores[..i], product, distance, round2)
    {
      assert stores[..i + 1][..i] == stores[..i];
      var store := stores[i];
      var sells := SellsProduct(store.products, product);
      if sells {
        var d := distance(store);
        if d > MaxDistanceKm {
          continue;
        }
        results := results + [HitOf(store, distance, round2)];
      }
    }
    assert stores[..|stores|] == stores;
  }

  /** `any(product in p.lower() for p in products)`. */
  method SellsProduct(products: seq<string>, product: string) returns (found: bool)
    ensures found == Sells(products, product)
  {
    found := false;
    var j := 0;
    while j < |products| && !found
      invariant 0 <= j <= |products|
      invariant found ==> Sells(products, product)
      invariant !found ==> Sells(products, product) == Sells(products[j..], product)
    {
      assert products[j..][1..] == products[j + 1..];
      found := Contains(Lower(products[j]), product);
      j := j + 1;
    }
  }

  /** One line of the context: "name (d km away)", with the distance
      printed by the given formatter. */
  function StoreLine(hit: StoreHit, show: real -> string): string {
    hit.name + " (" + show(hit.distanceKm) + " km away)"
  }

  function StoreLines(hits: seq<StoreHit>, show: real -> string): (r: seq<string>)
    ensures |r| == |hits| && forall k :: 0 <= k < |hits| ==> r[k] == StoreLine(hits[k], show)
  {
    seq(|hits|, k requires 0 <= k < |hits| => StoreLine(hits[k], show))
  }

  /** `stores_to_context(results, product)`. */
  function StoresToContext(hits: seq<StoreHit>, product: string, show: real -> string): string {
    if hits == [] then "No stores found nearby for " + product + "."
    else Join(StoreLines(hits, show), "\n")
  }

  /** The context reads back as one line per store, in order, when no store
      name or printed distance holds a newline; without stores it is the
      fixed "not found" sentence. */
  lemma StoresToContextLines(hits: seq<StoreHit>, product: string, show: real -> string)
    requires forall k :: 0 <= k < |hits| ==> '\n' !in hits[k].name && '\n' !in show(hits[k].distanceKm)
    ensures hits == [] ==> StoresToContext(hits, product, show) == "No stores found nearby for " + product + "."
    ensures hits != [] ==> Split(StoresToContext(hits, product, show), "\n") == StoreLines(hits, show)
  {
    if hits != [] {
      var lines := StoreLines(hits, show);
      forall k | 0 <= k < |lines| ensures '\n' !in lines[k] {
        assert lines[k] == hits[k].name + " (" + show(hits[k].distanceKm) + " km away)";
      }
      SplitJoin(lines, "\n");
    }
  }

  const UnknownProductAnswer := "Sorry, I couldn't identify which product you're asking about.\n\nYou can find more information on [madewithnestle](https://www.madewithnestle.ca/)."

  /** `location_query`: match the product, look up its brand, filter the
      stores and let the language model answer from the store context and
      the Amazon link. `matched` is the product matcher's answer. */
  method LocationQuery(question: string, matched: Option<string>, productToBrand: map<string, string>,
                       stores: seq<Store>, distance: Store -> real, round2: real -> real,
                       show: real -> string, llm: (string, string, string) -> string)
    returns (answer: string)
    ensures matched.None? || matched.value == "" ==> answer == UnknownProductAnswer
    ensures matched.Some? && matched.value != "" ==>
      var product := matched.value;
      answer == llm(StoresToContext(NearbyStores(stores, product, distance, round2), product, show),
                    AmazonLink(product, BrandFor(productToBrand, product)), question)
  {
    if matched.None? || matched.value == "" {
      return UnknownProductAnswer;
    }
    var product := matched.value;
    var brand := BrandFor(productToBrand, product);
    var amazonLink := AmazonLink(product, brand);
    var results := FilterStores(stores, product, distance, round2);
    var storeInfo := StoresToContext(results, product, show);
    answer := llm(storeInfo, amazonLink, question);
  }
}
