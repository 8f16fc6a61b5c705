/**
  Parsed JSON records shared by the scraping, chunking, linking and graph
  loading code: scalar values, chunk records and catalogue records.
 */
module Records {
  import opened Wrappers

  /** A scalar JSON value as read by Python's `json`: a string or `null`. */
  datatype Value = Str(s: string) | Null

  /** A JSON object whose values are scalars. */
  type Fields = map<string, Value>

  /** How an f-string renders the value (`None` for null). */
  function Show(v: Value): string {
    match v
    case Str(s) => s
    case Null => "None"
  }

  /** Python truthiness of the value. */
  predicate Truthy(v: Value) {
    v.Str? && v.s != ""
  }

  /** `d.get(k)`: null when the key is absent. */
  function Get(d: Fields, k: string): Value {
    if k in d then d[k] else Null
  }

  /** `d.get(k, default)` */
  function GetOr(d: Fields, k: string, default: string): Value {
    if k in d then d[k] else Str(default)
  }

  /** One element of `chunks.json`: metadata and text content. */
  datatype Chunk = Chunk(metadata: Fields, content: string)

  /** A product of `brand_products.json`. Its string fields (`name`,
      `specification`, `status`, `product_url`, `image_url`, `description`,
      `features`) are present or absent; each nutrition item is an object
      with string fields `type`, `amount`, `dv`. */
  datatype ProductRecord = ProductRecord(fields: map<string, string>, nutrition: seq<map<string, string>>)

  /** A brand of `brand_products.json` (`brand`, `category`, `url`) and its
      products. */
  datatype BrandRecord = BrandRecord(fields: map<string, string>, products: seq<ProductRecord>)

  /** `d.get(k)` on a string-valued object. */
  function Field(d: map<string, string>, k: string): Value {
    if k in d then Str(d[k]) else Null
  }

  /** `d.get(k, default)` on a string-valued object. */
  function FieldOr(d: map<string, string>, k: string, default: string): string {
    if k in d then d[k] else default
  }

  /** One turn of the chat history sent by the front end. */
  datatype Turn = Turn(sender: string, text: string)
}
