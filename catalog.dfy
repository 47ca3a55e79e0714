/**
 * The catalog client of src/api/endpoints.js: the item report comes back in a
 * columnar shape `{keys, values}`; each row is pivoted into a key/value
 * dictionary and projected onto a product record, with defaults for the price
 * and the image.
 */
module Catalog {
  import opened Wrappers

  /** A cell of the report; `None` is a missing column or a JSON `null`. */
  type Value = Option<string>

  /**
   * Number parsing, standing for the browser's `parseFloat`; `None` is NaN.
   * It is a parameter of the model because its exact grammar is not modelled.
   */
  type Parser = string -> Option<real>

  /** The `message` object of the report: either part may be absent. */
  datatype Report = Report(keys: Option<seq<string>>, values: Option<seq<seq<Value>>>)

  /** The HTTP body: `message` is `None` when `data` or `message` is missing or falsy. */
  datatype Response = Response(message: Option<Report>)

  datatype FetchError =
    /** `message` is missing or falsy. */
    | InvalidResponseStructure
    /** `.map` of a missing `values`, or `.forEach` of a missing `keys`, on `undefined`. */
    | TypeError(reason: string)
    /** The request itself was rejected (network failure, non-2xx status). */
    | RequestFailed(reason: string)

  /** The normalised record the user interface consumes. */
  datatype Product = Product(
    id: Value,
    name: Value,
    code: Value,
    description: Value,
    price: real,
    uom: Value,
    image: string)

  const INVALID_RESPONSE_MESSAGE := "Invalid response structure"
  const PLACEHOLDER_IMAGE := "/api/placeholder/200/200"

  /** The columns the client asks for, in the order of the `fields` parameter. */
  const REQUESTED_FIELDS := ["name", "item_name", "item_code", "description", "standard_rate", "stock_uom", "image"]

  /** `row[i]`, which is `undefined` past the end of the row. */
  function CellAt(row: seq<Value>, i: nat): Value
  {
    if i < |row| then row[i] else None
  }

  /** Reading a property of the dictionary; a missing property is `undefined`. */
  function Lookup(m: map<string, Value>, key: string): Value
  {
    if key in m then m[key] else None
  }

  /**
   * The dictionary the `keys.forEach` loop leaves behind: key `keys[i]` is
   * assigned `row[i]` for i = 0, 1, ..., so a later index overwrites an earlier one.
   */
  function KeyValueMap(keys: seq<string>, row: seq<Value>): map<string, Value>
  {
    if |keys| == 0 then map[]
    else KeyValueMap(keys[..|keys| - 1], row)[keys[|keys| - 1] := CellAt(row, |keys| - 1)]
  }

  /** The last position at which `key` occurs in `keys`. */
  function LastIndexOf(keys: seq<string>, key: string): (j: nat)
    requires key in keys
    ensures j < |keys| && keys[j] == key
    ensures forall k :: j < k < |keys| ==> keys[k] != key
  {
    if keys[|keys| - 1] == key then |keys| - 1
    else LastIndexOf(keys[..|keys| - 1], key)
  }

  /** The value a row holds in the column named `key`; the last such column when the name repeats. */
  function Column(keys: seq<string>, row: seq<Value>, key: string): Value
  {
    if key in keys then CellAt(row, LastIndexOf(keys, key)) else None
  }

  /**
   * The pivot loop of a single row, as it is written: a loop over the indices
   * that assigns one dictionary entry per key.
   */
  method BuildKeyValueMap(keys: seq<string>, row: seq<Value>) returns (m: map<string, Value>)
    ensures m == KeyValueMap(keys, row)
  {
    m := map[];
    var i := 0;
    while i < |keys|
      invariant 0 <= i <= |keys|
      invariant m == KeyValueMap(keys[..i], row)
    {
      assert keys[..i + 1][..i] == keys[..i];
      m := m[keys[i] := CellAt(row, i)];
      i := i + 1;
    }
    assert keys[..|keys|] == keys;
  }

  /** The dictionary holds exactly the keys, and each entry is the value of the last column of that name. */
  lemma {:induction false} KeyValueMapIsLastWriteWins(keys: seq<string>, row: seq<Value>, key: string)
    ensures key in KeyValueMap(keys, row) <==> key in keys
    ensures Lookup(KeyValueMap(keys, row), key) == Column(keys, row, key)
  {
    if |keys| > 0 {
      var init := keys[..|keys| - 1];
      KeyValueMapIsLastWriteWins(init, row, key);
      assert keys == init + [keys[|keys| - 1]];
      if keys[|keys| - 1] != key && key in keys {
        assert key in init;
        assert LastIndexOf(keys, key) == LastIndexOf(init, key);
      }
    }
  }

  /** When no key repeats, the entry for `keys[i]` is the row's `i`-th cell. */
  lemma DistinctKeysPivot(keys: seq<string>, row: seq<Value>, i: nat)
    requires i < |keys|
    requires forall a, b :: 0 <= a < b < |keys| ==> keys[a] != keys[b]
    ensures keys[i] in KeyValueMap(keys, row)
    ensures KeyValueMap(keys, row)[keys[i]] == CellAt(row, i)
  {
    KeyValueMapIsLastWriteWins(keys, row, keys[i]);
    var j := LastIndexOf(keys, keys[i]);
    assert j == i;
  }

  /** `parseFloat(v) || 0`: NaN and 0 both become 0; a negative number is kept. */
  function Price(v: Value, parse: Parser): (p: real)
    ensures v.None? ==> p == 0.0
    ensures v.Some? && parse(v.value).None? ==> p == 0.0
    ensures v.Some? && parse(v.value).Some? ==> p == parse(v.value).value
  {
    match v
    case None => 0.0
    case Some(s) =>
      match parse(s)
      case None => 0.0
      case Some(x) => x
  }

  /** `v || placeholder`: a missing or empty string is replaced by the placeholder image. */
  function Image(v: Value): (image: string)
    ensures v.Some? && v.value != "" ==> image == v.value
    ensures v.None? || v.value == "" ==> image == PLACEHOLDER_IMAGE
  {
    if v.Some? && v.value != "" then v.value else PLACEHOLDER_IMAGE
  }

  /** The record built from one row's dictionary. */
  function Record(m: map<string, Value>, parse: Parser): Product
  {
    Product(
      id := Lookup(m, "name"),
      name := Lookup(m, "item_name"),
      code := Lookup(m, "item_code"),
      description := Lookup(m, "description"),
      price := Price(Lookup(m, "standard_rate"), parse),
      uom := Lookup(m, "stock_uom"),
      image := Image(Lookup(m, "image")))
  }

  /** The record of one row of the report. */
  function RowRecord(keys: seq<string>, row: seq<Value>, parse: Parser): Product
  {
    Record(KeyValueMap(keys, row), parse)
  }

  /** A report that the normaliser turns into records rather than an error. */
  predicate WellShaped(resp: Response)
  {
    && resp.message.Some?
    && resp.message.value.values.Some?
    && (resp.message.value.keys.Some? || resp.message.value.values.value == [])
  }

  /**
   * The normalisation: the message check, then one record per row.
   * With no rows, `keys.forEach` never runs, so missing keys go unnoticed.
   */
  function Normalize(resp: Response, parse: Parser): (r: Result<seq<Product>, FetchError>)
    ensures r == Err(InvalidResponseStructure) <==> resp.message.None?
    ensures r.Ok? <==> WellShaped(resp)
    ensures r.Ok? ==> |r.value| == |resp.message.value.values.value|
  {
    match resp.message
    case None => Err(InvalidResponseStructure)
    case Some(report) =>
      match report.values
      case None => Err(TypeError("Cannot read properties of undefined (reading 'map')"))
      case Some(rows) =>
        if rows != [] && report.keys.None? then
          Err(TypeError("Cannot read properties of undefined (reading 'forEach')"))
        else
          var keys := if report.keys.Some? then report.keys.value else [];
          Ok(seq(|rows|, i requires 0 <= i < |rows| => RowRecord(keys, rows[i], parse)))
  }

  /** `fetchProducts`: a rejected request is logged and re-thrown unchanged; a response is normalised. */
  function FetchProducts(outcome: Result<Response, FetchError>, parse: Parser): (r: Result<seq<Product>, FetchError>)
    ensures outcome.Err? ==> r == Err(outcome.error)
    ensures outcome.Ok? ==> r == Normalize(outcome.value, parse)
  {
    match outcome
    case Err(e) => Err(e)
    case Ok(resp) => Normalize(resp, parse)
  }

  /**
   * Record `i` of a normalised report is made from row `i`: every field is
   * the value of the column it is copied from, with the price and image defaults.
   */
  lemma NormalizedRecordFields(resp: Response, parse: Parser, i: nat)
    requires WellShaped(resp)
    requires i < |resp.message.value.values.value|
    ensures var keys := if resp.message.value.keys.Some? then resp.message.value.keys.value else [];
            var row := resp.message.value.values.value[i];
            var p := Normalize(resp, parse).value[i];
            && p.id == Column(keys, row, "name")
            && p.name == Column(keys, row, "item_name")
            && p.code == Column(keys, row, "item_code")
            && p.description == Column(keys, row, "description")
            && p.price == Price(Column(keys, row, "standard_rate"), parse)
            && p.uom == Column(keys, row, "stock_uom")
            && p.image == Image(Column(keys, row, "image"))
  {
    var keys := if resp.message.value.keys.Some? then resp.message.value.keys.value else [];
    var row := resp.message.value.values.value[i];
    KeyValueMapIsLastWriteWins(keys, row, "name");
    KeyValueMapIsLastWriteWins(keys, row, "item_name");
    KeyValueMapIsLastWriteWins(keys, row, "item_code");
    KeyValueMapIsLastWriteWins(keys, row, "description");
    KeyValueMapIsLastWriteWins(keys, row, "standard_rate");
    KeyValueMapIsLastWriteWins(keys, row, "stock_uom");
    KeyValueMapIsLastWriteWins(keys, row, "image");
  }

  /** A row that ends before the `standard_rate` and `image` columns gets price 0 and the placeholder. */
  lemma ShortRowDefaults(keys: seq<string>, row: seq<Value>, parse: Parser)
    requires forall j :: 0 <= j < |keys| && keys[j] == "standard_rate" ==> |row| <= j
    requires forall j :: 0 <= j < |keys| && keys[j] == "image" ==> |row| <= j
    ensures RowRecord(keys, row, parse).price == 0.0
    ensures RowRecord(keys, row, parse).image == PLACEHOLDER_IMAGE
  {
    KeyValueMapIsLastWriteWins(keys, row, "standard_rate");
    KeyValueMapIsLastWriteWins(keys, row, "image");
  }

  /** With the requested column order, a row of at most four cells has price 0 and the placeholder image. */
  lemma ShortRowOfRequestedFields(row: seq<Value>, parse: Parser)
    requires |row| <= 4
    ensures RowRecord(REQUESTED_FIELDS, row, parse).price == 0.0
    ensures RowRecord(REQUESTED_FIELDS, row, parse).image == PLACEHOLDER_IMAGE
  {
    ShortRowDefaults(REQUESTED_FIELDS, row, parse);
  }

  /** A parsed negative rate becomes a negative price: there is no sign check. */
  lemma NegativeRateKept(keys: seq<string>, row: seq<Value>, parse: Parser, j: nat)
    requires j < |keys| && j < |row| && keys[j] == "standard_rate"
    requires forall k :: j < k < |keys| ==> keys[k] != "standard_rate"
    requires row[j].Some? && parse(row[j].value).Some? && parse(row[j].value).value < 0.0
    ensures RowRecord(keys, row, parse).price < 0.0
  {
    KeyValueMapIsLastWriteWins(keys, row, "standard_rate");
    var last := LastIndexOf(keys, "standard_rate");
    assert last == j;
  }

  /** The worked example: one row `["I1", "Widget", "9.99"]` under keys `name`, `item_name`, `standard_rate`. */
  lemma ThreeColumnExample(parse: Parser)
    requires parse("9.99") == Some(9.99)
    ensures var resp := Response(Some(Report(Some(["name", "item_name", "standard_rate"]),
                                             Some([[Some("I1"), Some("Widget"), Some("9.99")]]))));
            Normalize(resp, parse) ==
              Ok([Product(Some("I1"), Some("Widget"), None, None, 9.99, None, PLACEHOLDER_IMAGE)])
  {
    var keys := ["name", "item_name", "standard_rate"];
    var row := [Some("I1"), Some("Widget"), Some("9.99")];
    assert keys[..2] == ["name", "item_name"];
    assert keys[..2][..1] == ["name"];
    assert keys[..2][..1][..0] == [];
    assert KeyValueMap(keys[..2][..1], row) == map["name" := Some("I1")];
    assert KeyValueMap(keys[..2], row) == map["name" := Some("I1"), "item_name" := Some("Widget")];
    var m := KeyValueMap(keys, row);
    assert Lookup(m, "name") == Some("I1");
    assert Lookup(m, "item_name") == Some("Widget");
    assert Lookup(m, "standard_rate") == Some("9.99");
    assert Lookup(m, "item_code") == None;
    var resp := Response(Some(Report(Some(keys), Some([row]))));
    var r := Normalize(resp, parse);
    assert r.value[0] == RowRecord(keys, row, parse);
    assert r.value == [r.value[0]];
  }
}
