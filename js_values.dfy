/** The loosely typed JSON summary records that the dashboard in
    frontend/src/App.js keeps in its history and flattens to CSV. */
module JsValues {

  /** A leaf value of a record. A number carries the text `String(n)` gives
      it; a nested array or object carries the text `JSON.stringify` gives
      it. Both texts are inputs of the model, not computed by it. */
  datatype Value =
    | Null
    | Undefined
    | Bool(b: bool)
    | Num(text: string)
    | Str(s: string)
    | Nested(json: string)

  predicate IsNullish(v: Value) {
    v == Null || v == Undefined
  }

  /** JavaScript truthiness; `String(n)` is "0" for both zeros and "NaN" for NaN. */
  predicate Truthy(v: Value) {
    match v
    case Null => false
    case Undefined => false
    case Bool(b) => b
    case Num(t) => t != "0" && t != "NaN"
    case Str(s) => s != ""
    case Nested(_) => true
  }

  /** `String(v)`, with a nested value already stringified as JSON. */
  function Text(v: Value): string {
    match v
    case Null => "null"
    case Undefined => "undefined"
    case Bool(b) => if b then "true" else "false"
    case Num(t) => t
    case Str(s) => s
    case Nested(j) => j
  }

  /** A value that is not an object or array. */
  type Primitive = v: Value | !v.Nested? witness Undefined

  /** The `averages` or `type_distribution` slot of a record: an object, with
      its entries in `Object.keys` order, or anything else (absent, null, a
      number, a string, a boolean). */
  datatype Section =
    | Obj(entries: seq<(string, Value)>)
    | Scalar(v: Primitive)

  /** `Object.keys` of an object. */
  function Keys(entries: seq<(string, Value)>): (ks: seq<string>)
    ensures |ks| == |entries|
    ensures forall i :: 0 <= i < |entries| ==> ks[i] == entries[i].0
  {
    seq(|entries|, i requires 0 <= i < |entries| => entries[i].0)
  }

  /** `obj[k]`: the value of key `k`, or undefined when the object lacks it.
      A JavaScript object never repeats a key; if `entries` did, the first wins. */
  function Get(entries: seq<(string, Value)>, k: string): Value
    decreases |entries|
  {
    if entries == [] then Undefined
    else if entries[0].0 == k then entries[0].1
    else Get(entries[1..], k)
  }

  lemma {:induction false} GetMissing(entries: seq<(string, Value)>, k: string)
    requires k !in Keys(entries)
    ensures Get(entries, k) == Undefined
    decreases |entries|
  {
    if entries != [] {
      assert Keys(entries)[0] == entries[0].0;
      assert Keys(entries[1..]) == Keys(entries)[1..];
      GetMissing(entries[1..], k);
    }
  }

  lemma {:induction false} GetPresent(entries: seq<(string, Value)>, k: string)
    requires k in Keys(entries)
    ensures (k, Get(entries, k)) in entries
    decreases |entries|
  {
    if entries[0].0 != k {
      var j :| 0 <= j < |entries| && Keys(entries)[j] == k;
      assert Keys(entries[1..])[j - 1] == k;
      GetPresent(entries[1..], k);
      var x := (k, Get(entries[1..], k));
      var n :| 0 <= n < |entries| - 1 && entries[1..][n] == x;
      assert entries[n + 1] == x;
    }
  }

  /** A record's `column_names`: an array of names, or anything else. */
  datatype ColumnNames = List(names: seq<string>) | NotList(v: Value)

  /** One summary record: the upload response, or an entry fetched from the
      history endpoint (which has no `success`, `message` or maps). */
  datatype Summary = Summary(
    success: Value,
    rows: Value,
    columns: Value,
    columnNames: ColumnNames,
    message: Value,
    averages: Section,
    typeDistribution: Section)
}
