/** The records of lib/types.ts and the JSON values a result row holds. */
module Types {
  import opened Wrappers

  /** A JSON value as it arrives in a result row. Numbers are modelled by
      their integer value. */
  datatype Value =
    | Null
    | Bool(b: bool)
    | Num(n: int)
    | Str(s: string)
    | Arr(items: seq<Value>)
    | Obj(members: seq<(string, Value)>)

  /** `RowData`: one result row as its (key, value) pairs, in the order
      `Object.keys` lists them. */
  type Row = seq<(string, Value)>

  /** `Object.keys(row)`. */
  function Keys(row: Row): (ks: seq<string>)
    ensures |ks| == |row|
    ensures forall j :: 0 <= j < |row| ==> ks[j] == row[j].0
  {
    seq(|row|, j requires 0 <= j < |row| => row[j].0)
  }

  /** A JavaScript object never holds one key twice. */
  predicate DistinctKeys(row: Row) {
    forall i, j :: 0 <= i < j < |row| ==> row[i].0 != row[j].0
  }

  /** `row[key]`: the value stored under `key`, or `None` for `undefined`. */
  function Lookup(row: Row, key: string): (r: Option<Value>)
    ensures r.Some? <==> key in Keys(row)
  {
    if row == [] then None
    else if row[0].0 == key then Some(row[0].1)
    else
      assert Keys(row) == [row[0].0] + Keys(row[1..]);
      Lookup(row[1..], key)
  }

  /** In a row with distinct keys, looking up the j-th key gives the j-th value. */
  lemma {:induction false} LookupAt(row: Row, j: nat)
    requires DistinctKeys(row) && j < |row|
    ensures Lookup(row, row[j].0) == Some(row[j].1)
  {
    if j > 0 {
      assert DistinctKeys(row[1..]);
      LookupAt(row[1..], j - 1);
    }
  }

  /** What a JavaScript `throw` delivers to a `catch`: an `Error` with its
      message, another object with a `message` property, a string, `null` or
      `undefined`, or any other value (a number, an object without `message`). */
  datatype Thrown =
    | ErrorObject(message: string)
    | MessageObject(message: string)
    | StringValue(text: string)
    | Nullish
    | OtherValue

  /** `SnowflakeResponse`: the normalised outcome of one statement. */
  datatype SnowflakeResponse = SnowflakeResponse(
    success: bool,
    status: int,
    sqlStatus: Option<string>,
    error: Option<string>,
    headings: Option<seq<string>>,
    data: Option<seq<Row>>)

  /** `VerifyLoginResult`: what a sign-in attempt reports to the page. */
  datatype VerifyLoginResult = VerifyLoginResult(success: bool, message: string, displayName: string)
}
