/** components/scrollable-data-table.tsx: the column set of a sparse result
    (the union of the keys of all rows, in first-seen order) and the text of
    the table the component renders. Markup and styling are not modelled. */
module DataTable {
  import opened Wrappers
  import opened Types
  import Json

  /** Every key of every row, rows in order and keys in row order, repeats included. */
  function KeyStream(data: seq<Row>): seq<string> {
    if data == [] then [] else KeyStream(data[..|data| - 1]) + Keys(data[|data| - 1])
  }

  /** First-seen deduplication: add each element to an insertion-ordered
      `Set`, then list the set. */
  function Dedup(s: seq<string>): seq<string> {
    if s == [] then []
    else
      var r := Dedup(s[..|s| - 1]);
      if s[|s| - 1] in r then r else r + [s[|s| - 1]]
  }

  /** `allKeys` of the component. */
  function AllKeys(data: seq<Row>): seq<string> {
    Dedup(KeyStream(data))
  }

  /** Position of the first occurrence of `x` in `s`. */
  function FirstIndex(s: seq<string>, x: string): (k: nat)
    requires x in s
    ensures k < |s| && s[k] == x && x !in s[..k]
  {
    if s[0] == x then 0
    else
      var k := 1 + FirstIndex(s[1..], x);
      assert s[..k] == [s[0]] + s[1..][..k - 1];
      k
  }

  lemma FirstIndexUnique(s: seq<string>, x: string, k: nat)
    requires k < |s| && s[k] == x && x !in s[..k]
    ensures FirstIndex(s, x) == k
  {
  }

  /** A key is in the stream exactly when some row has it. */
  lemma {:induction false} KeyStreamMembers(data: seq<Row>, x: string)
    ensures x in KeyStream(data) <==> exists i :: 0 <= i < |data| && x in Keys(data[i])
  {
    if data != [] {
      var front := data[..|data| - 1];
      KeyStreamMembers(front, x);
      if x in KeyStream(front) {
        var i :| 0 <= i < |front| && x in Keys(front[i]);
        assert data[i] == front[i];
      }
      if exists i :: 0 <= i < |data| && x in Keys(data[i]) {
        var i :| 0 <= i < |data| && x in Keys(data[i]);
        if i < |data| - 1 {
          assert front[i] == data[i];
        }
      }
    }
  }

  lemma {:induction false} DedupMembers(s: seq<string>, x: string)
    ensures x in Dedup(s) <==> x in s
  {
    if s != [] {
      DedupMembers(s[..|s| - 1], x);
      assert s == s[..|s| - 1] + [s[|s| - 1]];
    }
  }

  lemma {:induction false} DedupDistinct(s: seq<string>)
    ensures forall i, j :: 0 <= i < j < |Dedup(s)| ==> Dedup(s)[i] != Dedup(s)[j]
  {
    if s != [] {
      DedupDistinct(s[..|s| - 1]);
    }
  }

  /** Dedup lists elements in the order of their first occurrence. */
  lemma {:induction false} DedupFirstSeen(s: seq<string>)
    ensures forall x :: x in Dedup(s) ==> x in s
    ensures forall i, j :: 0 <= i < j < |Dedup(s)| ==>
              FirstIndex(s, Dedup(s)[i]) < FirstIndex(s, Dedup(s)[j])
  {
    if s != [] {
      var n := |s|;
      var front := s[..n - 1];
      var r, r' := Dedup(s), Dedup(front);
      DedupFirstSeen(front);
      forall x | x in r ensures x in s {
        DedupMembers(s, x);
      }
      // a key already seen keeps its first position
      forall x | x in front ensures FirstIndex(s, x) == FirstIndex(front, x) {
        var k := FirstIndex(front, x);
        assert s[..k] == front[..k];
        FirstIndexUnique(s, x, k);
      }
      if s[n - 1] !in r' {
        DedupMembers(front, s[n - 1]);
        assert s[..n - 1] == front;
        FirstIndexUnique(s, s[n - 1], n - 1);
        forall i, j | 0 <= i < j < |r|
          ensures FirstIndex(s, r[i]) < FirstIndex(s, r[j])
        {
          assert r[i] == r'[i] && r'[i] in front;
          if j < |r'| {
            assert r[j] == r'[j] && r'[j] in front;
          }
        }
      } else {
        forall i, j | 0 <= i < j < |r|
          ensures FirstIndex(s, r[i]) < FirstIndex(s, r[j])
        {
          assert r'[i] in front && r'[j] in front;
        }
      }
    }
  }

  /** What `allKeys` holds: every key of every row and nothing else, no key
      twice, in order of first appearance scanning rows in order and keys in
      row order. */
  lemma AllKeysSpec(data: seq<Row>)
    ensures forall i, k :: 0 <= i < |data| && k in Keys(data[i]) ==> k in AllKeys(data)
    ensures forall k :: k in AllKeys(data) ==> exists i :: 0 <= i < |data| && k in Keys(data[i])
    ensures forall i, j :: 0 <= i < j < |AllKeys(data)| ==> AllKeys(data)[i] != AllKeys(data)[j]
    ensures forall k :: k in AllKeys(data) ==> k in KeyStream(data)
    ensures forall i, j :: 0 <= i < j < |AllKeys(data)| ==>
              FirstIndex(KeyStream(data), AllKeys(data)[i]) < FirstIndex(KeyStream(data), AllKeys(data)[j])
  {
    var s := KeyStream(data);
    forall i, k | 0 <= i < |data| && k in Keys(data[i]) ensures k in AllKeys(data) {
      KeyStreamMembers(data, k);
      DedupMembers(s, k);
    }
    forall k | k in AllKeys(data) ensures exists i :: 0 <= i < |data| && k in Keys(data[i]) {
      DedupMembers(s, k);
      KeyStreamMembers(data, k);
    }
    DedupDistinct(s);
    DedupFirstSeen(s);
  }

  /** The key-union loop: `keySet` is filled row by row, key by key; a `Set`
      ignores a key it already holds and lists its keys in insertion order. */
  method CollectKeys(data: seq<Row>) returns (allKeys: seq<string>)
    ensures allKeys == AllKeys(data)
  {
    allKeys := [];
    var i := 0;
    while i < |data|
      invariant 0 <= i <= |data|
      invariant allKeys == Dedup(KeyStream(data[..i]))
    {
      var keys := Keys(data[i]);
      ghost var seen := KeyStream(data[..i]);
      var j := 0;
      assert seen + keys[..j] == seen;
      while j < |keys|
        invariant 0 <= j <= |keys|
        invariant allKeys == Dedup(seen + keys[..j])
      {
        assert seen + keys[..j + 1] == (seen + keys[..j]) + [keys[j]];
        if keys[j] !in allKeys {
          allKeys := allKeys + [keys[j]];
        }
        j := j + 1;
      }
      assert data[..i + 1][..i] == data[..i];
      assert keys[..j] == keys;
      i := i + 1;
    }
    assert data[..i] == data;
  }

  /** What the component renders: the placeholder, or a table. */
  datatype View = Placeholder(text: string) | Table(header: seq<string>, body: seq<seq<string>>)

  const NoData := "No data to display."

  /** The text of one cell: nothing for a missing or null value, a string as
      it is, anything else as `JSON.stringify` writes it. */
  function CellText(row: Row, key: string): (r: string)
    ensures r == "" <==> Lookup(row, key) in {None, Some(Null), Some(Str(""))}
    ensures Lookup(row, key).Some? && Lookup(row, key).value.Str? ==> r == Lookup(row, key).value.s
    ensures Lookup(row, key).Some? && !Lookup(row, key).value.Null? && !Lookup(row, key).value.Str? ==>
              r == Json.Stringify(Lookup(row, key).value)
  {
    match Lookup(row, key)
    case None => ""
    case Some(Null) => ""
    case Some(Str(s)) => s
    case Some(v) => Json.Stringify(v)
  }

  /** `ScrollableDataTable`: the placeholder for missing or empty data;
      otherwise one header cell per heading, in order, and one body row per
      data row, in order, each with one cell per key of `allKeys`. */
  method ScrollableDataTable(headings: seq<string>, data: Option<seq<Row>>) returns (view: View)
    ensures view.Placeholder? <==> data.None? || data.value == []
    ensures view.Placeholder? ==> view.text == NoData
    ensures view.Table? ==>
              && view.header == headings
              && |view.body| == |data.value|
              && forall i :: 0 <= i < |data.value| ==>
                   && |view.body[i]| == |AllKeys(data.value)|
                   && forall j :: 0 <= j < |AllKeys(data.value)| ==>
                        view.body[i][j] == CellText(data.value[i], AllKeys(data.value)[j])
  {
    if data.None? || data.value == [] {
      return Placeholder(NoData);
    }
    var rows := data.value;
    var allKeys := CollectKeys(rows);
    var body := seq(|rows|, i requires 0 <= i < |rows| =>
                  seq(|allKeys|, j requires 0 <= j < |allKeys| => CellText(rows[i], allKeys[j])));
    view := Table(headings, body);
  }
}
