/** The array of rows that "End session" hands to the spreadsheet writer. Only
    the rows are modelled; building the workbook and writing `books.xlsx` are
    left to the library. */
module Worksheet {
  import opened Js

  /** A spreadsheet cell: a string, a number, or an `undefined` field. */
  datatype Cell = Text(text: string) | Number(n: int) | Undefined

  type Row = seq<Cell>

  /** The five-column header row every export starts with. */
  const Header: Row := [Text("ISBN"), Text("Title"), Text("Authors"), Text("Publisher"), Text("Count")]

  /** The cell for a possibly-undefined string field. */
  function CellOf(s: JsString): Cell
  {
    if s.Some? then Text(s.value) else Undefined
  }

  /** No key occurs twice: the keys of one JavaScript object. */
  predicate Distinct(keys: seq<string>) {
    forall i, j :: 0 <= i < j < |keys| ==> keys[i] != keys[j]
  }

  /** The rows correspond one to one, in order, to `keys`, each led by its key. */
  predicate KeyedBy(rows: seq<Row>, keys: seq<string>) {
    && |rows| == |keys|
    && forall i :: 0 <= i < |rows| ==> |rows[i]| > 0 && rows[i][0] == Text(keys[i])
  }

  /** How many of `rows` are led by `key`. */
  function RowsFor(rows: seq<Row>, key: string): nat
  {
    if |rows| == 0 then 0
    else
      var last := rows[|rows| - 1];
      RowsFor(rows[..|rows| - 1], key) + (if |last| > 0 && last[0] == Text(key) then 1 else 0)
  }

  /** Rows keyed by distinct keys give exactly one row per key and none for any
      other string. */
  lemma {:induction false} OneRowPerKey(rows: seq<Row>, keys: seq<string>, key: string)
    requires Distinct(keys) && KeyedBy(rows, keys)
    ensures RowsFor(rows, key) == if key in keys then 1 else 0
  {
    if |rows| > 0 {
      var n := |rows| - 1;
      assert KeyedBy(rows[..n], keys[..n]);
      OneRowPerKey(rows[..n], keys[..n], key);
      assert keys == keys[..n] + [keys[n]];
      if key == keys[n] {
        assert key !in keys[..n];
      }
    }
  }

  /** Distinct keys are as many as the set they form. */
  lemma {:induction false} DistinctCardinality(keys: seq<string>)
    requires Distinct(keys)
    ensures |set k | k in keys| == |keys|
  {
    if |keys| > 0 {
      var n := |keys| - 1;
      DistinctCardinality(keys[..n]);
      assert keys == keys[..n] + [keys[n]];
      assert (set k | k in keys) == (set k | k in keys[..n]) + {keys[n]};
      assert keys[n] !in keys[..n];
    }
  }

  /** The rows pushed by `for (const [isbn, book] of Object.entries(books))`:
      one `rowOf(isbn, book)` per key, in the order of `keys`. */
  function Rows<V>(keys: seq<string>, books: map<string, V>, rowOf: (string, V) -> Row): (rows: seq<Row>)
    requires forall k :: k in keys ==> k in books
    ensures |rows| == |keys|
    ensures forall i :: 0 <= i < |keys| ==> rows[i] == rowOf(keys[i], books[keys[i]])
  {
    if |keys| == 0 then []
    else
      var n := |keys| - 1;
      Rows(keys[..n], books, rowOf) + [rowOf(keys[n], books[keys[n]])]
  }

  /** When each row is led by its key and the keys are those of an object,
      the rows hold exactly one row per key and none for any other string. */
  lemma RowsOnePerKey<V>(keys: seq<string>, books: map<string, V>, rowOf: (string, V) -> Row)
    requires Distinct(keys) && (forall k :: k in books <==> k in keys)
    requires forall k, v :: |rowOf(k, v)| > 0 && rowOf(k, v)[0] == Text(k)
    ensures |Rows(keys, books, rowOf)| == |books|
    ensures forall k :: RowsFor(Rows(keys, books, rowOf), k) == (if k in books then 1 else 0)
  {
    var rows := Rows(keys, books, rowOf);
    DistinctCardinality(keys);
    assert books.Keys == set k | k in keys;
    assert KeyedBy(rows, keys);
    forall k ensures RowsFor(rows, k) == (if k in books then 1 else 0) {
      OneRowPerKey(rows, keys, k);
    }
  }
}
