/** The generic metadata table the activation flags live in, as the metadata query
    class reads and writes it: rows keyed by (meta key, element key, element id). */
module MetaDataStore {

  datatype MetaKey = MetaKey(metaKey: string, elementKey: string, elementId: int)

  datatype Row = Row(key: MetaKey, value: string)

  /** The table, in the order its rows are read back. */
  type Table = seq<Row>

  /** The values stored under one key, in table order. */
  function Entries(t: Table, k: MetaKey): seq<string> {
    if |t| == 0 then []
    else (if t[0].key == k then [t[0].value] else []) + Entries(t[1..], k)
  }

  /** At most one row per key. */
  ghost predicate Unique(t: Table) {
    forall k :: |Entries(t, k)| <= 1
  }

  /** `getVal`: the value of the first row with the key, or the default. */
  function GetVal(t: Table, k: MetaKey, default: string): (v: string)
    ensures |Entries(t, k)| == 0 ==> v == default
    ensures |Entries(t, k)| > 0 ==> v == Entries(t, k)[0]
  {
    if |t| == 0 then default
    else if t[0].key == k then t[0].value
    else GetVal(t[1..], k, default)
  }

  /** `setVal`: overwrites the value of the first row with the key, or adds a row.
      Afterwards the key reads as the new value and every other key reads as before. */
  function SetVal(t: Table, k: MetaKey, v: string): (r: Table)
    ensures |Entries(t, k)| == 0 ==> Entries(r, k) == [v]
    ensures |Entries(t, k)| > 0 ==> Entries(r, k) == [v] + Entries(t, k)[1..]
    ensures forall k' :: k' != k ==> Entries(r, k') == Entries(t, k')
  {
    if |t| == 0 then [Row(k, v)]
    else if t[0].key == k then
      assert Entries(t, k) == [t[0].value] + Entries(t[1..], k);
      [Row(k, v)] + t[1..]
    else
      var rest := SetVal(t[1..], k, v);
      assert Entries([t[0]] + rest, k) == Entries(rest, k);
      assert forall k' :: Entries([t[0]] + rest, k') == (if t[0].key == k' then [t[0].value] else []) + Entries(rest, k');
      [t[0]] + rest
  }

  /** A delete query filtered on one key: removes every row with the key and reports
      how many it removed; rows of other keys stay as they were. */
  function Delete(t: Table, k: MetaKey): (r: (Table, nat))
    ensures r.1 == |Entries(t, k)|
    ensures Entries(r.0, k) == []
    ensures forall k' :: k' != k ==> Entries(r.0, k') == Entries(t, k')
  {
    if |t| == 0 then (t, 0)
    else
      var rest := Delete(t[1..], k);
      if t[0].key == k then (rest.0, rest.1 + 1)
      else
        assert forall k' :: Entries([t[0]] + rest.0, k') == (if t[0].key == k' then [t[0].value] else []) + Entries(rest.0, k');
        ([t[0]] + rest.0, rest.1)
  }

  /** Writing keeps the table free of duplicate keys. */
  lemma SetValKeepsUnique(t: Table, k: MetaKey, v: string)
    requires Unique(t)
    ensures Unique(SetVal(t, k, v))
  {
    var r := SetVal(t, k, v);
    forall k' ensures |Entries(r, k')| <= 1 {
      if k' != k {
        assert Entries(r, k') == Entries(t, k');
      }
    }
  }

  /** Deleting keeps the table free of duplicate keys. */
  lemma DeleteKeepsUnique(t: Table, k: MetaKey)
    requires Unique(t)
    ensures Unique(Delete(t, k).0)
  {
    var r := Delete(t, k).0;
    forall k' ensures |Entries(r, k')| <= 1 {
      if k' != k {
        assert Entries(r, k') == Entries(t, k');
      }
    }
  }
}
