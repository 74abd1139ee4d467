/** The table operations `CTimer.progress_apply` relies on, over a table
    seen as the sequence of its rows (cleantimer/cleantimer.py:58-112):
    applying an action to every row, the distinct values of a key column in
    first-occurrence order, the rows holding one key, and the concatenation
    of the per-key results. */
module Frames {

  /** Row-wise application of `action` (`df.apply(action, axis=1)`): one
      result per row, in row order. */
  function ApplyRows<Row, R>(rows: seq<Row>, action: Row -> R): (out: seq<R>)
    ensures |out| == |rows|
    ensures forall i :: 0 <= i < |rows| ==> out[i] == action(rows[i])
  {
    seq(|rows|, i requires 0 <= i < |rows| => action(rows[i]))
  }

  lemma ApplyRowsConcat<Row, R>(a: seq<Row>, b: seq<Row>, action: Row -> R)
    ensures ApplyRows(a + b, action) == ApplyRows(a, action) + ApplyRows(b, action)
  {
  }

  ghost predicate NoDuplicates<K>(s: seq<K>)
  {
    forall i, j :: 0 <= i < j < |s| ==> s[i] != s[j]
  }

  /** Position of the first occurrence of `k` in `keys`. */
  function FirstIndex<K(==)>(keys: seq<K>, k: K): (i: nat)
    requires k in keys
    ensures i < |keys| && keys[i] == k
    ensures k !in keys[..i]
  {
    if keys[0] == k then 0
    else
      var j := FirstIndex(keys[1..], k);
      assert keys[..j + 1] == [keys[0]] + keys[1..][..j];
      j + 1
  }

  /** The distinct values of a column, each kept at its first occurrence
      (`drop_duplicates().to_list()`). */
  function DropDuplicates<K(==)>(keys: seq<K>): (d: seq<K>)
    ensures NoDuplicates(d)
    ensures forall i :: 0 <= i < |d| ==> d[i] in keys
    ensures forall i :: 0 <= i < |keys| ==> keys[i] in d
  {
    if keys == [] then []
    else
      var init, last := keys[..|keys| - 1], keys[|keys| - 1];
      assert keys == init + [last];
      var d := DropDuplicates(init);
      if last in d then d else d + [last]
  }

  lemma FirstIndexOfPrefix<K>(a: seq<K>, b: seq<K>, k: K)
    requires k in a
    ensures FirstIndex(a + b, k) == FirstIndex(a, k)
  {
    var j := FirstIndex(a, k);
    assert (a + b)[j] == k;
    assert (a + b)[..j] == a[..j];
  }

  /** The distinct keys are listed in the order of their first occurrences. */
  lemma {:induction false} DropDuplicatesKeepsFirstOrder<K>(keys: seq<K>)
    ensures var d := DropDuplicates(keys);
      forall i, j :: 0 <= i < j < |d| ==> FirstIndex(keys, d[i]) < FirstIndex(keys, d[j])
  {
    if keys != [] {
      var init, last := keys[..|keys| - 1], keys[|keys| - 1];
      assert keys == init + [last];
      DropDuplicatesKeepsFirstOrder(init);
      var d0 := DropDuplicates(init);
      var d := DropDuplicates(keys);
      assert d == if last in d0 then d0 else d0 + [last];
      forall i, j | 0 <= i < j < |d|
        ensures FirstIndex(keys, d[i]) < FirstIndex(keys, d[j])
      {
        FirstOrderStep(init, last, i, j);
      }
    }
  }

  /** One step of the induction above: appending `last` to the column keeps
      the order of the keys found so far and puts a new key after them all. */
  lemma FirstOrderStep<K>(init: seq<K>, last: K, i: nat, j: nat)
    requires var d0 := DropDuplicates(init);
      forall i, j :: 0 <= i < j < |d0| ==> FirstIndex(init, d0[i]) < FirstIndex(init, d0[j])
    requires var d0 := DropDuplicates(init);
      i < j < |if last in d0 then d0 else d0 + [last]|
    ensures var d0 := DropDuplicates(init);
      var d := if last in d0 then d0 else d0 + [last];
      FirstIndex(init + [last], d[i]) < FirstIndex(init + [last], d[j])
  {
    var d0 := DropDuplicates(init);
    var d := if last in d0 then d0 else d0 + [last];
    assert d[i] == d0[i];
    FirstIndexOfPrefix(init, [last], d0[i]);
    if j < |d0| {
      assert d[j] == d0[j];
      FirstIndexOfPrefix(init, [last], d0[j]);
    } else {
      assert d[j] == last && last !in init;
      assert (init + [last])[..|init|] == init;
      assert FirstIndex(init + [last], last) == |init|;
    }
  }

  /** The rows whose key is `k`, in their original order
      (`df.loc[df[split_col] == key]`). */
  function Select<Row, K(==)>(rows: seq<Row>, key: Row -> K, k: K): (subset: seq<Row>)
    ensures |subset| <= |rows|
    ensures forall i :: 0 <= i < |subset| ==> key(subset[i]) == k
  {
    if rows == [] then []
    else
      var init, last := rows[..|rows| - 1], rows[|rows| - 1];
      Select(init, key, k) + (if key(last) == k then [last] else [])
  }

  /** Selecting distributes over concatenation, so the selected rows keep
      their relative order. */
  lemma {:induction false} SelectConcat<Row, K>(a: seq<Row>, b: seq<Row>, key: Row -> K, k: K)
    ensures Select(a + b, key, k) == Select(a, key, k) + Select(b, key, k)
  {
    if b == [] {
      assert a + b == a;
    } else {
      var ab := a + b;
      assert ab[..|ab| - 1] == a + b[..|b| - 1];
      assert ab[|ab| - 1] == b[|b| - 1];
      SelectConcat(a, b[..|b| - 1], key, k);
    }
  }

  /** Every row holding the key is selected. */
  lemma SelectComplete<Row, K>(rows: seq<Row>, key: Row -> K, k: K, i: nat)
    requires i < |rows| && key(rows[i]) == k
    ensures rows[i] in Select(rows, key, k)
  {
    assert rows == rows[..i] + [rows[i]] + rows[i + 1..];
    SelectConcat(rows[..i] + [rows[i]], rows[i + 1..], key, k);
    SelectConcat(rows[..i], [rows[i]], key, k);
    SelectAllOrNone([rows[i]], key, k);
  }

  /** Selecting the key every row holds keeps the whole table; a key no row
      holds selects nothing. */
  lemma {:induction false} SelectAllOrNone<Row, K>(rows: seq<Row>, key: Row -> K, k: K)
    ensures (forall i :: 0 <= i < |rows| ==> key(rows[i]) == k) ==> Select(rows, key, k) == rows
    ensures (forall i :: 0 <= i < |rows| ==> key(rows[i]) != k) ==> Select(rows, key, k) == []
  {
    if rows != [] {
      var init := rows[..|rows| - 1];
      assert rows == init + [rows[|rows| - 1]];
      SelectAllOrNone(init, key, k);
    }
  }

  /** The per-key results concatenated in the order of `keys`: the value of
      `output` after the loop of `progress_apply` has run over `keys`. */
  function Partitioned<Row, K(==), R>(rows: seq<Row>, key: Row -> K, action: Row -> R, keys: seq<K>): (output: seq<R>)
  {
    if keys == [] then []
    else
      var init, last := keys[..|keys| - 1], keys[|keys| - 1];
      Partitioned(rows, key, action, init) + ApplyRows(Select(rows, key, last), action)
  }

  /** What the partitioned `progress_apply` returns: the results for the rows
      of each distinct key, the keys in first-occurrence order. */
  function ApplyPartitioned<Row, K(==), R>(rows: seq<Row>, key: Row -> K, action: Row -> R): (output: seq<R>)
    ensures multiset(output) == multiset(ApplyRows(rows, action))
    ensures |output| == |rows|
  {
    var keys := DropDuplicates(ApplyRows(rows, key));
    DistinctKeysCover(rows, key);
    PartitionedPermutes(rows, key, action, keys);
    assert |multiset(Partitioned(rows, key, action, keys))| == |multiset(ApplyRows(rows, action))|;
    Partitioned(rows, key, action, keys)
  }

  /** Every row's key is among the distinct keys of the column. */
  lemma DistinctKeysCover<Row, K>(rows: seq<Row>, key: Row -> K)
    ensures forall i :: 0 <= i < |rows| ==> key(rows[i]) in DropDuplicates(ApplyRows(rows, key))
  {
    forall i | 0 <= i < |rows| ensures key(rows[i]) in DropDuplicates(ApplyRows(rows, key)) {
      assert ApplyRows(rows, key)[i] == key(rows[i]);
    }
  }

  /** Adding one row to the table adds its result exactly once when its key
      is among the (distinct) keys, and not at all otherwise. */
  lemma {:induction false} PartitionedSnoc<Row, K, R>(rows: seq<Row>, r: Row, key: Row -> K, action: Row -> R, keys: seq<K>)
    requires NoDuplicates(keys)
    ensures multiset(Partitioned(rows + [r], key, action, keys))
         == multiset(Partitioned(rows, key, action, keys))
            + (if key(r) in keys then multiset{action(r)} else multiset{})
  {
    if keys != [] {
      var init, last := keys[..|keys| - 1], keys[|keys| - 1];
      NoDuplicatesSplit(keys);
      PartitionedSnoc(rows, r, key, action, init);
      var before := ApplyRows(Select(rows, key, last), action);
      var extra: seq<R> := if key(r) == last then [action(r)] else [];
      assert ApplyRows(Select(rows + [r], key, last), action) == before + extra by {
        SelectSnoc(rows, r, key, last);
        ApplyRowsConcat(Select(rows, key, last), if key(r) == last then [r] else [], action);
      }
      var grown := Partitioned(rows + [r], key, action, init);
      var kept := Partitioned(rows, key, action, init);
      assert Partitioned(rows + [r], key, action, keys) == grown + (before + extra);
      assert Partitioned(rows, key, action, keys) == kept + before;
      assert multiset(extra) == if key(r) == last then multiset{action(r)} else multiset{};
    }
  }

  /** Dropping the last of distinct keys leaves distinct keys none of which
      is the dropped one, and a key is among all of them exactly when it is
      among the rest or is the last. */
  lemma NoDuplicatesSplit<K>(keys: seq<K>)
    requires keys != [] && NoDuplicates(keys)
    ensures NoDuplicates(keys[..|keys| - 1])
    ensures keys[|keys| - 1] !in keys[..|keys| - 1]
    ensures forall k :: k in keys <==> k in keys[..|keys| - 1] || k == keys[|keys| - 1]
  {
    assert keys == keys[..|keys| - 1] + [keys[|keys| - 1]];
  }

  lemma SelectSnoc<Row, K>(rows: seq<Row>, r: Row, key: Row -> K, k: K)
    ensures Select(rows + [r], key, k) == Select(rows, key, k) + (if key(r) == k then [r] else [])
  {
    assert (rows + [r])[..|rows|] == rows;
  }

  /** Splitting by distinct keys that cover every row loses no result and
      duplicates none: the outcome is a permutation of the row-wise results. */
  lemma {:induction false} PartitionedPermutes<Row, K, R>(rows: seq<Row>, key: Row -> K, action: Row -> R, keys: seq<K>)
    requires NoDuplicates(keys)
    requires forall i :: 0 <= i < |rows| ==> key(rows[i]) in keys
    ensures multiset(Partitioned(rows, key, action, keys)) == multiset(ApplyRows(rows, action))
  {
    if rows == [] {
      PartitionedEmpty(key, action, keys);
    } else {
      var init, last := rows[..|rows| - 1], rows[|rows| - 1];
      assert rows == init + [last];
      assert forall i :: 0 <= i < |init| ==> init[i] == rows[i];
      PartitionedPermutes(init, key, action, keys);
      PartitionedSnoc(init, last, key, action, keys);
      assert key(last) in keys;
      ApplyRowsConcat(init, [last], action);
      assert ApplyRows(rows, action) == ApplyRows(init, action) + [action(last)];
    }
  }

  lemma {:induction false} PartitionedEmpty<Row, K, R>(key: Row -> K, action: Row -> R, keys: seq<K>)
    ensures Partitioned([], key, action, keys) == []
  {
    if keys != [] {
      PartitionedEmpty(key, action, keys[..|keys| - 1]);
    }
  }

  /** The distinct values of a column holding one value throughout. */
  lemma {:induction false} DropDuplicatesConstant<K>(keys: seq<K>, k: K)
    requires keys != []
    requires forall i :: 0 <= i < |keys| ==> keys[i] == k
    ensures DropDuplicates(keys) == [k]
  {
    var init := keys[..|keys| - 1];
    if init != [] {
      DropDuplicatesConstant(init, k);
    }
  }

  /** When every row holds the same key, splitting changes nothing. */
  lemma ApplyPartitionedSingleKey<Row, K, R>(rows: seq<Row>, key: Row -> K, action: Row -> R)
    requires rows != []
    requires forall i :: 0 <= i < |rows| ==> key(rows[i]) == key(rows[0])
    ensures ApplyPartitioned(rows, key, action) == ApplyRows(rows, action)
  {
    var k := key(rows[0]);
    DropDuplicatesConstant(ApplyRows(rows, key), k);
    var keys := [k];
    assert keys[..0] == [];
    assert Partitioned(rows, key, action, keys) == ApplyRows(Select(rows, key, k), action);
    SelectAllOrNone(rows, key, k);
  }
}
