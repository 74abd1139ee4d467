/** Uses of `CTimer` as the repository's tests write them
    (tests/test_cleantimer.py), with the exact text each one leaves on
    standard output. `with CTimer(m) as t: body` is `Enter`, the body, then
    `Exit` with the exception the body raised, if any. */
module Scenarios {
  import opened Text
  import opened Labels
  import opened Frames
  import opened Console
  import opened CleanTimer

  /** A timer around an empty body writes its message, three dots and the
      completion line. */
  method EmptyBody(out: Terminal, message: string, elapsed: string)
    modifies out
    ensures out.stdout == old(out.stdout) + message + "..." + DoneLine(elapsed)
  {
    var timer := new CTimer(message);
    var t := timer.Enter(out);
    var _ := t.Exit(out, None, elapsed);
  }

  /** A body that raises: only the start text is written and the exception
      is not suppressed. */
  method RaisingBody(out: Terminal, exception: string) returns (suppressed: bool)
    modifies out
    ensures out.stdout == old(out.stdout) + "Test Timer..."
    ensures !suppressed
  {
    var timer := new CTimer("Test Timer");
    var t := timer.Enter(out);
    suppressed := t.Exit(out, Some(exception), "0.0");
  }

  /** A parent around one child: the child starts on a new line one tab in. */
  method ParentAndChild(out: Terminal, parentElapsed: string, childElapsed: string)
    modifies out
    ensures out.stdout == old(out.stdout) + "Parent" + "..." + "\n\tChild" + "..."
                          + DoneLine(childElapsed) + DoneLine(parentElapsed)
  {
    var timer := new CTimer("Parent");
    var parent := timer.Enter(out);
    assert parent.message == "Parent";
    ChildOfTopLevel("Parent", "Child");
    assert ChildMessage(parent.message, "Child") == "\n\tChild";
    ChildBlock(parent, out, "Child", childElapsed);
    var _ := parent.Exit(out, None, parentElapsed);
  }

  /** `with parent.child(message): pass` inside a running parent: the
      child's message, three dots and the child's completion line. */
  method ChildBlock(parent: CTimer, out: Terminal, message: string, elapsed: string)
    modifies out
    ensures out.stdout == old(out.stdout) + ChildMessage(parent.message, message) + "..." + DoneLine(elapsed)
  {
    var c := parent.Child(message);
    var child := c.Enter(out);
    var _ := child.Exit(out, None, elapsed);
  }

  /** Two siblings get the same single tab of indentation. */
  method ParentAndTwoChildren(out: Terminal, e0: string, e1: string, e2: string)
    modifies out
    ensures out.stdout == old(out.stdout) + "Parent" + "..." + "\n\tChild1" + "..." + DoneLine(e1)
                          + "\n\tChild2" + "..." + DoneLine(e2) + DoneLine(e0)
  {
    var timer := new CTimer("Parent");
    var parent := timer.Enter(out);
    assert parent.message == "Parent";
    ChildOfTopLevel("Parent", "Child1");
    assert ChildMessage(parent.message, "Child1") == "\n\tChild1";
    ChildBlock(parent, out, "Child1", e1);
    ChildOfTopLevel("Parent", "Child2");
    assert ChildMessage(parent.message, "Child2") == "\n\tChild2";
    ChildBlock(parent, out, "Child2", e2);
    var _ := parent.Exit(out, None, e0);
  }

  /** `with parent.child(message) as child: with child.child(inner): pass`:
      the child's start text, the grandchild's block, then the child's
      completion line. */
  method ChildWithGrandchild(parent: CTimer, out: Terminal, message: string, inner: string,
                             childElapsed: string, innerElapsed: string)
    modifies out
    ensures out.stdout == old(out.stdout) + ChildMessage(parent.message, message) + "..."
                          + ChildMessage(ChildMessage(parent.message, message), inner) + "..."
                          + DoneLine(innerElapsed) + DoneLine(childElapsed)
  {
    var c := parent.Child(message);
    var child := c.Enter(out);
    ChildBlock(child, out, inner, innerElapsed);
    var _ := child.Exit(out, None, childElapsed);
  }

  /** A grandchild starts two tabs in; the completion lines of the outer
      timers start at the beginning of their lines. */
  method ParentChildGrandchild(out: Terminal, e0: string, e1: string, e2: string)
    modifies out
    ensures out.stdout == old(out.stdout) + "Parent" + "..." + "\n\tChild" + "..." + "\n\t\tGrandchild" + "..."
                          + DoneLine(e2) + DoneLine(e1) + DoneLine(e0)
  {
    var timer := new CTimer("Parent");
    var parent := timer.Enter(out);
    assert parent.message == "Parent";
    ChildOfTopLevel("Parent", "Child");
    assert ChildMessage(parent.message, "Child") == "\n\tChild";
    GrandchildMessage("Parent", "Child", "Grandchild");
    assert ChildMessage(ChildMessage(parent.message, "Child"), "Grandchild") == "\n\t\tGrandchild";
    ChildWithGrandchild(parent, out, "Child", "Grandchild", e1, e2);
    assert out.stdout == old(out.stdout) + "Parent" + "..." + "\n\tChild" + "..." + "\n\t\tGrandchild" + "..."
                          + DoneLine(e2) + DoneLine(e1);
    var _ := parent.Exit(out, None, e0);
  }

  /** A timer around one `progress_apply`: between the start text and the
      completion line stand one newline per pass, that is one without a
      split column and one per distinct key with one. */
  method TimedProgressApply<Row, K(==), R>(out: Terminal, message: string, elapsed: string,
                                           rows: seq<Row>, action: Row -> R, splitCol: Option<string>,
                                           cell: (Row, string) -> K, format: (string, K) -> string)
    returns (output: seq<R>)
    modifies out
    ensures var passes := if Falsy(splitCol) then 1
                          else |DropDuplicates(ApplyRows(rows, KeyColumn(cell, splitCol.value)))|;
      out.stdout == old(out.stdout) + message + "..." + Repeat(NEWLINE, passes) + DoneLine(elapsed)
  {
    var timer := new CTimer(message);
    var t := timer.Enter(out);
    output := t.ProgressApply(out, rows, action, "", splitCol, cell, format);
    var _ := t.Exit(out, None, elapsed);
  }

  /** The row type of the tests' tables: columns A and B. */
  type AB = (int, int)

  function ColumnB(r: AB): (b: int) { r.1 }

  /** The tests' row action, `row.A + row.B`. */
  function SumAB(r: AB): (sum: int) { r.0 + r.1 }

  function ColumnA(r: AB): (a: int) { r.0 }

  /** The tests' table: A = [1, 2, 3, 4], B = [4, 4, 5, 5]. */
  const SPLIT_ROWS: seq<AB> := [(1, 4), (2, 4), (3, 5), (4, 5)]

  lemma SplitRowsKeys()
    ensures DropDuplicates(ApplyRows(SPLIT_ROWS, ColumnB)) == [4, 5]
  {
    assert ApplyRows(SPLIT_ROWS, ColumnB) == [4, 4, 5, 5];
    DistinctOfFourFourFiveFive();
  }

  lemma DistinctOfFourFourFiveFive()
    ensures DropDuplicates([4, 4, 5, 5]) == [4, 5]
  {
    assert DropDuplicates([4]) == [4] by { assert [4][..0] == []; }
    assert DropDuplicates([4, 4]) == [4] by { assert [4, 4][..1] == [4]; }
    assert DropDuplicates([4, 4, 5]) == [4, 5] by { assert [4, 4, 5][..2] == [4, 4]; }
    assert [4, 4, 5, 5][..3] == [4, 4, 5];
  }

  lemma SplitRowsSubsets(k: int)
    ensures Select(SPLIT_ROWS, ColumnB, k) == if k == 4 then SPLIT_ROWS[..2] else if k == 5 then SPLIT_ROWS[2..] else []
  {
    var r1: AB, r2: AB, r3: AB, r4: AB := (1, 4), (2, 4), (3, 5), (4, 5);
    assert Select([r1], ColumnB, k) == if k == 4 then [r1] else [] by { assert [r1][..0] == []; }
    assert Select([r1, r2], ColumnB, k) == if k == 4 then [r1, r2] else [] by { assert [r1, r2][..1] == [r1]; }
    assert Select([r1, r2, r3], ColumnB, k) == if k == 4 then [r1, r2] else if k == 5 then [r3] else [] by {
      assert [r1, r2, r3][..2] == [r1, r2];
    }
    assert SPLIT_ROWS[..3] == [r1, r2, r3];
  }

  /** The split example of the tests: action A + B, split by B, gives
      5, 6, 8, 9. */
  lemma SplitByColumnExample()
    ensures ApplyPartitioned(SPLIT_ROWS, ColumnB, SumAB) == [5, 6, 8, 9]
  {
    SplitRowsKeys();
    assert Partitioned(SPLIT_ROWS, ColumnB, SumAB, [4]) == [5, 6] by {
      SplitRowsSubsets(4);
      assert [4][..0] == [];
    }
    assert Partitioned(SPLIT_ROWS, ColumnB, SumAB, [4, 5]) == [5, 6, 8, 9] by {
      SplitRowsSubsets(5);
      assert [4, 5][..1] == [4];
    }
  }

  /** A table whose key column B reads 1, 2, 1. */
  const INTERLEAVED_ROWS: seq<AB> := [(10, 1), (20, 2), (30, 1)]

  lemma InterleavedRowsKeys()
    ensures DropDuplicates(ApplyRows(INTERLEAVED_ROWS, ColumnB)) == [1, 2]
  {
    assert ApplyRows(INTERLEAVED_ROWS, ColumnB) == [1, 2, 1];
    DistinctOfOneTwoOne();
  }

  lemma DistinctOfOneTwoOne()
    ensures DropDuplicates([1, 2, 1]) == [1, 2]
  {
    assert DropDuplicates([1]) == [1] by { assert [1][..0] == []; }
    assert DropDuplicates([1, 2]) == [1, 2] by { assert [1, 2][..1] == [1]; }
    assert [1, 2, 1][..2] == [1, 2];
  }

  lemma InterleavedRowsSubsets(k: int)
    ensures Select(INTERLEAVED_ROWS, ColumnB, k)
         == if k == 1 then [INTERLEAVED_ROWS[0], INTERLEAVED_ROWS[2]] else if k == 2 then [INTERLEAVED_ROWS[1]] else []
  {
  }

  /** Splitting groups rows by key: the third row's result comes before the
      second's. */
  lemma SplitReordersRows()
    ensures ApplyPartitioned(INTERLEAVED_ROWS, ColumnB, ColumnA) == [10, 30, 20]
  {
    InterleavedRowsKeys();
    InterleavedRowsSubsets(1);
    InterleavedRowsSubsets(2);
    assert [1, 2][..1] == [1];
    assert [1][..0] == [];
  }
}
