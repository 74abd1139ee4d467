/** `CTimer` (cleantimer/cleantimer.py:7-112): a scoped timer that writes its
    message when entered, a completion line when left without an exception,
    makes indented child timers, and applies an action to the rows of a
    table, optionally one key of a column at a time. */
module CleanTimer {
  import opened Text
  import opened Labels
  import opened Frames
  import opened Console

  datatype Option<T> = None | Some(value: T)

  /** The fixed indent in front of every progress-bar label. */
  const PROGRESS_INDENT: string := "    "

  /** The line `__exit__` writes: `elapsed` stands for the text of the
      elapsed seconds, already rounded to the timer's precision. */
  function DoneLine(elapsed: string): (line: string)
    ensures |line| > 0 && line[|line| - 1] == NEWLINE
    ensures NEWLINE !in elapsed ==> Count(line, NEWLINE) == 1
    ensures TAB !in elapsed ==> TAB !in line
  {
    var opening, closing := "done. (", "s)\n";
    assert NEWLINE !in opening && TAB !in opening && TAB !in closing;
    assert Count(closing, NEWLINE) == 1 by {
      assert closing == "s)" + [NEWLINE];
      CountConcat("s)", [NEWLINE], NEWLINE);
      assert [NEWLINE][..0] == [];
    }
    CountConcat(opening, elapsed, NEWLINE);
    CountConcat(opening + elapsed, closing, NEWLINE);
    opening + elapsed + closing
  }

  /** `not split_col`: no column, or the empty column name. */
  predicate Falsy(splitCol: Option<string>)
  {
    splitCol.None? || splitCol.value == ""
  }

  /** The value of column `col` in each row, `cell` standing for the table's
      cell lookup. */
  function KeyColumn<Row, K>(cell: (Row, string) -> K, col: string): (key: Row -> K)
  {
    r => cell(r, col)
  }

  /** The progress labels of a partitioned run: one per key, in key order,
      each the fixed indent followed by `message` formatted with the key. */
  function ProgressDescs<K>(message: string, keys: seq<K>, format: (string, K) -> string): (descs: seq<string>)
    ensures |descs| == |keys|
    ensures forall i :: 0 <= i < |keys| ==> descs[i] == PROGRESS_INDENT + format(message, keys[i])
  {
    if keys == [] then []
    else ProgressDescs(message, keys[..|keys| - 1], format) + [PROGRESS_INDENT + format(message, keys[|keys| - 1])]
  }

  class CTimer {
    var message: string
    var precision: int
    var lastCheck: int

    /** `CTimer(message, *args, precision=1)`: `forwarded` stands for the
        positional arguments handed on to the timing base class, which this
        model leaves out; `precision` is set only by name. */
    constructor (message: string, forwarded: seq<int> := [], precision: int := 1)
      ensures this.message == message && this.precision == precision
      ensures lastCheck == 0
    {
      this.message := message;
      this.precision := precision;
      lastCheck := 0;
    }

    /** `__enter__`: resets the checkpoint, writes the message and three dots
        without a newline, and returns the timer itself. */
    method Enter(out: Terminal) returns (self: CTimer)
      modifies this`lastCheck, out`stdout
      ensures self == this
      ensures lastCheck == 0
      ensures out.stdout == old(out.stdout) + message + "..."
    {
      lastCheck := 0;
      out.Print(message + "...", "");
      self := this;
    }

    /** `__exit__`: writes the completion line exactly when no exception is
        passed in, and never suppresses the exception (it returns nothing,
        which Python reads as "do not suppress"). */
    method Exit(out: Terminal, exception: Option<string>, elapsed: string) returns (suppress: bool)
      modifies out`stdout
      ensures exception.None? ==> out.stdout == old(out.stdout) + DoneLine(elapsed)
      ensures exception.Some? ==> out.stdout == old(out.stdout)
      ensures !suppress
    {
      if exception.None? {
        out.Print("done. (" + elapsed + "s)");
      }
      suppress := false;
    }

    /** `child`: a new timer whose message is derived from this one's. The
        parent's precision is passed positionally, so it goes to the base
        class and the child keeps the default precision 1. The parent is not
        changed. */
    method Child(message: string) returns (child: CTimer)
      ensures fresh(child)
      ensures child.message == ChildMessage(this.message, message)
      ensures child.precision == 1 && child.lastCheck == 0
    {
      child := new CTimer(ChildMessage(this.message, message), [precision]);
    }

    /** `__progress_apply_single`: one newline on standard output, one
        progress label, and the row-wise results. */
    method ProgressApplySingle<Row, R>(out: Terminal, rows: seq<Row>, action: Row -> R, message: string)
      returns (result: seq<R>)
      modifies out
      ensures result == ApplyRows(rows, action)
      ensures out.stdout == old(out.stdout) + [NEWLINE]
      ensures out.progressDescs == old(out.progressDescs) + [PROGRESS_INDENT + message]
    {
      out.Print("");
      out.ConfigureProgress(PROGRESS_INDENT + message);
      result := ApplyRows(rows, action);
    }

    /** `progress_apply`: without a split column, one pass over the whole
        table with `message` as it is; with one, a pass per distinct key in
        first-occurrence order over the rows holding that key, the message
        formatted with the key, the results concatenated in key order. */
    method ProgressApply<Row, K(==), R>(out: Terminal, rows: seq<Row>, action: Row -> R, message: string,
                                        splitCol: Option<string>, cell: (Row, string) -> K,
                                        format: (string, K) -> string)
      returns (output: seq<R>)
      modifies out
      ensures Falsy(splitCol) ==>
        && output == ApplyRows(rows, action)
        && out.stdout == old(out.stdout) + [NEWLINE]
        && out.progressDescs == old(out.progressDescs) + [PROGRESS_INDENT + message]
      ensures !Falsy(splitCol) ==>
        var key := KeyColumn(cell, splitCol.value);
        var keys := DropDuplicates(ApplyRows(rows, key));
        && output == ApplyPartitioned(rows, key, action)
        && out.stdout == old(out.stdout) + Repeat(NEWLINE, |keys|)
        && out.progressDescs == old(out.progressDescs) + ProgressDescs(message, keys, format)
    {
      if Falsy(splitCol) {
        output := ProgressApplySingle(out, rows, action, message);
        return;
      }
      var key := KeyColumn(cell, splitCol.value);
      var keys := DropDuplicates(ApplyRows(rows, key));
      output := [];
      for i := 0 to |keys|
        invariant output == Partitioned(rows, key, action, keys[..i])
        invariant out.stdout == old(out.stdout) + Repeat(NEWLINE, i)
        invariant out.progressDescs == old(out.progressDescs) + ProgressDescs(message, keys[..i], format)
      {
        var k := keys[i];
        var subset := Select(rows, key, k);
        var subsetResults := ProgressApplySingle(out, subset, action, format(message, k));
        output := output + subsetResults;
        assert keys[..i + 1][..i] == keys[..i];
      }
      // `reset_index(drop=True)`: the positions of a sequence already run 0..|output|-1.
      assert keys[..|keys|] == keys;
    }
  }
}
