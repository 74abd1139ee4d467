# cleantimer in Dafny

A model of `CTimer`, the one class of the cleantimer package
(`cleantimer/cleantimer.py`). `CTimer` is a context-manager timer:

- when entered it writes its message and `...` to standard output;
- when left without an exception it writes `done. (<seconds>s)` and a newline;
- `child` makes a new timer whose message starts on a new line, one tab deeper
  than the parent's message;
- `progress_apply` applies a row action to a pandas table behind a tqdm
  progress bar. It does one pass over the whole table, or, when a split column
  is given, one pass per distinct value of that column.

The files:

- `text.dfy` (module `Text`): counting a character in a string (`str.count`)
  and repeating one (`"\t" * n`).
- `labels.dfy` (module `Labels`): how a child's message is derived, and what
  that means for the depth of nested timers.
- `frames.dfy` (module `Frames`): a table as the sequence of its rows. It holds
  row-wise application, the distinct keys in first-occurrence order, the rows
  of one key, and the concatenation of the per-key results. It also proves that
  splitting loses and duplicates no row.
- `console.dfy` (module `Console`): standard output as the text written so far,
  and the labels the progress bar was configured with.
- `cleantimer.dfy` (module `CleanTimer`): the class `CTimer` with the fields
  `message`, `precision` and `last_check`, and its operations.
- `scenarios.dfy` (module `Scenarios`): the repository's tests as client
  methods. Each one states the exact text left on standard output. There are
  also two computed examples of a split run.

Abstractions:

- The elapsed time is a parameter of `Exit`. It is the text of the seconds,
  already rounded.
- A table is a `seq` of rows. The split column's values come from a cell
  lookup function `(Row, string) -> K`. The row action is a function
  `Row -> R`. `message.format(key)` is an uninterpreted function
  `(string, K) -> string`.
- `print` and `tqdm.pandas(desc=...)` append to the fields of a `Terminal`
  object.

Points where the code's behaviour is easy to misread:

- A child timer does not inherit its parent's precision. `child` passes the
  precision positionally (cleantimer/cleantimer.py:56), while the constructor
  takes `precision` only by name (cleantimer/cleantimer.py:16). So the value
  goes into the positional arguments forwarded to the base class, and the
  child keeps the default precision 1. `CTimer.Child` states
  `child.precision == 1`.
- The code has no state guard: a timer can be entered or left any number of
  times (cleantimer/cleantimer.py:22-43). The model has no guard either.
- tests/test_cleantimer.py:65 expects the child's completion line in the
  nested test to read `\tdone. (0.0s)`. Nothing in the code indents a
  completion line. `Scenarios.ParentChildGrandchild` shows that the code
  writes `done. (…s)` at the start of that line.

## Model

| member | source | states |
|---|---|---|
| Labels.Depth | cleantimer/cleantimer.py:55 | a message's depth is its number of tabs: at most its length, and 0 exactly when it holds no tab |
| Labels.Nested | cleantimer/cleantimer.py:45-56 | the message after a chain of `child` calls: the root itself for no call, otherwise a text that starts with a newline and ends with the last call's own message |
| Text.Count | cleantimer/cleantimer.py:55 | the tab count used for the depth is at most the length, and it is 0 exactly when the message holds no tab |
| Text.Repeat | cleantimer/cleantimer.py:55 | `"\t" * n` has length n and every character is a tab |
| Text.CountConcat | cleantimer/cleantimer.py:55 | counting tabs in a concatenation adds the counts of its parts |
| Text.CountRepeat | cleantimer/cleantimer.py:55 | n repeated tabs hold exactly n tabs and no other character |
| Labels.ChildMessage | cleantimer/cleantimer.py:55-56 | the child's message is a newline, then (tabs in the parent's message + 1) tabs, then the child's own message, character by character |
| Labels.ChildDepth | cleantimer/cleantimer.py:55-56 | the child's tab count is the parent's count + 1 + the tabs in the child's own message |
| Labels.ChildAddsOneLevel | cleantimer/cleantimer.py:55-56 | for a tab-free message, each `child` call adds exactly one level of indentation |
| Labels.SiblingsShareIndent | cleantimer/cleantimer.py:45-56 | two children of the same parent have the same newline-and-tabs prefix, followed by their own messages |
| Labels.ChildOfTopLevel | cleantimer/cleantimer.py:55-56 | a child of a tab-free timer has the message `"\n\t" + message` |
| Labels.NestedDepth | cleantimer/cleantimer.py:45-56 | from a tab-free root through tab-free messages, depth equals the number of `child` calls, and the message is newline, that many tabs, own text |
| Labels.GrandchildMessage | cleantimer/cleantimer.py:55-56 | a grandchild of a tab-free timer, through a tab-free child, has the message `"\n\t\t" + message` |
| Labels.TabInMessageDeepensGrandchild | cleantimer/cleantimer.py:55 | below a tab-free root, a grandchild's depth is 2 plus the tabs in the child's own text plus the tabs in its own text, so every tab written into a child's text makes its children one level deeper than the number of `child` calls |
| Frames.ApplyRows | cleantimer/cleantimer.py:112 | row-wise application gives one result per row, in row order, each `action(row)` |
| Frames.ApplyRowsConcat | cleantimer/cleantimer.py:112 | applying to a concatenation concatenates the results |
| Frames.FirstIndex | cleantimer/cleantimer.py:85 | the first occurrence of a key is a position holding it, and no earlier position holds it |
| Frames.DropDuplicates | cleantimer/cleantimer.py:85 | the distinct keys have no duplicates, and they are exactly the keys of the column |
| Frames.DropDuplicatesKeepsFirstOrder | cleantimer/cleantimer.py:85 | the distinct keys are listed in the order of their first occurrences in the column |
| Frames.DropDuplicatesConstant | cleantimer/cleantimer.py:85 | a non-empty column holding one value has exactly that one distinct key |
| Frames.Select | cleantimer/cleantimer.py:86 | the subset is no longer than the table and every row in it holds the key |
| Frames.SelectComplete | cleantimer/cleantimer.py:86 | every row that holds the key is in the subset, the converse of `Select`'s contract |
| Frames.SelectSnoc | cleantimer/cleantimer.py:86 | one more row joins the subset of a key exactly when it holds that key, at the end |
| Frames.SelectConcat | cleantimer/cleantimer.py:86 | selecting from a concatenation concatenates the selections, so the subset keeps the rows' relative order |
| Frames.SelectAllOrNone | cleantimer/cleantimer.py:86 | a key every row holds selects the whole table; a key no row holds selects nothing |
| Frames.PartitionedSnoc | cleantimer/cleantimer.py:85-90 | one more row adds its result exactly once when its key is among the distinct keys, and not at all otherwise |
| Frames.PartitionedPermutes | cleantimer/cleantimer.py:84-92 | concatenating the per-key results over distinct keys that cover every row is a permutation of the row-wise results |
| Frames.PartitionedEmpty | cleantimer/cleantimer.py:84-90 | an empty table gives an empty output whatever the keys |
| Frames.Partitioned | cleantimer/cleantimer.py:84-92 | the split run's output: the results for the rows of each given key, concatenated in the order of the keys (a definition; its properties are the lemmas around it) |
| Frames.ApplyPartitioned | cleantimer/cleantimer.py:84-94 | the split run returns each row's result exactly once: as many results as rows, and the same multiset of results as the unsplit run |
| Frames.DistinctKeysCover | cleantimer/cleantimer.py:85 | every row's key is among the distinct keys the split run iterates over |
| Frames.NoDuplicatesSplit | cleantimer/cleantimer.py:85 | the last of the distinct keys occurs nowhere before it, and the keys before it are distinct too |
| Frames.ApplyPartitionedSingleKey | cleantimer/cleantimer.py:84-94 | when every row holds the same key, the split run returns the row-wise results in row order |
| Frames.FirstOrderStep | cleantimer/cleantimer.py:85 | appending a key to the column keeps the order of the known distinct keys and puts a new key after them |
| Frames.FirstIndexOfPrefix | cleantimer/cleantimer.py:85 | a key's first occurrence does not move when the column is extended |
| CleanTimer.DoneLine | cleantimer/cleantimer.py:43 | the completion line ends with a newline, holds exactly one newline when the elapsed text holds none, and holds no tab (it is never indented) when the elapsed text holds none |
| CleanTimer.Falsy | cleantimer/cleantimer.py:81 | `not split_col` holds for no column and for the empty column name |
| CleanTimer.KeyColumn | cleantimer/cleantimer.py:85-86 | the key of a row is its cell in the split column |
| CleanTimer.ProgressDescs | cleantimer/cleantimer.py:88 | one progress label per key, in key order, each four spaces plus the message formatted with that key |
| Console.Terminal.Print | cleantimer/cleantimer.py:31 | `print(text, end=end)` appends text then end to standard output and nothing else |
| Console.Terminal.ConfigureProgress | cleantimer/cleantimer.py:111 | `tqdm.pandas(desc=...)` records the label of the next progress bar |
| CleanTimer.CTimer.constructor | cleantimer/cleantimer.py:16-20 | stores the message and the precision given by name (default 1), sets `last_check` to 0, writes nothing |
| CleanTimer.CTimer.Enter | cleantimer/cleantimer.py:22-32 | sets `last_check` to 0, appends exactly `message + "..."` (no newline) to standard output, returns the same object, changes nothing else |
| CleanTimer.CTimer.Exit | cleantimer/cleantimer.py:34-43 | appends `done. (<elapsed>s)` and a newline if and only if no exception is passed; appends nothing otherwise; never suppresses the exception |
| CleanTimer.CTimer.Child | cleantimer/cleantimer.py:45-56 | returns a new timer whose message is `ChildMessage(parent, message)` and whose precision is 1; the parent is not modified |
| CleanTimer.CTimer.ProgressApplySingle | cleantimer/cleantimer.py:96-112 | writes exactly one newline, sets the progress label to four spaces plus the message, and returns the row-wise results |
| CleanTimer.CTimer.ProgressApply | cleantimer/cleantimer.py:58-94 | with a falsy split column it does one pass with the message unchanged; otherwise one pass per distinct key in first-occurrence order, one newline and one formatted label per key, and the result is the per-key results concatenated in key order |
| Scenarios.EmptyBody | tests/test_cleantimer.py:14-25 | a timer around an empty body writes `message...done. (<elapsed>s)\n` |
| Scenarios.RaisingBody | tests/test_cleantimer.py:70-75 | a raising body leaves only `Test Timer...` on standard output, and the exception is not suppressed |
| Scenarios.ParentAndChild | tests/test_cleantimer.py:28-34 | parent and one child write `Parent...\n\tChild...done. (…s)\ndone. (…s)\n` |
| Scenarios.ChildBlock | tests/test_cleantimer.py:30-31 | a `with parent.child(m): pass` block writes the derived child message, three dots and one completion line |
| Scenarios.ParentAndTwoChildren | tests/test_cleantimer.py:37-50 | two siblings both start one tab in; the indentation does not accumulate across siblings |
| Scenarios.ParentChildGrandchild | tests/test_cleantimer.py:53-67 | the grandchild starts two tabs in; the outer completion lines start at the beginning of their lines |
| Scenarios.ChildWithGrandchild | tests/test_cleantimer.py:55-57 | a child block around a grandchild block writes the child's start text, the grandchild's whole block, then the child's completion line |
| Scenarios.TimedProgressApply | tests/test_cleantimer.py:167-176 | a timer around `progress_apply` writes its start text, one newline per pass (1 unsplit, k for k distinct keys), then the completion line |
| Scenarios.SplitByColumnExample | tests/test_cleantimer.py:128-135 | A = [1, 2, 3, 4], B = [4, 4, 5, 5], action A + B, split by B gives [5, 6, 8, 9] |
| Scenarios.SplitReordersRows | cleantimer/cleantimer.py:85-92 | with keys 1, 2, 1 the split run puts the third row's result before the second's |

## Left out

- The timing base class `contexttimer.Timer` is not part of this model. That
  covers how elapsed time is measured and what the forwarded positional
  arguments (`forwarded` in the constructor) do to it. Elapsed time reaches
  `Exit` as an opaque text.
- CleanTimer.CTimer.Exit: `round(self.elapsed, self.precision)` and how Python
  prints the float are not modelled. This is floating-point rounding, and the
  precision-0 case is not pinned down by the tests. `precision` is stored, but
  nothing in the model reads it.
- Exit's further arguments (exception value and traceback) are ignored by the
  source and are not modelled. The `exception` argument is `None` or an
  exception type, and an exception type is always truthy.
- pandas itself is not modelled: row index labels, Series versus DataFrame
  results, and `concat`/`reset_index`. A sequence is always indexed
  0..n-1. That matches the split path's `reset_index(drop=True)`. The unsplit
  path in the source keeps the table's own index labels, which the model
  does not represent.
- Failures raised by pandas or tqdm are not modelled:
  - a split column that does not exist (KeyError);
  - the failure for a table with no columns (tests/test_cleantimer.py:113-118);
  - keys that are NaN, which `==` filtering drops.
  The model's action and cell lookup are total, and an empty table gives an
  empty result.
- `message.format(key)` is an uninterpreted function. Python's format
  language and its errors, such as unmatched braces, are not modelled.
- An action that raises is not modelled. The model's row action is total.
- What tqdm draws on standard error, and `flush=True`, are not modelled. Only
  the configured label is recorded.
