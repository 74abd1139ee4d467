/** The output a timer produces, as text appended to the process's streams. */
module Console {

  /** Standard output as the text written to it so far, and the labels the
      progress-bar library has been configured with, in order (what it draws
      on standard error is not part of this model). */
  class Terminal {
    var stdout: string
    var progressDescs: seq<string>

    constructor ()
      ensures stdout == [] && progressDescs == []
    {
      stdout := [];
      progressDescs := [];
    }

    /** `print(text, end=end)`: writes `text` followed by `end`. */
    method Print(text: string, end: string := "\n")
      modifies this`stdout
      ensures stdout == old(stdout) + text + end
    {
      stdout := stdout + text + end;
    }

    /** `tqdm.pandas(desc=desc)`: the label of the next progress bar. */
    method ConfigureProgress(desc: string)
      modifies this`progressDescs
      ensures progressDescs == old(progressDescs) + [desc]
    {
      progressDescs := progressDescs + [desc];
    }
  }
}
