/** Command execution helpers: log formatting, output tails, and the rule
    that turns a non-zero exit status into a raised error. The process itself
    is not modelled: a finished command is given as its `Completed` record. */
module Shell {
  import opened Base
  import opened Text

  /** What `subprocess.run(..., capture_output=True, text=True)` returns. */
  datatype Completed = Completed(returncode: int, stdout: string, stderr: string)

  /** A command as the callers pass it: a shell string or an argument list. */
  datatype Command = Line(text: string) | Argv(parts: seq<string>)

  /** Default number of lines kept by `TailLines`. */
  const DefaultTail: int := 40

  /** Start index of the Python slice `lines[-count:]` over `n` lines. */
  function NegSliceStart(n: nat, count: int): (start: nat)
    ensures start <= n
    ensures count >= 1 && count <= n ==> start == n - count
    ensures count >= n ==> start == 0
    ensures count == 0 ==> start == 0
  {
    if count > 0 then (if count >= n then 0 else n - count)
    else if count == 0 then 0
    else (if -count >= n then n else -count)
  }

  /** `tail_lines(text, count)`: the last `count` lines of `text`, joined by
      "\n". A missing or empty text gives "". */
  function TailLines(text: Option<string>, count: int): (r: string)
    ensures (text.None? || text.value == "") ==> r == ""
    ensures text.Some? && text.value != "" ==>
              var lines := SplitLines(text.value);
              var kept := lines[NegSliceStart(|lines|, count)..];
              (|kept| == 0 ==> r == "") && (|kept| > 0 ==> SplitOn(r, '\n') == kept)
  {
    if text.None? || text.value == "" then ""
    else
      var lines := SplitLines(text.value);
      var kept := lines[NegSliceStart(|lines|, count)..];
      if |kept| > 0 then SplitJoin(kept, '\n'); Join("\n", kept) else Join("\n", kept)
  }

  /** For a positive count, the tail has `min(count, n)` lines, all of them
      the input's last lines. */
  lemma TailLinesCount(text: string, count: int)
    requires text != "" && count >= 1
    ensures var lines := SplitLines(text);
            var k := if count < |lines| then count else |lines|;
            k > 0 ==> SplitOn(TailLines(Some(text), count), '\n') == lines[|lines| - k..]
  {
    var lines := SplitLines(text);
    var k := if count < |lines| then count else |lines|;
    assert NegSliceStart(|lines|, count) == |lines| - k;
  }

  /** With no more lines than `count` and no trailing line break, the tail is
      the whole text; `count = 0` keeps every line, as the Python slice
      `lines[-0:]` does. */
  lemma {:induction false} TailKeepsShortText(text: string, count: int)
    requires text != "" && text[|text| - 1] != '\n'
    requires count == 0 || count >= |SplitLines(text)|
    ensures TailLines(Some(text), count) == text
  {
    var p := SplitOn(text, '\n');
    JoinSplit(text, '\n');
    if p[|p| - 1] == "" {
      assert p == p[..|p| - 1] + [p[|p| - 1]];
      JoinEmptyLast(p[..|p| - 1]);
      assert false;
    }
    assert SplitLines(text) == p;
  }

  /** A text ending in a line break never ends in an empty last piece. */
  lemma JoinEmptyLast(init: seq<string>)
    ensures var j := Join("\n", init + [""]); |j| == 0 || j[|j| - 1] == '\n'
    decreases |init|
  {
    if |init| >= 1 {
      assert (init + [""])[1..] == init[1..] + [""];
      JoinEmptyLast(init[1..]);
    }
  }

  /** `format_command(cmd)`: a string command is shown as given; a list is
      shown as its quoted parts separated by single spaces (`quote` stands
      for `shlex.quote`). */
  function FormatCommand(cmd: Command, quote: string -> string): (r: string)
    ensures cmd.Line? ==> r == cmd.text
    ensures cmd.Argv? && |cmd.parts| >= 1
            && (forall k :: 0 <= k < |cmd.parts| ==> Lacks(quote(cmd.parts[k]), ' '))
            ==> SplitOn(r, ' ') == seq(|cmd.parts|, k requires 0 <= k < |cmd.parts| => quote(cmd.parts[k]))
  {
    match cmd
    case Line(t) => t
    case Argv(parts) =>
      var quoted := seq(|parts|, k requires 0 <= k < |parts| => quote(parts[k]));
      if |parts| >= 1 && (forall k :: 0 <= k < |parts| ==> Lacks(quote(parts[k]), ' ')) then
        SplitJoin(quoted, ' ');
        Join(" ", quoted)
      else Join(" ", quoted)
  }

  /** The error text of a failed checked command. */
  function FailureMessage(display: string, result: Completed): string {
    "Command failed: " + display + "\n"
    + "exit=" + IntToString(result.returncode) + "\n"
    + "stdout tail:\n" + TailLines(Some(result.stdout), DefaultTail) + "\n"
    + "stderr tail:\n" + TailLines(Some(result.stderr), DefaultTail)
  }

  /** `Shell.run(cmd, check)`: raises exactly when `check` is set and the
      exit status is non-zero; otherwise hands back the result unchanged. */
  function Run(display: string, check: bool, result: Completed): (r: Result<Completed>)
    ensures r.Err? <==> check && result.returncode != 0
    ensures r.Ok? ==> r.value == result
    ensures r.Err? ==> StartsWith(r.msg, "Command failed: " + display + "\n")
  {
    if check && result.returncode != 0 then Err(FailureMessage(display, result)) else Ok(result)
  }

  /** `Shell.run_json(cmd)`: always a checked run, then a decode of stdout
      (`decode` stands for `json.loads`, `None` for a decode error). */
  function RunJson<J>(display: string, result: Completed, decode: string -> Option<J>): (r: Result<J>)
    ensures r.Ok? <==> result.returncode == 0 && decode(result.stdout).Some?
    ensures r.Ok? ==> r.value == decode(result.stdout).value
    ensures result.returncode != 0 ==> r == Err(FailureMessage(display, result))
  {
    var checked := Run(display, true, result);
    if checked.Err? then Err(checked.msg)
    else
      match decode(checked.value.stdout)
      case Some(v) => Ok(v)
      case None =>
        Err("Failed to parse JSON output.\nstdout tail:\n" + TailLines(Some(result.stdout), DefaultTail))
  }
}
