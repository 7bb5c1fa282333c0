/** The functional bringup task apart from its agent: the eval command
    lines, the check that folds the step results into one verdict, the
    agent's CHECK= line, the commit made when the task ends, and the order
    of the set-up guards. Commands are not run: each step's finished
    `Completed` record (or the reply of a checked command) is an input. */
module Bringup {
  import opened Base
  import opened Text
  import opened Shell
  import opened Metrics

  /** The task's settings, bound by parameter name. */
  datatype Config = Config(branch: string, hfModelId: string, system: string,
                           top1Min: real, top5Min: real, owner: string, repo: string,
                           prefillLen: Option<int>, decodeLen: Option<int>, batch: Option<int>)

  // ---------------------------------------------------------------------------
  // Eval commands

  /** `[flag, str(v)]` when `v` is set, nothing otherwise. */
  function FlagPair(flag: string, v: Option<int>): seq<string> {
    if v.None? then [] else [flag, IntToString(v.value)]
  }

  function EvalBase(cfg: Config, mode: string): seq<string> {
    ["python", "scripts/run_eval.py", "--mode", mode, "--hf-model", cfg.hfModelId, "--system", cfg.system]
  }

  /** Where an option flag belongs on the eval command line; 4 for any word
      that is not one of the four option flags. */
  function FlagRank(flag: string): nat {
    if flag == "--prefill-len" then 0
    else if flag == "--decode-len" then 1
    else if flag == "--batch" then 2
    else if flag == "--trace" then 3
    else 4
  }

  /** Every flag of the `flag value` pairs in `opts` ranks below `n`. */
  predicate RanksBelow(opts: seq<string>, n: nat) {
    forall i :: 0 <= i < |opts| && i % 2 == 0 ==> FlagRank(opts[i]) < n
  }

  /** `opts` is a run of `flag value` pairs whose flags are option flags,
      each at most once and in strictly increasing rank. */
  predicate RankedPairs(opts: seq<string>) {
    && |opts| % 2 == 0
    && RanksBelow(opts, 4)
    && forall i, j :: 0 <= i < j < |opts| && i % 2 == 0 && j % 2 == 0 ==> FlagRank(opts[i]) < FlagRank(opts[j])
  }

  /** Appending the pair of a flag that ranks above every flag so far keeps
      the pairs ranked. */
  lemma RankedPairsExtend(opts: seq<string>, flag: string, v: Option<int>)
    requires RankedPairs(opts) && RanksBelow(opts, FlagRank(flag)) && FlagRank(flag) < 4
    ensures RankedPairs(opts + FlagPair(flag, v))
    ensures RanksBelow(opts + FlagPair(flag, v), FlagRank(flag) + 1)
  {
  }

  /** The four optional pairs, in the source's order, are ranked. */
  lemma OptionalPairsRanked(pv: Option<int>, dv: Option<int>, bv: Option<int>, tv: Option<int>)
    ensures RankedPairs(FlagPair("--prefill-len", pv) + FlagPair("--decode-len", dv)
                        + FlagPair("--batch", bv) + FlagPair("--trace", tv))
  {
    var p, d, b, t := "--prefill-len", "--decode-len", "--batch", "--trace";
    assert [] + FlagPair(p, pv) == FlagPair(p, pv);
    assert FlagRank(p) == 0 && FlagRank(d) == 1 && FlagRank(b) == 2 && FlagRank(t) == 3;
    RankedPairsExtend([], p, pv);
    RankedPairsExtend(FlagPair(p, pv), d, dv);
    RankedPairsExtend(FlagPair(p, pv) + FlagPair(d, dv), b, bv);
    RankedPairsExtend(FlagPair(p, pv) + FlagPair(d, dv) + FlagPair(b, bv), t, tv);
  }

  /** `_eval_command(mode, trace)`: eight fixed words, then the optional
      pairs in the order prefill, decode, batch, trace. */
  function EvalCommand(cfg: Config, mode: string, trace: Option<int>): (r: seq<string>)
    ensures |r| >= 8 && r[..8] == EvalBase(cfg, mode)
    ensures |r| == 8 + |FlagPair("--prefill-len", cfg.prefillLen)| + |FlagPair("--decode-len", cfg.decodeLen)|
                    + |FlagPair("--batch", cfg.batch)| + |FlagPair("--trace", trace)|
    ensures RankedPairs(r[8..])
  {
    var opts := FlagPair("--prefill-len", cfg.prefillLen) + FlagPair("--decode-len", cfg.decodeLen)
                + FlagPair("--batch", cfg.batch) + FlagPair("--trace", trace);
    OptionalPairsRanked(cfg.prefillLen, cfg.decodeLen, cfg.batch, trace);
    var r := EvalBase(cfg, mode) + FlagPair("--prefill-len", cfg.prefillLen) + FlagPair("--decode-len", cfg.decodeLen)
             + FlagPair("--batch", cfg.batch) + FlagPair("--trace", trace);
    assert r[8..] == opts;
    r
  }

  /** Reads an option back from `flag value` pairs: the value of the first
      pair with that flag, as `run_eval.py`'s argument parser would see it. */
  function FlagValue(opts: seq<string>, flag: string): Option<int>
    decreases |opts|
  {
    if |opts| < 2 then None
    else if opts[0] == flag then ParseInt(opts[1])
    else FlagValue(opts[2..], flag)
  }

  lemma FlagValueSkip(flag: string, v: Option<int>, rest: seq<string>, want: string)
    ensures FlagValue(FlagPair(flag, v) + rest, want)
            == if v.Some? && flag == want then v else FlagValue(rest, want)
  {
    if v.Some? {
      assert (FlagPair(flag, v) + rest)[2..] == rest;
      ParseIntToString(v.value);
    } else {
      assert FlagPair(flag, v) + rest == rest;
    }
  }

  lemma FlagValueOf(p: string, pv: Option<int>, d: string, dv: Option<int>, b: string, bv: Option<int>,
                    t: string, tv: Option<int>, want: string)
    requires want == p || want == d || want == b || want == t
    requires p != d && p != b && p != t && d != b && d != t && b != t
    ensures var opts := FlagPair(p, pv) + FlagPair(d, dv) + FlagPair(b, bv) + FlagPair(t, tv);
            FlagValue(opts, want) == if want == p then pv else if want == d then dv else if want == b then bv else tv
  {
    var o4 := FlagPair(t, tv);
    var o3 := FlagPair(b, bv) + o4;
    var o2 := FlagPair(d, dv) + o3;
    ConcatAssoc(FlagPair(p, pv), FlagPair(d, dv), FlagPair(b, bv));
    ConcatAssoc(FlagPair(p, pv) + FlagPair(d, dv), FlagPair(b, bv), o4);
    ConcatAssoc(FlagPair(p, pv), FlagPair(d, dv), o3);
    assert o4 + [] == o4;
    FlagValueSkip(p, pv, o2, want);
    FlagValueSkip(d, dv, o3, want);
    FlagValueSkip(b, bv, o4, want);
    FlagValueSkip(t, tv, [], want);
  }

  /** Round trip: every optional setting can be read back from the command
      line, and an unset one is absent from it. */
  lemma EvalCommandRoundTrip(cfg: Config, mode: string, trace: Option<int>)
    ensures var opts := EvalCommand(cfg, mode, trace)[8..];
            FlagValue(opts, "--prefill-len") == cfg.prefillLen
            && FlagValue(opts, "--decode-len") == cfg.decodeLen
            && FlagValue(opts, "--batch") == cfg.batch
            && FlagValue(opts, "--trace") == trace
  {
    var p, d, b, t := "--prefill-len", "--decode-len", "--batch", "--trace";
    var opts := FlagPair(p, cfg.prefillLen) + FlagPair(d, cfg.decodeLen) + FlagPair(b, cfg.batch) + FlagPair(t, trace);
    assert EvalCommand(cfg, mode, trace)[8..] == opts;
    assert p[2] == 'p' && d[2] == 'd' && b[2] == 'b' && t[2] == 't';
    FlagValueOf(p, cfg.prefillLen, d, cfg.decodeLen, b, cfg.batch, t, trace, p);
    FlagValueOf(p, cfg.prefillLen, d, cfg.decodeLen, b, cfg.batch, t, trace, d);
    FlagValueOf(p, cfg.prefillLen, d, cfg.decodeLen, b, cfg.batch, t, trace, b);
    FlagValueOf(p, cfg.prefillLen, d, cfg.decodeLen, b, cfg.batch, t, trace, t);
  }

  /** `_format_cmd(cmd)`: a string as given, a list joined by single spaces. */
  function FormatCmd(cmd: Command): (r: string)
    ensures cmd.Line? ==> r == cmd.text
    ensures cmd.Argv? && |cmd.parts| >= 1 && (forall k :: 0 <= k < |cmd.parts| ==> Lacks(cmd.parts[k], ' '))
            ==> SplitOn(r, ' ') == cmd.parts
  {
    match cmd
    case Line(t) => t
    case Argv(parts) =>
      if |parts| >= 1 && forall k :: 0 <= k < |parts| ==> Lacks(parts[k], ' ') then
        SplitJoin(parts, ' ');
        Join(" ", parts)
      else Join(" ", parts)
  }

  /** `repro_commands()`: exactly three lines, the hf run and the tt runs
      without and with trace, in that order. */
  function ReproCommands(cfg: Config): (r: string)
    ensures SingleLine(cfg.hfModelId) && SingleLine(cfg.system) ==> SplitOn(r, '\n') == ReproLines(cfg)
  {
    ReproLinesSplit(cfg);
    Join("\n", ReproLines(cfg))
  }

  /** The three formatted eval commands. */
  function ReproLines(cfg: Config): seq<string> {
    [FormatCmd(Argv(EvalCommand(cfg, "hf", None))),
     FormatCmd(Argv(EvalCommand(cfg, "tt", Some(0)))),
     FormatCmd(Argv(EvalCommand(cfg, "tt", Some(1))))]
  }

  lemma FlagPairSingleLine(flag: string, v: Option<int>)
    requires SingleLine(flag)
    ensures forall k :: 0 <= k < |FlagPair(flag, v)| ==> SingleLine(FlagPair(flag, v)[k])
  {
  }

  /** No word of an eval command holds a line break when the model id and
      the system name hold none. */
  lemma EvalCommandSingleLine(cfg: Config, mode: string, trace: Option<int>)
    requires SingleLine(cfg.hfModelId) && SingleLine(cfg.system) && SingleLine(mode)
    ensures SingleLine(FormatCmd(Argv(EvalCommand(cfg, mode, trace))))
  {
    var r := EvalCommand(cfg, mode, trace);
    var base := EvalBase(cfg, mode);
    var p1, p2 := FlagPair("--prefill-len", cfg.prefillLen), FlagPair("--decode-len", cfg.decodeLen);
    var p3, p4 := FlagPair("--batch", cfg.batch), FlagPair("--trace", trace);
    FlagPairSingleLine("--prefill-len", cfg.prefillLen);
    FlagPairSingleLine("--decode-len", cfg.decodeLen);
    FlagPairSingleLine("--batch", cfg.batch);
    FlagPairSingleLine("--trace", trace);
    assert forall k :: 0 <= k < |base| ==> SingleLine(base[k]);
    forall k | 0 <= k < |r|
      ensures SingleLine(r[k])
    {
      if k < 8 {
        assert r[k] == base[k];
      } else if k < 8 + |p1| {
        assert r[k] == p1[k - 8];
      } else if k < 8 + |p1| + |p2| {
        assert r[k] == p2[k - 8 - |p1|];
      } else if k < 8 + |p1| + |p2| + |p3| {
        assert r[k] == p3[k - 8 - |p1| - |p2|];
      } else {
        assert r[k] == p4[k - 8 - |p1| - |p2| - |p3|];
      }
    }
    JoinLacks(" ", r, '\n');
  }

  /** No line of the three commands breaks, so the join splits back. */
  lemma ReproLinesSplit(cfg: Config)
    ensures SingleLine(cfg.hfModelId) && SingleLine(cfg.system) ==>
              SplitOn(Join("\n", ReproLines(cfg)), '\n') == ReproLines(cfg)
  {
    if SingleLine(cfg.hfModelId) && SingleLine(cfg.system) {
      EvalCommandSingleLine(cfg, "hf", None);
      EvalCommandSingleLine(cfg, "tt", Some(0));
      EvalCommandSingleLine(cfg, "tt", Some(1));
      SplitJoin(ReproLines(cfg), '\n');
    }
  }

  // ---------------------------------------------------------------------------
  // Failure diagnostics

  function FailureHeader(cmd: Command): string {
    "Command failed: " + FormatCmd(cmd)
  }

  /** `_format_failure(cmd, stdout, stderr, metrics)`: a header line, then
      the metrics (when truthy), the stdout tail and the stderr tail (when
      non-empty). `dumps` stands for `json.dumps`. */
  function FormatFailure(cmd: Command, stdout: string, stderr: string, metrics: Option<Json>,
                         dumps: Json -> string): (r: string)
    ensures StartsWith(r, FailureHeader(cmd))
    ensures stdout == "" && stderr == "" && (metrics.None? || !JsonTruthy(metrics.value)) ==> r == FailureHeader(cmd)
  {
    var parts := [FailureHeader(cmd)]
                 + (if metrics.Some? && JsonTruthy(metrics.value) then ["metrics: " + dumps(metrics.value)] else [])
                 + (if stdout != "" then ["stdout tail:\n" + TailLines(Some(stdout), DefaultTail)] else [])
                 + (if stderr != "" then ["stderr tail:\n" + TailLines(Some(stderr), DefaultTail)] else []);
    JoinHead("\n", parts);
    Join("\n", parts)
  }

  /** The first line of a diagnostic names the failed command. */
  lemma FormatFailureHeaderLine(cmd: Command, stdout: string, stderr: string, metrics: Option<Json>,
                                dumps: Json -> string)
    requires SingleLine(FailureHeader(cmd))
    ensures SplitOn(FormatFailure(cmd, stdout, stderr, metrics, dumps), '\n')[0] == FailureHeader(cmd)
  {
    var h := FailureHeader(cmd);
    var r := FormatFailure(cmd, stdout, stderr, metrics, dumps);
    assert IndexOf(h, '\n') == |h|;
    if |r| > |h| {
      assert r == h + r[|h|..];
      assert r[|h|] == '\n' by {
        assert r[..|h| + 1] == h + "\n";
      }
      assert r == h + ['\n'] + r[|h| + 1..];
      SplitOnAppend(h, '\n', r[|h| + 1..]);
    } else {
      assert r == h;
    }
  }

  // ---------------------------------------------------------------------------
  // The agent's verdict

  predicate IsCheckLine(line: string) {
    StartsWith(Lower(Strip(line)), "check=")
  }

  /** The value after the first "=", stripped and lower-cased. */
  function Verdict(line: string): string {
    Lower(Strip(AfterFirst(Strip(line), '=')))
  }

  const MissingCheckMessage: string := "Agent check missing CHECK=PASS/FAIL line.\n"

  function UnknownStatusMessage(line: string, output: string): string {
    "Agent check returned unknown status: " + Strip(line) + "\n" + output
  }

  /** What the deciding CHECK= line makes of the output: `pass` is the only
      passing verdict, and a verdict other than `pass`/`fail` is reported. */
  function Decide(line: string, output: string): (r: (bool, string))
    ensures r.0 <==> Verdict(line) == "pass"
    ensures Verdict(line) in {"pass", "fail"} ==> r.1 == output
    ensures Verdict(line) !in {"pass", "fail"} ==> r.1 == UnknownStatusMessage(line, output)
  {
    var status := Verdict(line);
    if status == "pass" then (true, output)
    else if status == "fail" then (false, output)
    else (false, UnknownStatusMessage(line, output))
  }

  /** The `k`-th line is the first CHECK= line. */
  predicate FirstCheckLineAt(lines: seq<string>, k: int) {
    0 <= k < |lines| && IsCheckLine(lines[k]) && forall j :: 0 <= j < k ==> !IsCheckLine(lines[j])
  }

  /** `_parse_agent_check(output)`: the first CHECK= line decides. The check
      passes exactly when that line's verdict is `pass`; without any CHECK=
      line it fails and says the line is missing. */
  function ParseAgentCheck(output: string): (r: (bool, string))
    ensures r.0 <==> exists k :: FirstCheckLineAt(SplitLines(output), k) && Verdict(SplitLines(output)[k]) == "pass"
    ensures (forall j :: 0 <= j < |SplitLines(output)| ==> !IsCheckLine(SplitLines(output)[j])) ==>
              r == (false, MissingCheckMessage + output)
  {
    var lines := SplitLines(output);
    match FirstWhere(lines, IsCheckLine)
    case None => (false, MissingCheckMessage + output)
    case Some(k) =>
      assert FirstCheckLineAt(lines, k);
      Decide(lines[k], output)
  }

  /** The first CHECK= line decides; later ones are ignored. */
  lemma ParseAgentCheckFirst(output: string, i: nat)
    requires i < |SplitLines(output)| && IsCheckLine(SplitLines(output)[i])
    requires forall j :: 0 <= j < i ==> !IsCheckLine(SplitLines(output)[j])
    ensures ParseAgentCheck(output) == Decide(SplitLines(output)[i], output)
  {
    FirstWhereAt(SplitLines(output), IsCheckLine, i);
  }

  /** A CHECK= line written first decides, whatever follows it. */
  lemma FirstLineDecides(line: string, rest: string)
    requires SingleLine(line) && IsCheckLine(line)
    ensures ParseAgentCheck(line + "\n" + rest) == Decide(line, line + "\n" + rest)
  {
    SplitLinesAppend(line, rest);
    assert IndexOf(line, '\n') == |line|;
    assert SplitLines(line + "\n" + rest)[0] == line;
    ParseAgentCheckFirst(line + "\n" + rest, 0);
  }

  lemma LowerCheckTag()
    ensures Lower("CHECK=") == "check="
  {
    assert LowerChar('C') == 'c' && LowerChar('H') == 'h' && LowerChar('E') == 'e';
    assert LowerChar('K') == 'k' && LowerChar('=') == '=';
  }

  lemma CheckTagSingleLine()
    ensures SingleLine("CHECK=")
  {
  }

  lemma LowerVerdictWords()
    ensures Lower("PASS") == "pass" && Lower("FAIL") == "fail" && "fail" != "pass"
  {
    assert "fail"[0] != "pass"[0];
    assert Lower("PASS") == "pass";
    assert Lower("FAIL") == "fail";
  }

  /** `CHECK=<word>` is a CHECK= line whose value after "=" is `word`. */
  lemma CheckLineOf(word: string)
    requires |word| > 0 && Trimmed(word) && SingleLine(word)
    ensures var line := "CHECK=" + word;
            SingleLine(line) && IsCheckLine(line) && Strip(AfterFirst(Strip(line), '=')) == word
  {
    CheckLineTrimmed(word);
    CheckLineSingle(word);
    CheckLineIs(word);
    CheckLineAfter(word);
    StripTrimmed(word);
  }

  lemma CheckLineTrimmed(word: string)
    requires |word| > 0 && Trimmed(word)
    ensures Strip("CHECK=" + word) == "CHECK=" + word
  {
    var line := "CHECK=" + word;
    assert line[0] == 'C' && line[|line| - 1] == word[|word| - 1];
    StripTrimmed(line);
  }

  lemma CheckLineSingle(word: string)
    requires SingleLine(word)
    ensures SingleLine("CHECK=" + word)
  {
    CheckTagSingleLine();
    LacksAppend("CHECK=", word, '\n');
  }

  lemma CheckLineIs(word: string)
    requires |word| > 0 && Trimmed(word)
    ensures IsCheckLine("CHECK=" + word)
  {
    CheckLineTrimmed(word);
    LowerAppend("CHECK=", word);
    LowerCheckTag();
    var lw := Lower(word);
    assert ("check=" + lw)[..6] == "check=";
  }

  lemma CheckLineAfter(word: string)
    ensures AfterFirst("CHECK=" + word, '=') == word
  {
    var line := "CHECK=" + word;
    assert line == "CHECK" + ['='] + word;
    IndexOfConcat("CHECK", '=', word);
    assert line[6..] == word;
  }

  lemma PassLiteral()
    ensures "CHECK=" + "PASS" == "CHECK=PASS"
  {
  }

  /** `CHECK=PASS` is a CHECK= line with verdict `pass`. */
  lemma PassLine()
    ensures SingleLine("CHECK=PASS") && IsCheckLine("CHECK=PASS") && Verdict("CHECK=PASS") == "pass"
  {
    PassLiteral();
    CheckLineOf("PASS");
    LowerVerdictWords();
  }

  lemma FailLiteral()
    ensures "CHECK=" + "FAIL" == "CHECK=FAIL"
  {
  }

  /** `CHECK=FAIL` is a CHECK= line with verdict `fail`. */
  lemma FailLine()
    ensures SingleLine("CHECK=FAIL") && IsCheckLine("CHECK=FAIL") && Verdict("CHECK=FAIL") == "fail"
  {
    FailLiteral();
    CheckLineOf("FAIL");
    LowerVerdictWords();
  }

  /** An output opening with `CHECK=PASS` passes, whatever follows. */
  lemma AgentCheckPass(rest: string)
    ensures ParseAgentCheck("CHECK=PASS\n" + rest) == (true, "CHECK=PASS\n" + rest)
  {
    var out := "CHECK=PASS\n" + rest;
    assert ParseAgentCheck(out) == Decide("CHECK=PASS", out) by {
      assert out == "CHECK=PASS" + "\n" + rest;
      PassLine();
      FirstLineDecides("CHECK=PASS", rest);
    }
    assert Verdict("CHECK=PASS") == "pass" by {
      PassLine();
    }
    LowerVerdictWords();
  }

  /** An output opening with `CHECK=FAIL` fails, and the output is the report. */
  lemma AgentCheckFail(rest: string)
    ensures ParseAgentCheck("CHECK=FAIL\n" + rest) == (false, "CHECK=FAIL\n" + rest)
  {
    var out := "CHECK=FAIL\n" + rest;
    assert ParseAgentCheck(out) == Decide("CHECK=FAIL", out) by {
      assert out == "CHECK=FAIL" + "\n" + rest;
      FailLine();
      FirstLineDecides("CHECK=FAIL", rest);
    }
    assert Verdict("CHECK=FAIL") == "fail" by {
      FailLine();
    }
    LowerVerdictWords();
  }

  /** `_run_agent_check()`: `agent` is the agent's reply, `Err` when the
      call raised. No diagnostic exactly when the reply parses as a pass. */
  function RunAgentCheck(agent: Result<string>): (r: Option<string>)
    ensures r.None? <==> agent.Ok? && ParseAgentCheck(agent.value).0
    ensures agent.Err? ==> r == Some("Agent check error: " + agent.msg)
    ensures agent.Ok? && !ParseAgentCheck(agent.value).0 ==> r == Some("Agent check failed:\n" + ParseAgentCheck(agent.value).1)
  {
    match agent
    case Err(e) => Some("Agent check error: " + e)
    case Ok(output) =>
      var (ok, status) := ParseAgentCheck(output);
      if ok then None else Some("Agent check failed:\n" + status)
  }

  // ---------------------------------------------------------------------------
  // check()

  datatype Step = Step(name: string, cmd: Command, expectMetrics: bool)

  /** The four steps of `check()`, in order. */
  function Steps(cfg: Config): seq<Step> {
    [Step(StepNames[0], Argv(["python", "-m", "pytest", "-q"]), false),
     Step(StepNames[1], Argv(EvalCommand(cfg, "hf", None)), true),
     Step(StepNames[2], Argv(EvalCommand(cfg, "tt", Some(0))), true),
     Step(StepNames[3], Argv(EvalCommand(cfg, "tt", Some(1))), true)]
  }

  /** What one step leaves behind: the metrics it stored, and either its
      diagnostic (if any) or the exception that aborted the check. */
  datatype StepOutcome = StepOutcome(recorded: Option<Json>, verdict: Result<Option<string>>)

  /** A step passes: exit status 0 and, for an eval, truthy metrics that
      meet both thresholds. */
  predicate StepPasses(cfg: Config, step: Step, result: Completed, decode: string -> Option<Json>) {
    result.returncode == 0 &&
    (step.expectMetrics ==>
      var m := ParseMetrics(result.stdout, decode);
      m.Some? && JsonTruthy(m.value) && MetricsOk(m.value, cfg.top1Min, cfg.top5Min) == Ok(true))
  }

  /** One iteration of the step loop of `check()`. */
  function RunStep(cfg: Config, step: Step, result: Completed, decode: string -> Option<Json>,
                   dumps: Json -> string): (o: StepOutcome)
    ensures o.verdict == Ok(None) <==> StepPasses(cfg, step, result, decode)
    ensures result.returncode != 0 ==>
              o == StepOutcome(None, Ok(Some(FormatFailure(step.cmd, result.stdout, result.stderr, None, dumps))))
    ensures o.recorded.Some? <==>
              result.returncode == 0 && step.expectMetrics && ParseMetrics(result.stdout, decode).Some?
              && JsonTruthy(ParseMetrics(result.stdout, decode).value)
    ensures o.recorded.Some? ==> o.recorded == ParseMetrics(result.stdout, decode)
    ensures o.verdict.Err? ==> o.recorded.Some? && MetricsOk(o.recorded.value, cfg.top1Min, cfg.top5Min).Err?
  {
    if result.returncode != 0 then
      StepOutcome(None, Ok(Some(FormatFailure(step.cmd, result.stdout, result.stderr, None, dumps))))
    else if !step.expectMetrics then StepOutcome(None, Ok(None))
    else
      var m := ParseMetrics(result.stdout, decode);
      if m.None? || !JsonTruthy(m.value) then
        StepOutcome(None, Ok(Some(FormatFailure(step.cmd, result.stdout, result.stderr, None, dumps))))
      else
        match MetricsOk(m.value, cfg.top1Min, cfg.top5Min)
        case Err(e) => StepOutcome(m, Err(e))
        case Ok(true) => StepOutcome(m, Ok(None))
        case Ok(false) => StepOutcome(m, Ok(Some(FormatFailure(step.cmd, result.stdout, result.stderr, m, dumps))))
  }

  /** The outcome of every step, in order. */
  function Outcomes(cfg: Config, steps: seq<Step>, results: seq<Completed>, decode: string -> Option<Json>,
                    dumps: Json -> string): (outs: seq<StepOutcome>)
    requires |results| == |steps|
    ensures |outs| == |results|
    ensures forall i :: 0 <= i < |outs| ==> outs[i] == RunStep(cfg, steps[i], results[i], decode, dumps)
  {
    seq(|results|, i requires 0 <= i < |results| => RunStep(cfg, steps[i], results[i], decode, dumps))
  }

  /** The step loop as a fold over the step outcomes: the diagnostics so
      far in step order (or the exception that ended the loop) and the
      metrics stored so far under each step's name. */
  function StepsFold(names: seq<string>, outs: seq<StepOutcome>): (Result<seq<string>>, map<string, Json>)
    requires |names| == |outs|
    decreases |outs|
  {
    if |outs| == 0 then (Ok([]), map[])
    else
      var n := |outs| - 1;
      var prev := StepsFold(names[..n], outs[..n]);
      if prev.0.Err? then prev
      else
        var o := outs[n];
        var stored := if o.recorded.Some? then prev.1[names[n] := o.recorded.value] else prev.1;
        match o.verdict
        case Err(e) => (Err(e), stored)
        case Ok(d) => (Ok(prev.0.value + (if d.Some? then [d.value] else [])), stored)
  }

  /** The loop finishes exactly when no step raises. */
  lemma {:induction false} StepsFoldOk(names: seq<string>, outs: seq<StepOutcome>)
    requires |names| == |outs|
    ensures StepsFold(names, outs).0.Ok? <==> forall i :: 0 <= i < |outs| ==> outs[i].verdict.Ok?
    decreases |outs|
  {
    if |outs| > 0 {
      var n := |outs| - 1;
      StepsFoldOk(names[..n], outs[..n]);
      assert forall i :: 0 <= i < n ==> outs[..n][i] == outs[i];
    }
  }

  /** A finished loop yields at most one diagnostic per step, and none
      exactly when no step produced one. */
  lemma {:induction false} StepsFoldDiagnostics(names: seq<string>, outs: seq<StepOutcome>)
    requires |names| == |outs| && StepsFold(names, outs).0.Ok?
    ensures |StepsFold(names, outs).0.value| <= |outs|
    ensures StepsFold(names, outs).0.value == [] <==> forall i :: 0 <= i < |outs| ==> outs[i].verdict == Ok(None)
    decreases |outs|
  {
    if |outs| > 0 {
      var n := |outs| - 1;
      StepsFoldDiagnostics(names[..n], outs[..n]);
      assert forall i :: 0 <= i < n ==> outs[..n][i] == outs[i];
    }
  }

  /** Once the loop has raised, the later steps change nothing. */
  lemma {:induction false} StepsFoldAbort(names: seq<string>, outs: seq<StepOutcome>, n: nat)
    requires |names| == |outs| && n <= |outs|
    requires StepsFold(names[..n], outs[..n]).0.Err?
    ensures StepsFold(names, outs) == StepsFold(names[..n], outs[..n])
    decreases |outs|
  {
    if n < |outs| {
      var m := |outs| - 1;
      assert names[..m][..n] == names[..n] && outs[..m][..n] == outs[..n];
      StepsFoldAbort(names[..m], outs[..m], n);
    } else {
      assert names[..n] == names && outs[..n] == outs;
    }
  }

  const StepNames: seq<string> := ["pytest", "hf", "tt-trace-off", "tt-trace-on"]

  /** The diagnostic text of `check()`: the step diagnostics, then the
      agent's, separated by blank lines; `None` when there are none. */
  function CheckResult(cfg: Config, results: seq<Completed>, decode: string -> Option<Json>,
                       dumps: Json -> string, agent: Result<string>): Result<Option<string>>
    requires |results| == |Steps(cfg)|
  {
    Finish(StepsFold(StepNames, Outcomes(cfg, Steps(cfg), results, decode, dumps)).0, agent)
  }

  /** After the step loop: the exception it ended with, or its diagnostics
      followed by the agent's, joined by blank lines. */
  function Finish(f: Result<seq<string>>, agent: Result<string>): Result<Option<string>> {
    if f.Err? then Err(f.msg)
    else
      var all := f.value + (if RunAgentCheck(agent).Some? then [RunAgentCheck(agent).value] else []);
      if |all| == 0 then Ok(None) else Ok(Some(Join("\n\n", all)))
  }

  /** `check()` raises exactly when a step's threshold test raises, and
      reports nothing exactly when every step and the agent pass. */
  lemma CheckResultSpec(cfg: Config, results: seq<Completed>, decode: string -> Option<Json>,
                        dumps: Json -> string, agent: Result<string>)
    requires |results| == |Steps(cfg)|
    ensures var r := CheckResult(cfg, results, decode, dumps, agent);
            (r.Err? <==> exists i :: 0 <= i < |results| && RunStep(cfg, Steps(cfg)[i], results[i], decode, dumps).verdict.Err?)
            && (r == Ok(None) <==>
                  (forall i :: 0 <= i < |results| ==> StepPasses(cfg, Steps(cfg)[i], results[i], decode))
                  && RunAgentCheck(agent).None?)
  {
    StepsCheck(cfg, StepNames, Steps(cfg), results, decode, dumps, agent);
  }

  /** The same over any list of named steps. */
  lemma StepsCheck(cfg: Config, names: seq<string>, steps: seq<Step>, results: seq<Completed>,
                   decode: string -> Option<Json>, dumps: Json -> string, agent: Result<string>)
    requires |names| == |steps| == |results|
    ensures var r := Finish(StepsFold(names, Outcomes(cfg, steps, results, decode, dumps)).0, agent);
            (r.Err? <==> exists i :: 0 <= i < |results| && RunStep(cfg, steps[i], results[i], decode, dumps).verdict.Err?)
            && (r == Ok(None) <==>
                  (forall i :: 0 <= i < |results| ==> StepPasses(cfg, steps[i], results[i], decode))
                  && RunAgentCheck(agent).None?)
  {
    var outs := Outcomes(cfg, steps, results, decode, dumps);
    FoldFinish(names, outs, agent);
    OutcomesVerdicts(cfg, steps, results, decode, dumps);
  }

  /** Every step passes exactly when every outcome is clean, and one raises
      exactly when some outcome is an exception. */
  lemma OutcomesVerdicts(cfg: Config, steps: seq<Step>, results: seq<Completed>,
                         decode: string -> Option<Json>, dumps: Json -> string)
    requires |steps| == |results|
    ensures var outs := Outcomes(cfg, steps, results, decode, dumps);
            ((forall i :: 0 <= i < |outs| ==> outs[i].verdict == Ok(None))
              <==> (forall i :: 0 <= i < |results| ==> StepPasses(cfg, steps[i], results[i], decode)))
            && ((exists i :: 0 <= i < |outs| && outs[i].verdict.Err?)
              <==> (exists i :: 0 <= i < |results| && RunStep(cfg, steps[i], results[i], decode, dumps).verdict.Err?))
  {
    var outs := Outcomes(cfg, steps, results, decode, dumps);
    if forall i :: 0 <= i < |results| ==> StepPasses(cfg, steps[i], results[i], decode) {
      forall i | 0 <= i < |outs|
        ensures outs[i].verdict == Ok(None)
      {
        assert StepPasses(cfg, steps[i], results[i], decode);
      }
    }
    if forall i :: 0 <= i < |outs| ==> outs[i].verdict == Ok(None) {
      forall i | 0 <= i < |results|
        ensures StepPasses(cfg, steps[i], results[i], decode)
      {
        assert outs[i].verdict == Ok(None);
      }
    }
  }

  /** The step loop followed by the agent review, over any outcomes. */
  lemma FoldFinish(names: seq<string>, outs: seq<StepOutcome>, agent: Result<string>)
    requires |names| == |outs|
    ensures var r := Finish(StepsFold(names, outs).0, agent);
            (r.Err? <==> exists i :: 0 <= i < |outs| && outs[i].verdict.Err?)
            && (r == Ok(None) <==> (forall i :: 0 <= i < |outs| ==> outs[i].verdict == Ok(None))
                                   && RunAgentCheck(agent).None?)
  {
    StepsFoldOk(names, outs);
    if StepsFold(names, outs).0.Ok? {
      StepsFoldDiagnostics(names, outs);
    }
  }

  /** `check()`: runs the four steps in order (`results[i]` is what step
      `i` exited with), then the agent review. Returns the joined
      diagnostics, or `None` when everything passed; an exception in the
      threshold test ends the check. Also returns `self.metrics`. */
  method Check(cfg: Config, results: seq<Completed>, decode: string -> Option<Json>, dumps: Json -> string,
               agent: Result<string>) returns (r: Result<Option<string>>, metrics: map<string, Json>)
    requires |results| == |Steps(cfg)|
    ensures r == CheckResult(cfg, results, decode, dumps, agent)
    ensures metrics == StepsFold(StepNames, Outcomes(cfg, Steps(cfg), results, decode, dumps)).1
    ensures r.Err? <==> exists i :: 0 <= i < |results| && RunStep(cfg, Steps(cfg)[i], results[i], decode, dumps).verdict.Err?
    ensures r == Ok(None) <==>
              (forall i :: 0 <= i < |results| ==> StepPasses(cfg, Steps(cfg)[i], results[i], decode))
              && RunAgentCheck(agent).None?
  {
    var outs := Outcomes(cfg, Steps(cfg), results, decode, dumps);
    r, metrics := RunSteps(StepNames, outs, agent);
    CheckResultSpec(cfg, results, decode, dumps, agent);
  }

  /** The loop of `check()` over the step outcomes, then the agent. */
  method RunSteps(names: seq<string>, outs: seq<StepOutcome>, agent: Result<string>)
    returns (r: Result<Option<string>>, metrics: map<string, Json>)
    requires |names| == |outs|
    ensures (r, metrics) == (Finish(StepsFold(names, outs).0, agent), StepsFold(names, outs).1)
  {
    var errors: seq<string> := [];
    metrics := map[];
    var i := 0;
    while i < |outs|
      invariant 0 <= i <= |outs|
      invariant StepsFold(names[..i], outs[..i]) == (Ok(errors), metrics)
    {
      var o := outs[i];
      assert names[..i + 1][..i] == names[..i] && outs[..i + 1][..i] == outs[..i];
      assert names[..i + 1][i] == names[i] && outs[..i + 1][i] == o;
      assert StepsFold(names[..i + 1][..i], outs[..i + 1][..i]) == (Ok(errors), metrics);
      if o.recorded.Some? {
        metrics := metrics[names[i] := o.recorded.value];
      }
      if o.verdict.Err? {
        StepsFoldAbort(names, outs, i + 1);
        return Err(o.verdict.msg), metrics;
      }
      if o.verdict.value.Some? {
        errors := errors + [o.verdict.value.value];
      } else {
        assert errors + [] == errors;
      }
      assert StepsFold(names[..i + 1], outs[..i + 1]) == (Ok(errors), metrics);
      i := i + 1;
    }
    assert names[..i] == names && outs[..i] == outs;
    r := Finish(Ok(errors), agent);
  }

  // ---------------------------------------------------------------------------
  // _commit_work

  /** The replies of the git commands `_commit_work` issues (each is a
      checked run, so a failure raises): the two `status --porcelain`
      outputs, `add`, `commit` and `rev-parse HEAD`. */
  datatype GitReplies = GitReplies(status: Result<string>, add: Result<()>, commit: Result<()>,
                                   revParse: Result<string>, statusAfter: Result<string>)

  /** The task's commit bookkeeping, plus the messages of the commits made. */
  datatype Workspace = Workspace(didCommit: bool, commitSha: Option<string>, commits: seq<string>)

  /** The commit message; `summary` is the rendered `top1=… top5=… trace=…`.
      Only the message of a failed attempt is marked work in progress. */
  function CommitMessage(cfg: Config, success: bool, summary: string): (r: string)
    ensures StartsWith(r, "WIP ") <==> !success
  {
    assert "Bringup "[0] != "WIP "[0];
    if success then "Bringup " + cfg.hfModelId + " (" + cfg.system + ") " + summary
    else "WIP Bringup " + cfg.hfModelId + " (" + cfg.system + ")"
  }

  predicate Dirty(status: string) {
    Strip(status) != ""
  }

  /** `_commit_work(metrics, success)`. */
  function CommitWork(cfg: Config, w: Workspace, git: GitReplies, success: bool, summary: string): (r: (Workspace, Result<()>))
    ensures git.status.Ok? && !Dirty(git.status.value) && success ==>
              r == (w, Err("No changes to commit after successful checks"))
    ensures git.status.Ok? && !Dirty(git.status.value) && !success ==> r == (w, Ok(()))
    ensures |r.0.commits| == |w.commits| || |r.0.commits| == |w.commits| + 1
    ensures r.0.commits[..|w.commits|] == w.commits
    ensures |r.0.commits| == |w.commits| + 1 <==>
              git.status.Ok? && Dirty(git.status.value) && git.add.Ok? && git.commit.Ok?
    ensures |r.0.commits| == |w.commits| ==> r.0 == w
    ensures |r.0.commits| == |w.commits| + 1 ==>
              r.0.didCommit && r.0.commits[|w.commits|] == CommitMessage(cfg, success, summary)
    ensures r.1.Ok? ==>
              (git.status.Ok? && !Dirty(git.status.value) && !success)
              || (|r.0.commits| == |w.commits| + 1 && git.statusAfter.Ok? && !Dirty(git.statusAfter.value))
  {
    match git.status
    case Err(e) => (w, Err(e))
    case Ok(status) =>
      if !Dirty(status) then
        if success then (w, Err("No changes to commit after successful checks")) else (w, Ok(()))
      else if git.add.Err? then (w, Err(git.add.msg))
      else if git.commit.Err? then (w, Err(git.commit.msg))
      else
        var committed := w.(didCommit := true, commits := w.commits + [CommitMessage(cfg, success, summary)]);
        match git.revParse
        case Err(e) => (committed, Err(e))
        case Ok(sha) =>
          var recorded := committed.(commitSha := Some(Strip(sha)));
          match git.statusAfter
          case Err(e) => (recorded, Err(e))
          case Ok(after) =>
            if Dirty(after) then (recorded, Err("Working tree not clean after commit")) else (recorded, Ok(()))
  }

  /** A dirty tree whose commit goes through ends up committed exactly once,
      and the call succeeds exactly when the tree is clean afterwards. */
  lemma CommitWorkDirty(cfg: Config, w: Workspace, git: GitReplies, success: bool, summary: string)
    requires git.status.Ok? && Dirty(git.status.value) && git.add.Ok? && git.commit.Ok?
    requires git.revParse.Ok? && git.statusAfter.Ok?
    ensures var r := CommitWork(cfg, w, git, success, summary);
            r.0.commits == w.commits + [CommitMessage(cfg, success, summary)]
            && r.0.didCommit && r.0.commitSha == Some(Strip(git.revParse.value))
            && (r.1.Ok? <==> !Dirty(git.statusAfter.value))
  {
  }

  // ---------------------------------------------------------------------------
  // set_up

  /** The steps of `set_up()`: commands and the two branch guards. */
  datatype SetupStep = Clone | RequireBranch | ListRemote | Checkout | ImportTtnn | SmiHelp | GhAuth
                     | DownloadWeights | ResetHardware

  /** The order of `set_up()`; the `gh auth status` check is skipped in
      local mode. */
  function SetupPlan(localMode: bool): seq<SetupStep> {
    [Clone, RequireBranch, ListRemote, Checkout, ImportTtnn, SmiHelp]
    + (if localMode then [] else [GhAuth])
    + [DownloadWeights, ResetHardware]
  }

  /** One step. `replies(s)` is the stdout of step `s`'s checked command, or
      the error it raised. */
  function SetupStepResult(cfg: Config, s: SetupStep, replies: SetupStep -> Result<string>): Result<()> {
    match s
    case RequireBranch => if cfg.branch == "" then Err("Missing branch name for bringup task") else Ok(())
    case ListRemote =>
      (match replies(ListRemote)
       case Err(e) => Err(e)
       case Ok(out) => if Strip(out) != "" then Err("Branch already exists: " + cfg.branch) else Ok(()))
    case _ =>
      (match replies(s)
       case Err(e) => Err(e)
       case Ok(_) => Ok(()))
  }

  /** `set_up()`: the steps in plan order until the first that fails.
      Returns the steps attempted. */
  method SetUp(cfg: Config, localMode: bool, replies: SetupStep -> Result<string>)
    returns (ran: seq<SetupStep>, r: Result<()>)
    ensures 1 <= |ran| <= |SetupPlan(localMode)| && ran == SetupPlan(localMode)[..|ran|]
    ensures forall k :: 0 <= k < |ran| - 1 ==> SetupStepResult(cfg, ran[k], replies).Ok?
    ensures r.Ok? <==> forall k :: 0 <= k < |SetupPlan(localMode)| ==> SetupStepResult(cfg, SetupPlan(localMode)[k], replies).Ok?
    ensures r.Ok? ==> ran == SetupPlan(localMode)
    ensures r.Err? ==> r == SetupStepResult(cfg, ran[|ran| - 1], replies)
  {
    var plan := SetupPlan(localMode);
    ran := [];
    var i := 0;
    while i < |plan|
      invariant 0 <= i <= |plan| && ran == plan[..i]
      invariant forall k :: 0 <= k < i ==> SetupStepResult(cfg, plan[k], replies).Ok?
    {
      ran := ran + [plan[i]];
      var step := SetupStepResult(cfg, plan[i], replies);
      if step.Err? {
        return ran, step;
      }
      i := i + 1;
    }
    r := Ok(());
  }

  /** The branch is created only after both guards: it is named, and no
      remote branch of that name exists. */
  lemma CheckoutAfterGuards(cfg: Config, localMode: bool, replies: SetupStep -> Result<string>,
                            ran: seq<SetupStep>)
    requires 1 <= |ran| <= |SetupPlan(localMode)| && ran == SetupPlan(localMode)[..|ran|]
    requires forall k :: 0 <= k < |ran| - 1 ==> SetupStepResult(cfg, ran[k], replies).Ok?
    requires Checkout in ran[..|ran| - 1] || (Checkout in ran && SetupStepResult(cfg, Checkout, replies).Ok?)
    ensures cfg.branch != "" && replies(ListRemote).Ok? && Strip(replies(ListRemote).value) == ""
  {
    var plan := SetupPlan(localMode);
    assert plan[1] == RequireBranch && plan[2] == ListRemote && plan[3] == Checkout;
    var k :| 0 <= k < |ran| && ran[k] == Checkout;
    assert k >= 3 by {
      assert plan[0] != Checkout && plan[1] != Checkout && plan[2] != Checkout;
    }
    assert SetupStepResult(cfg, ran[1], replies).Ok?;
    assert SetupStepResult(cfg, ran[2], replies).Ok?;
  }

  // ---------------------------------------------------------------------------
  // Binding of the task's constructor arguments

  /** The parameters of `FunctionalBringupTask.__init__`, in order. */
  const TaskParams: seq<string> := ["branch", "hf_model_id", "system", "top1_min", "top5_min", "max_attempts",
                                    "owner", "repo", "tmp_root", "prefill_len", "decode_len", "batch", "shell",
                                    "keep_tmp", "logger"]

  /** The values the worker passes to it, positionally, named by what they hold. */
  const WorkerArgs: seq<string> := ["branch", "hf_model_id", "hf_revision", "system", "top1_min", "top5_min",
                                    "max_attempts", "owner", "repo", "tmp_root", "prefill_len", "decode_len",
                                    "batch", "shell", "logger"]

  /** Parameter names are distinct (Python rejects a repeated one). */
  predicate Distinct(params: seq<string>) {
    forall i, j :: 0 <= i < j < |params| ==> params[i] != params[j]
  }

  /** Python's positional binding: the `i`-th value goes to the `i`-th
      parameter; more values than parameters raise `TypeError`. */
  function BindPositional(params: seq<string>, args: seq<string>): (r: Result<map<string, string>>)
    requires Distinct(params)
    ensures r.Ok? <==> |args| <= |params|
    ensures r.Ok? ==> forall p :: p in r.value <==> p in params[..|args|]
    ensures r.Ok? ==> forall i :: 0 <= i < |args| ==> params[i] in r.value && r.value[params[i]] == args[i]
  {
    if |args| > |params| then Err("too many positional arguments")
    else Ok(map i | 0 <= i < |args| :: params[i] := args[i])
  }

  lemma TaskParamsDistinct()
    ensures Distinct(TaskParams)
  {
  }

  /** Binding by keyword: each parameter receives the value of the same name. */
  function BindNamed(params: seq<string>, args: seq<string>): (r: map<string, string>)
    ensures forall p :: p in r <==> p in params && p in args
    ensures forall p :: p in r ==> r[p] == p
  {
    map p | p in params && p in args :: p
  }

  /** As written, `worker.py` passes the revision where the system name
      belongs, so every later argument lands one parameter off: the system
      parameter gets the revision, the shell gets the batch size and
      `keep_tmp` gets the shell. */
  lemma PositionalBindingShifts()
    ensures Distinct(TaskParams)
    ensures BindPositional(TaskParams, WorkerArgs).Ok?
    ensures var b := BindPositional(TaskParams, WorkerArgs).value;
            "system" in b && b["system"] == "hf_revision" && "shell" in b && b["shell"] == "batch"
            && "keep_tmp" in b && b["keep_tmp"] == "shell" && "logger" in b && b["logger"] == "logger"
  {
    TaskParamsDistinct();
    BoundAt(2, "system", "hf_revision");
    BoundAt(12, "shell", "batch");
    BoundAt(13, "keep_tmp", "shell");
    BoundAt(14, "logger", "logger");
  }

  lemma BoundAt(i: nat, param: string, value: string)
    requires i < |WorkerArgs| && TaskParams[i] == param && WorkerArgs[i] == value
    ensures Distinct(TaskParams)
    ensures var b := BindPositional(TaskParams, WorkerArgs).value;
            param in b && b[param] == value
  {
    TaskParamsDistinct();
  }

  /** Bound by name, every parameter the worker supplies gets its own value
      and the revision, which the task does not take, is left out. */
  lemma NamedBindingMatches()
    ensures var b := BindNamed(TaskParams, WorkerArgs);
            b["system"] == "system" && b["shell"] == "shell" && b["batch"] == "batch"
            && "hf_revision" !in b && "keep_tmp" !in b
  {
    assert "system" in TaskParams && "system" in WorkerArgs;
    assert "shell" in TaskParams && "shell" in WorkerArgs;
    assert "batch" in TaskParams && "batch" in WorkerArgs;
    assert "hf_revision" !in TaskParams;
    assert "keep_tmp" !in WorkerArgs;
  }
}
