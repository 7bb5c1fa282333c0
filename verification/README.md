# yieldthought agents: claim protocol, worker cycle and bringup checks

A Dafny model of the sequential core of the yieldthought agents worker. The
worker automates TTNN model bringup. Each worker picks a "ready" ticket from
a GitHub project board, claims it with a `[yt-claim]` comment, moves it
through the board's status columns and runs a functional-bringup task. The
task's `check()` gates every attempt: pytest, an hf eval and two tt evals
with score thresholds, then an agent review. The worker then reports the
outcome as a `[yt-status]` comment.

The model is split into modules that follow the source files:

- `Base` holds `Option`/`Result`, and `Text` holds the Python string
  primitives the code relies on (`strip`, `split`, `splitlines`, `lower`,
  `int`, `str`). `Sorting` is Python's stable `sorted` with a string key.
- `Shell` models `shell.py`: `tail_lines`, `format_command`, and the
  raise-on-non-zero rule of `Shell.run` and `run_json`.
- `Claims` models the claim protocol of `worker.py` and `github.py`. The
  comment stream is an append-only `seq<Comment>`. The field reader is
  `_extract_claim_field`. There are two rules for choosing the authoritative
  claim: the first claim of the stream, and the last claim among the ten
  most recent comments.
- `Project` models the Projects v2 client of `github.py`: the project and
  login caches, the Status field and option lookup, the item lookup, the
  status move on a board of cells, the ready-ticket listing, the `graphql`
  argument list and `_extract_first_url`.
- `Metrics`, `Sanitize` and `Bringup` model `functional_bringup.py`:
  - `parse_metrics` and `_metrics_ok`;
  - `sanitize_branch_name`;
  - the eval command lines and `repro_commands`;
  - `_format_failure`, `_parse_agent_check` and `_run_agent_check`;
  - the fold of `check()`;
  - `_commit_work`;
  - the step order of `set_up()`;
  - the binding of the task's constructor arguments.
- `Worker` models `worker.py`:
  - `parse_issue_body`, `classify_outcome` and `_int_or_none`;
  - the `detect_system` classification;
  - branch names and the three `[yt-status]` comments;
  - one `run_once` cycle. It is a pure function from the replies of the
    outside world to the effects performed (comments posted, status moves,
    task runs, pushes, pull requests). The board is a `map<int, Status>`
    that the effects update.

Every call into `gh`, git, `tt-smi`, the agent or the bringup task becomes an
input: a `Result` (the call raised or returned) or the command's `Completed`
record. The `run_id` and the timestamp are parameters.

## Model

| member | source | states |
|---|---|---|
| Shell.NegSliceStart | src/yieldthought_agents/shell.py:21-22 | Where Python's `lines[-count:]` starts: the last `count` lines for a positive count no larger than the list, every line when the count is at least the length, and every line for `count = 0` (the `[-0:]` slice). |
| Shell.TailLines | src/yieldthought_agents/shell.py:17-22 | A missing or empty text gives ""; otherwise splitting the result at "\n" gives back exactly the kept suffix of the input's lines. |
| Shell.TailLinesCount | src/yieldthought_agents/shell.py:21-22 | For `count >= 1`, the tail is the last `min(count, n)` lines of the input, in order. |
| Shell.TailKeepsShortText | src/yieldthought_agents/shell.py:21-22 | A text with no more lines than `count` (or with `count = 0`) and no trailing break comes back unchanged. |
| Shell.FormatCommand | src/yieldthought_agents/shell.py:10-14 | A string command is passed through unchanged. The parts of a list command are recovered by splitting the result at spaces, when no quoted part holds a space. |
| Shell.Run | src/yieldthought_agents/shell.py:32-53 | Raises exactly when `check` is set and the exit status is non-zero, with a message naming the command. Otherwise the completed process is returned unchanged. |
| Shell.RunJson | src/yieldthought_agents/shell.py:55-65 | Succeeds exactly when the exit status is 0 and stdout decodes, giving the decoded value. A non-zero exit raises the checked-run error. |
| Claims.FieldIn | src/yieldthought_agents/github.py:374-377 | With no line opening with the prefix, the field is "". |
| Claims.FieldInFirst | src/yieldthought_agents/github.py:374-376 | The first line whose stripped text opens with `field:` decides. Its text after the first colon, stripped, is the value; later lines do not matter. |
| Claims.ExtractClaimField | src/yieldthought_agents/github.py:370-377 | An empty body yields "". |
| Claims.ReadBlockField | src/yieldthought_agents/github.py:370-377 | Round trip: in a tag line followed by `key: value` lines, the reader returns each field's value exactly, whatever follows on later lines. The field must be the first with its key. |
| Claims.FieldLineReads | src/yieldthought_agents/github.py:375-376 | A `key: value` line is found by its key, and the reader returns its value. |
| Claims.FieldLineOtherKey | src/yieldthought_agents/github.py:375 | A `key: value` line is never found by a different key. |
| Claims.ClaimComment | src/yieldthought_agents/worker.py:222-230 | A claim comment opens with the `[yt-claim]` line, so both lookups see it as a claim. When the fields are single trimmed lines, the run id written into it is the run id `_extract_claim_field` reads back. |
| Claims.Window | src/yieldthought_agents/github.py:109 | The lookup sees the last `min(10, n)` comments of the stream, as a suffix. |
| Claims.FirstClaim | src/yieldthought_agents/worker.py:130 | The first-claim rule finds a claim exactly when the stream holds one, and then returns the oldest claim comment. |
| Claims.LatestClaim | src/yieldthought_agents/github.py:103-141 | `get_latest_claim` is None exactly when none of the last ten comments is a claim. Otherwise it returns a claim comment from that window with no claim after it anywhere in the stream. |
| Claims.LatestClaimAt | src/yieldthought_agents/github.py:128-134 | The last claim of the fetched window is the last claim of the whole stream. |
| Claims.ClaimIssue | src/yieldthought_agents/worker.py:127-137 | Exactly one claim comment is appended, and only when the post goes through. The claim is won exactly when the post, the re-read and the login lookup succeed and the authoritative claim has our login and our run id. A failed call raises. |
| Claims.FirstClaimStable | src/yieldthought_agents/worker.py:130 | Appending to the stream never changes which claim is first. |
| Claims.OwnClaimVisible | src/yieldthought_agents/worker.py:128-131 | After posting a claim, the first-claim lookup always finds one. |
| Claims.FirstMatchWinnerIsOldestClaim | src/yieldthought_agents/worker.py:127-137 | Under the first-claim rule, any winner's run id and login are those of the oldest claim of every later stream. |
| Claims.FirstMatchNoDoubleWin | src/yieldthought_agents/worker.py:127-137 | Under the first-claim rule, two winning attempts used the same run id. Each attempt starts from the stream as that worker found it, and both resulting streams are prefixes of one append-only stream. So distinct run ids never both win, in whatever order the workers post and re-read. |
| Claims.FirstMatchSequentialNoDoubleWin | src/yieldthought_agents/worker.py:127-137 | Worker A posts and re-reads, then worker B posts on the stream A left and re-reads. With distinct run ids they do not both win under the first-claim rule. This is the interleaving that makes both win under the most-recent rule. |
| Claims.FirstMatchOwnOldestWins | src/yieldthought_agents/worker.py:127-137 | Under the first-claim rule, a worker whose comment is the stream's first claim, and whose login lookup names its own account, wins. |
| Claims.LatestOfAppended | src/yieldthought_agents/github.py:128-134 | A claim comment just appended is the latest claim. |
| Claims.LatestOwnLastWins | src/yieldthought_agents/github.py:103-141 | Under the latest-claim rule, a worker whose re-read shows nothing after its own claim wins. |
| Claims.LatestRuleDoubleWin | src/yieldthought_agents/github.py:103-141 | Under the latest-claim rule, two workers with different run ids can both win on one stream, one claiming after the other. |
| Project.OptionsMap | src/yieldthought_agents/github.py:353 | The option map has exactly the option names as keys. |
| Project.OptionsMapLastWins | src/yieldthought_agents/github.py:353 | A name maps to the id of its last option, so later duplicates overwrite earlier ones. |
| Project.ProjectCacheFromData | src/yieldthought_agents/github.py:346-358 | Fails with "Status field not found in project" exactly when no field is named Status. Otherwise the last Status field supplies the field id and the option map, and the project id is carried over. |
| Project.SelectProjectByTitle | src/yieldthought_agents/github.py:314-319 | The id of the last project with the title, which must be non-empty; no match fails with "Project title not found". |
| Project.EnsureProjectCache | src/yieldthought_agents/github.py:264-274 | A cached project is returned without asking `gh`. Otherwise the project number takes precedence over the title, and having neither fails. Only a success is cached. |
| Project.EnsureProjectCacheOnce | src/yieldthought_agents/github.py:264-274 | The project is fetched at most once per client: after a success, later calls answer the same whatever `gh` would reply. |
| Project.ViewerLogin | src/yieldthought_agents/github.py:25-34 | A cached login is returned as is. Otherwise the login reply is used when it is non-empty and then cached; a missing or empty login fails with "Unable to resolve gh viewer login". |
| Project.ViewerLoginOnce | src/yieldthought_agents/github.py:25-34 | The login is looked up at most once per client. |
| Project.GetIssueProjectItem | src/yieldthought_agents/github.py:224-240 | The item is the first of the wanted project, and its status is that item's last Status value, which must be non-empty. The errors: no issue is "not found", no item of the project is "not in project", and otherwise "missing Status field". |
| Project.OptionFor | src/yieldthought_agents/github.py:168-170 | A status has an option exactly when the name is in the map with a non-empty id. |
| Project.MoveIssueStatus | src/yieldthought_agents/github.py:164-194 | An unknown status name fails with "Unknown status option" and changes nothing. A success sets only the ticket item's Status cell, to the mapped option id. |
| Project.MoveIssueStatusIdempotent | src/yieldthought_agents/github.py:164-194 | Repeating a successful move succeeds and leaves the board as the first move left it. |
| Project.KeepReady | src/yieldthought_agents/github.py:247-252 | The filtering loop succeeds exactly when every item lookup does. It then keeps exactly the tickets whose Status is "ready", in their order. |
| Project.KeepReadyPrefixErr | src/yieldthought_agents/github.py:248-249 | The first failed lookup ends the listing with its error. |
| Project.ReadyLoop | src/yieldthought_agents/github.py:247-252 | The loop computes the filtered listing. |
| Project.ListReadyIssues | src/yieldthought_agents/github.py:242-252 | The method returns the listing and the client with the project cached. |
| Project.ReadyIssuesSortedAndExact | src/yieldthought_agents/github.py:242-252 | A successful listing is ordered by creation time (missing sorts as ""). It holds every open ticket whose status is ready and nothing else. |
| Project.GraphqlArgs | src/yieldthought_agents/github.py:254-262 | Five fixed words, then one `-F key=value` pair per variable in order, with a missing value written as `null`. |
| Project.FirstUrl | src/yieldthought_agents/github.py:361-367 | The first whitespace-separated token starting with `https://`. It is "" exactly when no token does, or when the text is missing or empty. |
| Sorting.SortBySorted | src/yieldthought_agents/github.py:246 | `sorted` by key yields keys in non-decreasing string order. |
| Sorting.SortByPermutes | src/yieldthought_agents/github.py:246 | `sorted` yields a permutation of its input. |
| Sorting.SortByStable | src/yieldthought_agents/github.py:246 | Tickets with equal keys keep their relative order (Python's sort is stable). |
| Sorting.FilterMembers | src/yieldthought_agents/github.py:248-251 | Filtering keeps exactly the elements that pass the test. |
| Metrics.ParseMetrics | src/yieldthought_agents/tasks/functional_bringup.py:26-35 | No `YT_METRICS=` line gives None. Otherwise only the first such line is decoded, so a decode failure there is final. |
| Metrics.ParseMetricsFirstLine | src/yieldthought_agents/tasks/functional_bringup.py:28-34 | A metrics line written first is the one decoded, with its payload stripped, whatever the later lines hold. |
| Metrics.MetricsOk | src/yieldthought_agents/tasks/functional_bringup.py:322-323 | Passes exactly when both scores (missing counts as 0) meet their thresholds. Top5 is not looked at once top1 fails. A non-numeric score or non-object metrics raise. |
| Metrics.MissingScoreFails | src/yieldthought_agents/tasks/functional_bringup.py:322-323 | With positive thresholds, metrics lacking a score never pass. |
| Metrics.NumericScores | src/yieldthought_agents/tasks/functional_bringup.py:322-323 | Numeric scores never raise, and pass exactly when `top1 >= top1_min` and `top5 >= top5_min`. |
| Sanitize.LowerSlash | src/yieldthought_agents/tasks/functional_bringup.py:20 | Same length; each character lower-cased, with "/" turned into "-". |
| Sanitize.MaskRuns | src/yieldthought_agents/tasks/functional_bringup.py:21 | After masking, every character is in `[a-z0-9._-]`, and the kept characters (those in the class other than "-") all survive, in order. |
| Sanitize.MaskRunsAppend | src/yieldthought_agents/tasks/functional_bringup.py:21 | Masking works piece by piece: the second piece starts inside a run exactly when the first piece ended in one. |
| Sanitize.MaskRunsRun | src/yieldthought_agents/tasks/functional_bringup.py:21 | A non-empty run outside the class becomes one "-", or nothing if the run before it already gave its "-". |
| Sanitize.MaskRunsOneDash | src/yieldthought_agents/tasks/functional_bringup.py:21 | Each maximal run outside the class, for example a space or "@@", becomes exactly one "-", and the text on both sides is masked on its own. |
| Sanitize.Squeeze | src/yieldthought_agents/tasks/functional_bringup.py:22 | After squeezing there is no "--", the allowed class is kept, and only dashes are dropped: the kept characters survive, in order. With SqueezeOneDash, each maximal run of "-" becomes exactly one "-". |
| Sanitize.SqueezeAppend | src/yieldthought_agents/tasks/functional_bringup.py:22 | Squeezing works piece by piece: the second piece starts after a "-" exactly when the first piece ended in one. |
| Sanitize.SqueezeRun | src/yieldthought_agents/tasks/functional_bringup.py:22 | A non-empty run of "-" becomes one "-", or nothing right after a "-". |
| Sanitize.SqueezeOneDash | src/yieldthought_agents/tasks/functional_bringup.py:22 | Each maximal run of "-" becomes exactly one "-", and the text on both sides is squeezed on its own. |
| Sanitize.StripDash | src/yieldthought_agents/tasks/functional_bringup.py:23 | The result is a slice of the input that neither starts nor ends with "-", and the prefix and suffix removed are all "-". |
| Sanitize.StripDashKeptChars | src/yieldthought_agents/tasks/functional_bringup.py:23 | Stripping the dashes keeps every kept character. |
| Sanitize.SanitizeBranchName | src/yieldthought_agents/tasks/functional_bringup.py:18-23 | The sanitized name uses only `[a-z0-9._-]`, has no "--" and no leading or trailing "-". It equals the one-pass reference name of the lower-cased id (with "/" turned into "-"). That is the kept characters in order, with exactly one "-" between two of them when anything not kept separates them, and nothing at the ends. With SanitizeFixesClean and SanitizeIdempotent, it is the identity on clean names. |
| Sanitize.MaskRunsSeparated | src/yieldthought_agents/tasks/functional_bringup.py:21 | Masking does not change the reference name. |
| Sanitize.SqueezeSeparated | src/yieldthought_agents/tasks/functional_bringup.py:22 | Squeezing does not change the reference name. |
| Sanitize.StripDashSeparated | src/yieldthought_agents/tasks/functional_bringup.py:23 | Stripping the edge dashes does not change the reference name. |
| Sanitize.CleanSeparated | src/yieldthought_agents/tasks/functional_bringup.py:18-23 | A clean name is its own reference name. |
| Sanitize.PassesSeparated | src/yieldthought_agents/tasks/functional_bringup.py:21-23 | Masking, squeezing and stripping, applied in that order, compute the reference name. |
| Sanitize.SanitizeMaskExample | src/yieldthought_agents/tasks/functional_bringup.py:18-23 | `A b@@c` becomes `a-b-c`: the space and the "@@" run each give one "-". |
| Sanitize.SanitizeSqueezeExample | src/yieldthought_agents/tasks/functional_bringup.py:18-23 | `a/-b` becomes `a-b`: the "/" and the "-" form one run of dashes, squeezed to a single "-". |
| Sanitize.SanitizeFixesClean | src/yieldthought_agents/tasks/functional_bringup.py:18-23 | A name that is already clean is left unchanged. |
| Sanitize.SanitizeIdempotent | src/yieldthought_agents/tasks/functional_bringup.py:18-23 | Sanitizing twice is sanitizing once. |
| Sanitize.SanitizeAfterLowerSlash | src/yieldthought_agents/tasks/functional_bringup.py:18-23 | When lower-casing and replacing "/" already give a clean name, that is the result. |
| Sanitize.SanitizeExample | tests/test_utils.py:9-11 | `meta-llama/Llama-3.1-8B-Instruct` becomes `meta-llama-llama-3.1-8b-instruct`. |
| Bringup.EvalCommand | src/yieldthought_agents/tasks/functional_bringup.py:205-224 | Eight fixed words, then one two-word pair for each set option, and nothing for an unset one. From offset 8, the flags at even offsets are option flags, each at most once, in the order prefill < decode < batch < trace. |
| Bringup.EvalCommandRoundTrip | src/yieldthought_agents/tasks/functional_bringup.py:216-223 | Round trip: prefill, decode, batch and trace read back from the command line as given. An unset option is absent. |
| Bringup.FormatCmd | src/yieldthought_agents/tasks/functional_bringup.py:338-341 | A string passes through. A list's parts are recovered by splitting at spaces when no part holds a space. |
| Bringup.ReproCommands | src/yieldthought_agents/tasks/functional_bringup.py:286-293 | When the model id and system hold no line break, `repro_commands()` splits back into exactly three lines: the hf eval, the tt eval without trace, and the tt eval with trace. |
| Bringup.FormatFailure | src/yieldthought_agents/tasks/functional_bringup.py:326-335 | The diagnostic starts with "Command failed: <command>". With no output and no truthy metrics, that line is all of it. |
| Bringup.FormatFailureHeaderLine | src/yieldthought_agents/tasks/functional_bringup.py:326-328 | The diagnostic's first line names the failed command. |
| Bringup.Decide | src/yieldthought_agents/tasks/functional_bringup.py:362-367 | Only the verdict `pass` is ok. For `pass`/`fail` the report is the output; any other verdict is reported as an unknown status. |
| Bringup.ParseAgentCheck | src/yieldthought_agents/tasks/functional_bringup.py:358-368 | The check passes exactly when the first CHECK= line has the verdict `pass`. An output without a CHECK= line fails with the "missing CHECK=PASS/FAIL line" report followed by the output. |
| Bringup.ParseAgentCheckFirst | src/yieldthought_agents/tasks/functional_bringup.py:358-367 | The first CHECK= line decides; later ones are ignored. |
| Bringup.FirstLineDecides | src/yieldthought_agents/tasks/functional_bringup.py:358-367 | A CHECK= line written first decides, whatever follows it. |
| Bringup.AgentCheckPass | src/yieldthought_agents/tasks/functional_bringup.py:358-364 | An output opening with `CHECK=PASS` passes. |
| Bringup.AgentCheckFail | src/yieldthought_agents/tasks/functional_bringup.py:358-366 | An output opening with `CHECK=FAIL` fails, and the output is the report. |
| Bringup.RunAgentCheck | src/yieldthought_agents/tasks/functional_bringup.py:251-259 | No diagnostic exactly when the agent answered and its output passes. A raised call gives "Agent check error: …", and a failed parse gives "Agent check failed:" followed by the report. |
| Bringup.RunStep | src/yieldthought_agents/tasks/functional_bringup.py:148-167 | A step is clean exactly when it passes. A non-zero exit gives a diagnostic without parsing metrics. Metrics are recorded exactly when an eval exits 0 with truthy metrics, even below threshold. Only the threshold test can raise. |
| Bringup.Outcomes | src/yieldthought_agents/tasks/functional_bringup.py:148-167 | One outcome per step, in step order. |
| Bringup.StepsFoldOk | src/yieldthought_agents/tasks/functional_bringup.py:148-167 | The step loop finishes exactly when no step raises. |
| Bringup.StepsFoldDiagnostics | src/yieldthought_agents/tasks/functional_bringup.py:147-167 | Each step contributes at most one diagnostic, and there are none exactly when every step is clean. |
| Bringup.StepsFoldAbort | src/yieldthought_agents/tasks/functional_bringup.py:164 | Once a threshold test has raised, later steps change nothing. |
| Bringup.OutcomesVerdicts | src/yieldthought_agents/tasks/functional_bringup.py:148-167 | Every outcome is clean exactly when every step passes, and one raises exactly when some step's threshold test raises. |
| Bringup.FoldFinish | src/yieldthought_agents/tasks/functional_bringup.py:169-175 | After the step loop and the agent review, the result is None exactly when every step and the agent are clean. It raises exactly when a step did. |
| Bringup.StepsCheck | src/yieldthought_agents/tasks/functional_bringup.py:147-175 | Over any list of steps, `check()` gives None exactly when every step passes and the agent passes, and raises exactly when a threshold test raises. |
| Bringup.CheckResultSpec | src/yieldthought_agents/tasks/functional_bringup.py:138-175 | The same for the four steps of `check()`. |
| Bringup.Check | src/yieldthought_agents/tasks/functional_bringup.py:138-175 | The method's loop computes that result, and also the metrics `self.metrics` ends with. |
| Bringup.RunSteps | src/yieldthought_agents/tasks/functional_bringup.py:147-175 | The loop over the step outcomes computes the fold, then adds the agent's diagnostic. |
| Bringup.CommitWork | src/yieldthought_agents/tasks/functional_bringup.py:261-284 | A clean tree raises after success and is a no-op after failure. Otherwise a commit is recorded exactly when `add` and `commit` go through, with the success or WIP message. The call returns normally only when there was nothing to commit after failure, or when the tree is clean after a commit. |
| Bringup.CommitMessage | src/yieldthought_agents/tasks/functional_bringup.py:269-275 | The commit message is marked "WIP " exactly when the attempt did not succeed. |
| Bringup.CommitWorkDirty | src/yieldthought_agents/tasks/functional_bringup.py:268-284 | A dirty tree whose git calls go through gets exactly one commit and `did_commit`, with the stripped HEAD sha. The call succeeds exactly when the tree is clean afterwards. |
| Bringup.SetUp | src/yieldthought_agents/tasks/functional_bringup.py:108-130 | The steps run in their fixed order up to the first failure, which is the error returned. Setup succeeds exactly when every step does. |
| Bringup.CheckoutAfterGuards | src/yieldthought_agents/tasks/functional_bringup.py:118-127 | The branch is created only after both guards: the name is non-empty and no remote branch of that name exists. |
| Bringup.BindPositional | src/yieldthought_agents/worker.py:151-167 | Python's positional binding: the i-th value goes to the i-th parameter, and too many values raise. |
| Bringup.BindNamed | src/yieldthought_agents/tasks/functional_bringup.py:51-68 | Binding by name: each parameter the caller names gets the value of that name. |
| Bringup.PositionalBindingShifts | src/yieldthought_agents/worker.py:151-167 | As written, the system parameter receives the revision, `shell` the batch size and `keep_tmp` the shell. |
| Bringup.NamedBindingMatches | src/yieldthought_agents/tasks/functional_bringup.py:51-68 | Bound by name, system, shell and batch get their own values, and the revision is not passed. |
| Worker.CollectKeys | src/yieldthought_agents/worker.py:20-34 | A key is in the parsed fields exactly when some line defines it. |
| Worker.CollectLast | src/yieldthought_agents/worker.py:34 | A key's value is the one its last defining line gives. |
| Worker.BlankLineSkipped | src/yieldthought_agents/worker.py:24-26 | A whitespace-only line contributes nothing. |
| Worker.NoColonSkipped | src/yieldthought_agents/worker.py:25-26 | A line without ":" contributes nothing. |
| Worker.FieldOfLine | src/yieldthought_agents/worker.py:24-34 | An indented `key: value` line reads back as its key and its value, with the placeholders blanked. |
| Worker.FieldOfSplit | src/yieldthought_agents/worker.py:27-33 | A line splits at its first colon into a stripped key and a stripped value. |
| Worker.ParseIssueBody | src/yieldthought_agents/worker.py:18-35 | Every field it returns has a non-empty stripped key without ":" and a stripped value. No value is left as a template placeholder. ParseIssueBodyLines and ParseTemplate state which keys and values come out. |
| Worker.ParseIssueBodyLines | src/yieldthought_agents/worker.py:18-35 | Over any body, a key is present exactly when one of its lines defines it. Its value is then the one the last defining line gives. |
| Worker.ParseTemplate | tests/test_utils.py:14-29 | A body written in the ticket layout with distinct keys parses to exactly those keys, each with its value (placeholders blanked). |
| Worker.ClassifyOutcome | src/yieldthought_agents/worker.py:38-44 | Any error is a setup error. Otherwise the outcome is "failed" exactly when a result is present and unsuccessful, and "success" otherwise, including when there is no result. |
| Worker.IntOrNone | src/yieldthought_agents/worker.py:47-53 | None stays None. A non-blank value is accepted exactly when its stripped text is an integer, and then that integer is the result. Otherwise the error is `int()`'s "invalid literal for int() with base 10: '<text>'". |
| Worker.IntOrNoneRoundTrip | src/yieldthought_agents/worker.py:47-53 | An integer written with surrounding whitespace reads back. |
| Worker.IntOrNoneBlank | src/yieldthought_agents/worker.py:50-52 | A blank value is no value. |
| Worker.N300LDisjoint | src/yieldthought_agents/worker.py:306 | Matches of `\bn300\s+l\b` never overlap, so counting start positions counts the matches `re.findall` returns. |
| Worker.N300LCount | src/yieldthought_agents/worker.py:306 | The count is the number of match start positions. |
| Worker.DetectSystem | src/yieldthought_agents/worker.py:295-311 | A non-zero exit or empty output raises. "n150" anywhere in the lower-cased text takes priority. Otherwise at least four `n300 L` rows give "lb", one to three give "n300", and none raises. |
| Worker.BranchName | src/yieldthought_agents/worker.py:233-235 | The branch name starts with `bringup/issue-` and uses only `[a-z0-9._-]` and "/". BranchNameReadsBack and BranchNamesDistinct show it is a different name for each ticket. |
| Worker.BranchNameReadsBack | src/yieldthought_agents/worker.py:233-235 | After `bringup/issue-`, the branch name splits at the first "-" into the ticket number and the clean sanitized model id. |
| Worker.BranchNamesDistinct | src/yieldthought_agents/worker.py:233-235 | Different tickets never share a branch. |
| Worker.StatusBlockReads | src/yieldthought_agents/worker.py:253-278 | Any field of a `[yt-status]` block reads back through the claim-field reader, whatever follows on later lines. |
| Worker.SetupErrorCommentReads | src/yieldthought_agents/worker.py:171-180 | The setup-error comment reads back its status, its run id and the error text. |
| Worker.FailureCommentReads | src/yieldthought_agents/worker.py:266-278 | The failure comment reads back status "failed", the run id, the summary, the error and the branch. The summary defaults to "Bringup attempts exhausted", and the error defaults to "". |
| Worker.SuccessCommentReads | src/yieldthought_agents/worker.py:253-263 | The success comment reads back status "in review", the run id, the summary and the PR link. |
| Worker.SetupErrorComment | src/yieldthought_agents/worker.py:171-180 | The setup-error comment opens with the `[yt-status]` line. SetupErrorCommentReads states which fields read back. |
| Worker.FailureComment | src/yieldthought_agents/worker.py:266-278 | The failure comment opens with the `[yt-status]` line. FailureCommentReads states which fields read back. |
| Worker.SuccessComment | src/yieldthought_agents/worker.py:253-263 | The success comment opens with the `[yt-status]` line. SuccessCommentReads states which fields read back. |
| Worker.TaskConfig | src/yieldthought_agents/worker.py:139-150 | A missing or empty model id fails with "Missing hf_model_id in issue body". The built task carries the model id, the branch named after the ticket, and the sizes `_int_or_none` reads, each in the parameter of its own name. Any other failure is a size that is not an integer. |
| Worker.ClaimLoop | src/yieldthought_agents/worker.py:98-125 | The loop over the ready tickets computes the claim loop. |
| Worker.RunOnce | src/yieldthought_agents/worker.py:87-125 | A dry run or an empty ready list returns False with no effect and the board unchanged. The board is the one the effects leave. |
| Worker.EffectsAppend | src/yieldthought_agents/worker.py:109-124 | Concatenating effect lists concatenates their status moves, and keeps "one ticket only" and "no task run" exactly when both parts have them. |
| Worker.ReportShape | src/yieldthought_agents/worker.py:192-193 | The final report posts on the ticket and moves it to its column only when nothing raised. |
| Worker.HandleSuccessShape | src/yieldthought_agents/worker.py:182-193 | The success handler moves the ticket to "in review", and only when it returns normally. It touches no other ticket. |
| Worker.HandleFailureShape | src/yieldthought_agents/worker.py:195-200 | The failure handler moves the ticket to "failed", and only when it returns normally. |
| Worker.PushBranch | src/yieldthought_agents/worker.py:202-206 | Without a checkout or a branch the push raises "Missing repo root or branch for push" before pushing. Otherwise it pushes the task's branch. It pushes exactly when it returns normally. |
| Worker.HandleSuccess | src/yieldthought_agents/worker.py:182-193 | Missing final metrics raise before anything is done. A pull request is opened only right after the branch was pushed. A normal return pushed, opened the pull request, posted the success comment and moved the ticket to "in review", in that order. |
| Worker.HandleFailure | src/yieldthought_agents/worker.py:195-200 | Nothing is reported unless the branch was pushed first. A normal return pushed, posted the failure comment and moved the ticket to "failed", in that order. |
| Worker.RunAndReportShape | src/yieldthought_agents/worker.py:112-119 | The task runs first. A final column is reached only when nothing raised, and it is the column `classify_outcome` gives for the task's result. |
| Worker.TryBodyShape | src/yieldthought_agents/worker.py:109-120 | The ticket moves to "in progress" before anything else, and the task never runs before that move. |
| Worker.RecoverShape | src/yieldthought_agents/worker.py:121-124 | The setup-error handler keeps what happened before it. It adds at most the move to "setup error" and its comment, and only when the `try` block raised. |
| Worker.Recover | src/yieldthought_agents/worker.py:171-180 | A normal return of the `try` block passes through unchanged. After a raise the ticket is moved to "setup error" before the comment carrying the error text is posted. A handled cycle always reports True. |
| Worker.MovesPath | src/yieldthought_agents/worker.py:109-124 | The column sequences a claimed ticket can go through follow `ready → in progress → {in review, failed, setup error}`. |
| Worker.ProcessShape | src/yieldthought_agents/worker.py:109-124 | A claimed ticket's moves follow the transition relation. When the cycle returns normally the ticket ends in the column `classify_outcome` gives, counting any exception as a setup error. |
| Worker.RecoveredPath | src/yieldthought_agents/worker.py:121-124 | An exception after the claim ends the ticket in "setup error". |
| Worker.LoopAllLost | src/yieldthought_agents/worker.py:98-125 | When every claim is lost, the loop returns False after trying every ticket in order. |
| Worker.LoopDecided | src/yieldthought_agents/worker.py:98-124 | The first claim that is won or raises ends the loop: a raise with its error, a win with the processing of that ticket alone. |
| Worker.ApplyMovesOnTicket | src/yieldthought_agents/worker.py:109-124 | Effects on one ticket leave it in the last column they move it to, and every other ticket where it was. |
| Worker.LoopBoard | src/yieldthought_agents/worker.py:98-125 | Lost or raised claims leave the board unchanged; a won claim leaves the board its processing leaves. |
| Worker.LoopSummary | src/yieldthought_agents/worker.py:98-125 | The loop returns False exactly when every claim is lost, and then the board is unchanged. When it returns True, only the first ticket won has moved, to its final column. When it raises, at most that ticket has moved. |
| Worker.RunOnceBoard | src/yieldthought_agents/worker.py:87-125 | `run_once` returns False exactly on a dry run or when every claim is lost, and then the board is unchanged. It processes at most one ticket: the first it wins, which ends in the column `classify_outcome` gives. |
| Worker.TryBodyLoadError | src/yieldthought_agents/worker.py:140-144 | When the ticket's task cannot be built, the `try` block raises right after the move to "in progress", before anything runs. |
| Worker.MissingModelIdPath | src/yieldthought_agents/worker.py:140-144 | A ticket without a model id goes to "in progress", then to "setup error" with a `[yt-status]` comment carrying the missing-field message. The cycle still returns True. |

## Left out

- Process, network and git I/O are not modelled. The `gh`, GraphQL, git, `tt-smi` and agent calls are replies given as inputs. A checked run that fails is an `Err` reply.
- JSON encoding and decoding are parameters (`decode`, `dumps`). `_pr_body` and `_metrics_summary` with its `{:.4f}` formatting are left out. The summary line is an input, and scores are compared as reals.
- `shlex.quote` is a parameter of `Shell.FormatCommand`.
- The environment helpers (`_env_int`, `_env_float`, `_keep_tmp_enabled`, `_local_mode_enabled`), `uuid`, `datetime`, the hostname, `tempfile`, `time.sleep` and `main` are left out. Their values are parameters: the run id, the timestamp, the local-mode flag.
- The retry loop and the agent live in the `codexapi` package, which is not part of this model. The agent's answer is an input, and `max_attempts` is not modelled.
- The prompt template and its rendering (`_build_prompt`, `_load_prompt_template`, `_render_prompt`) are left out. They only build the agent's text.
- `tear_down`, `on_success`/`on_failure` and `_run_final_eval` are left out. The task's final result, and whether it recorded final metrics, are inputs of the worker cycle.
- `Worker.RunOnce`, `Worker.RunOnceBoard`: `worker.py:90` calls `self.describe_dry_run()`, which no class in the repository defines. As written, a dry run therefore raises `AttributeError` before any effect, and the `return False` of `worker.py:91` is never reached. `main()` builds `Worker()` (`worker.py:325`), so `dry_run` is never set there. The model returns False with no effects and the board unchanged, as line 91 intends.
- `delete_last_comment` is never called, so no claim is ever retracted.
- `worker.py:130` calls `get_first_claim`, which `github.py` does not define; as written, the call raises `AttributeError`. The worker model takes the lookup rule as a setting and models both rules.
- The text of `detect_system`'s error messages after the first two is reduced to a fixed message.
- `Worker.DetectSystem`: `\b`, `\s` and `lower()` are ASCII-only, and `splitlines()` breaks on "\n" only (see `Text`).
- `Shell.TailLines`: Python's `splitlines()` also breaks on "\r", "\x0b", "\x0c", "\x1c"–"\x1e", "\x85" and the Unicode separators; the model breaks on "\n" only.
- `Worker.IntOrNone`: Python's `int()` also accepts "_" between digits and non-ASCII digits; the model accepts an optional sign and ASCII digits only. The error text puts the literal between single quotes. Python's `repr` switches to double quotes, or escapes characters, when the text holds a quote, a backslash or an unprintable character; the model does not.
- The `Text` primitives are ASCII-only, and so is every member built on them. `Strip` and the whitespace `split` know the ASCII whitespace characters, but not "\x85", "\xa0" or the other Unicode spaces. `Lower` maps only "A"–"Z", while Python's `lower()` also maps letters such as U+212A (KELVIN SIGN) to "k". `SplitLines` breaks on "\n" only. The members affected are `Worker.ParseIssueBody`, `Claims.ExtractClaimField`, `Metrics.ParseMetrics`, `Bringup.ParseAgentCheck`, `Sanitize.SanitizeBranchName` and `Project.FirstUrl`, besides the two above. For example, Python strips a "\xa0" around a ticket-body value and the model keeps it, which changes the branch name. Python lower-cases U+212A to "k", which the branch name keeps, and the model masks it to "-".
- `Worker.TaskConfig`: the task is built with each setting bound to the parameter of its own name. This is the corrected binding of the second row under "Findings". As written, `worker.py:151-167` passes the values by position, so the revision lands in `system` and the later values one parameter off (`Bringup.PositionalBindingShifts`). The worker cycle does not carry that shift forward, and the ticket's `hf_revision` field is not passed to the task.
- `Bringup.FormatFailure`: the contract fixes the first line and the case with nothing to add. The order of the metrics, stdout and stderr sections is stated by the definition only.
- `Worker.RunOnceBoard`: when the cycle raises after a won claim, the contract says only that no other ticket moved, not which column the ticket is in.
- `Project.MoveIssueStatus`: the board is a map of (project, item, field) cells. The real project's other fields and items are not modelled.
- The GraphQL query texts and the `gh` argument lists other than `graphql`'s are left out.

## Findings

| source | as written | input that shows it | evidently intended | confidence | as-written member | corrected member |
|---|---|---|---|---|---|---|
| src/yieldthought_agents/github.py:103-141 | The only claim lookup `github.py` defines returns the most recent claim among the last ten comments. `worker.py:130` calls a first-claim lookup that does not exist. | Worker A posts its claim and re-reads it as the latest; then worker B posts and re-reads. Both see their own claim last, so both win with different run ids. | The earliest claim on the ticket is authoritative, so at most one run id wins. | not executed | Claims.LatestRuleDoubleWin | Claims.FirstMatchSequentialNoDoubleWin, Claims.FirstMatchNoDoubleWin |
| src/yieldthought_agents/worker.py:151-167 | `_run_task` passes `hf_revision` as the third positional argument. `FunctionalBringupTask.__init__` has no such parameter. | Any ticket: the system parameter receives the revision, `shell` receives the batch size and `keep_tmp` receives the shell object. | Each setting reaches the parameter of its own name, and the revision is not passed. | not executed | Bringup.PositionalBindingShifts | Bringup.NamedBindingMatches, Worker.TaskConfig |
