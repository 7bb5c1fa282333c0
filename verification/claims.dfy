/** The claim protocol over a ticket's comment stream.

    A worker appends a `[yt-claim]` comment carrying a fresh run id, re-reads
    the stream, picks one claim comment as authoritative and wins only if that
    claim is its own (same author login, same run id). The stream is an
    append-only `seq<Comment>`; what other workers append between our post and
    our read is an input. */
module Claims {
  import opened Base
  import opened Text

  datatype Comment = Comment(author: Option<string>, body: string, createdAt: Option<string>)

  /** The record the claim lookup hands back for the chosen comment. */
  datatype Claim = Claim(author: Option<string>, body: string, runId: string, createdAt: Option<string>)

  /** Which claim comment is authoritative: the first one in the whole stream,
      or the last one among the most recent `CommentWindow` comments. */
  datatype Rule = FirstMatch | LatestInWindow

  const ClaimTag: string := "[yt-claim]"

  /** The claim lookup fetches `comments(last: 10)`. */
  const CommentWindow: nat := 10

  predicate IsClaim(c: Comment) {
    Contains(c.body, ClaimTag)
  }

  // ---------------------------------------------------------------------------
  // `key: value` blocks

  /** A key that can be written as `key: value` and found again: non-empty,
      no whitespace and no colon. */
  predicate FieldKey(k: string) {
    |k| > 0 && forall i :: 0 <= i < |k| ==> !IsSpace(k[i]) && k[i] != ':'
  }

  /** A value that survives a `key: value` line unchanged. */
  predicate FieldValue(v: string) {
    SingleLine(v) && Trimmed(v)
  }

  function FieldLine(key: string, value: string): string {
    key + ": " + value
  }

  /** The tag line followed by one `key: value` line per field. */
  function BlockLineSeq(tag: string, fields: seq<(string, string)>): (r: seq<string>)
    ensures |r| == |fields| + 1 && r[0] == tag
    ensures forall i :: 0 <= i < |fields| ==> r[i + 1] == FieldLine(fields[i].0, fields[i].1)
  {
    [tag] + seq(|fields|, i requires 0 <= i < |fields| => FieldLine(fields[i].0, fields[i].1))
  }

  /** The lines of `BlockLineSeq` joined by "\n" (the layout of the claim and
      status comments). */
  function Block(tag: string, fields: seq<(string, string)>): string {
    Join("\n", BlockLineSeq(tag, fields))
  }

  /** The stripped line starts with `prefix`. */
  predicate Opens(line: string, prefix: string) {
    StartsWith(Strip(line), prefix)
  }

  /** The line scan of `_extract_claim_field`: the first line whose stripped
      text starts with `prefix` yields its text after the first colon,
      stripped; no such line yields "". */
  function FieldIn(lines: seq<string>, prefix: string): (r: string)
    ensures (forall j :: 0 <= j < |lines| ==> !Opens(lines[j], prefix)) ==> r == ""
  {
    match FirstWhere(lines, l => Opens(l, prefix))
    case None => ""
    case Some(i) => Strip(AfterFirst(lines[i], ':'))
  }

  /** The first line that opens with `prefix` is the one read. */
  lemma FieldInFirst(lines: seq<string>, prefix: string, i: nat)
    requires i < |lines| && Opens(lines[i], prefix)
    requires forall j :: 0 <= j < i ==> !Opens(lines[j], prefix)
    ensures FieldIn(lines, prefix) == Strip(AfterFirst(lines[i], ':'))
  {
    FirstWhereAt(lines, l => Opens(l, prefix), i);
  }

  /** `_extract_claim_field(body, field)`. */
  function ExtractClaimField(body: string, field: string): (r: string)
    ensures body == "" ==> r == ""
  {
    if body == "" then "" else FieldIn(SplitLines(body), field + ":")
  }

  // ---------------------------------------------------------------------------
  // Claim comments and the two lookup rules

  /** `_claim_comment(worker, system, run_id)`, with the timestamp an
      input: the claim tag line and four fields. It is always a claim, and the run id written into it is the
      one the field reader finds again. */
  function ClaimComment(worker: string, system: string, runId: string, timestamp: string): (r: string)
    ensures StartsWith(r, ClaimTag + "\n") && Contains(r, ClaimTag)
    ensures FieldValue(worker) && FieldValue(system) && FieldValue(runId) && FieldValue(timestamp) ==>
              ExtractClaimField(r, "run_id") == runId
  {
    var fields := ClaimFields(worker, system, runId, timestamp);
    BlockOpens(ClaimTag, fields);
    ClaimBlockRunId(worker, system, runId, timestamp);
    Block(ClaimTag, fields)
  }

  function ToClaim(c: Comment): Claim {
    Claim(c.author, c.body, ExtractClaimField(c.body, "run_id"), c.createdAt)
  }

  /** The comments a `comments(last: 10)` query returns. */
  function Window(log: seq<Comment>): (w: seq<Comment>)
    ensures |w| == (if |log| <= CommentWindow then |log| else CommentWindow)
    ensures w == log[|log| - |w|..]
  {
    if |log| <= CommentWindow then log else log[|log| - CommentWindow..]
  }

  function FirstClaimIndex(log: seq<Comment>): (r: Option<nat>)
    ensures r.None? <==> forall j :: 0 <= j < |log| ==> !IsClaim(log[j])
    ensures r.Some? ==> r.value < |log| && IsClaim(log[r.value])
                        && forall j :: 0 <= j < r.value ==> !IsClaim(log[j])
    decreases |log|
  {
    if |log| == 0 then None
    else if IsClaim(log[0]) then Some(0)
    else
      var r := FirstClaimIndex(log[1..]);
      assert forall j :: 1 <= j < |log| ==> log[j] == log[1..][j - 1];
      if r.None? then None else Some(r.value + 1)
  }

  function LastClaimIndex(log: seq<Comment>): (r: Option<nat>)
    ensures r.None? <==> forall j :: 0 <= j < |log| ==> !IsClaim(log[j])
    ensures r.Some? ==> r.value < |log| && IsClaim(log[r.value])
                        && forall j :: r.value < j < |log| ==> !IsClaim(log[j])
    decreases |log|
  {
    if |log| == 0 then None
    else if IsClaim(log[|log| - 1]) then Some(|log| - 1)
    else LastClaimIndex(log[..|log| - 1])
  }

  /** The "first claim" rule: the oldest claim comment in the whole stream. */
  function FirstClaim(log: seq<Comment>): (r: Option<Claim>)
    ensures r.None? <==> forall j :: 0 <= j < |log| ==> !IsClaim(log[j])
    ensures r.Some? ==> exists i :: 0 <= i < |log| && FirstClaimIndex(log) == Some(i) && r.value == ToClaim(log[i])
  {
    match FirstClaimIndex(log)
    case None => None
    case Some(i) => Some(ToClaim(log[i]))
  }

  /** `get_latest_claim`: the last claim comment among the fetched window. */
  function LatestClaim(log: seq<Comment>): (r: Option<Claim>)
    ensures r.None? <==> forall j :: 0 <= j < |Window(log)| ==> !IsClaim(Window(log)[j])
    ensures r.Some? ==> exists i :: |log| - |Window(log)| <= i < |log| && IsClaim(log[i])
                          && r.value == ToClaim(log[i])
                          && forall j :: i < j < |log| ==> !IsClaim(log[j])
  {
    var w := Window(log);
    match LastClaimIndex(w)
    case None => None
    case Some(i) =>
      LatestClaimAt(log, i);
      Some(ToClaim(w[i]))
  }

  /** The last claim of the window is the last claim of the whole stream. */
  lemma LatestClaimAt(log: seq<Comment>, i: nat)
    requires LastClaimIndex(Window(log)) == Some(i)
    ensures i < |Window(log)|
    ensures exists k :: |log| - |Window(log)| <= k < |log| && IsClaim(log[k])
                        && ToClaim(Window(log)[i]) == ToClaim(log[k])
                        && forall j :: k < j < |log| ==> !IsClaim(log[j])
  {
    var w := Window(log);
    var start := |log| - |w|;
    forall j | start + i < j < |log|
      ensures !IsClaim(log[j])
    {
      assert log[j] == w[j - start];
    }
    assert w[i] == log[start + i];
  }

  function Authoritative(rule: Rule, log: seq<Comment>): Option<Claim> {
    match rule
    case FirstMatch => FirstClaim(log)
    case LatestInWindow => LatestClaim(log)
  }

  /** The three tests of `_claim_issue` once the viewer login is known. */
  predicate Wins(claim: Option<Claim>, viewer: string, runId: string) {
    claim.Some? && claim.value.author == Some(viewer) && claim.value.runId == runId
  }

  /** One claim attempt. `me` is the account the comment is posted as,
      `others` what other workers append before our re-read, `viewer` the
      reply of the login lookup, and `postOk`/`readOk` whether the comment
      post and the re-read go through (each raises otherwise). Returns the
      stream after the attempt and whether the claim was won. */
  function ClaimIssue(rule: Rule, log: seq<Comment>, others: seq<Comment>, me: string,
                      viewer: Result<string>, worker: string, system: string, runId: string,
                      timestamp: string, postOk: bool, readOk: bool): (r: (seq<Comment>, Result<bool>))
    ensures !postOk ==> r.0 == log && r.1.Err?
    ensures postOk ==> r.0 == log + [Comment(Some(me), ClaimComment(worker, system, runId, timestamp), None)] + others
    ensures r.1 == Ok(true) <==>
              postOk && readOk && viewer.Ok? && Wins(Authoritative(rule, r.0), viewer.value, runId)
    ensures r.1.Err? ==> !postOk || !readOk || viewer.Err?
  {
    if !postOk then (log, Err("failed to post claim comment"))
    else
      var own := Comment(Some(me), ClaimComment(worker, system, runId, timestamp), None);
      var seen := log + [own] + others;
      if !readOk then (seen, Err("failed to read claim comments"))
      else
        match Authoritative(rule, seen)
        case None => (seen, Ok(false))
        case Some(claim) =>
          if viewer.Err? then (seen, Err(viewer.msg))
          else if claim.author != Some(viewer.value) then (seen, Ok(false))
          else if claim.runId != runId then (seen, Ok(false))
          else (seen, Ok(true))
  }

  // ---------------------------------------------------------------------------
  // Reading fields back from blocks

  lemma ColonPrefixes(s: string, k: string, f: string)
    requires FieldKey(k) && FieldKey(f)
    requires StartsWith(s, k + ":") && StartsWith(s, f + ":")
    ensures k == f
  {
    assert s[|k|] == ':' && s[|f|] == ':';
    assert |k| == |f|;
    assert k == s[..|k|] == f;
  }

  lemma FieldLineSingle(k: string, v: string)
    requires FieldKey(k) && SingleLine(v)
    ensures SingleLine(FieldLine(k, v)) && |FieldLine(k, v)| > 0
  {
    var l := FieldLine(k, v);
    forall j | 0 <= j < |l|
      ensures l[j] != '\n'
    {
      if j < |k| {
        assert l[j] == k[j];
      } else if j >= |k| + 2 {
        assert l[j] == v[j - |k| - 2];
      }
    }
  }

  /** A `key: value` line is found by its own key, and its value read back. */
  lemma FieldLineReads(k: string, v: string)
    requires FieldKey(k) && FieldValue(v)
    ensures StartsWith(Strip(FieldLine(k, v)), k + ":")
    ensures Strip(AfterFirst(FieldLine(k, v), ':')) == v
  {
    assert FieldLine(k, v) == (k + ":") + (" " + v);
    StripKeepsHead(k + ":", " " + v);
    assert FieldLine(k, v) == k + [':'] + (" " + v);
    IndexOfConcat(k, ':', " " + v);
    assert AfterFirst(FieldLine(k, v), ':') == " " + v;
    StripLeadingSpaces(" ", v);
  }

  /** A `key: value` line is never found by a different key. */
  lemma FieldLineOtherKey(k: string, v: string, f: string)
    requires FieldKey(k) && FieldKey(f) && k != f
    ensures !StartsWith(Strip(FieldLine(k, v)), f + ":")
  {
    assert FieldLine(k, v) == (k + ":") + (" " + v);
    StripKeepsHead(k + ":", " " + v);
    if StartsWith(Strip(FieldLine(k, v)), f + ":") {
      ColonPrefixes(Strip(FieldLine(k, v)), k, f);
    }
  }

  /** The lines of a block followed by a trailer that starts a new line. */
  lemma BlockLines(tag: string, fields: seq<(string, string)>, rest: string)
    requires |tag| > 0 && SingleLine(tag)
    requires forall i :: 0 <= i < |fields| ==> FieldKey(fields[i].0) && FieldValue(fields[i].1)
    requires rest == "" || rest[0] == '\n'
    ensures |SplitLines(Block(tag, fields) + rest)| >= |fields| + 1
    ensures SplitLines(Block(tag, fields) + rest)[..|fields| + 1] == BlockLineSeq(tag, fields)
  {
    var ls := BlockLineSeq(tag, fields);
    forall i | 0 <= i < |ls|
      ensures Lacks(ls[i], '\n') && |ls[i]| > 0
    {
      if i > 0 {
        FieldLineSingle(fields[i - 1].0, fields[i - 1].1);
      }
    }
    SplitJoin(ls, '\n');
    var b := Block(tag, fields);
    assert SplitOn(b, '\n') == ls;
    if rest == "" {
      assert b + rest == b;
      assert SplitLines(b) == ls;
    } else {
      assert b + rest == b + "\n" + rest[1..];
      SplitLinesAppend(b, rest[1..]);
    }
  }

  /** Round trip: the field reader finds the first field with the requested
      key and returns its value exactly, whatever follows on later lines. */
  lemma ReadBlockField(tag: string, fields: seq<(string, string)>, rest: string, i: nat)
    requires |tag| > 0 && SingleLine(tag)
    requires forall j :: 0 <= j < |fields| ==> FieldKey(fields[j].0) && FieldValue(fields[j].1)
    requires rest == "" || rest[0] == '\n'
    requires i < |fields| && forall j :: 0 <= j < i ==> fields[j].0 != fields[i].0
    requires !StartsWith(Strip(tag), fields[i].0 + ":")
    ensures ExtractClaimField(Block(tag, fields) + rest, fields[i].0) == fields[i].1
  {
    var f, v := fields[i].0, fields[i].1;
    var body := Block(tag, fields) + rest;
    var lines := SplitLines(body);
    assert i + 1 < |lines| && lines[i + 1] == FieldLine(f, v) by {
      BlockFieldLine(tag, fields, rest, i);
    }
    assert Opens(lines[i + 1], f + ":") && Strip(AfterFirst(lines[i + 1], ':')) == v by {
      FieldLineReads(f, v);
    }
    assert forall j :: 0 <= j < i + 1 ==> !Opens(lines[j], f + ":") by {
      BlockEarlierLines(tag, fields, rest, i);
    }
    assert FieldIn(lines, f + ":") == v by {
      FieldInFirst(lines, f + ":", i + 1);
    }
    assert body != "" by {
      SplitLinesEmpty();
    }
  }

  /** Line `i + 1` of a block is its `i`-th field. */
  lemma BlockFieldLine(tag: string, fields: seq<(string, string)>, rest: string, i: nat)
    requires |tag| > 0 && SingleLine(tag)
    requires forall j :: 0 <= j < |fields| ==> FieldKey(fields[j].0) && FieldValue(fields[j].1)
    requires rest == "" || rest[0] == '\n'
    requires i < |fields|
    ensures var lines := SplitLines(Block(tag, fields) + rest);
            i + 1 < |lines| && lines[i + 1] == FieldLine(fields[i].0, fields[i].1)
  {
    var lines := SplitLines(Block(tag, fields) + rest);
    BlockLines(tag, fields, rest);
    assert lines[..|fields| + 1][i + 1] == lines[i + 1];
  }

  /** No line before the first field with key `f` opens with `f:`. */
  lemma BlockEarlierLines(tag: string, fields: seq<(string, string)>, rest: string, i: nat)
    requires |tag| > 0 && SingleLine(tag)
    requires forall j :: 0 <= j < |fields| ==> FieldKey(fields[j].0) && FieldValue(fields[j].1)
    requires rest == "" || rest[0] == '\n'
    requires i < |fields| && forall j :: 0 <= j < i ==> fields[j].0 != fields[i].0
    requires !StartsWith(Strip(tag), fields[i].0 + ":")
    ensures var lines := SplitLines(Block(tag, fields) + rest);
            i + 1 < |lines| && forall j :: 0 <= j < i + 1 ==> !Opens(lines[j], fields[i].0 + ":")
  {
    var f := fields[i].0;
    var lines := SplitLines(Block(tag, fields) + rest);
    BlockLines(tag, fields, rest);
    forall j | 0 <= j < i + 1
      ensures !Opens(lines[j], f + ":")
    {
      assert lines[j] == lines[..|fields| + 1][j];
      if j > 0 {
        FieldLineOtherKey(fields[j - 1].0, fields[j - 1].1, f);
      }
    }
  }

  /** The fields of a claim comment, in the order they are written. */
  function ClaimFields(worker: string, system: string, runId: string, timestamp: string): seq<(string, string)> {
    [("worker", worker), ("system", system), ("run_id", runId), ("timestamp", timestamp)]
  }

  lemma ClaimFieldsWellFormed(worker: string, system: string, runId: string, timestamp: string)
    requires FieldValue(worker) && FieldValue(system) && FieldValue(runId) && FieldValue(timestamp)
    ensures var fs := ClaimFields(worker, system, runId, timestamp);
            forall j :: 0 <= j < |fs| ==> FieldKey(fs[j].0) && FieldValue(fs[j].1)
  {
    assert FieldKey("worker") && FieldKey("system") && FieldKey("run_id") && FieldKey("timestamp");
  }

  /** A trimmed tag with no colon never opens a `key:` line. */
  lemma TagIsNoField(tag: string, f: string)
    requires Trimmed(tag) && Lacks(tag, ':') && FieldKey(f)
    ensures !StartsWith(Strip(tag), f + ":")
  {
    StripTrimmed(tag);
    if |f| < |tag| {
      assert tag[..|f| + 1][|f|] == tag[|f|];
      assert (f + ":")[|f|] == ':';
    }
  }

  lemma ClaimTagShape()
    ensures |ClaimTag| > 0 && SingleLine(ClaimTag) && Trimmed(ClaimTag) && Lacks(ClaimTag, ':')
  {
  }

  lemma ClaimTagIsNoField(f: string)
    requires FieldKey(f)
    ensures |ClaimTag| > 0 && SingleLine(ClaimTag)
    ensures !StartsWith(Strip(ClaimTag), f + ":")
  {
    ClaimTagShape();
    TagIsNoField(ClaimTag, f);
  }

  lemma ClaimKeysDistinct()
    ensures "worker" != "run_id" && "system" != "run_id"
  {
    assert "worker"[0] != "run_id"[0] && "system"[0] != "run_id"[0];
  }

  /** The run id written into a claim block is the run id read back. */
  lemma ClaimBlockRunId(worker: string, system: string, runId: string, timestamp: string)
    ensures FieldValue(worker) && FieldValue(system) && FieldValue(runId) && FieldValue(timestamp) ==>
              ExtractClaimField(Block(ClaimTag, ClaimFields(worker, system, runId, timestamp)), "run_id") == runId
  {
    if FieldValue(worker) && FieldValue(system) && FieldValue(runId) && FieldValue(timestamp) {
      var fields := ClaimFields(worker, system, runId, timestamp);
      var body := Block(ClaimTag, fields);
      ClaimRunIdField(worker, system, runId, timestamp);
      ClaimTagIsNoField(fields[2].0);
      ReadBlockField(ClaimTag, fields, "", 2);
      ConcatEmpty(body);
    }
  }

  /** The run id is the third field of a claim comment and the first with
      its key. */
  lemma ClaimRunIdField(worker: string, system: string, runId: string, timestamp: string)
    requires FieldValue(worker) && FieldValue(system) && FieldValue(runId) && FieldValue(timestamp)
    ensures var fs := ClaimFields(worker, system, runId, timestamp);
            |fs| == 4 && fs[2] == ("run_id", runId)
            && (forall j :: 0 <= j < |fs| ==> FieldKey(fs[j].0) && FieldValue(fs[j].1))
            && forall j :: 0 <= j < 2 ==> fs[j].0 != fs[2].0
  {
    ClaimFieldsWellFormed(worker, system, runId, timestamp);
    ClaimKeysDistinct();
  }

  /** A block with at least one field opens with its tag line. */
  lemma BlockOpens(tag: string, fields: seq<(string, string)>)
    ensures |fields| > 0 ==> StartsWith(Block(tag, fields), tag + "\n")
    ensures Contains(Block(tag, fields), tag)
  {
    var ls := BlockLineSeq(tag, fields);
    if |fields| > 0 {
      JoinCons("\n", tag, ls[1..]);
      assert ls == [tag] + ls[1..];
      assert Block(tag, fields) == tag + "\n" + Join("\n", ls[1..]);
    }
    assert StartsWith(Block(tag, fields), tag);
  }

  // ---------------------------------------------------------------------------
  // Safety of the first-match rule

  /** Appending to the stream never changes which claim is first. */
  lemma {:induction false} FirstClaimStable(early: seq<Comment>, late: seq<Comment>)
    requires early <= late
    requires FirstClaimIndex(early).Some?
    ensures FirstClaimIndex(late) == FirstClaimIndex(early)
  {
    var i := FirstClaimIndex(early).value;
    assert late[i] == early[i];
    assert forall j :: 0 <= j < i ==> late[j] == early[j];
  }

  /** After our own claim comment is in the stream, the first-match lookup
      always finds some claim. */
  lemma OwnClaimVisible(log: seq<Comment>, own: Comment, others: seq<Comment>)
    requires IsClaim(own)
    ensures FirstClaim(log + [own] + others).Some?
  {
    assert (log + [own] + others)[|log|] == own;
  }

  /** Under the first-match rule, every winner carries the run id of the
      oldest claim comment of the final stream: the reads of all attempts
      are prefixes of that stream. */
  lemma FirstMatchWinnerIsOldestClaim(seen: seq<Comment>, final: seq<Comment>, viewer: string, runId: string)
    requires seen <= final
    requires Wins(FirstClaim(seen), viewer, runId)
    ensures FirstClaimIndex(final).Some?
    ensures runId == ToClaim(final[FirstClaimIndex(final).value]).runId
    ensures Some(viewer) == final[FirstClaimIndex(final).value].author
  {
    FirstClaimStable(seen, final);
  }

  /** No double claim under the first-match rule: two attempts, each started
      from whatever the stream held when that worker posted, whose resulting
      streams are both prefixes of one append-only stream and which both win,
      used the same run id; so attempts with distinct (fresh) run ids cannot
      both win, whichever order they post and re-read in. */
  lemma FirstMatchNoDoubleWin(
    logA: seq<Comment>, othersA: seq<Comment>, meA: string, viewerA: Result<string>,
    workerA: string, systemA: string, runA: string, tsA: string,
    logB: seq<Comment>, othersB: seq<Comment>, meB: string, viewerB: Result<string>,
    workerB: string, systemB: string, runB: string, tsB: string,
    final: seq<Comment>)
    requires var a := ClaimIssue(FirstMatch, logA, othersA, meA, viewerA, workerA, systemA, runA, tsA, true, true);
             var b := ClaimIssue(FirstMatch, logB, othersB, meB, viewerB, workerB, systemB, runB, tsB, true, true);
             a.0 <= final && b.0 <= final && a.1 == Ok(true) && b.1 == Ok(true)
    ensures runA == runB
  {
    var a := ClaimIssue(FirstMatch, logA, othersA, meA, viewerA, workerA, systemA, runA, tsA, true, true);
    var b := ClaimIssue(FirstMatch, logB, othersB, meB, viewerB, workerB, systemB, runB, tsB, true, true);
    FirstMatchWinnerIsOldestClaim(a.0, final, viewerA.value, runA);
    FirstMatchWinnerIsOldestClaim(b.0, final, viewerB.value, runB);
  }

  /** The interleaving that defeats the most-recent rule, under the first-match
      rule: worker A posts and re-reads, then worker B posts on the stream A
      left and re-reads. With distinct run ids at most one of them wins. */
  lemma FirstMatchSequentialNoDoubleWin(log: seq<Comment>, meA: string, meB: string,
                                        workerA: string, workerB: string, system: string,
                                        runA: string, runB: string, tsA: string, tsB: string)
    requires runA != runB
    ensures var a := ClaimIssue(FirstMatch, log, [], meA, Ok(meA), workerA, system, runA, tsA, true, true);
            var b := ClaimIssue(FirstMatch, a.0, [], meB, Ok(meB), workerB, system, runB, tsB, true, true);
            !(a.1 == Ok(true) && b.1 == Ok(true))
  {
    var a := ClaimIssue(FirstMatch, log, [], meA, Ok(meA), workerA, system, runA, tsA, true, true);
    var b := ClaimIssue(FirstMatch, a.0, [], meB, Ok(meB), workerB, system, runB, tsB, true, true);
    if a.1 == Ok(true) && b.1 == Ok(true) {
      FirstMatchNoDoubleWin(log, [], meA, Ok(meA), workerA, system, runA, tsA,
                            a.0, [], meB, Ok(meB), workerB, system, runB, tsB, b.0);
    }
  }

  /** Liveness of the first-match rule: when our comment is the oldest claim
      in the stream and the login lookup names our account, we win. */
  lemma FirstMatchOwnOldestWins(log: seq<Comment>, others: seq<Comment>, me: string,
                                worker: string, system: string, runId: string, timestamp: string)
    requires forall j :: 0 <= j < |log| ==> !IsClaim(log[j])
    requires FieldValue(worker) && FieldValue(system) && FieldValue(runId) && FieldValue(timestamp)
    ensures ClaimIssue(FirstMatch, log, others, me, Ok(me), worker, system, runId, timestamp, true, true).1 == Ok(true)
  {
    var own := Comment(Some(me), ClaimComment(worker, system, runId, timestamp), None);
    var seen := log + [own] + others;
    FirstClaimAfterNone(log, own, others);
  }

  /** In a stream with no claim before `own`, `own` is the first claim. */
  lemma FirstClaimAfterNone(log: seq<Comment>, own: Comment, others: seq<Comment>)
    requires forall j :: 0 <= j < |log| ==> !IsClaim(log[j])
    requires IsClaim(own)
    ensures FirstClaim(log + [own] + others) == Some(ToClaim(own))
  {
    var seen := log + [own] + others;
    assert seen[|log|] == own;
    assert forall j :: 0 <= j < |log| ==> seen[j] == log[j];
    assert FirstClaimIndex(seen) == Some(|log|);
  }

  /** A claim comment just appended is the latest claim. */
  lemma LatestOfAppended(log: seq<Comment>, own: Comment)
    requires IsClaim(own)
    ensures LatestClaim(log + [own]) == Some(ToClaim(own))
  {
    var seen := log + [own];
    var w := Window(seen);
    assert w[|w| - 1] == own;
    assert LastClaimIndex(w) == Some(|w| - 1);
  }

  /** Under the most-recent rule, a worker whose re-read shows nothing after
      its own claim wins. */
  lemma LatestOwnLastWins(log: seq<Comment>, me: string, worker: string, system: string,
                          runId: string, timestamp: string)
    requires FieldValue(worker) && FieldValue(system) && FieldValue(runId) && FieldValue(timestamp)
    ensures ClaimIssue(LatestInWindow, log, [], me, Ok(me), worker, system, runId, timestamp, true, true).1 == Ok(true)
  {
    var own := Comment(Some(me), ClaimComment(worker, system, runId, timestamp), None);
    assert log + [own] + [] == log + [own];
    LatestOfAppended(log, own);
  }

  /** The most-recent rule is not safe: worker A posts and re-reads before
      worker B posts; B then re-reads. Each sees its own claim as the latest,
      so both win although their run ids differ. */
  lemma LatestRuleDoubleWin(log: seq<Comment>, meA: string, meB: string, workerA: string, workerB: string,
                            system: string, runA: string, runB: string, tsA: string, tsB: string)
    requires FieldValue(workerA) && FieldValue(workerB) && FieldValue(system)
    requires FieldValue(runA) && FieldValue(runB) && FieldValue(tsA) && FieldValue(tsB)
    requires runA != runB
    ensures var a := ClaimIssue(LatestInWindow, log, [], meA, Ok(meA), workerA, system, runA, tsA, true, true);
            var b := ClaimIssue(LatestInWindow, a.0, [], meB, Ok(meB), workerB, system, runB, tsB, true, true);
            a.0 <= b.0 && a.1 == Ok(true) && b.1 == Ok(true)
  {
    var a := ClaimIssue(LatestInWindow, log, [], meA, Ok(meA), workerA, system, runA, tsA, true, true);
    LatestOwnLastWins(log, meA, workerA, system, runA, tsA);
    LatestOwnLastWins(a.0, meB, workerB, system, runB, tsB);
  }
}
