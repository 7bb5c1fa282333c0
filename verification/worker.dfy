/** The worker: reading a ticket's fields, naming its branch, writing the
    `[yt-status]` comments, detecting the machine type, and one claim-and-run
    cycle over the ready tickets with the status moves it makes. Every call
    to the tracker, git or the bringup task is an input reply; the cycle
    returns the effects it performed, in order. */
module Worker {
  import opened Base
  import opened Text
  import opened Claims
  import opened Sanitize
  import Project
  import Bringup

  // ---------------------------------------------------------------------------
  // Ticket body fields

  /** The template placeholders that stand for "no value". */
  function OptionalBlank(v: string): string {
    if v == "<optional>" || v == "<optional int>" then "" else v
  }

  /** What a parsed field looks like: a non-empty stripped key without ":",
      and a stripped value that is never a template placeholder. */
  predicate WellFormedField(key: string, value: string) {
    key != "" && Trimmed(key) && Lacks(key, ':')
    && Trimmed(value) && value != "<optional>" && value != "<optional int>"
  }

  /** What one line of a ticket body contributes: a stripped key and a
      stripped value split at the first ":", or nothing for a blank line, a
      line without ":" or an empty key. */
  function FieldOf(line: string): (r: Option<(string, string)>)
    ensures r.Some? ==> WellFormedField(r.value.0, r.value.1)
  {
    var t := Strip(line);
    var i := IndexOf(t, ':');
    if t == "" || i == |t| then None
    else
      var key := Strip(t[..i]);
      if key == "" then None
      else
        FieldShape(t, i);
        Some((key, OptionalBlank(Strip(t[i + 1..]))))
  }

  /** The key before the first ":" and the value after it make a
      well-formed field when the key is not empty. */
  lemma FieldShape(t: string, i: nat)
    requires i < |t| && forall j :: 0 <= j < i ==> t[j] != ':'
    requires Strip(t[..i]) != ""
    ensures WellFormedField(Strip(t[..i]), OptionalBlank(Strip(t[i + 1..])))
  {
    var key := Strip(t[..i]);
    StripLacks(t[..i], ':');
    assert Trimmed(key) && Lacks(key, ':');
    ValueShape(t[i + 1..]);
  }

  /** A stripped value, with the placeholders blanked, is stripped and no
      placeholder. */
  lemma ValueShape(v: string)
    ensures var b := OptionalBlank(Strip(v));
            Trimmed(b) && b != "<optional>" && b != "<optional int>"
  {
  }

  /** What each line contributes, in order. */
  function Entries(lines: seq<string>): (r: seq<Option<(string, string)>>)
    ensures |r| == |lines| && forall i :: 0 <= i < |lines| ==> r[i] == FieldOf(lines[i])
  {
    seq(|lines|, i requires 0 <= i < |lines| => FieldOf(lines[i]))
  }

  /** The fields of a sequence of entries; a later entry overwrites an
      earlier one with the same key. */
  function Collect(es: seq<Option<(string, string)>>): map<string, string>
    decreases |es|
  {
    if |es| == 0 then map[]
    else
      var prev := Collect(es[..|es| - 1]);
      match es[|es| - 1]
      case None => prev
      case Some(kv) => prev[kv.0 := kv.1]
  }

  /** `parse_issue_body(body)`. Every field it returns is well formed. */
  function ParseIssueBody(body: string): (r: map<string, string>)
    ensures forall k :: k in r ==> WellFormedField(k, r[k])
  {
    if body == "" then map[]
    else
      var es := Entries(SplitLines(body));
      CollectWellFormed(es);
      Collect(es)
  }

  /** Collecting well-formed entries gives well-formed fields. */
  lemma {:induction false} CollectWellFormed(es: seq<Option<(string, string)>>)
    requires forall i :: 0 <= i < |es| && es[i].Some? ==> WellFormedField(es[i].value.0, es[i].value.1)
    ensures forall k :: k in Collect(es) ==> WellFormedField(k, Collect(es)[k])
    decreases |es|
  {
    if |es| > 0 {
      var init := es[..|es| - 1];
      assert forall i :: 0 <= i < |init| ==> init[i] == es[i];
      CollectWellFormed(init);
    }
  }

  /** Entry `i` defines key `k`. */
  predicate DefinesAt(es: seq<Option<(string, string)>>, i: int, k: string) {
    0 <= i < |es| && es[i].Some? && es[i].value.0 == k
  }

  /** A key is present exactly when some line defines it. */
  lemma {:induction false} CollectKeys(es: seq<Option<(string, string)>>, k: string)
    ensures k in Collect(es) <==> exists i :: DefinesAt(es, i, k)
    decreases |es|
  {
    if |es| > 0 {
      var init := es[..|es| - 1];
      var last := |es| - 1;
      CollectKeys(init, k);
      assert forall i :: 0 <= i < |init| ==> init[i] == es[i];
      if es[last].Some? && es[last].value.0 == k {
        assert DefinesAt(es, last, k);
      } else {
        assert k in Collect(es) <==> k in Collect(init);
        if exists i :: DefinesAt(es, i, k) {
          var i :| DefinesAt(es, i, k);
          assert DefinesAt(init, i, k);
        }
        if k in Collect(init) {
          var i :| DefinesAt(init, i, k);
          assert DefinesAt(es, i, k);
        }
      }
    }
  }

  /** The value of a key is the one its last defining line gives. */
  lemma {:induction false} CollectLast(es: seq<Option<(string, string)>>, i: nat)
    requires i < |es| && es[i].Some?
    requires forall j :: i < j < |es| ==> !DefinesAt(es, j, es[i].value.0)
    ensures es[i].value.0 in Collect(es)
    ensures Collect(es)[es[i].value.0] == es[i].value.1
    decreases |es|
  {
    var kv := es[i].value;
    var init := es[..|es| - 1];
    if i < |es| - 1 {
      assert init[i] == es[i];
      forall j | i < j < |init|
        ensures !DefinesAt(init, j, kv.0)
      {
        assert init[j] == es[j];
        assert !DefinesAt(es, j, kv.0);
      }
      CollectLast(init, i);
      assert !DefinesAt(es, |es| - 1, kv.0);
    }
  }

  /** A present key holds the value of its last defining entry. */
  lemma {:induction false} CollectValue(es: seq<Option<(string, string)>>, k: string)
    requires k in Collect(es)
    ensures exists i :: DefinesAt(es, i, k) && Collect(es)[k] == es[i].value.1
                        && forall j :: i < j < |es| ==> !DefinesAt(es, j, k)
    decreases |es|
  {
    var last := |es| - 1;
    if DefinesAt(es, last, k) {
      assert Collect(es)[k] == es[last].value.1;
    } else {
      var init := es[..last];
      assert Collect(es) == Collect(init) || (es[last].Some? && Collect(es) == Collect(init)[es[last].value.0 := es[last].value.1]);
      CollectValue(init, k);
      var i :| DefinesAt(init, i, k) && Collect(init)[k] == init[i].value.1
               && forall j :: i < j < |init| ==> !DefinesAt(init, j, k);
      assert init[i] == es[i];
      forall j | i < j < |es|
        ensures !DefinesAt(es, j, k)
      {
        if j < last {
          assert init[j] == es[j];
          assert !DefinesAt(init, j, k);
        }
      }
      assert DefinesAt(es, i, k);
    }
  }

  /** A line of whitespace only is skipped. */
  lemma BlankLineSkipped(line: string)
    requires forall k :: 0 <= k < |line| ==> IsSpace(line[k])
    ensures FieldOf(line) == None
  {
    StripLeadingSpaces(line, "");
    assert line + "" == line;
  }

  /** A line without a colon is skipped. */
  lemma NoColonSkipped(line: string)
    requires Lacks(line, ':')
    ensures FieldOf(line) == None
  {
    var t := Strip(line);
    assert Lacks(t, ':');
  }

  /** Indentation made of spaces and tabs, as a template's lines have. */
  predicate Indent(s: string) {
    forall k :: 0 <= k < |s| ==> s[k] == ' ' || s[k] == '\t'
  }

  /** An indented `key: value` line reads back as its key and value. */
  lemma FieldOfLine(indent: string, k: string, v: string)
    requires Indent(indent) && FieldKey(k) && FieldValue(v) && |v| > 0
    ensures FieldOf(indent + FieldLine(k, v)) == Some((k, OptionalBlank(v)))
  {
    var l := FieldLine(k, v);
    IndentedStrip(indent, k, v);
    FieldLineColon(k, v);
    StripTrimmed(k);
    FieldLineReads(k, v);
    FieldOfSplit(indent + l, l, |k|);
  }

  lemma IndentedStrip(indent: string, k: string, v: string)
    requires Indent(indent) && |k| > 0 && !IsSpace(k[0]) && |v| > 0 && !IsSpace(v[|v| - 1])
    ensures Strip(indent + FieldLine(k, v)) == FieldLine(k, v)
  {
    var l := FieldLine(k, v);
    assert l[0] == k[0] && l[|l| - 1] == v[|v| - 1];
    StripLeadingSpaces(indent, l);
  }

  /** The first colon of a `key: value` line ends the key. */
  lemma FieldLineColon(k: string, v: string)
    requires FieldKey(k)
    ensures var l := FieldLine(k, v);
            IndexOf(l, ':') == |k| && l[..|k|] == k && l[|k| + 1..] == " " + v
  {
    var l := FieldLine(k, v);
    assert l == k + [':'] + (" " + v);
    assert ':' !in k by {
      assert forall j :: 0 <= j < |k| ==> k[j] != ':';
    }
    IndexOfConcat(k, ':', " " + v);
  }

  /** Unfolds `FieldOf` once the stripped line and its first colon are known. */
  lemma FieldOfSplit(line: string, t: string, i: nat)
    requires Strip(line) == t && i < |t| && IndexOf(t, ':') == i && Strip(t[..i]) != ""
    ensures FieldOf(line) == Some((Strip(t[..i]), OptionalBlank(Strip(t[i + 1..]))))
  {
  }

  /** The lines of a ticket written from the template: an empty first line,
      one indented `key: value` line per field, and a last line holding the
      indentation before the closing quotes. */
  function TemplateLines(indent: string, fields: seq<(string, string)>): (r: seq<string>)
    ensures |r| == |fields| + 2 && r[0] == "" && r[|r| - 1] == indent
    ensures forall i :: 0 <= i < |fields| ==> r[i + 1] == indent + FieldLine(fields[i].0, fields[i].1)
  {
    [""] + seq(|fields|, i requires 0 <= i < |fields| => indent + FieldLine(fields[i].0, fields[i].1)) + [indent]
  }

  function TemplateBody(indent: string, fields: seq<(string, string)>): string {
    Join("\n", TemplateLines(indent, fields))
  }

  predicate DistinctKeys(fields: seq<(string, string)>) {
    forall i, j :: 0 <= i < j < |fields| ==> fields[i].0 != fields[j].0
  }

  predicate WellFormedFields(fields: seq<(string, string)>) {
    forall i :: 0 <= i < |fields| ==> FieldKey(fields[i].0) && FieldValue(fields[i].1) && |fields[i].1| > 0
  }

  lemma TemplateSplits(indent: string, fields: seq<(string, string)>)
    requires Indent(indent) && |indent| > 0 && WellFormedFields(fields)
    ensures SplitLines(TemplateBody(indent, fields)) == TemplateLines(indent, fields)
  {
    var ls := TemplateLines(indent, fields);
    forall i | 0 <= i < |ls|
      ensures Lacks(ls[i], '\n')
    {
      if 0 < i < |ls| - 1 {
        var f := fields[i - 1];
        FieldLineSingle(f.0, f.1);
        var l := indent + FieldLine(f.0, f.1);
        forall j | 0 <= j < |l|
          ensures l[j] != '\n'
        {
          if j >= |indent| {
            assert l[j] == FieldLine(f.0, f.1)[j - |indent|];
          }
        }
      }
    }
    SplitJoin(ls, '\n');
  }

  /** What the template lines contribute: nothing for the first and last
      line, and each field for its own line. */
  function TemplateEntries(fields: seq<(string, string)>): (r: seq<Option<(string, string)>>)
    ensures |r| == |fields| + 2 && r[0].None? && r[|r| - 1].None?
    ensures forall i :: 0 <= i < |fields| ==> r[i + 1] == Some((fields[i].0, OptionalBlank(fields[i].1)))
  {
    [None] + seq(|fields|, i requires 0 <= i < |fields| => Some((fields[i].0, OptionalBlank(fields[i].1)))) + [None]
  }

  lemma TemplateEntriesRead(indent: string, fields: seq<(string, string)>)
    requires Indent(indent) && |indent| > 0 && WellFormedFields(fields)
    ensures ParseIssueBody(TemplateBody(indent, fields)) == Collect(TemplateEntries(fields))
  {
    var body := TemplateBody(indent, fields);
    var ls := TemplateLines(indent, fields);
    TemplateSplits(indent, fields);
    assert body != "" by {
      assert |ls| >= 2;
      assert SplitLines(body) == ls;
    }
    TemplateLineEntries(indent, fields);
  }

  /** Each template line parses to its entry. */
  lemma TemplateLineEntries(indent: string, fields: seq<(string, string)>)
    requires Indent(indent) && |indent| > 0 && WellFormedFields(fields)
    ensures Entries(TemplateLines(indent, fields)) == TemplateEntries(fields)
  {
    var es := Entries(TemplateLines(indent, fields));
    var ts := TemplateEntries(fields);
    forall i | 0 <= i < |es|
      ensures es[i] == ts[i]
    {
      TemplateLineEntry(indent, fields, i);
    }
  }

  lemma TemplateLineEntry(indent: string, fields: seq<(string, string)>, i: nat)
    requires Indent(indent) && |indent| > 0 && WellFormedFields(fields) && i < |fields| + 2
    ensures FieldOf(TemplateLines(indent, fields)[i]) == TemplateEntries(fields)[i]
  {
    var ls := TemplateLines(indent, fields);
    if i == 0 {
      BlankLineSkipped("");
    } else if i == |fields| + 1 {
      BlankLineSkipped(indent);
    } else {
      var f := fields[i - 1];
      assert ls[i] == indent + FieldLine(f.0, f.1);
      FieldOfLine(indent, f.0, f.1);
    }
  }

  lemma CollectTemplate(fields: seq<(string, string)>)
    requires DistinctKeys(fields)
    ensures forall i :: 0 <= i < |fields| ==>
              fields[i].0 in Collect(TemplateEntries(fields))
              && Collect(TemplateEntries(fields))[fields[i].0] == OptionalBlank(fields[i].1)
    ensures forall k :: k in Collect(TemplateEntries(fields)) ==>
              exists i :: 0 <= i < |fields| && fields[i].0 == k
  {
    var es := TemplateEntries(fields);
    forall i | 0 <= i < |fields|
      ensures fields[i].0 in Collect(es) && Collect(es)[fields[i].0] == OptionalBlank(fields[i].1)
    {
      forall j | i + 1 < j < |es|
        ensures !DefinesAt(es, j, fields[i].0)
      {
        if j < |es| - 1 {
          assert fields[j - 1].0 != fields[i].0;
        }
      }
      CollectLast(es, i + 1);
    }
    forall k | k in Collect(es)
      ensures exists i :: 0 <= i < |fields| && fields[i].0 == k
    {
      CollectKeys(es, k);
      var j :| DefinesAt(es, j, k);
      assert 0 < j < |es| - 1;
      assert fields[j - 1].0 == k;
    }
  }

  /** Parsing a ticket written from the template with distinct keys gives
      exactly those keys, each with its value (placeholders blanked). */
  lemma ParseTemplate(indent: string, fields: seq<(string, string)>)
    requires Indent(indent) && |indent| > 0 && WellFormedFields(fields) && DistinctKeys(fields)
    ensures forall i :: 0 <= i < |fields| ==>
              fields[i].0 in ParseIssueBody(TemplateBody(indent, fields))
              && ParseIssueBody(TemplateBody(indent, fields))[fields[i].0] == OptionalBlank(fields[i].1)
    ensures forall k :: k in ParseIssueBody(TemplateBody(indent, fields)) ==>
              exists i :: 0 <= i < |fields| && fields[i].0 == k
  {
    TemplateEntriesRead(indent, fields);
    CollectTemplate(fields);
  }

  /** Over any body, a key is present exactly when one of its lines
      defines it, and then holds the value its last such line gives. */
  lemma ParseIssueBodyLines(body: string, k: string)
    ensures var es := Entries(SplitLines(body));
            k in ParseIssueBody(body) <==> exists i :: DefinesAt(es, i, k)
    ensures var es := Entries(SplitLines(body));
            k in ParseIssueBody(body) ==>
              exists i :: DefinesAt(es, i, k) && ParseIssueBody(body)[k] == es[i].value.1
                          && forall j :: i < j < |es| ==> !DefinesAt(es, j, k)
  {
    var es := Entries(SplitLines(body));
    if body == "" {
      assert SplitOn("", '\n') == [""];
      assert es == [];
    }
    CollectKeys(es, k);
    if k in ParseIssueBody(body) {
      CollectValue(es, k);
    }
  }

  // ---------------------------------------------------------------------------
  // Outcome classification

  datatype Outcome = SetupErrorOutcome | FailedOutcome | SuccessOutcome

  /** What a finished bringup task reports. */
  datatype TaskResult = TaskResult(success: bool, summary: Option<string>, errors: Option<string>)

  /** `classify_outcome(result, error)`: any raised error is a setup error;
      otherwise only a reported non-success is a failure. */
  function ClassifyOutcome(result: Option<TaskResult>, error: Option<string>): (o: Outcome)
    ensures error.Some? ==> o == SetupErrorOutcome
    ensures error.None? ==> (o == FailedOutcome <==> result.Some? && !result.value.success)
    ensures error.None? ==> (o == SuccessOutcome <==> result.None? || result.value.success)
  {
    if error.Some? then SetupErrorOutcome
    else if result.Some? && !result.value.success then FailedOutcome
    else SuccessOutcome
  }

  // ---------------------------------------------------------------------------
  // Optional integers

  /** The `ValueError` text of `int(v)` for a text that is not an integer:
      the literal is shown in single quotes, as `repr` shows a text without
      quotes, backslashes or unprintable characters. */
  function InvalidLiteral(v: string): string {
    "invalid literal for int() with base 10: '" + v + "'"
  }

  /** `_int_or_none(value)`: absent or blank means no value; otherwise the
      stripped text must be an integer. */
  function IntOrNone(value: Option<string>): (r: Result<Option<int>>)
    ensures value.None? ==> r == Ok(None)
    ensures r.Ok? && r.value.Some? ==> value.Some? && ParseInt(Strip(value.value)) == r.value
    ensures value.Some? && Strip(value.value) != "" ==> (r.Ok? <==> ParseInt(Strip(value.value)).Some?)
    ensures r.Err? ==> value.Some? && r.msg == InvalidLiteral(Strip(value.value))
  {
    if value.None? then Ok(None)
    else
      var v := Strip(value.value);
      if v == "" then Ok(None)
      else match ParseInt(v)
        case None => Err(InvalidLiteral(v))
        case Some(n) => Ok(Some(n))
  }

  /** An integer written with surrounding whitespace reads back. */
  lemma IntOrNoneRoundTrip(pad: string, n: int)
    requires forall k :: 0 <= k < |pad| ==> IsSpace(pad[k])
    ensures IntOrNone(Some(pad + IntToString(n))) == Ok(Some(n))
  {
    var s := IntToString(n);
    assert !IsSpace(s[0]) && !IsSpace(s[|s| - 1]);
    StripLeadingSpaces(pad, s);
    ParseIntToString(n);
  }

  /** A blank value is no value. */
  lemma IntOrNoneBlank(value: string)
    requires forall k :: 0 <= k < |value| ==> IsSpace(value[k])
    ensures IntOrNone(Some(value)) == Ok(None)
  {
    StripLeadingSpaces(value, "");
    assert value + "" == value;
  }

  // ---------------------------------------------------------------------------
  // System detection

  /** Length of the run of whitespace starting at `j`. */
  function SpaceRun(t: string, j: nat): (n: nat)
    requires j <= |t|
    ensures j + n <= |t|
    ensures forall k :: j <= k < j + n ==> IsSpace(t[k])
    ensures j + n == |t| || !IsSpace(t[j + n])
    decreases |t| - j
  {
    if j < |t| && IsSpace(t[j]) then 1 + SpaceRun(t, j + 1) else 0
  }

  /** End of the whitespace run after an "n300" at `i`. */
  function AfterN300(t: string, i: nat): nat
    requires i + 4 <= |t|
  {
    i + 4 + SpaceRun(t, i + 4)
  }

  /** A match of `\bn300\s+l\b` starts at `i`. The whitespace run is taken
      whole: a shorter one would leave whitespace where "l" must be. */
  predicate N300LAt(t: string, i: nat) {
    i + 4 <= |t| && t[i..i + 4] == "n300" && (i == 0 || !IsWordChar(t[i - 1]))
    && var k := AfterN300(t, i);
       k > i + 4 && k < |t| && t[k] == 'l' && (k + 1 == |t| || !IsWordChar(t[k + 1]))
  }

  /** Two matches never overlap, so counting start positions counts what
      `re.findall` returns. */
  lemma N300LDisjoint(t: string, i: nat, j: nat)
    requires N300LAt(t, i) && N300LAt(t, j) && i < j
    ensures j > AfterN300(t, i)
  {
    var k := AfterN300(t, i);
    assert t[j] == t[j..j + 4][0] == 'n';
  }

  /** How many `j` in `[i, n)` satisfy `p`. */
  function CountWhere(p: nat -> bool, i: nat, n: nat): nat
    requires i <= n
    decreases n - i
  {
    if i == n then 0 else (if p(i) then 1 else 0) + CountWhere(p, i + 1, n)
  }

  lemma {:induction false} CountWhereCard(p: nat -> bool, i: nat, n: nat)
    requires i <= n
    ensures CountWhere(p, i, n) == |set j: nat | i <= j < n && p(j)|
    decreases n - i
  {
    var s := set j: nat | i <= j < n && p(j);
    if i == n {
      assert s == {};
    } else {
      CountWhereCard(p, i + 1, n);
      var s' := set j: nat | i + 1 <= j < n && p(j);
      if p(i) {
        assert s == {i} + s';
      } else {
        assert s == s';
      }
    }
  }

  /** Where the matches of `\bn300\s+l\b` start. */
  function MatchStarts(t: string): set<nat> {
    set j: nat | j < |t| && N300LAt(t, j)
  }

  /** The number of matches `re.findall` returns. */
  function N300LCount(t: string): (n: nat)
    ensures n == |MatchStarts(t)|
  {
    var p := (j: nat) => N300LAt(t, j);
    CountWhereCard(p, 0, |t|);
    assert (set j: nat | 0 <= j < |t| && p(j)) == MatchStarts(t);
    CountWhere(p, 0, |t|)
  }

  const SmiFailed: string := "Failed to run tt-smi -ls to detect YT_SYSTEM"
  const SmiEmpty: string := "tt-smi -ls output is empty, cannot detect system"
  const SmiUnknown: string := "Unable to detect system type from tt-smi output"

  /** `detect_system`, given the exit status and output of `tt-smi -ls`:
      any "n150" wins; otherwise four or more `n300 L` rows make a
      LoudBox ("lb") and one to three an "n300". */
  function DetectSystem(rc: int, stdout: string): (r: Result<string>)
    ensures rc != 0 ==> r == Err(SmiFailed)
    ensures rc == 0 && stdout == "" ==> r == Err(SmiEmpty)
    ensures r == Ok("n150") <==> rc == 0 && stdout != "" && Contains(Lower(stdout), "n150")
    ensures rc == 0 && stdout != "" && !Contains(Lower(stdout), "n150") ==>
              var n := |MatchStarts(Lower(stdout))|;
              (r == Ok("lb") <==> n >= 4) && (r == Ok("n300") <==> 1 <= n <= 3)
              && (r == Err(SmiUnknown) <==> n == 0)
  {
    if rc != 0 then Err(SmiFailed)
    else if stdout == "" then Err(SmiEmpty)
    else
      var text := Lower(stdout);
      if Contains(text, "n150") then Ok("n150")
      else
        var n := N300LCount(text);
        assert "n300"[1] != "n150"[1];
        if n >= 4 then Ok("lb") else if n >= 1 then Ok("n300") else Err(SmiUnknown)
  }

  // ---------------------------------------------------------------------------
  // Branch names

  const BranchPrefix: string := "bringup/issue-"

  /** A character a branch name may hold: `[a-z0-9._-]` or "/". */
  predicate BranchChar(c: char) {
    Allowed(c) || c == '/'
  }

  /** `_branch_name(issue_number, hf_model_id)`: under `bringup/`, and made
      of lower-case letters, digits, ".", "_", "-" and "/" only, so it needs
      no quoting in a git command. */
  function BranchName(number: int, hfModelId: string): (r: string)
    ensures StartsWith(r, BranchPrefix)
    ensures forall k :: 0 <= k < |r| ==> BranchChar(r[k])
  {
    var id := SanitizeBranchName(hfModelId);
    BranchShape(number, id);
    BranchPrefix + IntToString(number) + "-" + id
  }

  /** The prefix, the number and the dash are branch characters, and so
      is every character of a sanitized id. */
  lemma BranchShape(number: int, id: string)
    requires AllAllowed(id)
    ensures var r := BranchPrefix + IntToString(number) + "-" + id;
            StartsWith(r, BranchPrefix) && forall k :: 0 <= k < |r| ==> BranchChar(r[k])
  {
    var d := IntToString(number);
    var r := BranchPrefix + d + "-" + id;
    assert r[..|BranchPrefix|] == BranchPrefix;
    forall k | 0 <= k < |r|
      ensures BranchChar(r[k])
    {
      if k < |BranchPrefix| {
        assert r[k] == BranchPrefix[k];
      } else if k < |BranchPrefix| + |d| {
        assert r[k] == d[k - |BranchPrefix|];
      } else if k > |BranchPrefix| + |d| {
        assert r[k] == id[k - |BranchPrefix| - |d| - 1];
      }
    }
  }

  /** The ticket number and the sanitized model id can be read back from a
      branch name: after the prefix, the digits up to the first "-" are the
      number and the rest is the clean sanitized id. */
  lemma BranchNameReadsBack(number: nat, id: string)
    ensures var b := BranchName(number, id);
            StartsWith(b, BranchPrefix)
            && var rest := b[|BranchPrefix|..];
               var k := IndexOf(rest, '-');
               k < |rest| && ParseInt(rest[..k]) == Some(number)
               && rest[k + 1..] == SanitizeBranchName(id) && Clean(rest[k + 1..])
  {
    var digits := IntToString(number);
    assert '-' !in digits by {
      assert AllDigits(digits);
    }
    DashSeparated(BranchPrefix, digits, SanitizeBranchName(id));
    ParseIntToString(number);
  }

  /** `prefix + head + "-" + tail` splits back into its parts when `head`
      has no dash. */
  lemma DashSeparated(prefix: string, head: string, tail: string)
    requires '-' !in head
    ensures var b := prefix + head + "-" + tail;
            StartsWith(b, prefix)
            && var rest := b[|prefix|..];
               IndexOf(rest, '-') == |head| < |rest|
               && rest[..|head|] == head && rest[|head| + 1..] == tail
  {
    var b := prefix + head + "-" + tail;
    var rest := b[|prefix|..];
    assert b[..|prefix|] == prefix;
    assert rest == head + ['-'] + tail;
    IndexOfConcat(head, '-', tail);
    assert rest[..|head|] == head;
    assert rest[|head| + 1..] == tail;
  }

  /** Different tickets never share a branch. */
  lemma BranchNamesDistinct(n1: nat, n2: nat, id1: string, id2: string)
    requires n1 != n2
    ensures BranchName(n1, id1) != BranchName(n2, id2)
  {
    BranchNameReadsBack(n1, id1);
    BranchNameReadsBack(n2, id2);
  }

  // ---------------------------------------------------------------------------
  // Status comments

  const StatusTag: string := "[yt-status]"
  const NoChecksRepro: string := "(setup failed before checks)"
  const DefaultFailureSummary: string := "Bringup attempts exhausted"

  function SetupErrorFields(runId: string, summary: string): seq<(string, string)> {
    [("status", "setup error"), ("run_id", runId), ("summary", summary), ("repro", NoChecksRepro)]
  }

  /** The comment `_handle_setup_error` posts; it opens with the status tag line. */
  function SetupErrorComment(runId: string, summary: string): (r: string)
    ensures StartsWith(r, StatusTag + "\n")
  {
    BlockOpens(StatusTag, SetupErrorFields(runId, summary));
    Block(StatusTag, SetupErrorFields(runId, summary))
  }

  /** `result.summary or "Bringup attempts exhausted"`. */
  function FailureSummary(result: TaskResult): string {
    if result.summary.None? || result.summary.value == "" then DefaultFailureSummary else result.summary.value
  }

  function FailureFields(runId: string, result: TaskResult, branch: string): seq<(string, string)> {
    [("status", "failed"), ("run_id", runId), ("summary", FailureSummary(result)),
     ("error", result.errors.GetOr("")), ("branch", branch)]
  }

  /** `_failure_comment`: the block, then the repro commands on their own
      lines; it opens with the status tag line. */
  function FailureComment(runId: string, result: TaskResult, branch: string, commands: string): (r: string)
    ensures StartsWith(r, StatusTag + "\n")
  {
    var b := Block(StatusTag, FailureFields(runId, result, branch));
    BlockOpens(StatusTag, FailureFields(runId, result, branch));
    StartsWithAppend(b, "\nrepro:\n" + commands, StatusTag + "\n");
    b + ("\nrepro:\n" + commands)
  }

  function SuccessFields(runId: string, summary: string, prUrl: string): seq<(string, string)> {
    [("status", "in review"), ("run_id", runId), ("summary", summary), ("pr", prUrl)]
  }

  /** `_success_comment`; the metrics summary line is an input. It opens
      with the status tag line. */
  function SuccessComment(runId: string, summary: string, prUrl: string, commands: string): (r: string)
    ensures StartsWith(r, StatusTag + "\n")
  {
    var b := Block(StatusTag, SuccessFields(runId, summary, prUrl));
    BlockOpens(StatusTag, SuccessFields(runId, summary, prUrl));
    StartsWithAppend(b, "\nrepro:\n" + commands, StatusTag + "\n");
    b + ("\nrepro:\n" + commands)
  }

  lemma StatusTagShape()
    ensures |StatusTag| > 0 && SingleLine(StatusTag) && Trimmed(StatusTag) && Lacks(StatusTag, ':')
  {
  }

  lemma StatusTagIsNoField(f: string)
    requires FieldKey(f)
    ensures |StatusTag| > 0 && SingleLine(StatusTag)
    ensures !StartsWith(Strip(StatusTag), f + ":")
  {
    StatusTagShape();
    TagIsNoField(StatusTag, f);
  }

  lemma StatusKeys()
    ensures FieldKey("status") && FieldKey("run_id") && FieldKey("summary") && FieldKey("repro")
    ensures FieldKey("error") && FieldKey("branch") && FieldKey("pr")
    ensures FieldValue("setup error") && FieldValue(NoChecksRepro)
    ensures FieldValue("failed") && FieldValue("in review") && FieldValue(DefaultFailureSummary)
  {
    StatusKeyNames();
    StatusValueWords();
    StatusValueSentences();
  }

  lemma StatusKeyNames()
    ensures FieldKey("status") && FieldKey("run_id") && FieldKey("summary") && FieldKey("repro")
    ensures FieldKey("error") && FieldKey("branch") && FieldKey("pr")
  {
  }

  lemma StatusValueWords()
    ensures FieldValue("setup error") && FieldValue("failed") && FieldValue("in review")
  {
  }

  lemma StatusValueSentences()
    ensures FieldValue(NoChecksRepro) && FieldValue(DefaultFailureSummary)
  {
  }

  predicate BlockFields(fs: seq<(string, string)>) {
    forall j :: 0 <= j < |fs| ==> FieldKey(fs[j].0) && FieldValue(fs[j].1)
  }

  /** Any field of a status block, followed by anything on later lines,
      reads back through the claim-field reader. */
  lemma StatusBlockReads(fs: seq<(string, string)>, rest: string, i: nat)
    requires BlockFields(fs) && DistinctKeys(fs) && i < |fs|
    requires rest == "" || rest[0] == '\n'
    ensures ExtractClaimField(Block(StatusTag, fs) + rest, fs[i].0) == fs[i].1
  {
    StatusTagIsNoField(fs[i].0);
    ReadBlockField(StatusTag, fs, rest, i);
  }

  lemma SetupErrorFieldsOk(runId: string, summary: string)
    requires FieldValue(runId) && FieldValue(summary)
    ensures BlockFields(SetupErrorFields(runId, summary)) && DistinctKeys(SetupErrorFields(runId, summary))
  {
    StatusKeys();
    assert "status"[0] != "run_id"[0];
  }

  /** The setup-error comment reads back through the claim-field reader:
      its status, run id and summary. */
  lemma SetupErrorCommentReads(runId: string, summary: string)
    requires FieldValue(runId) && FieldValue(summary)
    ensures ExtractClaimField(SetupErrorComment(runId, summary), "status") == "setup error"
    ensures ExtractClaimField(SetupErrorComment(runId, summary), "run_id") == runId
    ensures ExtractClaimField(SetupErrorComment(runId, summary), "summary") == summary
  {
    var fs := SetupErrorFields(runId, summary);
    var c := SetupErrorComment(runId, summary);
    assert c + "" == c;
    SetupErrorFieldsOk(runId, summary);
    StatusBlockReads(fs, "", 0);
    StatusBlockReads(fs, "", 1);
    StatusBlockReads(fs, "", 2);
  }

  lemma FailureFieldsOk(runId: string, result: TaskResult, branch: string)
    requires FieldValue(runId) && FieldValue(branch)
    requires result.summary.Some? ==> FieldValue(result.summary.value)
    requires result.errors.Some? ==> FieldValue(result.errors.value)
    ensures BlockFields(FailureFields(runId, result, branch)) && DistinctKeys(FailureFields(runId, result, branch))
  {
    StatusKeys();
    assert "status"[0] != "run_id"[0];
    assert "branch"[0] != "status"[0] && "branch"[0] != "run_id"[0];
  }

  /** The failure comment reads back its status, run id, summary (the
      default when the task gave none) and branch. */
  lemma FailureCommentReads(runId: string, result: TaskResult, branch: string, commands: string)
    requires FieldValue(runId) && FieldValue(branch)
    requires result.summary.Some? ==> FieldValue(result.summary.value)
    requires result.errors.Some? ==> FieldValue(result.errors.value)
    ensures var c := FailureComment(runId, result, branch, commands);
            ExtractClaimField(c, "status") == "failed"
            && ExtractClaimField(c, "run_id") == runId
            && ExtractClaimField(c, "summary") == FailureSummary(result)
            && ExtractClaimField(c, "error") == result.errors.GetOr("")
            && ExtractClaimField(c, "branch") == branch
  {
    var fs := FailureFields(runId, result, branch);
    var rest := "\nrepro:\n" + commands;
    assert FailureComment(runId, result, branch, commands) == Block(StatusTag, fs) + rest;
    FailureFieldsOk(runId, result, branch);
    StatusBlockReads(fs, rest, 0);
    StatusBlockReads(fs, rest, 1);
    StatusBlockReads(fs, rest, 2);
    StatusBlockReads(fs, rest, 3);
    StatusBlockReads(fs, rest, 4);
  }

  lemma SuccessFieldsOk(runId: string, summary: string, prUrl: string)
    requires FieldValue(runId) && FieldValue(summary) && FieldValue(prUrl)
    ensures BlockFields(SuccessFields(runId, summary, prUrl)) && DistinctKeys(SuccessFields(runId, summary, prUrl))
  {
    StatusKeys();
    assert "status"[0] != "run_id"[0];
  }

  /** The success comment reads back its status, run id, summary and PR link. */
  lemma SuccessCommentReads(runId: string, summary: string, prUrl: string, commands: string)
    requires FieldValue(runId) && FieldValue(summary) && FieldValue(prUrl)
    ensures var c := SuccessComment(runId, summary, prUrl, commands);
            ExtractClaimField(c, "status") == "in review"
            && ExtractClaimField(c, "run_id") == runId
            && ExtractClaimField(c, "summary") == summary
            && ExtractClaimField(c, "pr") == prUrl
  {
    var fs := SuccessFields(runId, summary, prUrl);
    var rest := "\nrepro:\n" + commands;
    assert SuccessComment(runId, summary, prUrl, commands) == Block(StatusTag, fs) + rest;
    SuccessFieldsOk(runId, summary, prUrl);
    StatusBlockReads(fs, rest, 0);
    StatusBlockReads(fs, rest, 1);
    StatusBlockReads(fs, rest, 2);
    StatusBlockReads(fs, rest, 3);
  }

  // ---------------------------------------------------------------------------
  // Task construction

  /** `fields.get(key)`. */
  function Get(fields: map<string, string>, key: string): Option<string> {
    if key in fields then Some(fields[key]) else None
  }

  const MissingModelId: string := "Missing hf_model_id in issue body"

  /** The task `_run_task` builds from a ticket's fields: a model id is
      required, the three optional sizes must be integers when given, and
      the branch is named after the ticket and the model. Each setting is
      bound to the task parameter of its own name (`Bringup.BindNamed`);
      the positional call as written shifts them (`Bringup.BindPositional`). */
  function TaskConfig(w: WorkerConfig, number: int, fields: map<string, string>): (r: Result<Bringup.Config>)
    ensures ("hf_model_id" !in fields || fields["hf_model_id"] == "") ==> r == Err(MissingModelId)
    ensures r.Ok? ==> "hf_model_id" in fields && r.value.hfModelId == fields["hf_model_id"] != ""
                      && r.value.branch == BranchName(number, fields["hf_model_id"])
                      && r.value.system == w.system
                      && IntOrNone(Get(fields, "prefill_len")) == Ok(r.value.prefillLen)
                      && IntOrNone(Get(fields, "decode_len")) == Ok(r.value.decodeLen)
                      && IntOrNone(Get(fields, "batch")) == Ok(r.value.batch)
    ensures r.Err? && "hf_model_id" in fields && fields["hf_model_id"] != "" ==>
              IntOrNone(Get(fields, "prefill_len")).Err? || IntOrNone(Get(fields, "decode_len")).Err?
              || IntOrNone(Get(fields, "batch")).Err?
  {
    var hf := Get(fields, "hf_model_id");
    if hf.None? || hf.value == "" then Err(MissingModelId)
    else
      var prefill :- IntOrNone(Get(fields, "prefill_len"));
      var decode :- IntOrNone(Get(fields, "decode_len"));
      var batch :- IntOrNone(Get(fields, "batch"));
      Ok(Bringup.Config(BranchName(number, hf.value), hf.value, w.system, w.top1Min, w.top5Min,
                        w.owner, w.repo, prefill, decode, batch))
  }

  // ---------------------------------------------------------------------------
  // One claim-and-run cycle

  /** A ticket's column on the project board. */
  datatype Status = Ready | InProgress | InReview | Failed | SetupErrorStatus

  /** The option name the board uses for each column. */
  function StatusName(s: Status): string {
    match s
    case Ready => "ready"
    case InProgress => "in progress"
    case InReview => "in review"
    case Failed => "failed"
    case SetupErrorStatus => "setup error"
  }

  /** The column each outcome ends in. */
  function StatusOf(o: Outcome): Status {
    match o
    case SetupErrorOutcome => SetupErrorStatus
    case FailedOutcome => Failed
    case SuccessOutcome => InReview
  }

  /** The changes a cycle makes outside the worker, in order. */
  datatype Effect =
    | Posted(number: int, body: string)
    | Moved(number: int, to: Status)
    | RanTask(number: int, config: Bringup.Config)
    | Pushed(branch: string)
    | OpenedPr(title: string, branch: string)

  /** The worker's settings: its account login, its name, the machine type,
      the score thresholds and the repository its branches go to. */
  datatype WorkerConfig = WorkerConfig(dryRun: bool, me: string, worker: string, system: string, rule: Rule,
                                       top1Min: real, top5Min: real, owner: string, repo: string)

  /** What the tracker answers while one ticket is claimed: the comments
      before ours, those others add before we read back, the run id and
      timestamp our claim carries, and whether posting and reading succeed. */
  datatype ClaimReplies = ClaimReplies(log: seq<Comment>, others: seq<Comment>, runId: string,
                                       timestamp: string, postOk: bool, readOk: bool)

  /** What the outside world answers while a claimed ticket is processed:
      each status move and each status comment (by the status it reports)
      succeeds or raises, the ticket body, the task's result, whether the
      task recorded final metrics (and their summary line), whether it has a
      checkout, the push, and the output of `gh pr create`. */
  datatype TaskReplies = TaskReplies(
    move: Status -> Result<()>,
    comment: Status -> Result<()>,
    issueBody: Result<string>,
    task: Result<Option<TaskResult>>,
    finalMetrics: bool,
    summary: string,
    repoRoot: bool,
    push: Result<()>,
    prCreate: Result<string>)

  /** Effects performed so far, and the message of the exception that ended
      the run early, if one did. */
  datatype Trace = Trace(effects: seq<Effect>, escaped: Option<string>)

  const NoFinalMetrics: string := "Bringup missing final metrics"
  const NoCheckout: string := "Missing repo root or branch for push"
  const NoResult: string := "Bringup task returned no result"

  /** `_push_branch`: without a checkout or a branch it raises before
      pushing; otherwise it pushes the task's branch, or raises what git
      raised. It pushes exactly when it returns normally. */
  function PushBranch(tc: Bringup.Config, rep: TaskReplies): (r: Trace)
    ensures r.escaped.None? <==> rep.repoRoot && tc.branch != "" && rep.push.Ok?
    ensures r.effects == (if r.escaped.None? then [Pushed(tc.branch)] else [])
    ensures !rep.repoRoot || tc.branch == "" ==> r.escaped == Some(NoCheckout)
  {
    if !rep.repoRoot || tc.branch == "" then Trace([], Some(NoCheckout))
    else if rep.push.Err? then Trace([], Some(rep.push.msg))
    else Trace([Pushed(tc.branch)], None)
  }

  /** Posting the final comment and moving the ticket to its column. */
  function Report(number: int, comment: string, to: Status, rep: TaskReplies): Trace {
    if rep.comment(to).Err? then Trace([], Some(rep.comment(to).msg))
    else if rep.move(to).Err? then Trace([Posted(number, comment)], Some(rep.move(to).msg))
    else Trace([Posted(number, comment), Moved(number, to)], None)
  }

  /** `_handle_success`: push, open the pull request, report, move to in
      review. Missing final metrics raise before anything is done; a pull
      request is opened only right after the branch was pushed; a normal
      return did all four steps, in that order. */
  function HandleSuccess(w: WorkerConfig, number: int, runId: string, tc: Bringup.Config, rep: TaskReplies): (r: Trace)
    ensures !rep.finalMetrics ==> r == Trace([], Some(NoFinalMetrics))
    ensures forall j :: 0 <= j < |r.effects| && r.effects[j].OpenedPr? ==> 0 < j && r.effects[j - 1] == Pushed(tc.branch)
    ensures r.escaped.None? ==>
              rep.finalMetrics && rep.prCreate.Ok?
              && r.effects == [Pushed(tc.branch), OpenedPr("Bringup: " + tc.hfModelId + " (" + w.system + ")", tc.branch),
                               Posted(number, SuccessComment(runId, rep.summary, Project.FirstUrl(Some(rep.prCreate.value)),
                                                             Bringup.ReproCommands(tc))),
                               Moved(number, InReview)]
  {
    if !rep.finalMetrics then Trace([], Some(NoFinalMetrics))
    else
      var p := PushBranch(tc, rep);
      if p.escaped.Some? then p
      else
        var title := "Bringup: " + tc.hfModelId + " (" + w.system + ")";
        if rep.prCreate.Err? then Trace(p.effects, Some(rep.prCreate.msg))
        else
          var url := Project.FirstUrl(Some(rep.prCreate.value));
          var comment := SuccessComment(runId, rep.summary, url, Bringup.ReproCommands(tc));
          var r := Report(number, comment, InReview, rep);
          Trace(p.effects + [OpenedPr(title, tc.branch)] + r.effects, r.escaped)
  }

  /** `_handle_failure`: push, report, move to failed. Nothing is reported
      unless the branch was pushed first; a normal return did all three
      steps, in that order. */
  function HandleFailure(number: int, runId: string, tc: Bringup.Config, res: TaskResult, rep: TaskReplies): (r: Trace)
    ensures |r.effects| > 0 ==> r.effects[0] == Pushed(tc.branch)
    ensures r.escaped.None? ==>
              r.effects == [Pushed(tc.branch), Posted(number, FailureComment(runId, res, tc.branch, Bringup.ReproCommands(tc))),
                            Moved(number, Failed)]
  {
    var p := PushBranch(tc, rep);
    if p.escaped.Some? then p
    else
      var comment := FailureComment(runId, res, tc.branch, Bringup.ReproCommands(tc));
      var r := Report(number, comment, Failed, rep);
      Trace(p.effects + r.effects, r.escaped)
  }

  /** `_run_task` up to building the task: fetch the ticket and read its fields. */
  function LoadTask(w: WorkerConfig, number: int, rep: TaskReplies): Result<Bringup.Config> {
    if rep.issueBody.Err? then Err(rep.issueBody.msg)
    else TaskConfig(w, number, ParseIssueBody(rep.issueBody.value))
  }

  /** The `try` block of `run_once` for a claimed ticket. */
  function TryBody(w: WorkerConfig, number: int, runId: string, rep: TaskReplies): Trace {
    if rep.move(InProgress).Err? then Trace([], Some(rep.move(InProgress).msg))
    else
      var rest := RunAndReport(w, number, runId, LoadTask(w, number, rep), rep);
      Trace([Moved(number, InProgress)] + rest.effects, rest.escaped)
  }

  /** Once the ticket is in progress: run the task built from its fields and
      hand the result to the success or failure handler. */
  function RunAndReport(w: WorkerConfig, number: int, runId: string, task: Result<Bringup.Config>,
                        rep: TaskReplies): Trace {
    match task
    case Err(m) => Trace([], Some(m))
    case Ok(tc) =>
      var e := [RanTask(number, tc)];
      match rep.task
      case Err(m) => Trace(e, Some(m))
      case Ok(None) => Trace(e, Some(NoResult))
      case Ok(Some(res)) =>
        var h := if res.success then HandleSuccess(w, number, runId, tc, rep)
                 else HandleFailure(number, runId, tc, res, rep);
        Trace(e + h.effects, h.escaped)
  }

  /** A claimed ticket from start to end: the `try` block and, when it
      raises, `_handle_setup_error`, whose own failure escapes `run_once`. */
  function Process(w: WorkerConfig, number: int, runId: string, rep: TaskReplies): (seq<Effect>, Result<bool>) {
    Recover(number, runId, TryBody(w, number, runId, rep), rep)
  }

  /** `except Exception as exc: self._handle_setup_error(number, run_id, exc)`.
      A normal return of the `try` block passes through; after a raise the
      ticket is moved to setup error before the comment carrying the error
      text is posted, and a handled cycle always reports True. */
  function Recover(number: int, runId: string, t: Trace, rep: TaskReplies): (r: (seq<Effect>, Result<bool>))
    ensures t.escaped.None? ==> r == (t.effects, Ok(true))
    ensures r.1.Ok? ==> r.1.value
    ensures t.escaped.Some? && r.1.Ok? ==>
              r.0 == t.effects + [Moved(number, SetupErrorStatus), Posted(number, SetupErrorComment(runId, t.escaped.value))]
  {
    if t.escaped.None? then (t.effects, Ok(true))
    else if rep.move(SetupErrorStatus).Err? then (t.effects, Err(rep.move(SetupErrorStatus).msg))
    else
      var e := t.effects + [Moved(number, SetupErrorStatus)];
      if rep.comment(SetupErrorStatus).Err? then (e, Err(rep.comment(SetupErrorStatus).msg))
      else (e + [Posted(number, SetupErrorComment(runId, t.escaped.value))], Ok(true))
  }

  /** The claim attempt on one ticket: won, lost, or raised. */
  function ClaimOutcome(w: WorkerConfig, number: int, cr: ClaimReplies, viewer: Result<string>): Result<bool> {
    ClaimIssue(w.rule, cr.log, cr.others, w.me, viewer, w.worker, w.system, cr.runId, cr.timestamp,
               cr.postOk, cr.readOk).1
  }

  /** The claim comment, when it could be posted. */
  function ClaimPost(w: WorkerConfig, number: int, cr: ClaimReplies): seq<Effect> {
    if cr.postOk then [Posted(number, ClaimComment(w.worker, w.system, cr.runId, cr.timestamp))] else []
  }

  /** Claiming ticket `n`: the claim comment posted and the claim's outcome. */
  function ClaimStep(w: WorkerConfig, claims: int -> ClaimReplies, viewer: Result<string>): int -> (seq<Effect>, Result<bool>) {
    n => (ClaimPost(w, n, claims(n)), ClaimOutcome(w, n, claims(n), viewer))
  }

  /** Processing a claimed ticket `n` under the run id its claim carries. */
  function ProcessStep(w: WorkerConfig, claims: int -> ClaimReplies, rep: TaskReplies): int -> (seq<Effect>, Result<bool>) {
    n => Process(w, n, claims(n).runId, rep)
  }

  /** The `for issue in ready` loop: claim each ticket in turn; a lost claim
      moves on, a won one is processed and ends the loop, a raised one ends
      it with the error. */
  function Loop(issues: seq<int>, claim: int -> (seq<Effect>, Result<bool>),
                process: int -> (seq<Effect>, Result<bool>)): (Result<bool>, seq<Effect>)
    decreases |issues|
  {
    if |issues| == 0 then (Ok(false), [])
    else
      var c := claim(issues[0]);
      match c.1
      case Err(m) => (Err(m), c.0)
      case Ok(true) => (process(issues[0]).1, c.0 + process(issues[0]).0)
      case Ok(false) =>
        var rest := Loop(issues[1..], claim, process);
        (rest.0, c.0 + rest.1)
  }

  /** The claim loop of `run_once` over the ready tickets. */
  function Cycle(w: WorkerConfig, issues: seq<int>, claims: int -> ClaimReplies, viewer: Result<string>,
                 rep: TaskReplies): (Result<bool>, seq<Effect>)
  {
    Loop(issues, ClaimStep(w, claims, viewer), ProcessStep(w, claims, rep))
  }

  /** `run_once`: nothing in dry-run mode; otherwise the ready list (whose
      failure raises) and the claim loop over it. */
  function RunOnceSpec(w: WorkerConfig, ready: Result<seq<int>>, claims: int -> ClaimReplies,
                       viewer: Result<string>, rep: TaskReplies): (Result<bool>, seq<Effect>)
  {
    if w.dryRun then (Ok(false), [])
    else if ready.Err? then (Err(ready.msg), [])
    else Cycle(w, ready.value, claims, viewer, rep)
  }

  /** The board after a sequence of effects. */
  function ApplyMoves(store: map<int, Status>, effects: seq<Effect>): map<int, Status>
    decreases |effects|
  {
    if |effects| == 0 then store
    else
      var next := if effects[0].Moved? then store[effects[0].number := effects[0].to] else store;
      ApplyMoves(next, effects[1..])
  }

  /** `run_once` as a loop over the ready tickets, with the board it leaves. */
  method RunOnce(w: WorkerConfig, ready: Result<seq<int>>, claims: int -> ClaimReplies, viewer: Result<string>,
                 rep: TaskReplies, store: map<int, Status>)
    returns (r: Result<bool>, effects: seq<Effect>, board: map<int, Status>)
    ensures (r, effects) == RunOnceSpec(w, ready, claims, viewer, rep)
    ensures board == ApplyMoves(store, effects)
    ensures w.dryRun || (ready.Ok? && ready.value == []) ==> r == Ok(false) && effects == [] && board == store
  {
    if w.dryRun {
      return Ok(false), [], store;
    }
    if ready.Err? {
      return Err(ready.msg), [], store;
    }
    r, effects := ClaimLoop(ready.value, ClaimStep(w, claims, viewer), ProcessStep(w, claims, rep));
    board := ApplyMoves(store, effects);
  }

  /** The claim loop: the first won ticket is processed and ends it. */
  method ClaimLoop(issues: seq<int>, claim: int -> (seq<Effect>, Result<bool>),
                   process: int -> (seq<Effect>, Result<bool>))
    returns (r: Result<bool>, effects: seq<Effect>)
    ensures (r, effects) == Loop(issues, claim, process)
  {
    ghost var total := Loop(issues, claim, process);
    effects := [];
    var i := 0;
    assert issues[0..] == issues;
    assert [] + total.1 == total.1;
    while i < |issues|
      invariant 0 <= i <= |issues|
      invariant total.0 == Loop(issues[i..], claim, process).0
      invariant total.1 == effects + Loop(issues[i..], claim, process).1
    {
      var n := issues[i];
      assert issues[i..][0] == n;
      var c := claim(n);
      if c.1.Err? {
        return Err(c.1.msg), effects + c.0;
      }
      if c.1.value {
        var p := process(n);
        assert Loop(issues[i..], claim, process) == (p.1, c.0 + p.0);
        ConcatAssoc(effects, c.0, p.0);
        return p.1, effects + c.0 + p.0;
      }
      assert issues[i..][1..] == issues[i + 1..];
      effects := effects + c.0;
      i := i + 1;
    }
    assert issues[i..] == [];
    return Ok(false), effects + [];
  }

  // ---------------------------------------------------------------------------
  // Properties of the cycle

  /** The columns a sequence of effects moves tickets to, in order. */
  function StatusMoves(e: seq<Effect>): seq<Status>
    decreases |e|
  {
    if |e| == 0 then [] else (if e[0].Moved? then [e[0].to] else []) + StatusMoves(e[1..])
  }

  lemma {:induction false} StatusMovesAppend(a: seq<Effect>, b: seq<Effect>)
    ensures StatusMoves(a + b) == StatusMoves(a) + StatusMoves(b)
    decreases |a|
  {
    if |a| > 0 {
      assert (a + b)[0] == a[0];
      assert (a + b)[1..] == a[1..] + b;
      StatusMovesAppend(a[1..], b);
      var h := if a[0].Moved? then [a[0].to] else [];
      ConcatAssoc(h, StatusMoves(a[1..]), StatusMoves(b));
    } else {
      assert a + b == b;
    }
  }

  lemma StatusMovesOne(x: Effect)
    ensures StatusMoves([x]) == (if x.Moved? then [x.to] else [])
  {
    assert [x][1..] == [];
  }

  /** Every posted comment, move and task run concerns ticket `n`. */
  predicate OnTicket(e: seq<Effect>, n: int) {
    forall j :: 0 <= j < |e| && (e[j].Posted? || e[j].Moved? || e[j].RanTask?) ==> e[j].number == n
  }

  predicate NoTaskRun(e: seq<Effect>) {
    forall j :: 0 <= j < |e| ==> !e[j].RanTask?
  }

  /** Appending effect lists appends their moves and keeps both
      properties exactly when both parts have them. */
  lemma EffectsAppend(a: seq<Effect>, b: seq<Effect>, n: int)
    ensures StatusMoves(a + b) == StatusMoves(a) + StatusMoves(b)
    ensures OnTicket(a + b, n) <==> OnTicket(a, n) && OnTicket(b, n)
    ensures NoTaskRun(a + b) <==> NoTaskRun(a) && NoTaskRun(b)
  {
    StatusMovesAppend(a, b);
    var ab := a + b;
    assert forall j :: 0 <= j < |a| ==> ab[j] == a[j];
    assert forall j :: 0 <= j < |b| ==> ab[|a| + j] == b[j];
  }

  /** The moves the worker makes on the board: a ready ticket goes to in
      progress, or straight to setup error when that move failed; an
      in-progress one goes to in review, failed or setup error. */
  predicate Transition(from: Status, to: Status) {
    (from == Ready && (to == InProgress || to == SetupErrorStatus))
    || (from == InProgress && (to == InReview || to == Failed || to == SetupErrorStatus))
  }

  predicate IsPath(start: Status, moves: seq<Status>) {
    forall k :: 0 <= k < |moves| ==> Transition(if k == 0 then start else moves[k - 1], moves[k])
  }

  /** The task's result as `classify_outcome` sees it. */
  function TaskValue(task: Result<Option<TaskResult>>): Option<TaskResult> {
    if task.Ok? then task.value else None
  }

  lemma ReportShape(number: int, comment: string, to: Status, rep: TaskReplies)
    ensures var r := Report(number, comment, to, rep);
            StatusMoves(r.effects) == (if r.escaped.None? then [to] else [])
            && OnTicket(r.effects, number) && NoTaskRun(r.effects)
  {
    var p := Posted(number, comment);
    StatusMovesOne(p);
    StatusMovesOne(Moved(number, to));
    StatusMovesAppend([p], [Moved(number, to)]);
  }

  lemma PushShape(tc: Bringup.Config, rep: TaskReplies)
    ensures var p := PushBranch(tc, rep);
            StatusMoves(p.effects) == [] && OnTicket(p.effects, 0) && NoTaskRun(p.effects)
            && forall n :: OnTicket(p.effects, n)
  {
    StatusMovesOne(Pushed(tc.branch));
  }

  /** The success handler moves the ticket to in review, and only when it
      returns normally. */
  lemma HandleSuccessShape(w: WorkerConfig, number: int, runId: string, tc: Bringup.Config, rep: TaskReplies)
    ensures var h := HandleSuccess(w, number, runId, tc, rep);
            StatusMoves(h.effects) == (if h.escaped.None? then [InReview] else [])
            && OnTicket(h.effects, number) && NoTaskRun(h.effects)
  {
    if rep.finalMetrics {
      var p := PushBranch(tc, rep);
      PushShape(tc, rep);
      if p.escaped.None? && rep.prCreate.Ok? {
        var title := "Bringup: " + tc.hfModelId + " (" + w.system + ")";
        var url := Project.FirstUrl(Some(rep.prCreate.value));
        var comment := SuccessComment(runId, rep.summary, url, Bringup.ReproCommands(tc));
        var r := Report(number, comment, InReview, rep);
        ReportShape(number, comment, InReview, rep);
        OpenedThenReported(p.effects, OpenedPr(title, tc.branch), r, number, InReview);
      }
    }
  }

  lemma OpenedThenReported(pe: seq<Effect>, o: Effect, r: Trace, number: int, to: Status)
    requires StatusMoves(pe) == [] && OnTicket(pe, number) && NoTaskRun(pe) && o.OpenedPr?
    requires StatusMoves(r.effects) == (if r.escaped.None? then [to] else [])
    requires OnTicket(r.effects, number) && NoTaskRun(r.effects)
    ensures var e := pe + [o] + r.effects;
            StatusMoves(e) == (if r.escaped.None? then [to] else [])
            && OnTicket(e, number) && NoTaskRun(e)
  {
    StatusMovesOne(o);
    EffectsAppend(pe, [o], number);
    EffectsAppend(pe + [o], r.effects, number);
  }

  /** The failure handler moves the ticket to failed, and only when it
      returns normally. */
  lemma HandleFailureShape(number: int, runId: string, tc: Bringup.Config, res: TaskResult, rep: TaskReplies)
    ensures var h := HandleFailure(number, runId, tc, res, rep);
            StatusMoves(h.effects) == (if h.escaped.None? then [Failed] else [])
            && OnTicket(h.effects, number) && NoTaskRun(h.effects)
  {
    var p := PushBranch(tc, rep);
    PushShape(tc, rep);
    if p.escaped.None? {
      var comment := FailureComment(runId, res, tc.branch, Bringup.ReproCommands(tc));
      ReportShape(number, comment, Failed, rep);
      EffectsAppend(p.effects, Report(number, comment, Failed, rep).effects, number);
    }
  }

  /** After the in-progress move: the task runs first, and a final column
      is reached only when nothing raised, the one `classify_outcome` gives
      for the task's result. */
  lemma RunAndReportShape(w: WorkerConfig, number: int, runId: string, task: Result<Bringup.Config>,
                          rep: TaskReplies)
    ensures var t := RunAndReport(w, number, runId, task, rep);
            StatusMoves(t.effects) == (if t.escaped.None? then [StatusOf(ClassifyOutcome(TaskValue(rep.task), None))] else [])
            && OnTicket(t.effects, number)
            && (forall j :: 0 <= j < |t.effects| && t.effects[j].RanTask? ==> j == 0)
            && (t.escaped.None? ==> rep.task.Ok? && rep.task.value.Some?)
  {
    if task.Ok? {
      var tc := task.value;
      var e := [RanTask(number, tc)];
      StatusMovesOne(RanTask(number, tc));
      if rep.task.Ok? && rep.task.value.Some? {
        var res := rep.task.value.value;
        var h := if res.success then HandleSuccess(w, number, runId, tc, rep)
                 else HandleFailure(number, runId, tc, res, rep);
        HandleSuccessShape(w, number, runId, tc, rep);
        HandleFailureShape(number, runId, tc, res, rep);
        RanThen(number, tc, h, StatusOf(ClassifyOutcome(TaskValue(rep.task), None)));
      }
    }
  }

  /** Putting the task run in front of the handler's effects. */
  lemma RanThen(number: int, tc: Bringup.Config, h: Trace, f: Status)
    requires StatusMoves(h.effects) == (if h.escaped.None? then [f] else [])
    requires OnTicket(h.effects, number) && NoTaskRun(h.effects)
    ensures var e := [RanTask(number, tc)] + h.effects;
            StatusMoves(e) == (if h.escaped.None? then [f] else [])
            && OnTicket(e, number)
            && forall j :: 0 <= j < |e| && e[j].RanTask? ==> j == 0
  {
    var r := RanTask(number, tc);
    StatusMovesOne(r);
    EffectsAppend([r], h.effects, number);
    var e := [r] + h.effects;
    assert forall j :: 0 < j < |e| ==> e[j] == h.effects[j - 1];
  }

  /** The `try` block moves the ticket to in progress before anything else. */
  lemma TryBodyShape(w: WorkerConfig, number: int, runId: string, rep: TaskReplies)
    ensures var t := TryBody(w, number, runId, rep);
            StatusMoves(t.effects)
              == (if rep.move(InProgress).Err? then []
                  else [InProgress] + (if t.escaped.None? then [StatusOf(ClassifyOutcome(TaskValue(rep.task), None))] else []))
    ensures var t := TryBody(w, number, runId, rep);
            OnTicket(t.effects, number)
            && (forall j :: 0 <= j < |t.effects| && t.effects[j].RanTask? ==> 0 < j && t.effects[0] == Moved(number, InProgress))
            && (t.escaped.None? ==> rep.task.Ok? && rep.task.value.Some?)
  {
    if rep.move(InProgress).Ok? {
      var task := LoadTask(w, number, rep);
      RunAndReportShape(w, number, runId, task, rep);
      MovedThen(number, RunAndReport(w, number, runId, task, rep), StatusOf(ClassifyOutcome(TaskValue(rep.task), None)));
    }
  }

  /** Putting the move to in progress in front of what follows it. */
  lemma MovedThen(number: int, rest: Trace, f: Status)
    requires StatusMoves(rest.effects) == (if rest.escaped.None? then [f] else [])
    requires OnTicket(rest.effects, number)
    requires forall j :: 0 <= j < |rest.effects| && rest.effects[j].RanTask? ==> j == 0
    ensures var e := [Moved(number, InProgress)] + rest.effects;
            StatusMoves(e) == [InProgress] + (if rest.escaped.None? then [f] else [])
            && OnTicket(e, number)
            && forall j :: 0 <= j < |e| && e[j].RanTask? ==> 0 < j && e[0] == Moved(number, InProgress)
  {
    var m := Moved(number, InProgress);
    StatusMovesOne(m);
    EffectsAppend([m], rest.effects, number);
    var e := [m] + rest.effects;
    assert forall j :: 0 < j < |e| ==> e[j] == rest.effects[j - 1];
  }

  /** The setup-error handler adds at most the move to setup error and its
      comment, and is reached only when the `try` block raised. */
  lemma RecoverShape(number: int, runId: string, t: Trace, rep: TaskReplies)
    requires OnTicket(t.effects, number)
    ensures var p := Recover(number, runId, t, rep);
            OnTicket(p.0, number)
            && p.0[..|t.effects|] == t.effects && |p.0| >= |t.effects|
            && StatusMoves(p.0) == StatusMoves(t.effects)
                                  + (if t.escaped.Some? && rep.move(SetupErrorStatus).Ok? then [SetupErrorStatus] else [])
            && (forall j :: |t.effects| <= j < |p.0| ==> p.0[j].Moved? || p.0[j].Posted?)
            && (p.1.Ok? ==> p.1.value)
            && (p.1.Ok? && t.escaped.Some? ==> rep.move(SetupErrorStatus).Ok?)
  {
    if t.escaped.Some? && rep.move(SetupErrorStatus).Ok? {
      var m := Moved(number, SetupErrorStatus);
      var c := Posted(number, SetupErrorComment(runId, t.escaped.value));
      Appended(t.effects, [m], number);
      EffectsAppend(t.effects, [m], number);
      StatusMovesOne(m);
      if rep.comment(SetupErrorStatus).Ok? {
        Appended(t.effects + [m], [c], number);
        EffectsAppend(t.effects + [m], [c], number);
        StatusMovesOne(c);
      }
    }
  }

  /** Appending moves and comments on ticket `number` keeps the prefix and
      adds nothing else. */
  lemma Appended(a: seq<Effect>, b: seq<Effect>, number: int)
    requires forall j :: 0 <= j < |b| ==> (b[j].Moved? || b[j].Posted?) && b[j].number == number
    ensures (a + b)[..|a|] == a
    ensures forall j :: |a| <= j < |a + b| ==> (a + b)[j].Moved? || (a + b)[j].Posted?
    ensures OnTicket(a, number) ==> OnTicket(a + b, number)
  {
    EffectsAppend(a, b, number);
  }

  /** The column sequences a claimed ticket can go through are paths. */
  lemma MovesPath(started: bool, finished: bool, f: Status, recovered: bool)
    requires finished ==> started
    requires f == InReview || f == Failed
    ensures var moves := (if started then [InProgress] + (if finished then [f] else []) else [])
                         + (if !finished && recovered then [SetupErrorStatus] else []);
            IsPath(Ready, moves)
            && ((finished || recovered) ==>
                  |moves| > 0 && moves[|moves| - 1] == (if finished then f else SetupErrorStatus))
  {
    var tail: seq<Status> := if !finished && recovered then [SetupErrorStatus] else [];
    if !started {
      assert [] + tail == tail;
      assert Transition(Ready, SetupErrorStatus);
    } else if finished {
      assert [InProgress] + [f] + tail == [InProgress, f];
      assert Transition(Ready, InProgress) && Transition(InProgress, f);
    } else {
      assert [InProgress] + [] + tail == [InProgress] + tail;
      if recovered {
        assert [InProgress] + tail == [InProgress, SetupErrorStatus];
        assert Transition(Ready, InProgress) && Transition(InProgress, SetupErrorStatus);
      } else {
        assert [InProgress] + tail == [InProgress];
        assert Transition(Ready, InProgress);
      }
    }
  }

  /** A claimed ticket's board moves follow the transition relation; when
      `run_once` returns normally the ticket ends in the column
      `classify_outcome` gives, and the task never runs before the ticket
      is in progress. */
  lemma ProcessShape(w: WorkerConfig, number: int, runId: string, rep: TaskReplies)
    ensures var p := Process(w, number, runId, rep);
            var moves := StatusMoves(p.0);
            var t := TryBody(w, number, runId, rep);
            OnTicket(p.0, number) && IsPath(Ready, moves)
            && (p.1.Ok? ==> p.1.value && |moves| > 0
                             && moves[|moves| - 1] == StatusOf(ClassifyOutcome(TaskValue(rep.task), t.escaped)))
            && (forall j :: 0 <= j < |p.0| && p.0[j].RanTask? ==> 0 < j && p.0[0] == Moved(number, InProgress))
  {
    var t := TryBody(w, number, runId, rep);
    TryBodyShape(w, number, runId, rep);
    var f := StatusOf(ClassifyOutcome(TaskValue(rep.task), None));
    assert f == InReview || f == Failed;
    assert t.escaped.None? ==> rep.move(InProgress).Ok?;
    RecoveredPath(number, runId, t, rep, rep.move(InProgress).Ok?, f);
  }

  /** The setup-error handler completes the `try` block's moves to a path
      ending in the outcome's column. */
  lemma RecoveredPath(number: int, runId: string, t: Trace, rep: TaskReplies, started: bool, f: Status)
    requires f == InReview || f == Failed
    requires t.escaped.None? ==> started
    requires StatusMoves(t.effects)
               == (if !started then [] else [InProgress] + (if t.escaped.None? then [f] else []))
    requires OnTicket(t.effects, number)
    requires forall j :: 0 <= j < |t.effects| && t.effects[j].RanTask? ==> 0 < j && t.effects[0] == Moved(number, InProgress)
    ensures var p := Recover(number, runId, t, rep);
            var moves := StatusMoves(p.0);
            OnTicket(p.0, number) && IsPath(Ready, moves)
            && (p.1.Ok? ==> p.1.value && |moves| > 0
                             && moves[|moves| - 1] == (if t.escaped.None? then f else SetupErrorStatus))
            && (forall j :: 0 <= j < |p.0| && p.0[j].RanTask? ==> 0 < j && p.0[0] == Moved(number, InProgress))
  {
    RecoverShape(number, runId, t, rep);
    var p := Recover(number, runId, t, rep);
    MovesPath(started, t.escaped.None?, f, rep.move(SetupErrorStatus).Ok?);
    forall j | 0 <= j < |p.0| && p.0[j].RanTask?
      ensures 0 < j && p.0[0] == Moved(number, InProgress)
    {
      assert j < |t.effects|;
      assert p.0[j] == t.effects[j];
      assert p.0[0] == t.effects[0];
    }
  }

  // ---------------------------------------------------------------------------
  // The claim loop and the board

  /** The effects of the first `i` claims of the loop. */
  function Lost(issues: seq<int>, claim: int -> (seq<Effect>, Result<bool>), i: nat): seq<Effect>
    requires i <= |issues|
    decreases i
  {
    if i == 0 then [] else claim(issues[0]).0 + Lost(issues[1..], claim, i - 1)
  }

  /** Ticket `i` is the first whose claim is won or raises. */
  predicate DecidedAt(issues: seq<int>, claim: int -> (seq<Effect>, Result<bool>), i: nat) {
    i < |issues| && claim(issues[i]).1 != Ok(false)
    && forall k :: 0 <= k < i ==> claim(issues[k]).1 == Ok(false)
  }

  /** When every claim is lost the loop returns false after all of them. */
  lemma {:induction false} LoopAllLost(issues: seq<int>, claim: int -> (seq<Effect>, Result<bool>),
                                       process: int -> (seq<Effect>, Result<bool>))
    requires forall k :: 0 <= k < |issues| ==> claim(issues[k]).1 == Ok(false)
    ensures Loop(issues, claim, process) == (Ok(false), Lost(issues, claim, |issues|))
    decreases |issues|
  {
    if |issues| > 0 {
      assert forall k :: 0 <= k < |issues| - 1 ==> issues[1..][k] == issues[k + 1];
      LoopAllLost(issues[1..], claim, process);
    }
  }

  /** The first decided claim ends the loop: a raise with its error, a win
      with the processing of that ticket. */
  lemma {:induction false} LoopDecided(issues: seq<int>, claim: int -> (seq<Effect>, Result<bool>),
                                       process: int -> (seq<Effect>, Result<bool>), i: nat)
    requires DecidedAt(issues, claim, i)
    ensures var c := claim(issues[i]);
            Loop(issues, claim, process)
            == if c.1.Err? then (Err(c.1.msg), Lost(issues, claim, i) + c.0)
               else (process(issues[i]).1, Lost(issues, claim, i) + c.0 + process(issues[i]).0)
    decreases i
  {
    if i > 0 {
      var c0 := claim(issues[0]).0;
      var c := claim(issues[i]);
      assert forall k :: 0 <= k < |issues| - 1 ==> issues[1..][k] == issues[k + 1];
      assert DecidedAt(issues[1..], claim, i - 1);
      LoopDecided(issues[1..], claim, process, i - 1);
      var l := Lost(issues[1..], claim, i - 1);
      ConcatAssoc(c0, l, c.0);
      ConcatAssoc(c0, l + c.0, process(issues[i]).0);
    } else {
      var c := claim(issues[0]);
      assert [] + c.0 == c.0;
      assert [] + c.0 + process(issues[0]).0 == c.0 + process(issues[0]).0;
    }
  }

  /** Claims that move nothing leave nothing moved. */
  lemma {:induction false} LostQuiet(issues: seq<int>, claim: int -> (seq<Effect>, Result<bool>), i: nat)
    requires i <= |issues|
    requires forall n :: StatusMoves(claim(n).0) == []
    ensures StatusMoves(Lost(issues, claim, i)) == []
    decreases i
  {
    if i > 0 {
      LostQuiet(issues[1..], claim, i - 1);
      StatusMovesAppend(claim(issues[0]).0, Lost(issues[1..], claim, i - 1));
    }
  }

  lemma {:induction false} ApplyMovesAppend(store: map<int, Status>, a: seq<Effect>, b: seq<Effect>)
    ensures ApplyMoves(store, a + b) == ApplyMoves(ApplyMoves(store, a), b)
    decreases |a|
  {
    if |a| > 0 {
      assert (a + b)[0] == a[0];
      assert (a + b)[1..] == a[1..] + b;
      var next := if a[0].Moved? then store[a[0].number := a[0].to] else store;
      ApplyMovesAppend(next, a[1..], b);
    } else {
      assert a + b == b;
    }
  }

  /** Effects that move no ticket leave the board as it was; effects on one
      ticket leave it in the last column they move it to and every other
      ticket where it was. */
  lemma {:induction false} ApplyMovesOnTicket(store: map<int, Status>, e: seq<Effect>, n: int)
    requires OnTicket(e, n) || StatusMoves(e) == []
    ensures var m := StatusMoves(e);
            ApplyMoves(store, e) == if m == [] then store else store[n := m[|m| - 1]]
    decreases |e|
  {
    if |e| > 0 {
      var next := if e[0].Moved? then store[e[0].number := e[0].to] else store;
      assert StatusMoves(e) == (if e[0].Moved? then [e[0].to] else []) + StatusMoves(e[1..]);
      assert OnTicket(e, n) ==> OnTicket(e[1..], n) by {
        if OnTicket(e, n) {
          forall j | 0 <= j < |e[1..]| && (e[1..][j].Posted? || e[1..][j].Moved? || e[1..][j].RanTask?)
            ensures e[1..][j].number == n
          {
            assert e[1..][j] == e[j + 1];
          }
        }
      }
      ApplyMovesOnTicket(next, e[1..], n);
    }
  }

  /** The loop moves at most the ticket it processes: after a raised or
      lost claim the board is unchanged, after a won one it is the board
      the processing leaves. */
  lemma LoopBoard(issues: seq<int>, claim: int -> (seq<Effect>, Result<bool>),
                  process: int -> (seq<Effect>, Result<bool>), store: map<int, Status>)
    requires forall n :: StatusMoves(claim(n).0) == []
    ensures var l := Loop(issues, claim, process);
            (forall k :: 0 <= k < |issues| ==> claim(issues[k]).1 == Ok(false))
              ==> l.0 == Ok(false) && ApplyMoves(store, l.1) == store
    ensures var l := Loop(issues, claim, process);
            forall i: nat :: DecidedAt(issues, claim, i) ==>
              (claim(issues[i]).1.Err? ==> l.0 == claim(issues[i]).1 && ApplyMoves(store, l.1) == store)
              && (claim(issues[i]).1 == Ok(true) ==>
                    l.0 == process(issues[i]).1 && ApplyMoves(store, l.1) == ApplyMoves(store, process(issues[i]).0))
  {
    var l := Loop(issues, claim, process);
    if forall k :: 0 <= k < |issues| ==> claim(issues[k]).1 == Ok(false) {
      LoopAllLost(issues, claim, process);
      LostQuiet(issues, claim, |issues|);
      ApplyMovesOnTicket(store, l.1, 0);
    }
    forall i: nat | DecidedAt(issues, claim, i)
      ensures claim(issues[i]).1.Err? ==> l.0 == claim(issues[i]).1 && ApplyMoves(store, l.1) == store
      ensures claim(issues[i]).1 == Ok(true) ==>
                l.0 == process(issues[i]).1 && ApplyMoves(store, l.1) == ApplyMoves(store, process(issues[i]).0)
    {
      var c := claim(issues[i]);
      var lost := Lost(issues, claim, i);
      LoopDecided(issues, claim, process, i);
      LostQuiet(issues, claim, i);
      StatusMovesAppend(lost, c.0);
      ApplyMovesOnTicket(store, lost + c.0, 0);
      ApplyMovesAppend(store, lost + c.0, process(issues[i]).0);
    }
  }

  /** Ticket `i` is the first of `issues` whose claim is won, every earlier
      claim lost. */
  predicate FirstWon(issues: seq<int>, claim: int -> (seq<Effect>, Result<bool>), i: nat) {
    DecidedAt(issues, claim, i) && claim(issues[i]).1 == Ok(true)
  }

  /** The column a processed ticket ends in when `run_once` returns normally. */
  function FinalStatus(w: WorkerConfig, number: int, runId: string, rep: TaskReplies): Status {
    StatusOf(ClassifyOutcome(TaskValue(rep.task), TryBody(w, number, runId, rep).escaped))
  }

  /** The loop returns false exactly when every claim was lost, and then
      leaves the board as it was; when it returns true it has moved only
      the first ticket won, to that ticket's final column; when it raises
      it has moved at most that ticket. */
  lemma LoopSummary(issues: seq<int>, claim: int -> (seq<Effect>, Result<bool>),
                    process: int -> (seq<Effect>, Result<bool>), store: map<int, Status>, final: int -> Status)
    requires forall n :: StatusMoves(claim(n).0) == []
    requires forall n :: OnTicket(process(n).0, n)
                         && (process(n).1.Ok? ==> process(n).1.value && |StatusMoves(process(n).0)| > 0
                                                  && StatusMoves(process(n).0)[|StatusMoves(process(n).0)| - 1] == final(n))
    ensures var l := Loop(issues, claim, process);
            l.0 == Ok(false) <==> forall k :: 0 <= k < |issues| ==> claim(issues[k]).1 == Ok(false)
    ensures var l := Loop(issues, claim, process);
            l.0 == Ok(false) ==> ApplyMoves(store, l.1) == store
    ensures var l := Loop(issues, claim, process);
            var board := ApplyMoves(store, l.1);
            l.0 == Ok(true) ==> exists i: nat :: FirstWon(issues, claim, i) && board == store[issues[i] := final(issues[i])]
    ensures var l := Loop(issues, claim, process);
            var board := ApplyMoves(store, l.1);
            l.0.Err? ==>
              board == store
              || exists i: nat :: (FirstWon(issues, claim, i)
                                   && issues[i] in board && board == store[issues[i] := board[issues[i]]])
  {
    var l := Loop(issues, claim, process);
    var d := FirstWhere(issues, n => claim(n).1 != Ok(false));
    if d.Some? {
      var i := d.value;
      var n := issues[i];
      assert DecidedAt(issues, claim, i);
      LoopFinal(issues, claim, process, store, final(n), i);
      assert !(forall k :: 0 <= k < |issues| ==> claim(issues[k]).1 == Ok(false)) by {
        assert claim(issues[i]).1 != Ok(false);
      }
      if claim(n).1.Err? {
        assert l.0 == claim(n).1;
      } else {
        assert claim(n).1 != Ok(false);
        assert claim(n).1.value != false;
        assert claim(n).1 == Ok(true);
        assert FirstWon(issues, claim, i);
        assert l.0 == process(n).1;
      }
    } else {
      assert forall k :: 0 <= k < |issues| ==> claim(issues[k]).1 == Ok(false);
      LoopBoard(issues, claim, process, store);
    }
  }

  /** One `run_once`: it returns false exactly when it is a dry run or every
      claim was lost, and then leaves the board as it was; when it returns
      true it has moved only the first ticket it won, to the column
      `classify_outcome` gives; when it raises it has moved at most that
      ticket. */
  lemma RunOnceBoard(w: WorkerConfig, ready: Result<seq<int>>, claims: int -> ClaimReplies, viewer: Result<string>,
                     rep: TaskReplies, store: map<int, Status>)
    ensures var s := RunOnceSpec(w, ready, claims, viewer, rep);
            var claim := ClaimStep(w, claims, viewer);
            s.0 == Ok(false)
            <==> w.dryRun || (ready.Ok? && forall k :: 0 <= k < |ready.value| ==> claim(ready.value[k]).1 == Ok(false))
    ensures var s := RunOnceSpec(w, ready, claims, viewer, rep);
            s.0 == Ok(false) ==> ApplyMoves(store, s.1) == store
    ensures var s := RunOnceSpec(w, ready, claims, viewer, rep);
            var board := ApplyMoves(store, s.1);
            s.0 == Ok(true) ==>
              ready.Ok? && exists i: nat :: (FirstWon(ready.value, ClaimStep(w, claims, viewer), i)
                && board == store[ready.value[i] := FinalStatus(w, ready.value[i], claims(ready.value[i]).runId, rep)])
    ensures var s := RunOnceSpec(w, ready, claims, viewer, rep);
            var board := ApplyMoves(store, s.1);
            s.0.Err? ==>
              board == store
              || (ready.Ok? && exists i: nat :: (FirstWon(ready.value, ClaimStep(w, claims, viewer), i)
                    && ready.value[i] in board && board == store[ready.value[i] := board[ready.value[i]]]))
  {
    if w.dryRun || ready.Err? {
      return;
    }
    var claim := ClaimStep(w, claims, viewer);
    var process := ProcessStep(w, claims, rep);
    forall n
      ensures StatusMoves(claim(n).0) == []
    {
      var x := Posted(n, ClaimComment(w.worker, w.system, claims(n).runId, claims(n).timestamp));
      StatusMovesOne(x);
    }
    var final := n => FinalStatus(w, n, claims(n).runId, rep);
    forall n
      ensures OnTicket(process(n).0, n)
              && (process(n).1.Ok? ==> process(n).1.value && |StatusMoves(process(n).0)| > 0
                                       && StatusMoves(process(n).0)[|StatusMoves(process(n).0)| - 1] == final(n))
    {
      ProcessShape(w, n, claims(n).runId, rep);
    }
    LoopSummary(ready.value, claim, process, store, final);
  }

  /** The board after the loop when claim `i` decides it: unchanged after a
      raise; after a win, only ticket `issues[i]` moved, to `final` when the
      processing returned normally. */
  lemma LoopFinal(issues: seq<int>, claim: int -> (seq<Effect>, Result<bool>),
                  process: int -> (seq<Effect>, Result<bool>), store: map<int, Status>, final: Status, i: nat)
    requires forall n :: StatusMoves(claim(n).0) == []
    requires DecidedAt(issues, claim, i)
    requires var p := process(issues[i]);
             OnTicket(p.0, issues[i])
             && (p.1.Ok? ==> p.1.value && |StatusMoves(p.0)| > 0 && StatusMoves(p.0)[|StatusMoves(p.0)| - 1] == final)
    ensures var l := Loop(issues, claim, process);
            var board := ApplyMoves(store, l.1);
            var n := issues[i];
            (claim(n).1.Err? ==> l.0 == claim(n).1 && board == store)
            && (claim(n).1 == Ok(true) ==>
                  l.0 == process(n).1
                  && (l.0.Ok? ==> l.0 == Ok(true) && board == store[n := final])
                  && (l.0.Err? ==> board == store || (n in board && board == store[n := board[n]])))
  {
    var n := issues[i];
    LoopBoard(issues, claim, process, store);
    ApplyMovesOnTicket(store, process(n).0, n);
  }

  /** When the ticket's task cannot be built, the `try` block raises that
      error right after the move to in progress, before anything runs. */
  lemma TryBodyLoadError(w: WorkerConfig, number: int, runId: string, rep: TaskReplies)
    requires rep.move(InProgress).Ok? && LoadTask(w, number, rep).Err?
    ensures TryBody(w, number, runId, rep)
            == Trace([Moved(number, InProgress)], Some(LoadTask(w, number, rep).msg))
  {
    assert [Moved(number, InProgress)] + [] == [Moved(number, InProgress)];
  }

  /** A ticket without a model id goes to in progress, then to setup error
      with a comment carrying the missing-field message, and the cycle
      still counts as having worked. */
  lemma MissingModelIdPath(w: WorkerConfig, number: int, runId: string, rep: TaskReplies)
    requires rep.move(InProgress).Ok? && rep.move(SetupErrorStatus).Ok? && rep.comment(SetupErrorStatus).Ok?
    requires rep.issueBody.Ok? && "hf_model_id" !in ParseIssueBody(rep.issueBody.value)
    ensures Process(w, number, runId, rep)
            == ([Moved(number, InProgress), Moved(number, SetupErrorStatus),
                 Posted(number, SetupErrorComment(runId, MissingModelId))], Ok(true))
  {
    assert LoadTask(w, number, rep) == Err(MissingModelId);
    TryBodyLoadError(w, number, runId, rep);
    var t := Trace([Moved(number, InProgress)], Some(MissingModelId));
    var e := [Moved(number, InProgress), Moved(number, SetupErrorStatus)];
    assert t.effects + [Moved(number, SetupErrorStatus)] == e;
    var post := Posted(number, SetupErrorComment(runId, MissingModelId));
    assert e + [post] == [Moved(number, InProgress), Moved(number, SetupErrorStatus), post];
    assert Recover(number, runId, t, rep) == (e + [post], Ok(true));
    assert Process(w, number, runId, rep) == Recover(number, runId, TryBody(w, number, runId, rep), rep);
  }
}
