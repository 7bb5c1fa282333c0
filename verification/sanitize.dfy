/** `sanitize_branch_name`: turns a Hugging Face model id into a piece of a
    git branch name. Four passes: ASCII lower-casing with "/" replaced by
    "-", every maximal run of characters outside `[a-z0-9._-]` replaced by
    one "-", every run of "-" squeezed to one, and "-" stripped from both
    ends. */
module Sanitize {
  import opened Base
  import opened Text

  /** The character class `[a-z0-9._-]`. */
  predicate Allowed(c: char) {
    ('a' <= c <= 'z') || ('0' <= c <= '9') || c == '.' || c == '_' || c == '-'
  }

  predicate AllAllowed(s: string) {
    forall i :: 0 <= i < |s| ==> Allowed(s[i])
  }

  /** No two consecutive dashes. */
  predicate NoDoubleDash(s: string) {
    forall i :: 0 <= i < |s| - 1 ==> !(s[i] == '-' && s[i + 1] == '-')
  }

  predicate NoEdgeDash(s: string) {
    |s| == 0 || (s[0] != '-' && s[|s| - 1] != '-')
  }

  /** What a sanitized name looks like. */
  predicate Clean(s: string) {
    AllAllowed(s) && NoDoubleDash(s) && NoEdgeDash(s)
  }

  /** A character every pass keeps: allowed, and not the "-" the passes
      insert, merge and strip. */
  predicate Kept(c: char) {
    Allowed(c) && c != '-'
  }

  /** The kept characters of `s`, in order. */
  function KeptChars(s: string): string
    decreases |s|
  {
    if |s| == 0 then "" else (if Kept(s[0]) then [s[0]] else "") + KeptChars(s[1..])
  }

  lemma {:induction false} KeptCharsAppend(a: string, b: string)
    ensures KeptChars(a + b) == KeptChars(a) + KeptChars(b)
    decreases |a|
  {
    if |a| > 0 {
      assert (a + b)[0] == a[0];
      assert (a + b)[1..] == a[1..] + b;
      KeptCharsAppend(a[1..], b);
    } else {
      assert a + b == b;
    }
  }

  /** Only dashes: nothing is kept. */
  lemma {:induction false} KeptCharsDashes(s: string)
    requires forall k :: 0 <= k < |s| ==> s[k] == '-'
    ensures KeptChars(s) == ""
    decreases |s|
  {
    if |s| > 0 {
      KeptCharsDashes(s[1..]);
    }
  }

  /** The name in one pass, as a reference for the four passes: the kept
      characters in order, with one "-" between two of them exactly when
      something that is not kept stands between them. `gap` says that such
      a character was read since the last kept one, `started` that a kept
      one has been emitted. */
  function Separated(s: string, gap: bool, started: bool): string
    decreases |s|
  {
    if |s| == 0 then ""
    else if Kept(s[0]) then (if gap && started then "-" else "") + [s[0]] + Separated(s[1..], false, true)
    else Separated(s[1..], true, started)
  }

  function DashJoined(s: string): string {
    Separated(s, false, false)
  }

  function SlashToDash(c: char): char {
    if c == '/' then '-' else c
  }

  /** `s.lower().replace("/", "-")`. */
  function LowerSlash(s: string): (r: string)
    ensures |r| == |s|
    ensures forall i :: 0 <= i < |s| ==> r[i] == SlashToDash(LowerChar(s[i]))
  {
    seq(|s|, i requires 0 <= i < |s| => SlashToDash(Lower(s)[i]))
  }

  /** `re.sub(r"[^a-z0-9._-]+", "-", s)`. `inRun` says that the character
      before `s` was outside the class, so its run already produced a "-".
      The kept characters all survive, in order; MaskRunsOneDash states that
      a maximal run outside the class becomes exactly one "-". */
  function MaskRuns(s: string, inRun: bool): (r: string)
    ensures AllAllowed(r)
    ensures KeptChars(r) == KeptChars(s)
    decreases |s|
  {
    if |s| == 0 then ""
    else
      var rest := MaskRuns(s[1..], !Allowed(s[0]));
      var head := if Allowed(s[0]) then [s[0]] else if inRun then "" else "-";
      KeptCharsAppend(head, rest);
      head + rest
  }

  /** `re.sub(r"-+", "-", s)`. `afterDash` says that a "-" was just emitted.
      Only dashes are dropped: the kept characters survive, in order. */
  function Squeeze(s: string, afterDash: bool): (r: string)
    ensures NoDoubleDash(r)
    ensures afterDash ==> |r| == 0 || r[0] != '-'
    ensures AllAllowed(s) ==> AllAllowed(r)
    ensures KeptChars(r) == KeptChars(s)
    decreases |s|
  {
    if |s| == 0 then ""
    else if s[0] == '-' then
      var rest := Squeeze(s[1..], true);
      if afterDash then rest
      else
        KeptCharsAppend("-", rest);
        "-" + rest
    else
      var rest := Squeeze(s[1..], false);
      KeptCharsAppend([s[0]], rest);
      [s[0]] + rest
  }

  /** `s.lstrip("-")`: drops the leading dashes and nothing else. */
  function LStripDash(s: string): (r: string)
    ensures |r| <= |s| && r == s[|s| - |r|..]
    ensures |r| == 0 || r[0] != '-'
    ensures forall k :: 0 <= k < |s| - |r| ==> s[k] == '-'
    decreases |s|
  {
    if |s| > 0 && s[0] == '-' then LStripDash(s[1..]) else s
  }

  /** `s.rstrip("-")`: drops the trailing dashes and nothing else. */
  function RStripDash(s: string): (r: string)
    ensures |r| <= |s| && r == s[..|r|]
    ensures |r| == 0 || r[|r| - 1] != '-'
    ensures forall k :: |r| <= k < |s| ==> s[k] == '-'
    decreases |s|
  {
    if |s| > 0 && s[|s| - 1] == '-' then RStripDash(s[..|s| - 1]) else s
  }

  /** `s.strip("-")`: the slice left after removing a prefix and a suffix
      made of dashes only, with no dash at either end. */
  function StripDash(s: string): (r: string)
    ensures NoEdgeDash(r)
    ensures exists i, j :: 0 <= i <= j <= |s| && r == s[i..j]
                           && (forall k :: 0 <= k < i ==> s[k] == '-')
                           && (forall k :: j <= k < |s| ==> s[k] == '-')
  {
    var l := LStripDash(s);
    var r := RStripDash(l);
    var i := |s| - |l|;
    assert r == s[i..i + |r|];
    assert forall k :: i + |r| <= k < |s| ==> s[k] == l[k - i];
    r
  }

  /** Dashes around a text add no kept character. */
  lemma KeptCharsBetweenDashes(x: string, m: string, y: string)
    requires forall k :: 0 <= k < |x| ==> x[k] == '-'
    requires forall k :: 0 <= k < |y| ==> y[k] == '-'
    ensures KeptChars(x + m + y) == KeptChars(m)
  {
    KeptCharsAppend(x + m, y);
    KeptCharsAppend(x, m);
    KeptCharsDashes(x);
    KeptCharsDashes(y);
  }

  /** Stripping dashes keeps every kept character. */
  lemma StripDashKeptChars(s: string)
    ensures KeptChars(StripDash(s)) == KeptChars(s)
  {
    var i, j :| 0 <= i <= j <= |s| && StripDash(s) == s[i..j]
                && (forall k :: 0 <= k < i ==> s[k] == '-')
                && (forall k :: j <= k < |s| ==> s[k] == '-');
    var x, m, y := s[..i], s[i..j], s[j..];
    assert forall k :: 0 <= k < |y| ==> y[k] == s[j + k];
    assert s == x + m + y;
    KeptCharsBetweenDashes(x, m, y);
  }

  /** One step of the reference definition. */
  lemma SeparatedCons(c: char, t: string, gap: bool, started: bool)
    ensures Separated([c] + t, gap, started)
            == if Kept(c) then (if gap && started then "-" else "") + [c] + Separated(t, false, true)
               else Separated(t, true, started)
  {
    assert ([c] + t)[0] == c;
    assert ([c] + t)[1..] == t;
  }

  /** Masking leaves the reference name alone: it only turns characters that
      are not kept into dashes, which are not kept either, and drops one only
      inside a run that has already opened a gap. */
  lemma {:induction false} MaskRunsSeparated(s: string, inRun: bool, gap: bool, started: bool)
    requires inRun ==> gap
    ensures Separated(MaskRuns(s, inRun), gap, started) == Separated(s, gap, started)
    decreases |s|
  {
    if |s| > 0 {
      var c, t := s[0], s[1..];
      assert s == [c] + t;
      MaskRunsCons(c, t, inRun);
      SeparatedCons(c, t, gap, started);
      var rest := MaskRuns(t, !Allowed(c));
      if Allowed(c) {
        SeparatedCons(c, rest, gap, started);
        if Kept(c) {
          MaskRunsSeparated(t, false, false, true);
        } else {
          MaskRunsSeparated(t, false, true, started);
        }
      } else if inRun {
        assert "" + rest == rest;
        MaskRunsSeparated(t, true, true, started);
      } else {
        SeparatedCons('-', rest, gap, started);
        MaskRunsSeparated(t, true, true, started);
      }
    }
  }

  /** Squeezing leaves the reference name alone: it drops a "-" only right
      after another one, inside a gap already open. */
  lemma {:induction false} SqueezeSeparated(s: string, afterDash: bool, gap: bool, started: bool)
    requires afterDash ==> gap
    ensures Separated(Squeeze(s, afterDash), gap, started) == Separated(s, gap, started)
    decreases |s|
  {
    if |s| > 0 {
      var c, t := s[0], s[1..];
      assert s == [c] + t;
      SqueezeCons(c, t, afterDash);
      SeparatedCons(c, t, gap, started);
      var rest := Squeeze(t, c == '-');
      if c != '-' {
        SeparatedCons(c, rest, gap, started);
        if Kept(c) {
          SqueezeSeparated(t, false, false, true);
        } else {
          SqueezeSeparated(t, false, true, started);
        }
      } else if afterDash {
        assert "" + rest == rest;
        SqueezeSeparated(t, true, true, started);
      } else {
        SeparatedCons('-', rest, gap, started);
        SqueezeSeparated(t, true, true, started);
      }
    }
  }

  /** Before the first kept character, a gap makes no difference. */
  lemma SeparatedNotStarted(s: string, gap: bool)
    ensures Separated(s, gap, false) == Separated(s, false, false)
  {
  }

  /** Leading characters that are not kept add nothing. */
  lemma {:induction false} SeparatedLeading(x: string, m: string, gap: bool)
    requires forall k :: 0 <= k < |x| ==> !Kept(x[k])
    ensures Separated(x + m, gap, false) == Separated(m, false, false)
    decreases |x|
  {
    if |x| == 0 {
      assert x + m == m;
      SeparatedNotStarted(m, gap);
    } else {
      assert x + m == [x[0]] + (x[1..] + m);
      SeparatedCons(x[0], x[1..] + m, gap, false);
      SeparatedLeading(x[1..], m, true);
    }
  }

  /** Trailing characters that are not kept add nothing. */
  lemma {:induction false} SeparatedTrailing(m: string, y: string, gap: bool, started: bool)
    requires forall k :: 0 <= k < |y| ==> !Kept(y[k])
    ensures Separated(m + y, gap, started) == Separated(m, gap, started)
    decreases |m| + |y|
  {
    if |m| == 0 {
      assert m + y == y;
      if |y| > 0 {
        assert y == [y[0]] + y[1..];
        SeparatedCons(y[0], y[1..], gap, started);
        SeparatedTrailing(m, y[1..], true, started);
        assert m + y[1..] == y[1..];
      }
    } else {
      var c, t := m[0], m[1..];
      assert m == [c] + t;
      assert m + y == [c] + (t + y);
      SeparatedCons(c, t + y, gap, started);
      SeparatedCons(c, t, gap, started);
      if Kept(c) {
        SeparatedTrailing(t, y, false, true);
      } else {
        SeparatedTrailing(t, y, true, started);
      }
    }
  }

  /** Stripping the edge dashes leaves the reference name alone. */
  lemma StripDashSeparated(s: string)
    ensures DashJoined(StripDash(s)) == DashJoined(s)
  {
    var i, j :| 0 <= i <= j <= |s| && StripDash(s) == s[i..j]
                && (forall k :: 0 <= k < i ==> s[k] == '-')
                && (forall k :: j <= k < |s| ==> s[k] == '-');
    var x, m, y := s[..i], s[i..j], s[j..];
    assert forall k :: 0 <= k < |y| ==> y[k] == s[j + k];
    assert s == x + (m + y);
    SeparatedLeading(x, m + y, false);
    SeparatedTrailing(m, y, false, false);
  }

  /** A single "-" before a kept character, after a kept one, stays. */
  lemma SeparatedDashKept(u: string)
    requires |u| > 0 && Kept(u[0])
    ensures Separated(['-'] + u, false, true) == "-" + Separated(u, false, true)
  {
    SeparatedCons('-', u, false, true);
    assert u == [u[0]] + u[1..];
    SeparatedCons(u[0], u[1..], true, true);
    SeparatedCons(u[0], u[1..], false, true);
  }

  /** A clean text that does not start with "-" is its own reference name
      once a kept character has been emitted, or before any. */
  lemma {:induction false} CleanSeparated(s: string, started: bool)
    requires Clean(s)
    ensures Separated(s, false, started) == s
    decreases |s|
  {
    if |s| > 0 {
      var c, t := s[0], s[1..];
      assert s == [c] + t;
      SeparatedCons(c, t, false, started);
      SliceKeeps(s, 1, |s|);
      assert |t| == 0 || t[|t| - 1] == s[|s| - 1];
      if |t| > 0 && t[0] == '-' {
        var u := t[1..];
        assert t == ['-'] + u;
        assert |u| > 0 && u[0] == s[2];
        SeparatedDashKept(u);
        assert Clean(u) by {
          SliceKeeps(s, 2, |s|);
          assert u[|u| - 1] == s[|s| - 1];
        }
        CleanSeparated(u, true);
      } else {
        CleanSeparated(t, true);
      }
    }
  }

  /** The four passes after lower-casing compute the reference name. */
  lemma PassesSeparated(low: string)
    ensures StripDash(Squeeze(MaskRuns(low, false), false)) == DashJoined(low)
  {
    var m := MaskRuns(low, false);
    var sq := Squeeze(m, false);
    MaskRunsSeparated(low, false, false, false);
    SqueezeSeparated(m, false, false, false);
    StripDashSeparated(sq);
    StripDashKeeps(sq);
    CleanSeparated(StripDash(sq), false);
  }

  /** `sanitize_branch_name(hf_model_id)`. The output uses only
      `[a-z0-9._-]`, never holds "--" and neither starts nor ends with "-".
      It is the reference name of the lower-cased id: its kept characters
      in order, with one "-" wherever other characters separated two of
      them. */
  function SanitizeBranchName(id: string): (r: string)
    ensures Clean(r)
    ensures KeptChars(r) == KeptChars(LowerSlash(id))
    ensures r == DashJoined(LowerSlash(id))
  {
    var sq := Squeeze(MaskRuns(LowerSlash(id), false), false);
    StripDashKeeps(sq);
    StripDashKeptChars(sq);
    PassesSeparated(LowerSlash(id));
    StripDash(sq)
  }

  // ---------------------------------------------------------------------------
  // Properties

  /** A slice keeps the allowed-only and no-double-dash properties. */
  lemma SliceKeeps(s: string, i: nat, j: nat)
    requires i <= j <= |s|
    ensures AllAllowed(s) ==> AllAllowed(s[i..j])
    ensures NoDoubleDash(s) ==> NoDoubleDash(s[i..j])
  {
    var t := s[i..j];
    assert forall k :: 0 <= k < |t| ==> t[k] == s[i + k];
  }

  /** Stripping the edge dashes keeps both properties, being a slice. */
  lemma StripDashKeeps(s: string)
    ensures AllAllowed(s) ==> AllAllowed(StripDash(s))
    ensures NoDoubleDash(s) ==> NoDoubleDash(StripDash(s))
  {
    var i, j :| 0 <= i <= j <= |s| && StripDash(s) == s[i..j];
    SliceKeeps(s, i, j);
  }

  /** Characters already in the class pass the masking pass unchanged. */
  lemma {:induction false} MaskRunsAllowed(s: string, inRun: bool)
    requires AllAllowed(s)
    ensures MaskRuns(s, inRun) == s
    decreases |s|
  {
    if |s| > 0 {
      MaskRunsAllowed(s[1..], false);
      assert s == [s[0]] + s[1..];
    }
  }

  /** Whether the masking pass is inside a run outside the class once it has
      read `a`, having started with `inRun`. */
  function EndsInRun(a: string, inRun: bool): bool {
    if |a| == 0 then inRun else !Allowed(a[|a| - 1])
  }

  /** One step of the masking pass. */
  lemma MaskRunsCons(c: char, t: string, inRun: bool)
    ensures MaskRuns([c] + t, inRun)
            == (if Allowed(c) then [c] else if inRun then "" else "-") + MaskRuns(t, !Allowed(c))
  {
    assert ([c] + t)[0] == c;
    assert ([c] + t)[1..] == t;
  }

  /** Masking works piecewise: the second piece starts in a run exactly
      when the first ended in one. */
  lemma {:induction false} MaskRunsAppend(a: string, b: string, inRun: bool)
    ensures MaskRuns(a + b, inRun) == MaskRuns(a, inRun) + MaskRuns(b, EndsInRun(a, inRun))
    decreases |a|
  {
    if |a| == 0 {
      assert a + b == b;
    } else {
      var c, t := a[0], a[1..];
      var head := if Allowed(c) then [c] else if inRun then "" else "-";
      assert a == [c] + t;
      assert a + b == [c] + (t + b);
      MaskRunsCons(c, t + b, inRun);
      MaskRunsCons(c, t, inRun);
      MaskRunsAppend(t, b, !Allowed(c));
      assert EndsInRun(t, !Allowed(c)) == EndsInRun(a, inRun);
      ConcatAssoc(head, MaskRuns(t, !Allowed(c)), MaskRuns(b, EndsInRun(a, inRun)));
    }
  }

  /** A non-empty run outside the class gives one "-", or nothing when the
      run before it has already given its "-". */
  lemma {:induction false} MaskRunsRun(d: string, inRun: bool)
    requires |d| > 0
    requires forall k :: 0 <= k < |d| ==> !Allowed(d[k])
    ensures MaskRuns(d, inRun) == if inRun then "" else "-"
    decreases |d|
  {
    if |d| > 1 {
      MaskRunsRun(d[1..], true);
    }
  }

  /** Each maximal run outside the class becomes exactly one "-": `d` is
      such a run when nothing outside the class comes just before it (the
      end of `a`, or `inRun` when `a` is empty) or just after it. */
  lemma MaskRunsOneDash(a: string, d: string, b: string, inRun: bool)
    requires |d| > 0
    requires forall k :: 0 <= k < |d| ==> !Allowed(d[k])
    requires !EndsInRun(a, inRun)
    requires |b| == 0 || Allowed(b[0])
    ensures MaskRuns(a + d + b, inRun) == MaskRuns(a, inRun) + "-" + MaskRuns(b, false)
  {
    MaskRunsAppend(a + d, b, inRun);
    MaskRunsAppend(a, d, inRun);
    MaskRunsRun(d, false);
    assert EndsInRun(a + d, inRun);
    assert MaskRuns(b, true) == MaskRuns(b, false);
  }

  /** Whether the squeezing pass has just emitted a "-" once it has read
      `a`, having started with `afterDash`. */
  function EndsInDash(a: string, afterDash: bool): bool {
    if |a| == 0 then afterDash else a[|a| - 1] == '-'
  }

  /** One step of the squeezing pass. */
  lemma SqueezeCons(c: char, t: string, afterDash: bool)
    ensures Squeeze([c] + t, afterDash)
            == (if c != '-' then [c] else if afterDash then "" else "-") + Squeeze(t, c == '-')
  {
    assert ([c] + t)[0] == c;
    assert ([c] + t)[1..] == t;
  }

  /** Squeezing works piecewise: the second piece starts after a "-"
      exactly when the first ended in one. */
  lemma {:induction false} SqueezeAppend(a: string, b: string, afterDash: bool)
    ensures Squeeze(a + b, afterDash) == Squeeze(a, afterDash) + Squeeze(b, EndsInDash(a, afterDash))
    decreases |a|
  {
    if |a| == 0 {
      assert a + b == b;
    } else {
      var c, t := a[0], a[1..];
      var head := if c != '-' then [c] else if afterDash then "" else "-";
      assert a == [c] + t;
      assert a + b == [c] + (t + b);
      SqueezeCons(c, t + b, afterDash);
      SqueezeCons(c, t, afterDash);
      SqueezeAppend(t, b, c == '-');
      assert EndsInDash(t, c == '-') == EndsInDash(a, afterDash);
      ConcatAssoc(head, Squeeze(t, c == '-'), Squeeze(b, EndsInDash(a, afterDash)));
    }
  }

  /** A non-empty run of "-" gives one "-", or nothing right after a "-". */
  lemma {:induction false} SqueezeRun(d: string, afterDash: bool)
    requires |d| > 0
    requires forall k :: 0 <= k < |d| ==> d[k] == '-'
    ensures Squeeze(d, afterDash) == if afterDash then "" else "-"
    decreases |d|
  {
    if |d| > 1 {
      SqueezeRun(d[1..], true);
    }
  }

  /** Each maximal run of "-" becomes exactly one "-": `d` is such a run
      when no "-" comes just before it (the end of `a`, or `afterDash` when
      `a` is empty) or just after it. */
  lemma SqueezeOneDash(a: string, d: string, b: string, afterDash: bool)
    requires |d| > 0
    requires forall k :: 0 <= k < |d| ==> d[k] == '-'
    requires !EndsInDash(a, afterDash)
    requires |b| == 0 || b[0] != '-'
    ensures Squeeze(a + d + b, afterDash) == Squeeze(a, afterDash) + "-" + Squeeze(b, false)
  {
    SqueezeAppend(a + d, b, afterDash);
    SqueezeAppend(a, d, afterDash);
    SqueezeRun(d, false);
    assert EndsInDash(a + d, afterDash);
    assert Squeeze(b, true) == Squeeze(b, false);
  }

  /** A text without "--" passes the squeezing pass unchanged, as long as it
      does not start with "-" right after a "-". */
  lemma {:induction false} SqueezeNoDouble(s: string, afterDash: bool)
    requires NoDoubleDash(s)
    requires afterDash ==> |s| == 0 || s[0] != '-'
    ensures Squeeze(s, afterDash) == s
    decreases |s|
  {
    if |s| > 0 {
      var t := s[1..];
      assert NoDoubleDash(t) by {
        forall k | 0 <= k < |t| - 1 ensures !(t[k] == '-' && t[k + 1] == '-') {
          assert t[k] == s[k + 1] && t[k + 1] == s[k + 2];
        }
      }
      if |t| > 0 {
        assert t[0] == s[1];
      }
      SqueezeNoDouble(t, s[0] == '-');
      assert s == [s[0]] + t;
    }
  }

  lemma StripDashNoEdge(s: string)
    requires NoEdgeDash(s)
    ensures StripDash(s) == s
  {
  }

  /** Lower-casing leaves allowed characters alone and no allowed character
      is "/". */
  lemma LowerSlashAllowed(s: string)
    requires AllAllowed(s)
    ensures LowerSlash(s) == s
  {
  }

  /** A clean name is its own sanitized form. */
  lemma SanitizeFixesClean(s: string)
    requires Clean(s)
    ensures SanitizeBranchName(s) == s
  {
    LowerSlashAllowed(s);
    MaskRunsAllowed(s, false);
    SqueezeNoDouble(s, false);
    StripDashNoEdge(s);
  }

  /** Sanitizing twice is sanitizing once. */
  lemma SanitizeIdempotent(id: string)
    ensures SanitizeBranchName(SanitizeBranchName(id)) == SanitizeBranchName(id)
  {
    SanitizeFixesClean(SanitizeBranchName(id));
  }

  /** When lower-casing and replacing "/" already gives a clean name, that
      is the result. */
  lemma SanitizeAfterLowerSlash(id: string)
    requires Clean(LowerSlash(id))
    ensures SanitizeBranchName(id) == LowerSlash(id)
  {
    var t := LowerSlash(id);
    MaskRunsAllowed(t, false);
    SqueezeNoDouble(t, false);
    StripDashNoEdge(t);
  }

  lemma ExampleLowerSlash()
    ensures LowerSlash("meta-llama/Llama-3.1-8B-Instruct") == "meta-llama-llama-3.1-8b-instruct"
  {
  }

  lemma ExampleClean()
    ensures Clean("meta-llama-llama-3.1-8b-instruct")
  {
  }

  lemma ExampleLowerSpace()
    ensures LowerSlash("A b@@c") == "a b@@c"
  {
  }

  lemma ExampleMaskRuns()
    ensures MaskRuns("a b@@c", false) == "a-b-c"
  {
  }

  lemma ExampleCleanMasked()
    ensures Clean("a-b-c")
  {
  }

  /** A space and a run of "@" each become one "-". */
  lemma SanitizeMaskExample()
    ensures SanitizeBranchName("A b@@c") == "a-b-c"
  {
    ExampleLowerSpace();
    ExampleMaskRuns();
    ExampleCleanMasked();
    SqueezeNoDouble("a-b-c", false);
    StripDashNoEdge("a-b-c");
  }

  lemma ExampleLowerSlashDash()
    ensures LowerSlash("a/-b") == "a--b"
  {
  }

  lemma ExampleMaskDashes()
    ensures MaskRuns("a--b", false) == "a--b"
  {
    MaskRunsAllowed("a--b", false);
  }

  lemma ExampleSqueeze()
    ensures Squeeze("a--b", false) == "a-b"
  {
    SqueezeOneDash("a", "--", "b", false);
    assert "a" + "--" + "b" == "a--b";
    SqueezeNoDouble("a", false);
    SqueezeNoDouble("b", false);
  }

  /** A "/" next to a "-" gives a run of two dashes, squeezed to one. */
  lemma SanitizeSqueezeExample()
    ensures SanitizeBranchName("a/-b") == "a-b"
  {
    ExampleLowerSlashDash();
    ExampleMaskDashes();
    ExampleSqueeze();
    StripDashNoEdge("a-b");
  }

  /** The worked example of the model id in the repository's tests. */
  lemma SanitizeExample()
    ensures SanitizeBranchName("meta-llama/Llama-3.1-8B-Instruct") == "meta-llama-llama-3.1-8b-instruct"
  {
    ExampleLowerSlash();
    ExampleClean();
    SanitizeAfterLowerSlash("meta-llama/Llama-3.1-8B-Instruct");
  }
}
