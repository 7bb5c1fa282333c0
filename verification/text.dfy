/** The Python string primitives the system relies on, over `seq<char>`.

    Simplifications, applied uniformly: `splitlines()` breaks on "\n" only,
    `lower()` folds ASCII letters only, and whitespace (for `strip()`,
    `split()` and the regex class `\s`) is the ASCII whitespace set that
    Python's `str.isspace` accepts. */
module Text {
  import opened Base

  // ---------------------------------------------------------------------------
  // Characters

  /** ASCII characters for which Python's `str.isspace()` is true. */
  predicate IsSpace(c: char) {
    c == ' ' || c == '\t' || c == '\n' || c == '\r' || c == '\U{0B}' || c == '\U{0C}'
    || c == '\U{1C}' || c == '\U{1D}' || c == '\U{1E}' || c == '\U{1F}'
  }

  predicate IsDigit(c: char) {
    '0' <= c <= '9'
  }

  /** Regex word characters (`\w`), ASCII only. */
  predicate IsWordChar(c: char) {
    ('a' <= c <= 'z') || ('A' <= c <= 'Z') || IsDigit(c) || c == '_'
  }

  function LowerChar(c: char): (r: char)
    ensures 'A' <= c <= 'Z' ==> 'a' <= r <= 'z'
    ensures !('A' <= c <= 'Z') ==> r == c
  {
    if 'A' <= c <= 'Z' then (c as int + 32) as char else c
  }

  /** `s.lower()`, folding ASCII letters only. */
  function Lower(s: string): (r: string)
    ensures |r| == |s|
    ensures forall i :: 0 <= i < |s| ==> r[i] == LowerChar(s[i])
  {
    seq(|s|, i requires 0 <= i < |s| => LowerChar(s[i]))
  }

  lemma LacksAppend(a: string, b: string, c: char)
    ensures Lacks(a + b, c) <==> Lacks(a, c) && Lacks(b, c)
  {
    if Lacks(a, c) && Lacks(b, c) {
      forall i | 0 <= i < |a + b|
        ensures (a + b)[i] != c
      {
        if i >= |a| {
          assert (a + b)[i] == b[i - |a|];
        }
      }
    }
    if Lacks(a + b, c) {
      forall i | 0 <= i < |a|
        ensures a[i] != c
      {
        assert (a + b)[i] == a[i];
      }
      forall i | 0 <= i < |b|
        ensures b[i] != c
      {
        assert (a + b)[|a| + i] == b[i];
      }
    }
  }

  lemma LowerAppend(a: string, b: string)
    ensures Lower(a + b) == Lower(a) + Lower(b)
  {
  }

  // ---------------------------------------------------------------------------
  // Prefixes, infixes, searching

  predicate StartsWith(s: string, p: string) {
    |p| <= |s| && s[..|p|] == p
  }

  /** `t in s` for strings: `t` occurs somewhere in `s`. */
  predicate Contains(s: string, t: string)
    decreases |s|
  {
    StartsWith(s, t) || (|s| > 0 && Contains(s[1..], t))
  }

  /** Index of the first `c` in `s`, or `|s|` when there is none. */
  function IndexOf(s: string, c: char): (r: nat)
    ensures r <= |s|
    ensures forall i :: 0 <= i < r ==> s[i] != c
    ensures r < |s| ==> s[r] == c
  {
    if |s| == 0 then 0 else if s[0] == c then 0 else 1 + IndexOf(s[1..], c)
  }

  /** `s.split(c, 1)[1]`: the text after the first `c` ("" when `c` is absent). */
  function AfterFirst(s: string, c: char): (r: string)
    ensures IndexOf(s, c) < |s| ==> r == s[IndexOf(s, c) + 1..]
  {
    var i := IndexOf(s, c);
    if i < |s| then s[i + 1..] else ""
  }

  // ---------------------------------------------------------------------------
  // Stripping

  function LStrip(s: string): (r: string)
    ensures |r| <= |s| && r == s[|s| - |r|..]
    ensures forall i :: 0 <= i < |s| - |r| ==> IsSpace(s[i])
    ensures |r| > 0 ==> !IsSpace(r[0])
  {
    if |s| > 0 && IsSpace(s[0]) then LStrip(s[1..]) else s
  }

  function RStrip(s: string): (r: string)
    ensures |r| <= |s| && r == s[..|r|]
    ensures forall i :: |r| <= i < |s| ==> IsSpace(s[i])
    ensures |r| > 0 ==> !IsSpace(r[|r| - 1])
  {
    if |s| > 0 && IsSpace(s[|s| - 1]) then RStrip(s[..|s| - 1]) else s
  }

  /** `s.strip()`. */
  function Strip(s: string): (r: string)
    ensures |r| == 0 || (!IsSpace(r[0]) && !IsSpace(r[|r| - 1]))
    ensures |r| <= |s|
    ensures forall k :: 0 <= k < |r| ==> r[k] in s
  {
    var l := LStrip(s);
    var r := RStrip(l);
    InnerSlice(s, l, r);
    r
  }

  /** The characters of a prefix of a suffix of `s` are characters of `s`. */
  lemma InnerSlice(s: string, l: string, r: string)
    requires |l| <= |s| && l == s[|s| - |l|..] && |r| <= |l| && r == l[..|r|]
    ensures |r| > 0 ==> r[0] == l[0]
    ensures forall k :: 0 <= k < |r| ==> r[k] in s
  {
    forall k | 0 <= k < |r|
      ensures r[k] in s
    {
      assert r[k] == s[|s| - |l| + k];
    }
  }

  /** A string with no whitespace at either end: `Strip` leaves it alone. */
  predicate Trimmed(s: string) {
    |s| == 0 || (!IsSpace(s[0]) && !IsSpace(s[|s| - 1]))
  }

  /** No occurrence of `c` in `s`. */
  predicate Lacks(s: string, c: char) {
    forall i :: 0 <= i < |s| ==> s[i] != c
  }

  predicate SingleLine(s: string) {
    Lacks(s, '\n')
  }

  lemma StartsWithAppend(a: string, b: string, p: string)
    requires StartsWith(a, p)
    ensures StartsWith(a + b, p)
  {
    assert (a + b)[..|p|] == a[..|p|];
  }

  /** Stripping adds no character, so a missing one stays missing. */
  lemma StripLacks(s: string, c: char)
    requires Lacks(s, c)
    ensures Lacks(Strip(s), c)
  {
    var r := Strip(s);
    forall k | 0 <= k < |r|
      ensures r[k] != c
    {
      assert r[k] in s;
    }
  }

  lemma StripTrimmed(s: string)
    requires Trimmed(s)
    ensures Strip(s) == s
  {
  }

  /** Leading spaces are dropped by `Strip`. */
  lemma {:induction false} StripLeadingSpaces(sp: string, s: string)
    requires forall i :: 0 <= i < |sp| ==> IsSpace(sp[i])
    requires Trimmed(s)
    ensures Strip(sp + s) == s
    decreases |sp|
  {
    if |sp| == 0 {
      assert sp + s == s;
    } else {
      assert (sp + s)[1..] == sp[1..] + s;
      StripLeadingSpaces(sp[1..], s);
    }
  }

  /** A line that begins with a "head" having non-space characters at both
      ends keeps that head after stripping. */
  lemma StripKeepsHead(head: string, rest: string)
    requires |head| > 0 && !IsSpace(head[0]) && !IsSpace(head[|head| - 1])
    ensures StartsWith(Strip(head + rest), head)
  {
    var s := head + rest;
    assert LStrip(s) == s;
    var r := RStrip(s);
    assert !IsSpace(s[|head| - 1]);
    assert |r| >= |head|;
    assert r[..|head|] == s[..|head|] == head;
  }

  // ---------------------------------------------------------------------------
  // Splitting and joining

  /** `s.split(c)`: the pieces between occurrences of `c`; always at least one. */
  function SplitOn(s: string, c: char): (r: seq<string>)
    ensures |r| >= 1
    decreases |s|
  {
    var i := IndexOf(s, c);
    if i == |s| then [s] else [s[..i]] + SplitOn(s[i + 1..], c)
  }

  /** `sep.join(parts)`. */
  function Join(sep: string, parts: seq<string>): string
    decreases |parts|
  {
    if |parts| == 0 then ""
    else if |parts| == 1 then parts[0]
    else parts[0] + sep + Join(sep, parts[1..])
  }

  /** `s.splitlines()` with "\n" as the only line break: a trailing break
      does not start an extra empty line, and "" has no lines. */
  function SplitLines(s: string): (r: seq<string>)
    ensures forall k :: 0 <= k < |r| ==> SingleLine(r[k])
  {
    var p := SplitOn(s, '\n');
    SplitOnPieces(s, '\n');
    if p[|p| - 1] == "" then p[..|p| - 1] else p
  }

  /** Index of the first whitespace character of `s`, or `|s|`. */
  function SpaceIndex(s: string): (r: nat)
    ensures r <= |s|
    ensures forall i :: 0 <= i < r ==> !IsSpace(s[i])
    ensures r < |s| ==> IsSpace(s[r])
  {
    if |s| == 0 then 0 else if IsSpace(s[0]) then 0 else 1 + SpaceIndex(s[1..])
  }

  /** `s.split()`: the maximal runs of non-whitespace characters, in order. */
  function Tokens(s: string): (r: seq<string>)
    ensures forall k :: 0 <= k < |r| ==> |r[k]| > 0
    ensures forall k, j :: 0 <= k < |r| && 0 <= j < |r[k]| ==> !IsSpace(r[k][j])
    decreases |s|
  {
    if |s| == 0 then []
    else if IsSpace(s[0]) then Tokens(s[1..])
    else
      var k := SpaceIndex(s);
      TokenHead(s, k);
      [s[..k]] + Tokens(s[k..])
  }

  lemma TokenHead(t: string, k: nat)
    requires |t| > 0 && !IsSpace(t[0]) && k == SpaceIndex(t)
    ensures 1 <= k <= |t|
    ensures forall j :: 0 <= j < |t[..k]| ==> !IsSpace(t[..k][j])
  {
  }

  lemma IndexOfConcat(a: string, c: char, b: string)
    requires c !in a
    ensures IndexOf(a + [c] + b, c) == |a|
  {
    var s := a + [c] + b;
    assert forall k :: 0 <= k < |a| ==> s[k] == a[k];
    assert s[|a|] == c;
  }

  /** Splitting distributes over a separator occurrence. */
  lemma {:induction false} SplitOnAppend(a: string, c: char, b: string)
    ensures SplitOn(a + [c] + b, c) == SplitOn(a, c) + SplitOn(b, c)
    decreases |a|, 1
  {
    if IndexOf(a, c) == |a| {
      SplitOnAppendBase(a, c, b);
    } else {
      SplitOnAppendStep(a, c, b);
    }
  }

  lemma {:induction false} SplitOnAppendStep(a: string, c: char, b: string)
    requires IndexOf(a, c) < |a|
    ensures SplitOn(a + [c] + b, c) == SplitOn(a, c) + SplitOn(b, c)
    decreases |a|, 0
  {
    var i := IndexOf(a, c);
    var head, tail := a[..i], a[i + 1..];
    var s := a + [c] + b;
    assert s[..i] == head && s[i + 1..] == tail + [c] + b && IndexOf(s, c) == i by {
      IndexOfPrefix(a, i, c, [c] + b);
      assert s == a + ([c] + b);
    }
    SplitOnAt(s, c, i);
    SplitOnAt(a, c, i);
    SplitOnAppend(tail, c, b);
    ConcatAssoc([head], SplitOn(tail, c), SplitOn(b, c));
  }

  /** Splitting at the first separator. */
  lemma SplitOnAt(s: string, c: char, i: nat)
    requires i == IndexOf(s, c) < |s|
    ensures SplitOn(s, c) == [s[..i]] + SplitOn(s[i + 1..], c)
  {
  }

  lemma SplitOnAppendBase(a: string, c: char, b: string)
    requires IndexOf(a, c) == |a|
    ensures SplitOn(a + [c] + b, c) == SplitOn(a, c) + SplitOn(b, c)
  {
    var s := a + [c] + b;
    IndexOfConcat(a, c, b);
    assert s[..|a|] == a;
    assert s[|a| + 1..] == b;
  }

  lemma IndexOfPrefix(a: string, i: nat, c: char, b: string)
    requires i < |a| && i == IndexOf(a, c)
    ensures IndexOf(a + b, c) == i
  {
    var s := a + b;
    assert forall k :: 0 <= k <= i ==> s[k] == a[k];
  }

  /** No piece of a split holds the separator. */
  lemma {:induction false} SplitOnPieces(s: string, c: char)
    ensures forall k :: 0 <= k < |SplitOn(s, c)| ==> Lacks(SplitOn(s, c)[k], c)
    decreases |s|
  {
    var i := IndexOf(s, c);
    if i < |s| {
      SplitOnPieces(s[i + 1..], c);
      assert SplitOn(s, c) == [s[..i]] + SplitOn(s[i + 1..], c);
    }
  }

  lemma JoinCons(sep: string, p: string, rest: seq<string>)
    requires |rest| >= 1
    ensures Join(sep, [p] + rest) == p + sep + Join(sep, rest)
  {
    assert ([p] + rest)[1..] == rest;
  }

  /** A join begins with its first part, and is that part alone when
      there is only one. */
  lemma JoinHead(sep: string, parts: seq<string>)
    requires |parts| >= 1
    ensures StartsWith(Join(sep, parts), parts[0])
    ensures |parts| == 1 ==> Join(sep, parts) == parts[0]
  {
    if |parts| > 1 {
      JoinCons(sep, parts[0], parts[1..]);
      assert parts == [parts[0]] + parts[1..];
      var j := Join(sep, parts);
      assert j == parts[0] + (sep + Join(sep, parts[1..]));
      assert j[..|parts[0]|] == parts[0];
    }
  }

  /** Splitting a join recovers the parts when no part holds the separator. */
  lemma {:induction false} SplitJoin(parts: seq<string>, c: char)
    requires |parts| >= 1
    requires forall k :: 0 <= k < |parts| ==> Lacks(parts[k], c)
    ensures SplitOn(Join([c], parts), c) == parts
    decreases |parts|
  {
    assert IndexOf(parts[0], c) == |parts[0]|;
    if |parts| > 1 {
      var rest := parts[1..];
      SplitJoin(rest, c);
      assert parts == [parts[0]] + rest;
      JoinCons([c], parts[0], rest);
      SplitOnAppend(parts[0], c, Join([c], rest));
    }
  }

  /** Joining the pieces of a split gives back the original text. */
  lemma {:induction false} JoinSplit(s: string, c: char)
    ensures Join([c], SplitOn(s, c)) == s
    decreases |s|
  {
    var i := IndexOf(s, c);
    if i < |s| {
      var head, tail := s[..i], s[i + 1..];
      var ps := SplitOn(tail, c);
      assert SplitOn(s, c) == [head] + ps;
      JoinSplit(tail, c);
      JoinCons([c], head, ps);
      SliceAround(s, i);
      assert Join([c], SplitOn(s, c)) == head + [c] + tail;
    }
  }

  /** The lines of `a + "\n" + b` are the pieces of `a` followed by the lines of `b`. */
  lemma SplitLinesAppend(a: string, b: string)
    ensures SplitLines(a + "\n" + b) == SplitOn(a, '\n') + SplitLines(b)
  {
    assert a + "\n" + b == a + ['\n'] + b;
    SplitOnAppend(a, '\n', b);
    var pa := SplitOn(a, '\n');
    var pb := SplitOn(b, '\n');
    var p := pa + pb;
    assert SplitOn(a + "\n" + b, '\n') == p;
    LastOfAppend(pa, pb);
  }

  lemma SplitLinesEmpty()
    ensures SplitLines("") == []
  {
    assert SplitOn("", '\n') == [""];
  }

  /** A sequence is what comes before index `i`, the element there, and
      what comes after. */
  lemma SliceAround<T>(s: seq<T>, i: nat)
    requires i < |s|
    ensures s == s[..i] + [s[i]] + s[i + 1..]
  {
  }

  /** The last element and the front of `a + b` come from `b`. */
  lemma LastOfAppend<T>(a: seq<T>, b: seq<T>)
    requires |b| > 0
    ensures (a + b)[|a + b| - 1] == b[|b| - 1]
    ensures (a + b)[..|a + b| - 1] == a + b[..|b| - 1]
  {
  }

  /** A join holds `c` only where a part or the separator does. */
  lemma {:induction false} JoinLacks(sep: string, parts: seq<string>, c: char)
    requires Lacks(sep, c) && forall k :: 0 <= k < |parts| ==> Lacks(parts[k], c)
    ensures Lacks(Join(sep, parts), c)
    decreases |parts|
  {
    if |parts| > 1 {
      JoinLacks(sep, parts[1..], c);
      var t := Join(sep, parts[1..]);
      var j := parts[0] + sep + t;
      forall i | 0 <= i < |j|
        ensures j[i] != c
      {
        if i < |parts[0]| {
          assert j[i] == parts[0][i];
        } else if i < |parts[0]| + |sep| {
          assert j[i] == sep[i - |parts[0]|];
        } else {
          assert j[i] == t[i - |parts[0]| - |sep|];
        }
      }
    }
  }

  /** A non-empty single line is its own (only) line. */
  lemma SplitLinesSingle(s: string)
    requires SingleLine(s) && |s| > 0
    ensures SplitLines(s) == [s]
  {
    assert IndexOf(s, '\n') == |s|;
  }

  // ---------------------------------------------------------------------------
  // Integers

  function DigitChar(d: nat): (r: char)
    requires d < 10
    ensures IsDigit(r)
  {
    ('0' as int + d) as char
  }

  function DigitValue(c: char): (r: nat)
    requires IsDigit(c)
    ensures r < 10
  {
    c as int - '0' as int
  }

  predicate AllDigits(s: string) {
    forall i :: 0 <= i < |s| ==> IsDigit(s[i])
  }

  /** Decimal digits of `n` without leading zeros. */
  function NatToString(n: nat): (r: string)
    ensures |r| > 0 && AllDigits(r)
    decreases n
  {
    if n < 10 then [DigitChar(n)] else NatToString(n / 10) + [DigitChar(n % 10)]
  }

  /** `str(n)` for a Python int. */
  function IntToString(n: int): (r: string)
    ensures |r| > 0
    ensures forall k :: 0 <= k < |r| ==> IsDigit(r[k]) || r[k] == '-'
  {
    if n < 0 then "-" + NatToString(-n) else NatToString(n)
  }

  function ParseDigits(s: string): (r: nat)
    requires AllDigits(s)
    decreases |s|
  {
    if |s| == 0 then 0 else 10 * ParseDigits(s[..|s| - 1]) + DigitValue(s[|s| - 1])
  }

  /** `int(s)` on an already stripped string: an optional sign followed by
      at least one decimal digit; anything else raises `ValueError`. */
  function ParseInt(s: string): (r: Option<int>)
    ensures r.Some? ==> |s| > 0
    ensures (|s| > 0 && AllDigits(s)) ==> r == Some(ParseDigits(s))
  {
    if |s| == 0 then None
    else if s[0] == '-' || s[0] == '+' then
      var d := s[1..];
      if |d| > 0 && AllDigits(d) then
        var v: int := ParseDigits(d);
        Some(if s[0] == '-' then -v else v)
      else None
    else if AllDigits(s) then Some(ParseDigits(s))
    else None
  }

  lemma {:induction false} ParseNatToString(n: nat)
    ensures ParseDigits(NatToString(n)) == n
    decreases n
  {
    if n >= 10 {
      var s := NatToString(n);
      ParseNatToString(n / 10);
      assert s[..|s| - 1] == NatToString(n / 10);
    }
  }

  /** `int(str(n)) == n`. */
  lemma ParseIntToString(n: int)
    ensures ParseInt(IntToString(n)) == Some(n)
  {
    ParseNatToString(if n < 0 then -n else n);
    if n < 0 {
      assert IntToString(n)[1..] == NatToString(-n);
    }
  }
}
