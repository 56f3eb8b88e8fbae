/** The pieces of Rust's `str` API the interpreter relies on, on `seq<char>`:
    `char::is_whitespace`, `trim`, `split`, `contains`, `replace`,
    `trim_start_matches`/`trim_end_matches`, `eq_ignore_ascii_case`,
    `split_whitespace`, `len` (UTF-8 bytes), and `parse::<i32>` / `parse::<f64>`
    (the latter only as a syntactic test). */
module Strings {
  import opened Outcomes
  import opened I32

  /** Unicode White_Space, which `char::is_whitespace`, `trim` and `split_whitespace` use. */
  predicate IsWhitespace(c: char) {
    || c == ' ' || c == '\t' || c == '\n' || c == '\r' || c == '\U{0B}' || c == '\U{0C}'
    || c == '\U{85}' || c == '\U{A0}' || c == '\U{1680}'
    || ('\U{2000}' <= c <= '\U{200A}')
    || c == '\U{2028}' || c == '\U{2029}' || c == '\U{202F}' || c == '\U{205F}' || c == '\U{3000}'
  }

  predicate StartsWith(s: string, c: char) {
    |s| > 0 && s[0] == c
  }

  predicate EndsWith(s: string, c: char) {
    |s| > 0 && s[|s| - 1] == c
  }

  // ---------------------------------------------------------------- trimming

  function TrimStart(s: string): (r: string)
    ensures |r| <= |s| && r == s[|s| - |r|..]
    ensures |r| > 0 ==> !IsWhitespace(r[0])
    ensures forall k :: 0 <= k < |s| - |r| ==> IsWhitespace(s[k])
    decreases |s|
  {
    if |s| > 0 && IsWhitespace(s[0]) then TrimStart(s[1..]) else s
  }

  function TrimEnd(s: string): (r: string)
    ensures |r| <= |s| && r == s[..|r|]
    ensures |r| > 0 ==> !IsWhitespace(r[|r| - 1])
    ensures forall k :: |r| <= k < |s| ==> IsWhitespace(s[k])
    decreases |s|
  {
    if |s| > 0 && IsWhitespace(s[|s| - 1]) then TrimEnd(s[..|s| - 1]) else s
  }

  /** `str::trim`: the input without its leading and trailing whitespace. */
  function Trim(s: string): (r: string)
    ensures |r| <= |s|
    ensures |r| > 0 ==> !IsWhitespace(r[0]) && !IsWhitespace(r[|r| - 1])
    ensures exists i :: TrimmedAt(s, i, r)
  {
    var t := TrimStart(s);
    var r := TrimEnd(t);
    assert TrimmedAt(s, |s| - |t|, r) by {
      assert s[|s| - |t|..] == t;
      forall k | |s| - |t| + |r| <= k < |s|
        ensures IsWhitespace(s[k])
      {
        assert s[k] == t[k - (|s| - |t|)];
      }
    }
    r
  }

  /** `r` is `s[i..i + |r|]`, and everything of `s` around it is whitespace. */
  predicate TrimmedAt(s: string, i: int, r: string) {
    && 0 <= i && i + |r| <= |s| && r == s[i..i + |r|]
    && (forall k :: 0 <= k < i ==> IsWhitespace(s[k]))
    && (forall k :: i + |r| <= k < |s| ==> IsWhitespace(s[k]))
  }

  /** `trim_start_matches(c)`: removes every leading `c`. */
  function TrimStartMatches(s: string, c: char): (r: string)
    ensures |r| <= |s| && r == s[|s| - |r|..]
    ensures !StartsWith(r, c)
    ensures forall k :: 0 <= k < |s| - |r| ==> s[k] == c
    decreases |s|
  {
    if StartsWith(s, c) then TrimStartMatches(s[1..], c) else s
  }

  /** `trim_end_matches(c)`: removes every trailing `c`. */
  function TrimEndMatches(s: string, c: char): (r: string)
    ensures |r| <= |s| && r == s[..|r|]
    ensures !EndsWith(r, c)
    ensures forall k :: |r| <= k < |s| ==> s[k] == c
    decreases |s|
  {
    if EndsWith(s, c) then TrimEndMatches(s[..|s| - 1], c) else s
  }

  // ---------------------------------------------------------------- split and join

  function IndexOf(s: string, c: char): (r: Option<nat>)
    ensures r.None? <==> c !in s
    ensures r.Some? ==> r.value < |s| && s[r.value] == c && c !in s[..r.value]
    decreases |s|
  {
    if |s| == 0 then None
    else if s[0] == c then Some(0)
    else
      match IndexOf(s[1..], c)
      case None => None
      case Some(k) =>
        assert s[..k + 1] == [s[0]] + s[1..][..k];
        Some(k + 1)
  }

  /** `sep`-separated concatenation of `parts`; the inverse of splitting. */
  function Join(sep: string, parts: seq<string>): string
    decreases |parts|
  {
    if |parts| == 0 then ""
    else if |parts| == 1 then parts[0]
    else parts[0] + sep + Join(sep, parts[1..])
  }

  /** A character in neither the separator nor any part is not in the joined text. */
  lemma {:induction false} JoinAvoids(sep: string, parts: seq<string>, c: char)
    requires c !in sep && forall k :: 0 <= k < |parts| ==> c !in parts[k]
    ensures c !in Join(sep, parts)
    decreases |parts|
  {
    if |parts| > 1 {
      JoinAvoids(sep, parts[1..], c);
      assert c !in parts[0];
    }
  }

  /** `s.split(c)`: the pieces between occurrences of `c`; always at least one piece. */
  function SplitOn(s: string, c: char): (r: seq<string>)
    ensures |r| >= 1
    ensures forall k :: 0 <= k < |r| ==> c !in r[k] && |r[k]| <= |s|
    ensures Join([c], r) == s
    decreases |s|
  {
    match IndexOf(s, c)
    case None => [s]
    case Some(k) =>
      var rest := SplitOn(s[k + 1..], c);
      assert s == s[..k] + [c] + s[k + 1..];
      [s[..k]] + rest
  }

  /** Splitting a join gives the parts back, when no part contains the separator. */
  lemma {:induction false} SplitJoinRoundTrip(parts: seq<string>, c: char)
    requires |parts| >= 1
    requires forall k :: 0 <= k < |parts| ==> c !in parts[k]
    ensures SplitOn(Join([c], parts), c) == parts
    decreases |parts|
  {
    if |parts| > 1 {
      var s := Join([c], parts);
      assert s == parts[0] + [c] + Join([c], parts[1..]);
      assert s[|parts[0]|] == c;
      assert s[..|parts[0]|] == parts[0];
      assert IndexOf(s, c) == Some(|parts[0]|);
      assert s[|parts[0]| + 1..] == Join([c], parts[1..]);
      SplitJoinRoundTrip(parts[1..], c);
    }
  }

  predicate DotsAt(s: string, k: int) {
    0 <= k && k + 1 < |s| && s[k] == '.' && s[k + 1] == '.'
  }

  /** `s.contains("..")`. */
  predicate ContainsDots(s: string) {
    exists k :: 0 <= k < |s| && DotsAt(s, k)
  }

  /** Position of the leftmost `..`. */
  function IndexOfDots(s: string): (r: Option<nat>)
    ensures r.None? <==> !ContainsDots(s)
    ensures r.Some? ==> DotsAt(s, r.value) && forall k :: 0 <= k < r.value ==> !DotsAt(s, k)
  {
    if !ContainsDots(s) then None
    else
      LeftmostDots(s, 0)
  }

  function LeftmostDots(s: string, from: nat): (r: Option<nat>)
    requires from <= |s|
    requires forall k :: 0 <= k < from ==> !DotsAt(s, k)
    requires exists k :: 0 <= k < |s| && DotsAt(s, k)
    ensures r.Some? && DotsAt(s, r.value) && forall k :: 0 <= k < r.value ==> !DotsAt(s, k)
    decreases |s| - from
  {
    if DotsAt(s, from) then Some(from) else LeftmostDots(s, from + 1)
  }

  /** `s.split("..")`: non-overlapping, leftmost matches. No piece holds `..`, and no
      piece but the last ends in `.` (else the match would have started one earlier),
      which with the join fixes the pieces. */
  function SplitDots(s: string): (r: seq<string>)
    ensures |r| >= 1
    ensures forall k :: 0 <= k < |r| ==> |r[k]| <= |s| && !ContainsDots(r[k])
    ensures forall k :: 0 <= k < |r| - 1 ==> !EndsWith(r[k], '.')
    ensures Join("..", r) == s
    decreases |s|
  {
    match IndexOfDots(s)
    case None => [s]
    case Some(k) =>
      assert s == s[..k] + ".." + s[k + 2..];
      var front := s[..k];
      assert !ContainsDots(front) by {
        forall j | 0 <= j < |front| ensures !DotsAt(front, j) {
          assert DotsAt(front, j) ==> DotsAt(s, j);
        }
      }
      assert !EndsWith(front, '.') by {
        if EndsWith(front, '.') {
          assert DotsAt(s, k - 1);
        }
      }
      [front] + SplitDots(s[k + 2..])
  }

  /** `s.replace(from, to)` for single characters. */
  function Replace(s: string, from: char, to: char): (r: string)
    ensures |r| == |s|
    ensures forall k :: 0 <= k < |s| ==> r[k] == (if s[k] == from then to else s[k])
  {
    seq(|s|, k requires 0 <= k < |s| => if s[k] == from then to else s[k])
  }

  // ---------------------------------------------------------------- whitespace splitting

  /** A non-empty piece without whitespace. */
  predicate IsWord(w: string) {
    |w| > 0 && forall j :: 0 <= j < |w| ==> !IsWhitespace(w[j])
  }

  /** `s.split_whitespace()`: the maximal runs of non-whitespace characters. */
  function SplitWhitespace(s: string): (r: seq<string>)
    ensures forall k :: 0 <= k < |r| ==> IsWord(r[k])
    decreases |s|
  {
    var t := TrimStart(s);
    if |t| == 0 then []
    else
      var n := RunLength(t, 0);
      assert n > 0 && IsWord(t[..n]);
      var rest := SplitWhitespace(t[n..]);
      WordsCons(t[..n], rest);
      [t[..n]] + rest
  }

  lemma WordsCons(w: string, ws: seq<string>)
    requires IsWord(w) && forall k :: 0 <= k < |ws| ==> IsWord(ws[k])
    ensures forall k :: 0 <= k < |ws| + 1 ==> IsWord(([w] + ws)[k])
  {
  }

  /** Length of the run of non-whitespace characters at the front of `s[from..]`, plus `from`. */
  function RunLength(s: string, from: nat): (n: nat)
    requires from <= |s|
    requires forall j :: 0 <= j < from ==> !IsWhitespace(s[j])
    ensures from <= n <= |s|
    ensures forall j :: 0 <= j < n ==> !IsWhitespace(s[j])
    ensures n == |s| || IsWhitespace(s[n])
    decreases |s| - from
  {
    if from == |s| || IsWhitespace(s[from]) then from else RunLength(s, from + 1)
  }

  /** Words joined by single spaces split back into those words. */
  lemma {:induction false} SplitWhitespaceJoin(ws: seq<string>)
    requires forall k :: 0 <= k < |ws| ==> IsWord(ws[k])
    ensures SplitWhitespace(Join(" ", ws)) == ws
    decreases |ws|
  {
    if |ws| > 0 {
      var w, s := ws[0], Join(" ", ws);
      var rest := if |ws| == 1 then "" else " " + Join(" ", ws[1..]);
      assert s == w + rest;
      assert IsWord(w);
      RunOfWord(w, rest, 0);
      assert s[..|w|] == w && s[|w|..] == rest;
      if |ws| > 1 {
        SplitWhitespaceJoin(ws[1..]);
        SkipSpace(Join(" ", ws[1..]));
        assert ws == [w] + ws[1..];
      }
    }
  }

  /** A leading space does not change the words. */
  lemma SkipSpace(t: string)
    ensures SplitWhitespace(" " + t) == SplitWhitespace(t)
  {
    assert (" " + t)[1..] == t;
    assert TrimStart(" " + t) == TrimStart(t);
  }

  /** The run at the front of a word followed by nothing or by whitespace is the word. */
  lemma {:induction false} RunOfWord(w: string, rest: string, from: nat)
    requires IsWord(w) && from <= |w| && (rest == "" || IsWhitespace(rest[0]))
    ensures forall j :: 0 <= j < from ==> !IsWhitespace((w + rest)[j])
    ensures RunLength(w + rest, from) == |w|
    decreases |w| - from
  {
    var s := w + rest;
    assert forall j :: 0 <= j < |w| ==> s[j] == w[j];
    if from < |w| {
      RunOfWord(w, rest, from + 1);
    } else if |rest| > 0 {
      assert s[from] == rest[0];
    }
  }

  predicate AllWhitespace(g: string) {
    forall j :: 0 <= j < |g| ==> IsWhitespace(g[j])
  }

  /** Gaps between words: whitespace only, and every gap between two words non-empty
      (the first and the last may be empty). */
  predicate IsSpacing(gaps: seq<string>) {
    && (forall k :: 0 <= k < |gaps| ==> AllWhitespace(gaps[k]))
    && (forall k :: 0 < k < |gaps| - 1 ==> |gaps[k]| > 0)
  }

  /** `gaps[0] + ws[0] + gaps[1] + ... + ws[n-1] + gaps[n]`. */
  function Interleave(gaps: seq<string>, ws: seq<string>): string
    requires |gaps| == |ws| + 1
    decreases |ws|
  {
    if |ws| == 0 then gaps[0] else gaps[0] + ws[0] + Interleave(gaps[1..], ws[1..])
  }

  /** Whitespace in front of a text starting with a non-whitespace character is what
      `trim_start` removes. */
  lemma TrimStartOfGap(g: string, u: string)
    requires AllWhitespace(g) && |u| > 0 && !IsWhitespace(u[0])
    ensures TrimStart(g + u) == u
  {
    var s, r := g + u, TrimStart(g + u);
    assert s[|g|] == u[0];
    assert |r| > 0 ==> r[0] == s[|s| - |r|];
    assert s[|g|..] == u;
  }

  lemma InterleaveCons(g: string, w: string, gaps: seq<string>, ws: seq<string>)
    requires |gaps| == |ws| + 1
    ensures Interleave([g] + gaps, [w] + ws) == g + w + Interleave(gaps, ws)
  {
    assert ([g] + gaps)[1..] == gaps && ([w] + ws)[1..] == ws;
  }

  lemma SpacingCons(g: string, gaps: seq<string>)
    requires AllWhitespace(g) && IsSpacing(gaps) && (|gaps| > 1 ==> |gaps[0]| > 0)
    ensures IsSpacing([g] + gaps)
  {
    var all := [g] + gaps;
    forall k | 0 < k < |all| ensures all[k] == gaps[k - 1] {
    }
  }

  /** `trim_start` splits a text into its leading whitespace and the rest. */
  lemma TrimStartSplit(s: string)
    ensures var lead := s[..|s| - |TrimStart(s)|]; s == lead + TrimStart(s) && AllWhitespace(lead)
  {
    var lead := s[..|s| - |TrimStart(s)|];
    assert s == lead + TrimStart(s);
  }

  /** A text starting with a non-whitespace character splits into its first run and the rest. */
  lemma RunSplit(t: string)
    requires |t| > 0 && !IsWhitespace(t[0])
    ensures var n := RunLength(t, 0);
      t == t[..n] + t[n..] && IsWord(t[..n]) && (t[n..] == "" || IsWhitespace(t[n..][0]))
  {
    var n := RunLength(t, 0);
    assert t == t[..n] + t[n..];
  }

  /** One round of `split_whitespace`, as the definition states it. */
  lemma SplitWhitespaceUnfold(s: string)
    requires |TrimStart(s)| > 0
    ensures var t := TrimStart(s); var n := RunLength(t, 0);
      SplitWhitespace(s) == [t[..n]] + SplitWhitespace(t[n..])
  {
  }

  /** One round of `split_whitespace`: leading whitespace, the first run, then the rest. */
  lemma SplitWhitespaceStep(s: string) returns (lead: string, w: string, rest: string)
    requires |TrimStart(s)| > 0
    ensures s == lead + w + rest && lead == s[..|s| - |TrimStart(s)|]
    ensures AllWhitespace(lead) && IsWord(w) && (rest == "" || IsWhitespace(rest[0]))
    ensures SplitWhitespace(s) == [w] + SplitWhitespace(rest)
  {
    var t := TrimStart(s);
    var n := RunLength(t, 0);
    lead, w, rest := s[..|s| - |t|], t[..n], t[n..];
    TrimStartSplit(s);
    RunSplit(t);
    SplitWhitespaceUnfold(s);
    ConcatAssoc(lead, w, rest);
  }

  lemma ConcatAssoc(a: string, b: string, c: string)
    ensures a + b + c == a + (b + c)
  {
  }

  /** Text that starts with whitespace keeps at least one gap character. */
  lemma LeadNonEmpty(u: string)
    requires |u| > 0 && IsWhitespace(u[0])
    ensures |u| - |TrimStart(u)| > 0
  {
  }

  /** Extends the spacing of the rest of a text by the whitespace before its first word. */
  lemma GapsCons(lead: string, w: string, rest: string, ws: seq<string>, restGaps: seq<string>)
    returns (gaps: seq<string>)
    requires AllWhitespace(lead) && IsSpacing(restGaps) && |restGaps| == |ws| + 1
    requires Interleave(restGaps, ws) == rest
    requires |ws| > 0 ==> |restGaps[0]| > 0
    ensures gaps == [lead] + restGaps && |gaps| == |ws| + 2 && IsSpacing(gaps)
    ensures Interleave(gaps, [w] + ws) == lead + w + rest
  {
    SpacingCons(lead, restGaps);
    InterleaveCons(lead, w, restGaps, ws);
    gaps := [lead] + restGaps;
  }

  /** `split_whitespace` gives the maximal runs of non-whitespace, in order: the input
      is its pieces interleaved with whitespace gaps, non-empty between two pieces. */
  lemma {:induction false} SplitWhitespaceGaps(s: string) returns (gaps: seq<string>)
    ensures |gaps| == |SplitWhitespace(s)| + 1 && IsSpacing(gaps)
    ensures Interleave(gaps, SplitWhitespace(s)) == s
    ensures gaps[0] == s[..|s| - |TrimStart(s)|]
    decreases |s|
  {
    if |TrimStart(s)| == 0 {
      gaps := [s];
      assert s[..|s|] == s;
    } else {
      var lead, w, rest := SplitWhitespaceStep(s);
      var restGaps := SplitWhitespaceGaps(rest);
      if |rest| > 0 {
        LeadNonEmpty(rest);
      }
      gaps := GapsCons(lead, w, rest, SplitWhitespace(rest), restGaps);
    }
  }

  /** Whitespace, a word, then nothing or more whitespace: the word is the first piece. */
  lemma SplitAfterGap(g: string, w: string, rest: string)
    requires AllWhitespace(g) && IsWord(w) && (rest == "" || IsWhitespace(rest[0]))
    ensures SplitWhitespace(g + w + rest) == [w] + SplitWhitespace(rest)
  {
    var u := w + rest;
    ConcatAssoc(g, w, rest);
    TrimStartOfGap(g, u);
    RunOfWord(w, rest, 0);
    assert u[..|w|] == w && u[|w|..] == rest;
  }

  /** Whitespace alone has no pieces. */
  lemma BlankSplitsEmpty(g: string)
    requires AllWhitespace(g)
    ensures SplitWhitespace(g) == []
  {
  }

  lemma SpacingTail(gaps: seq<string>)
    requires |gaps| > 0 && IsSpacing(gaps)
    ensures IsSpacing(gaps[1..])
  {
    var tail := gaps[1..];
    forall k | 0 <= k < |tail| ensures tail[k] == gaps[k + 1] {
    }
  }

  /** Conversely, words with whitespace gaps between them split back into the words. */
  lemma {:induction false} InterleaveSplits(gaps: seq<string>, ws: seq<string>)
    requires |gaps| == |ws| + 1 && IsSpacing(gaps)
    requires forall k :: 0 <= k < |ws| ==> IsWord(ws[k])
    ensures SplitWhitespace(Interleave(gaps, ws)) == ws
    decreases |ws|
  {
    if |ws| == 0 {
      BlankSplitsEmpty(gaps[0]);
    } else {
      var rest := Interleave(gaps[1..], ws[1..]);
      assert Interleave(gaps, ws) == gaps[0] + ws[0] + rest;
      GapAfterWord(gaps, ws);
      SplitAfterGap(gaps[0], ws[0], rest);
      SpacingTail(gaps);
      InterleaveSplits(gaps[1..], ws[1..]);
      assert ws == [ws[0]] + ws[1..];
    }
  }

  /** What follows the first word of an interleaving is empty or starts with whitespace. */
  lemma GapAfterWord(gaps: seq<string>, ws: seq<string>)
    requires |gaps| == |ws| + 1 && |ws| > 0 && IsSpacing(gaps)
    ensures var rest := Interleave(gaps[1..], ws[1..]); rest == "" || IsWhitespace(rest[0])
  {
    var rest := Interleave(gaps[1..], ws[1..]);
    if |ws| > 1 {
      assert gaps[1..][1..] == gaps[2..] && ws[1..][1..] == ws[2..];
      assert rest == gaps[1] + ws[1] + Interleave(gaps[2..], ws[2..]);
      assert |gaps[1]| > 0 && AllWhitespace(gaps[1]);
      assert rest[0] == gaps[1][0];
    } else {
      assert rest == gaps[1];
      assert AllWhitespace(gaps[1]);
    }
  }

  // ---------------------------------------------------------------- case and bytes

  function AsciiLower(c: char): char {
    if 'A' <= c <= 'Z' then (c as int + 32) as char else c
  }

  /** `eq_ignore_ascii_case`. Rust compares the two strings byte by byte; this
      compares characters. The two agree whenever one operand is pure ASCII, as
      every operand the interpreter passes is (`true`, `false`, `inf`, `infinity`,
      `nan`): a non-ASCII character occupies at least two bytes, each of which
      differs from every ASCII byte, and a non-ASCII character here never equals an
      ASCII one after lowering. */
  predicate EqIgnoreAsciiCase(s: string, t: string) {
    |s| == |t| && forall k :: 0 <= k < |s| ==> AsciiLower(s[k]) == AsciiLower(t[k])
  }

  /** Number of bytes of `c` in UTF-8. */
  function Utf8Width(c: char): nat {
    if c < '\U{80}' then 1 else if c < '\U{800}' then 2 else if c < '\U{10000}' then 3 else 4
  }

  /** `str::len`: the UTF-8 length in bytes. */
  function ByteLen(s: string): (n: nat)
    ensures n >= |s|
    decreases |s|
  {
    if |s| == 0 then 0 else Utf8Width(s[0]) + ByteLen(s[1..])
  }

  /** A string is one byte long exactly when it is one ASCII character. */
  lemma ByteLenOne(s: string)
    ensures ByteLen(s) == 1 <==> |s| == 1 && s[0] < '\U{80}'
  {
    if |s| > 1 {
      assert ByteLen(s) >= |s|;
    }
  }

  // ---------------------------------------------------------------- integers

  predicate IsDigit(c: char) {
    '0' <= c <= '9'
  }

  predicate AllDigits(s: string) {
    forall k :: 0 <= k < |s| ==> IsDigit(s[k])
  }

  function DecimalValue(s: string): nat
    requires AllDigits(s)
    decreases |s|
  {
    if |s| == 0 then 0 else DecimalValue(s[..|s| - 1]) * 10 + (s[|s| - 1] as int - '0' as int)
  }

  /** Decimal digits of `n`, without leading zeros. */
  function NatToDecimal(n: nat): (r: string)
    ensures |r| > 0 && AllDigits(r) && DecimalValue(r) == n
    ensures r[0] != '0' || n == 0
    decreases n
  {
    var last := ('0' as int + n % 10) as char;
    if n < 10 then [last]
    else
      var front := NatToDecimal(n / 10);
      assert (front + [last])[..|front|] == front;
      front + [last]
  }

  /** `Display` of an `i32`. */
  function IntToString(n: int): string {
    if n < 0 then "-" + NatToDecimal(-n) else NatToDecimal(n)
  }

  /** `s.parse::<i32>()`: an optional `+` or `-`, then one or more ASCII digits,
      and the value within the i32 range; anything else is an error. */
  function ParseI32(s: string): (r: Option<Int32>)
    ensures r.Some? ==> IsSignedDigits(s)
  {
    var negative := StartsWith(s, '-');
    var digits := if StartsWith(s, '+') || negative then s[1..] else s;
    if |digits| == 0 || !AllDigits(digits) then None
    else
      var v: int := if negative then -(DecimalValue(digits) as int) else DecimalValue(digits);
      assert IsSignedDigits(s) by {
        forall k | 1 <= k < |s| ensures IsDigit(s[k]) {
          if digits == s[1..] { assert s[k] == digits[k - 1]; } else { assert s[k] == digits[k]; }
        }
      }
      if InRange(v) then Some(v) else None
  }

  /** An optional `+` or `-` followed by at least one ASCII digit, and nothing else. */
  predicate IsSignedDigits(s: string) {
    && |s| > 0
    && (IsDigit(s[0]) || (|s| >= 2 && (s[0] == '+' || s[0] == '-')))
    && forall k :: 1 <= k < |s| ==> IsDigit(s[k])
  }

  function Pow10(n: nat): (p: nat)
    ensures p >= 1
  {
    if n == 0 then 1 else 10 * Pow10(n - 1)
  }

  /** `n` decimal digits stay below `10^n`. */
  lemma {:induction false} DecimalBelow(s: string)
    requires AllDigits(s)
    ensures DecimalValue(s) < Pow10(|s|)
    decreases |s|
  {
    if |s| > 0 {
      DecimalBelow(s[..|s| - 1]);
    }
  }

  lemma {:induction false} Pow10Grows(n: nat, m: nat)
    requires n <= m
    ensures Pow10(n) <= Pow10(m)
    decreases m
  {
    if n < m {
      Pow10Grows(n, m - 1);
    }
  }

  /** Rendering an `i32` and parsing it back gives the same number. */
  lemma IntToStringRoundTrip(n: Int32)
    ensures ParseI32(IntToString(n)) == Some(n)
  {
    var s := IntToString(n);
    if n < 0 {
      var d := NatToDecimal(-(n as int));
      assert s[0] == '-' && s[1..] == d;
      assert !StartsWith(s, '+');
    } else {
      var d := NatToDecimal(n);
      assert s == d && IsDigit(s[0]);
      assert !StartsWith(s, '+') && !StartsWith(s, '-');
    }
  }

  /** The converse of what `ParseI32` ensures: every optionally signed digit string
      of at most nine digits is accepted, and its value is the digits' value with
      the sign applied. Only longer digit strings can fall outside the i32 range. */
  lemma ParseI32Shape(s: string)
    requires IsSignedDigits(s)
    requires |s| <= 9 || (|s| == 10 && !IsDigit(s[0]))
    ensures ParseI32(s).Some?
    ensures var signed := s[0] == '+' || s[0] == '-';
      var n: int := DecimalValue(if signed then s[1..] else s);
      ParseI32(s).value == if s[0] == '-' then -n else n
  {
    var signed := s[0] == '+' || s[0] == '-';
    var digits := if signed then s[1..] else s;
    assert AllDigits(digits) by {
      forall k | 0 <= k < |digits| ensures IsDigit(digits[k]) {
        if signed { assert digits[k] == s[k + 1]; } else if k > 0 { assert digits[k] == s[k]; }
      }
    }
    DecimalBelow(digits);
    Pow10Grows(|digits|, 9);
    assert Pow10(9) == 1_000_000_000;
  }

  // ---------------------------------------------------------------- floats, syntactically

  /** `Exp ::= ('e'|'E') Sign? Digit+` without its leading letter. */
  predicate IsExponentDigits(s: string) {
    var digits := if StartsWith(s, '+') || StartsWith(s, '-') then s[1..] else s;
    |digits| > 0 && AllDigits(digits)
  }

  /** `Digit+ | Digit+ '.' Digit* | Digit* '.' Digit+`. */
  predicate IsMantissa(s: string) {
    match IndexOf(s, '.')
    case None => |s| > 0 && AllDigits(s)
    case Some(d) => AllDigits(s[..d]) && AllDigits(s[d + 1..]) && |s| >= 2
  }

  /** `Number ::= Mantissa Exp?`, splitting at the first `e` or `E`. */
  predicate IsDecimalNumber(s: string) {
    match IndexOf(AsciiLowered(s), 'e')
    case None => IsMantissa(s)
    case Some(e) => IsMantissa(s[..e]) && IsExponentDigits(s[e + 1..])
  }

  function AsciiLowered(s: string): (r: string)
    ensures |r| == |s|
  {
    seq(|s|, k requires 0 <= k < |s| => AsciiLower(s[k]))
  }

  /** The grammar `f64::from_str` accepts (case-insensitively):
      `Sign? ('inf' | 'infinity' | 'nan' | Number)`. Only recognition is modelled;
      the value read is left to the float parameter of the model. Such a text is
      never empty and holds only digits, signs, `.` and ASCII letters, so brackets,
      braces, quotes and commas never start a float. */
  predicate IsFloatLiteral(s: string)
    ensures IsFloatLiteral(s) ==> |s| > 0 && forall k :: 0 <= k < |s| ==> IsFloatChar(s[k])
  {
    var body := if StartsWith(s, '+') || StartsWith(s, '-') then s[1..] else s;
    var r := || EqIgnoreAsciiCase(body, "inf")
             || EqIgnoreAsciiCase(body, "infinity")
             || EqIgnoreAsciiCase(body, "nan")
             || IsDecimalNumber(body);
    assert r ==> |body| > 0 && forall k :: 0 <= k < |body| ==> IsFloatChar(body[k]) by {
      if r { FloatBodyChars(body); }
    }
    assert r ==> forall k :: 0 <= k < |s| ==> IsFloatChar(s[k]) by {
      if r {
        forall k | 0 <= k < |s| ensures IsFloatChar(s[k]) {
          if body == s[1..] && k > 0 { assert s[k] == body[k - 1]; }
        }
      }
    }
    r
  }

  predicate IsFloatChar(c: char) {
    IsDigit(c) || c == '.' || c == '+' || c == '-' || 'a' <= AsciiLower(c) <= 'z'
  }

  lemma FloatBodyChars(body: string)
    requires || EqIgnoreAsciiCase(body, "inf") || EqIgnoreAsciiCase(body, "infinity")
             || EqIgnoreAsciiCase(body, "nan") || IsDecimalNumber(body)
    ensures |body| > 0 && forall k :: 0 <= k < |body| ==> IsFloatChar(body[k])
  {
    if IsDecimalNumber(body) {
      match IndexOf(AsciiLowered(body), 'e')
      case None =>
        MantissaChars(body);
      case Some(e) =>
        MantissaChars(body[..e]);
        ExponentChars(body[e + 1..]);
        assert AsciiLower(body[e]) == AsciiLowered(body)[e] == 'e';
        AroundChars(body, e);
    }
  }

  predicate AllFloatChars(s: string) {
    forall k :: 0 <= k < |s| ==> IsFloatChar(s[k])
  }

  /** Float characters on both sides of a float character make a float text. */
  lemma AroundChars(s: string, e: nat)
    requires e < |s| && IsFloatChar(s[e])
    requires AllFloatChars(s[..e]) && AllFloatChars(s[e + 1..])
    ensures AllFloatChars(s)
  {
    forall k | 0 <= k < |s| ensures IsFloatChar(s[k]) {
      if k < e { assert s[k] == s[..e][k]; }
      else if k > e { assert s[k] == s[e + 1..][k - e - 1]; }
    }
  }

  lemma MantissaChars(m: string)
    requires IsMantissa(m)
    ensures |m| > 0 && forall k :: 0 <= k < |m| ==> IsFloatChar(m[k])
  {
    match IndexOf(m, '.')
    case None =>
    case Some(d) =>
      forall k | 0 <= k < |m| ensures IsFloatChar(m[k]) {
        if k < d { assert m[k] == m[..d][k]; }
        else if k > d { assert m[k] == m[d + 1..][k - d - 1]; }
      }
  }

  lemma ExponentChars(x: string)
    requires IsExponentDigits(x)
    ensures |x| > 0 && forall k :: 0 <= k < |x| ==> IsFloatChar(x[k])
  {
    var digits := if StartsWith(x, '+') || StartsWith(x, '-') then x[1..] else x;
    forall k | 0 <= k < |x| ensures IsFloatChar(x[k]) {
      if digits == x[1..] && k > 0 { assert x[k] == digits[k - 1]; }
    }
  }
}
