/** `Stack::tokenize` (rustVersion/src/stack.rs): one left-to-right pass that keeps
    an in-quotes flag and the start of the current token. Outside quotes, space,
    tab, newline and carriage return end a token; a `"` toggles the flag, and the
    closing one ends the token it belongs to. Whatever remains is the last token. */
module Tokenizer {
  import opened Strings

  /** A token as the half-open character range `[lo, hi)` of the line. */
  datatype Span = Span(lo: nat, hi: nat)

  /** The four characters the tokenizer splits on (a narrower set than Unicode whitespace). */
  predicate IsSeparator(c: char) {
    c == ' ' || c == '\t' || c == '\n' || c == '\r'
  }

  /** Spans are non-empty, lie left to right without overlapping, and end by `bound`. */
  predicate Ordered(spans: seq<Span>, bound: nat) {
    && (forall k :: 0 <= k < |spans| ==> spans[k].lo < spans[k].hi <= bound)
    && (forall j, k :: 0 <= j < k < |spans| ==> spans[j].hi <= spans[k].lo)
  }

  /** Number of `"` characters in `s`. */
  function QuoteCount(s: string): nat
    decreases |s|
  {
    if |s| == 0 then 0 else QuoteCount(s[..|s| - 1]) + (if s[|s| - 1] == '"' then 1 else 0)
  }

  lemma QuoteCountStep(s: string, i: nat)
    requires i < |s|
    ensures QuoteCount(s[..i + 1]) == QuoteCount(s[..i]) + (if s[i] == '"' then 1 else 0)
  {
    assert s[..i + 1][..i] == s[..i];
  }

  /** The scanning loop after `i` characters, with the loop's state as parameters. */
  function Scan(s: string, i: nat, inQuotes: bool, start: nat, spans: seq<Span>): (r: seq<Span>)
    requires start <= i <= |s|
    requires Ordered(spans, start)
    ensures Ordered(r, |s|)
    ensures |r| >= |spans| && r[..|spans|] == spans
    decreases |s| - i
  {
    if i == |s| then
      if start < |s| then spans + [Span(start, |s|)] else spans
    else if s[i] == '"' then
      if inQuotes then Scan(s, i + 1, false, i + 1, spans + [Span(start, i + 1)])
      else Scan(s, i + 1, true, start, spans)
    else if IsSeparator(s[i]) && !inQuotes then
      Scan(s, i + 1, false, i + 1, if i > start then spans + [Span(start, i)] else spans)
    else
      Scan(s, i + 1, inQuotes, start, spans)
  }

  function Spans(s: string): (r: seq<Span>)
    ensures Ordered(r, |s|)
  {
    Scan(s, 0, false, 0, [])
  }

  /** `tokenize`: the text of each span, in order. */
  function Tokenize(s: string): (r: seq<string>)
    ensures |r| == |Spans(s)|
    ensures forall k :: 0 <= k < |r| ==> r[k] == s[Spans(s)[k].lo..Spans(s)[k].hi] && |r[k]| > 0
  {
    var sp := Spans(s);
    seq(|sp|, k requires 0 <= k < |sp| => s[sp[k].lo..sp[k].hi])
  }

  // ------------------------------------------------------------------ quote-free lines

  /** `[a, b)` is a maximal run of non-separator characters of `s`. */
  predicate IsMaximalRun(s: string, a: nat, b: nat) {
    && a < b <= |s|
    && (forall p :: a <= p < b ==> !IsSeparator(s[p]))
    && (a == 0 || IsSeparator(s[a - 1]))
    && (b == |s| || IsSeparator(s[b]))
  }

  predicate Covered(spans: seq<Span>, p: nat) {
    exists k :: 0 <= k < |spans| && spans[k].lo <= p < spans[k].hi
  }

  /** What the scan keeps true on a line without `"`. */
  predicate RunsSoFar(s: string, i: nat, start: nat, spans: seq<Span>) {
    && start <= i <= |s|
    && (start == 0 || IsSeparator(s[start - 1]))
    && (forall p :: start <= p < i ==> !IsSeparator(s[p]))
    && (forall k :: 0 <= k < |spans| ==> IsMaximalRun(s, spans[k].lo, spans[k].hi))
    && (forall p :: 0 <= p < start && !IsSeparator(s[p]) ==> Covered(spans, p))
  }

  /** One character of the scan: the state it moves to, with the scan's result unchanged. */
  lemma ScanStep(s: string, i: nat, inQuotes: bool, start: nat, spans: seq<Span>)
      returns (inQuotes': bool, start': nat, spans': seq<Span>)
    requires start <= i < |s| && Ordered(spans, start)
    ensures start' <= i + 1 && Ordered(spans', start')
    ensures Scan(s, i, inQuotes, start, spans) == Scan(s, i + 1, inQuotes', start', spans')
    ensures s[i] == '"' && inQuotes ==> !inQuotes' && start' == i + 1 && spans' == spans + [Span(start, i + 1)]
    ensures s[i] == '"' && !inQuotes ==> inQuotes' && start' == start && spans' == spans
    ensures s[i] != '"' && IsSeparator(s[i]) && !inQuotes ==>
      !inQuotes' && start' == i + 1 && spans' == (if i > start then spans + [Span(start, i)] else spans)
    ensures s[i] != '"' && !(IsSeparator(s[i]) && !inQuotes) ==>
      inQuotes' == inQuotes && start' == start && spans' == spans
  {
    if s[i] == '"' {
      if inQuotes {
        inQuotes', start', spans' := false, i + 1, spans + [Span(start, i + 1)];
      } else {
        inQuotes', start', spans' := true, start, spans;
      }
    } else if IsSeparator(s[i]) && !inQuotes {
      inQuotes', start', spans' := false, i + 1, if i > start then spans + [Span(start, i)] else spans;
    } else {
      inQuotes', start', spans' := inQuotes, start, spans;
    }
  }

  lemma RunsAtEnd(s: string, start: nat, spans: seq<Span>)
    requires RunsSoFar(s, |s|, start, spans) && Ordered(spans, start)
    ensures var r := Scan(s, |s|, false, start, spans);
      && (forall k :: 0 <= k < |r| ==> IsMaximalRun(s, r[k].lo, r[k].hi))
      && (forall p :: 0 <= p < |s| && !IsSeparator(s[p]) ==> Covered(r, p))
  {
    if start < |s| {
      var r := spans + [Span(start, |s|)];
      assert Scan(s, |s|, false, start, spans) == r;
      LastRunIsMaximal(s, start, spans);
      LastRunCovers(s, start, spans);
    }
  }

  lemma LastRunIsMaximal(s: string, start: nat, spans: seq<Span>)
    requires RunsSoFar(s, |s|, start, spans) && start < |s|
    ensures var r := spans + [Span(start, |s|)];
      forall k :: 0 <= k < |r| ==> IsMaximalRun(s, r[k].lo, r[k].hi)
  {
    var r := spans + [Span(start, |s|)];
    forall k | 0 <= k < |r| ensures IsMaximalRun(s, r[k].lo, r[k].hi) {
      if k < |spans| { assert r[k] == spans[k]; }
    }
  }

  lemma LastRunCovers(s: string, start: nat, spans: seq<Span>)
    requires RunsSoFar(s, |s|, start, spans) && start < |s|
    ensures var r := spans + [Span(start, |s|)];
      forall p :: 0 <= p < |s| && !IsSeparator(s[p]) ==> Covered(r, p)
  {
    var r := spans + [Span(start, |s|)];
    forall p | 0 <= p < |s| && !IsSeparator(s[p]) ensures Covered(r, p) {
      if p < start {
        var k :| 0 <= k < |spans| && spans[k].lo <= p < spans[k].hi;
        assert r[k] == spans[k];
      } else {
        assert r[|spans|].lo <= p < r[|spans|].hi;
      }
    }
  }

  /** A character other than a separator extends the current run. */
  lemma RunsAtOther(s: string, i: nat, start: nat, spans: seq<Span>)
    requires i < |s| && !IsSeparator(s[i])
    requires RunsSoFar(s, i, start, spans)
    ensures RunsSoFar(s, i + 1, start, spans)
  {
  }

  lemma RunsAtSeparator(s: string, i: nat, start: nat, spans: seq<Span>)
    requires i < |s| && IsSeparator(s[i])
    requires RunsSoFar(s, i, start, spans)
    ensures RunsSoFar(s, i + 1, i + 1, if i > start then spans + [Span(start, i)] else spans)
  {
    var spans' := if i > start then spans + [Span(start, i)] else spans;
    forall p | 0 <= p < i + 1 && !IsSeparator(s[p]) ensures Covered(spans', p) {
      if p < start {
        var k :| 0 <= k < |spans| && spans[k].lo <= p < spans[k].hi;
        assert spans'[k] == spans[k];
      } else {
        assert spans'[|spans|].lo <= p < spans'[|spans|].hi;
      }
    }
  }

  /** One character of a line without `"` keeps the runs invariant. */
  lemma RunsStep(s: string, i: nat, start: nat, spans: seq<Span>, start': nat, spans': seq<Span>)
    requires i < |s| && RunsSoFar(s, i, start, spans)
    requires IsSeparator(s[i]) ==> start' == i + 1 && spans' == (if i > start then spans + [Span(start, i)] else spans)
    requires !IsSeparator(s[i]) ==> start' == start && spans' == spans
    ensures RunsSoFar(s, i + 1, start', spans')
  {
    if IsSeparator(s[i]) {
      RunsAtSeparator(s, i, start, spans);
    } else {
      RunsAtOther(s, i, start, spans);
    }
  }

  lemma {:induction false} ScanRuns(s: string, i: nat, start: nat, spans: seq<Span>)
    requires '"' !in s
    requires RunsSoFar(s, i, start, spans) && Ordered(spans, start)
    ensures var r := Scan(s, i, false, start, spans);
      && (forall k :: 0 <= k < |r| ==> IsMaximalRun(s, r[k].lo, r[k].hi))
      && (forall p :: 0 <= p < |s| && !IsSeparator(s[p]) ==> Covered(r, p))
    decreases |s| - i
  {
    if i == |s| {
      RunsAtEnd(s, start, spans);
    } else {
      assert s[i] != '"';
      var q', start', spans' := ScanStep(s, i, false, start, spans);
      RunsStep(s, i, start, spans, start', spans');
      ScanRuns(s, i + 1, start', spans');
    }
  }

  /** On a line without `"`, the tokens are exactly the maximal runs of characters
      other than space, tab, newline and carriage return: each span is such a run,
      and every other character lies in some span. */
  lemma TokensAreMaximalRuns(s: string)
    requires '"' !in s
    ensures forall k :: 0 <= k < |Spans(s)| ==> IsMaximalRun(s, Spans(s)[k].lo, Spans(s)[k].hi)
    ensures forall p :: 0 <= p < |s| && !IsSeparator(s[p]) ==> Covered(Spans(s), p)
  {
    assert RunsSoFar(s, 0, 0, []);
    ScanRuns(s, 0, 0, []);
    assert Spans(s) == Scan(s, 0, false, 0, []);
  }

  // ------------------------------------------------------------------ quotes

  /** The `"` at `k` closes a quoted section: an odd number of quotes precede it. */
  predicate IsClosingQuote(s: string, k: nat) {
    k < |s| && s[k] == '"' && QuoteCount(s[..k]) % 2 == 1
  }

  predicate EndsAt(spans: seq<Span>, e: nat) {
    exists k :: 0 <= k < |spans| && spans[k].hi == e
  }

  /** What the scan keeps true about quotes: the flag is the parity of the quotes
      seen, the current token holds exactly the open quote (if any), and every
      closing quote seen so far ended a span. */
  predicate QuotesSoFar(s: string, i: nat, inQuotes: bool, start: nat, spans: seq<Span>) {
    && start <= i <= |s|
    && inQuotes == (QuoteCount(s[..i]) % 2 == 1)
    && QuoteCount(s[..i]) == QuoteCount(s[..start]) + (if inQuotes then 1 else 0)
    && (forall k :: 0 <= k < i && IsClosingQuote(s, k) ==> EndsAt(spans, k + 1))
  }

  lemma QuoteCountMono(s: string, a: nat, b: nat)
    requires a <= b <= |s|
    ensures QuoteCount(s[..a]) <= QuoteCount(s[..b])
    decreases b - a
  {
    if a < b {
      QuoteCountStep(s, b - 1);
      QuoteCountMono(s, a, b - 1);
    }
  }

  lemma QuotesAtEnd(s: string, inQuotes: bool, start: nat, spans: seq<Span>)
    requires QuotesSoFar(s, |s|, inQuotes, start, spans) && Ordered(spans, start)
    ensures var r := Scan(s, |s|, inQuotes, start, spans);
      && (forall k :: 0 <= k < |s| && IsClosingQuote(s, k) ==> EndsAt(r, k + 1))
      && (QuoteCount(s) % 2 == 1 ==>
            |r| > 0 && r[|r| - 1].hi == |s| && QuoteCount(s[..r[|r| - 1].lo]) == QuoteCount(s) - 1)
  {
    assert s[..|s|] == s;
    var r := Scan(s, |s|, inQuotes, start, spans);
    if start < |s| {
      assert r == spans + [Span(start, |s|)];
      forall k | 0 <= k < |s| && IsClosingQuote(s, k) ensures EndsAt(r, k + 1) {
        var j :| 0 <= j < |spans| && spans[j].hi == k + 1;
        assert r[j] == spans[j];
      }
    } else {
      assert r == spans;
      assert !inQuotes;
    }
  }

  lemma QuotesAtStep(s: string, i: nat, inQuotes: bool, start: nat, spans: seq<Span>,
                     inQuotes': bool, start': nat, spans': seq<Span>)
    requires i < |s| && QuotesSoFar(s, i, inQuotes, start, spans) && Ordered(spans, start)
    requires s[i] == '"' && inQuotes ==> !inQuotes' && start' == i + 1 && spans' == spans + [Span(start, i + 1)]
    requires s[i] == '"' && !inQuotes ==> inQuotes' && start' == start && spans' == spans
    requires s[i] != '"' && IsSeparator(s[i]) && !inQuotes ==>
      !inQuotes' && start' == i + 1 && spans' == (if i > start then spans + [Span(start, i)] else spans)
    requires s[i] != '"' && !(IsSeparator(s[i]) && !inQuotes) ==>
      inQuotes' == inQuotes && start' == start && spans' == spans
    ensures QuotesSoFar(s, i + 1, inQuotes', start', spans')
  {
    QuoteCountStep(s, i);
    assert |spans'| >= |spans| && spans'[..|spans|] == spans;
    ClosingQuotesKept(s, i, spans, spans');
    if s[i] == '"' && inQuotes {
      assert spans'[|spans|].hi == i + 1;
    }
  }

  /** Spans that only grow keep every closing quote before `i` ended; the quote at
      `i`, if closing, must end the first new span. */
  lemma ClosingQuotesKept(s: string, i: nat, spans: seq<Span>, spans': seq<Span>)
    requires i < |s| && |spans'| >= |spans| && spans'[..|spans|] == spans
    requires forall k :: 0 <= k < i && IsClosingQuote(s, k) ==> EndsAt(spans, k + 1)
    requires IsClosingQuote(s, i) ==> |spans'| > |spans| && spans'[|spans|].hi == i + 1
    ensures forall k :: 0 <= k < i + 1 && IsClosingQuote(s, k) ==> EndsAt(spans', k + 1)
  {
    forall k | 0 <= k < i + 1 && IsClosingQuote(s, k) ensures EndsAt(spans', k + 1) {
      if k < i {
        var j :| 0 <= j < |spans| && spans[j].hi == k + 1;
        assert spans'[j] == spans[j];
      } else {
        assert spans'[|spans|].hi == k + 1;
      }
    }
  }

  lemma {:induction false} ScanQuotes(s: string, i: nat, inQuotes: bool, start: nat, spans: seq<Span>)
    requires QuotesSoFar(s, i, inQuotes, start, spans) && Ordered(spans, start)
    ensures var r := Scan(s, i, inQuotes, start, spans);
      && (forall k :: 0 <= k < |s| && IsClosingQuote(s, k) ==> EndsAt(r, k + 1))
      && (QuoteCount(s) % 2 == 1 ==>
            |r| > 0 && r[|r| - 1].hi == |s| && QuoteCount(s[..r[|r| - 1].lo]) == QuoteCount(s) - 1)
    decreases |s| - i
  {
    if i == |s| {
      QuotesAtEnd(s, inQuotes, start, spans);
    } else {
      var q', start', spans' := ScanStep(s, i, inQuotes, start, spans);
      QuotesAtStep(s, i, inQuotes, start, spans, q', start', spans');
      ScanQuotes(s, i + 1, q', start', spans');
    }
  }

  /** A closing `"` ends the token it belongs to, the quote included; and when the
      line leaves a quote open, the last token runs to the end of the line and
      contains exactly that one unmatched quote. */
  lemma QuotedTokens(s: string)
    ensures forall k :: 0 <= k < |s| && IsClosingQuote(s, k) ==> EndsAt(Spans(s), k + 1)
    ensures QuoteCount(s) % 2 == 1 ==>
      var r := Spans(s);
      |r| > 0 && r[|r| - 1].hi == |s| && QuoteCount(s[..r[|r| - 1].lo]) == QuoteCount(s) - 1
  {
    ScanQuotes(s, 0, false, 0, []);
  }

  // ------------------------------------------------------------------ plain lines

  /** A word the tokenizer never splits or merges: non-empty, without separators or `"`. */
  predicate IsPlainWord(w: string) {
    |w| > 0 && forall p :: 0 <= p < |w| ==> !IsSeparator(w[p]) && w[p] != '"'
  }

  lemma {:induction false} ScanThroughWord(s: string, i: nat, j: nat, start: nat, spans: seq<Span>)
    requires start <= i <= j <= |s| && Ordered(spans, start)
    requires forall p :: i <= p < j ==> !IsSeparator(s[p]) && s[p] != '"'
    ensures Scan(s, i, false, start, spans) == Scan(s, j, false, start, spans)
    decreases j - i
  {
    if i < j {
      ScanThroughWord(s, i + 1, j, start, spans);
    }
  }

  /** The first of the joined words sits at the front, followed by a space and the rest. */
  lemma WordAtFront(s: string, i: nat, ws: seq<string>)
    requires i <= |s| && |ws| > 0 && IsPlainWord(ws[0])
    requires s[i..] == Join(" ", ws)
    ensures i + |ws[0]| <= |s| && s[i..i + |ws[0]|] == ws[0]
    ensures forall p :: i <= p < i + |ws[0]| ==> !IsSeparator(s[p]) && s[p] != '"'
    ensures |ws| == 1 ==> i + |ws[0]| == |s|
    ensures |ws| > 1 ==> i + |ws[0]| < |s| && s[i + |ws[0]|] == ' ' && s[i + |ws[0]| + 1..] == Join(" ", ws[1..])
  {
    var w := ws[0];
    var e := i + |w|;
    if |ws| > 1 {
      assert s[i..] == w + (" " + Join(" ", ws[1..]));
    }
    assert s[i..] == w + s[e..];
    assert forall p :: i <= p < e ==> s[p] == s[i..][p - i] == w[p - i];
    if |ws| > 1 {
      assert s[e..] == " " + Join(" ", ws[1..]);
      assert s[e + 1..] == s[e..][1..];
    }
  }

  /** From index `from` on, the spans `r` cut exactly the words `ws` out of `s`. */
  predicate CutsWords(s: string, r: seq<Span>, from: nat, ws: seq<string>) {
    && |r| == from + |ws| && Ordered(r, |s|)
    && forall k :: 0 <= k < |ws| ==> s[r[from + k].lo..r[from + k].hi] == ws[k]
  }

  lemma {:induction false} ScanWords(s: string, i: nat, spans: seq<Span>, ws: seq<string>)
    requires i <= |s| && Ordered(spans, i)
    requires forall k :: 0 <= k < |ws| ==> IsPlainWord(ws[k])
    requires s[i..] == Join(" ", ws)
    ensures CutsWords(s, Scan(s, i, false, i, spans), |spans|, ws)
    decreases |ws|, 1
  {
    if |ws| > 0 {
      var e := i + |ws[0]|;
      WordAtFront(s, i, ws);
      ScanThroughWord(s, i, e, i, spans);
      if |ws| == 1 {
        var r := Scan(s, i, false, i, spans);
        assert r == spans + [Span(i, e)];
      } else {
        ScanWordsRest(s, i, spans, ws);
      }
    }
  }

  lemma {:induction false} ScanWordsRest(s: string, i: nat, spans: seq<Span>, ws: seq<string>)
    requires i <= |s| && Ordered(spans, i) && |ws| > 1
    requires forall k :: 0 <= k < |ws| ==> IsPlainWord(ws[k])
    requires s[i..] == Join(" ", ws)
    requires var e := i + |ws[0]|;
      && e < |s| && s[e] == ' ' && s[e + 1..] == Join(" ", ws[1..])
      && Scan(s, i, false, i, spans) == Scan(s, e, false, i, spans)
    ensures CutsWords(s, Scan(s, i, false, i, spans), |spans|, ws)
    decreases |ws|, 0
  {
    var e := i + |ws[0]|;
    WordAtFront(s, i, ws);
    var spans' := spans + [Span(i, e)];
    assert Scan(s, e, false, i, spans) == Scan(s, e + 1, false, e + 1, spans');
    ScanWords(s, e + 1, spans', ws[1..]);
    var r := Scan(s, e + 1, false, e + 1, spans');
    assert r[|spans|] == spans'[|spans|];
    ShiftCuts(s, r, |spans|, ws);
  }

  lemma ShiftCuts(s: string, r: seq<Span>, from: nat, ws: seq<string>)
    requires |ws| > 0 && CutsWords(s, r, from + 1, ws[1..])
    requires s[r[from].lo..r[from].hi] == ws[0]
    ensures CutsWords(s, r, from, ws)
  {
    forall k | 0 < k < |ws| ensures s[r[from + k].lo..r[from + k].hi] == ws[k] {
      assert ws[1..][k - 1] == ws[k];
      assert from + k == from + 1 + (k - 1);
    }
  }

  /** Tokenising plain words joined by single spaces gives the words back. */
  lemma TokenizeJoin(ws: seq<string>)
    requires forall k :: 0 <= k < |ws| ==> IsPlainWord(ws[k])
    ensures Tokenize(Join(" ", ws)) == ws
  {
    var s := Join(" ", ws);
    assert s[0..] == s;
    ScanWords(s, 0, [], ws);
  }
}
