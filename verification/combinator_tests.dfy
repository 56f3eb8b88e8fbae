/** The loop words of rustVersion/src/stack.rs (`map`, `each`, `foldl`) on
    one-symbol quotations of `+` and `*`, and the combinator tests of
    rustVersion/src/test.rs restated on the model. The quotation runs on the
    ambient stack: each element is pushed, the quotation is executed, and for
    `foldl` the running value travels through the stack as well. */
module CombinatorTests {
  import opened Outcomes
  import opened I32
  import opened Strings
  import opened Values
  import opened Tokenizer
  import opened Literals
  import opened StackOps
  import opened Evaluator
  import opened EvaluatorFacts
  import opened LiteralFacts
  import opened TestCases

  /** The two arithmetic words the tests fold with. */
  predicate IsArith(op: string) {
    op == "+" || op == "*"
  }

  /** What `op` makes of two Ints when it does not overflow. */
  function Apply(op: string, a: int, b: int): int
    requires IsArith(op)
  {
    if op == "+" then a + b else a * b
  }

  /** Every intermediate value of folding `items` into `a` stays in the i32 range. */
  predicate Fits(op: string, a: int, items: seq<Value>)
    requires IsArith(op) && AllInts(items)
    decreases |items|
  {
    |items| == 0 || (InRange(Apply(op, a, items[0].i)) && Fits(op, Apply(op, a, items[0].i), items[1..]))
  }

  /** `a` combined with the list's Ints, from the left. */
  function Folded(op: string, a: Int32, items: seq<Value>): (r: Int32)
    requires IsArith(op) && AllInts(items) && Fits(op, a, items)
    decreases |items|
  {
    if |items| == 0 then a else Folded(op, Apply(op, a, items[0].i), items[1..])
  }

  // ---------------------------------------------------------------- one element

  /** `op` on two Ints on top of a stack without bindings replaces them by their
      combination. */
  lemma ArithOnTop(fl: FloatOps, op: string, d: seq<Value>, a: Int32, b: Int32)
    requires IsArith(op) && InRange(Apply(op, a, b))
    ensures IsPlainWord(op) && !IsControl(op)
    ensures Primitive(fl, op, Stack(d + [Int(a), Int(b)], map[])) == Ok(Stack(d + [Int(Apply(op, a, b))], map[]))
  {
    var st := Stack(d + [Int(a), Int(b)], map[]);
    var n := |st.data|;
    assert st.data[n - 2] == Int(a) && st.data[n - 1] == Int(b) && st.data[..n - 2] == d;
    if op == "+" {
      assert Add(fl, Int(a), Int(b)) == Ok(Int(a + b));
      assert Primitive(fl, op, st) == BinaryOp(st, (x, y) => Add(fl, x, y));
    } else {
      assert Mul(fl, Int(a), Int(b)) == Ok(Int(a * b));
      assert Primitive(fl, op, st) == BinaryOp(st, (x, y) => Mul(fl, x, y));
    }
  }

  /** `exec` on a quotation of one symbol is parsing that symbol's name as a line. */
  lemma ExecOneSymbol(fl: FloatOps, st: Stack, io: Console, name: string, fuel: nat)
    ensures Exec(fl, Push(st, Quotation([Symbol(name)])), io, fuel) == Parse(fl, st, io, name, fuel)
  {
    var q := Quotation([Symbol(name)]);
    var pushed := Push(st, q);
    assert pushed.data[..|pushed.data| - 1] == st.data;
    assert Top(pushed) == q && Drop(pushed) == st;
    var r := Parse(fl, st, io, name, fuel);
    if r.status.Completed? {
      assert ExecBody(fl, q.body, 1, r.st, r.io, fuel) == Run(Completed, r.st, r.io);
    }
  }

  /** `exec` on `{op}` above two Ints leaves their combination in their place. */
  lemma ExecArith(fl: FloatOps, op: string, d: seq<Value>, s: map<string, Value>, a: Int32, b: Int32, io: Console, fuel: nat)
    requires fuel > 0 && IsArith(op) && InRange(Apply(op, a, b))
    ensures Exec(fl, Stack(d + [Int(a), Int(b), Quotation([Symbol(op)])], s), io, fuel)
         == Run(Completed, Stack(d + [Int(Apply(op, a, b))], s), io)
  {
    var st := Stack(d + [Int(a), Int(b)], s);
    assert Push(st, Quotation([Symbol(op)])) == Stack(d + [Int(a), Int(b), Quotation([Symbol(op)])], s);
    ExecOneSymbol(fl, st, io, op, fuel);
    ArithOnTop(fl, op, d, a, b);
    ParseWord(fl, st, io, op, Stack(d + [Int(Apply(op, a, b))], map[]), fuel);
  }

  // ---------------------------------------------------------------- whole lists

  lemma FoldTail(op: string, a: Int32, items: seq<Value>, k: nat)
    requires IsArith(op) && k < |items| && AllInts(items) && Fits(op, a, items[k..])
    ensures AllInts(items[k + 1..]) && InRange(Apply(op, a, items[k].i))
    ensures Fits(op, Apply(op, a, items[k].i), items[k + 1..])
    ensures Folded(op, a, items[k..]) == Folded(op, Apply(op, a, items[k].i), items[k + 1..])
  {
    assert items[k..][0] == items[k] && items[k..][1..] == items[k + 1..];
  }

  /** `foldl` with `{op}`: from the running Int `a` at element `k`, the loop leaves
      the fold of the remaining Ints into `a` on top of the stack it started on,
      when no step overflows. */
  lemma {:induction false} FoldlFolds(fl: FloatOps, op: string, items: seq<Value>, k: nat, a: Int32, st: Stack, io: Console, fuel: nat)
    requires fuel > 0 && IsArith(op) && k <= |items| && AllInts(items) && Fits(op, a, items[k..])
    ensures FoldLoop(fl, [Symbol(op)], items, k, Int(a), st, io, fuel)
         == Run(Completed, Push(st, Int(Folded(op, a, items[k..]))), io)
    decreases |items| - k
  {
    if k < |items| {
      var b := items[k].i;
      FoldTail(op, a, items, k);
      var c := Apply(op, a, b);
      var q := Quotation([Symbol(op)]);
      assert Push(Push(Push(st, Int(a)), items[k]), q) == Stack(st.data + [Int(a), Int(b), q], st.symbols);
      ExecArith(fl, op, st.data, st.symbols, a, b, io, fuel);
      var after := Stack(st.data + [Int(c)], st.symbols);
      assert after.data[..|after.data| - 1] == st.data;
      assert Top(after) == Int(c) && Drop(after) == st;
      FoldlFolds(fl, op, items, k + 1, c, st, io, fuel);
    } else {
      assert items[k..] == [];
    }
  }

  /** `each` with `{op}`, the running Int `a` on top of the stack: every element is
      combined into it, when no step overflows. */
  lemma {:induction false} EachFolds(fl: FloatOps, op: string, items: seq<Value>, k: nat, d: seq<Value>, s: map<string, Value>,
                                     a: Int32, io: Console, fuel: nat)
    requires fuel > 0 && IsArith(op) && k <= |items| && AllInts(items) && Fits(op, a, items[k..])
    ensures EachLoop(fl, [Symbol(op)], items, k, Stack(d + [Int(a)], s), io, fuel)
         == Run(Completed, Stack(d + [Int(Folded(op, a, items[k..]))], s), io)
    decreases |items| - k
  {
    if k < |items| {
      var b := items[k].i;
      FoldTail(op, a, items, k);
      var q := Quotation([Symbol(op)]);
      assert Push(Push(Stack(d + [Int(a)], s), items[k]), q) == Stack(d + [Int(a), Int(b), q], s);
      ExecArith(fl, op, d, s, a, b, io, fuel);
      EachFolds(fl, op, items, k + 1, d, s, Apply(op, a, b), io, fuel);
    } else {
      assert items[k..] == [];
    }
  }

  /** `process_foldl` on a list, a start Int and `{op}`: the three are replaced by
      the fold of the list into the start value. */
  lemma FoldlOnTop(fl: FloatOps, op: string, d: seq<Value>, s: map<string, Value>, items: seq<Value>, a: Int32, io: Console, fuel: nat)
    requires fuel > 0 && IsArith(op) && AllInts(items) && Fits(op, a, items)
    ensures ProcessFoldl(fl, Stack(d + [Vec(items), Int(a), Quotation([Symbol(op)])], s), io, fuel)
         == Run(Completed, Stack(d + [Int(Folded(op, a, items))], s), io)
  {
    var st := Stack(d + [Vec(items), Int(a), Quotation([Symbol(op)])], s);
    var s1 := Stack(d + [Vec(items), Int(a)], s);
    var s2 := Stack(d + [Vec(items)], s);
    assert st.data[..|st.data| - 1] == s1.data && s1.data[..|s1.data| - 1] == s2.data && s2.data[..|s2.data| - 1] == d;
    assert Top(st) == Quotation([Symbol(op)]) && Drop(st) == s1;
    assert Top(s1) == Int(a) && Drop(s1) == s2;
    assert Top(s2) == Vec(items) && Drop(s2) == Stack(d, s);
    assert items[0..] == items;
    FoldlFolds(fl, op, items, 0, a, Stack(d, s), io, fuel);
  }

  /** `process_each` on a start Int, a list and `{op}`: the list and quotation are
      consumed and the Int becomes the fold of the list into it. */
  lemma EachOnTop(fl: FloatOps, op: string, d: seq<Value>, s: map<string, Value>, a: Int32, items: seq<Value>, io: Console, fuel: nat)
    requires fuel > 0 && IsArith(op) && AllInts(items) && Fits(op, a, items)
    ensures ProcessEach(fl, Stack(d + [Int(a), Vec(items), Quotation([Symbol(op)])], s), io, fuel)
         == Run(Completed, Stack(d + [Int(Folded(op, a, items))], s), io)
  {
    var st := Stack(d + [Int(a), Vec(items), Quotation([Symbol(op)])], s);
    var s1 := Stack(d + [Int(a), Vec(items)], s);
    assert st.data[..|st.data| - 1] == s1.data && s1.data[..|s1.data| - 1] == d + [Int(a)];
    assert Top(st) == Quotation([Symbol(op)]) && Drop(st) == s1;
    assert Top(s1) == Vec(items) && Drop(s1) == Stack(d + [Int(a)], s);
    assert items[0..] == items;
    EachFolds(fl, op, items, 0, d, s, a, io, fuel);
  }

  /** One element of `map` with `{op}`: the element is combined with the value
      beneath it, which the quotation consumes, and the result is collected. */
  lemma MapStep(fl: FloatOps, op: string, items: seq<Value>, k: nat, acc: seq<Value>, d: seq<Value>, s: map<string, Value>,
                a: Int32, io: Console, fuel: nat)
    requires fuel > 0 && IsArith(op) && k < |items| && |acc| == k && items[k].Int? && InRange(Apply(op, a, items[k].i))
    ensures MapLoop(fl, [Symbol(op)], items, k, acc, Stack(d + [Int(a)], s), io, fuel)
         == MapLoop(fl, [Symbol(op)], items, k + 1, acc + [Int(Apply(op, a, items[k].i))], Stack(d, s), io, fuel)
  {
    var b := items[k].i;
    var q := Quotation([Symbol(op)]);
    assert Push(Push(Stack(d + [Int(a)], s), items[k]), q) == Stack(d + [Int(a), Int(b), q], s);
    ExecArith(fl, op, d, s, a, b, io, fuel);
    var after := Stack(d + [Int(Apply(op, a, b))], s);
    assert after.data[..|after.data| - 1] == d;
    assert Top(after) == Int(Apply(op, a, b)) && Drop(after) == Stack(d, s);
  }

  /** `map` with `{op}` pairs the first element with the top of the stack beneath
      the list, the second with the value under that, and so on; the result is the
      list of the combinations. */
  function Mapped(op: string, below: seq<Int32>, items: seq<Value>): (r: seq<Value>)
    requires IsArith(op) && |below| == |items| && AllInts(items) && MapFits(op, below, items)
    ensures |r| == |items| && AllInts(r)
    decreases |items|
  {
    if |items| == 0 then []
    else [Int(Apply(op, below[|below| - 1], items[0].i))] + Mapped(op, below[..|below| - 1], items[1..])
  }

  /** Every pairing of `map` stays in the i32 range. */
  predicate MapFits(op: string, below: seq<Int32>, items: seq<Value>)
    requires IsArith(op) && |below| == |items| && AllInts(items)
  {
    forall j :: 0 <= j < |items| ==> InRange(Apply(op, below[|below| - 1 - j], items[j].i))
  }

  lemma MapFitsTail(op: string, below: seq<Int32>, items: seq<Value>, k: nat)
    requires IsArith(op) && k < |items| && AllInts(items) && |below| == |items| - k && MapFits(op, below, items[k..])
    ensures AllInts(items[k + 1..]) && MapFits(op, below[..|below| - 1], items[k + 1..])
    ensures InRange(Apply(op, below[|below| - 1], items[k].i))
    ensures Mapped(op, below, items[k..])
         == [Int(Apply(op, below[|below| - 1], items[k].i))] + Mapped(op, below[..|below| - 1], items[k + 1..])
  {
    assert items[k..][0] == items[k] && items[k..][1..] == items[k + 1..];
  }

  /** The `map` loop with `{op}` from element `k`: each element consumes one Int
      from beneath the list, and the loop leaves the collected results. */
  lemma {:induction false} MapZips(fl: FloatOps, op: string, items: seq<Value>, k: nat, acc: seq<Value>, d: seq<Value>,
                                   s: map<string, Value>, below: seq<Int32>, io: Console, fuel: nat)
    requires fuel > 0 && IsArith(op) && k <= |items| && |acc| == k && AllInts(items)
    requires |below| == |items| - k && MapFits(op, below, items[k..])
    ensures MapLoop(fl, [Symbol(op)], items, k, acc, Stack(d + Ints(below), s), io, fuel)
         == Run(Completed, Stack(d + [Vec(acc + Mapped(op, below, items[k..]))], s), io)
    decreases |items| - k
  {
    if k == |items| {
      assert Ints(below) == [] && d + [] == d;
      assert acc + [] == acc;
    } else {
      var n := |below|;
      var a := below[n - 1];
      MapFitsTail(op, below, items, k);
      var c := Int(Apply(op, a, items[k].i));
      MapHead(fl, op, items, k, acc, d, s, below, c, io, fuel);
      MapZips(fl, op, items, k + 1, acc + [c], d, s, below[..n - 1], io, fuel);
      var rest := Mapped(op, below[..n - 1], items[k + 1..]);
      assert Mapped(op, below, items[k..]) == [c] + rest;
      assert acc + [c] + rest == acc + ([c] + rest);
    }
  }

  /** The first round of the `map` loop on Ints, seen from the whole stack. */
  lemma MapHead(fl: FloatOps, op: string, items: seq<Value>, k: nat, acc: seq<Value>, d: seq<Value>,
                s: map<string, Value>, below: seq<Int32>, c: Value, io: Console, fuel: nat)
    requires fuel > 0 && IsArith(op) && k < |items| && |acc| == k && items[k].Int? && |below| > 0
    requires InRange(Apply(op, below[|below| - 1], items[k].i)) && c == Int(Apply(op, below[|below| - 1], items[k].i))
    ensures MapLoop(fl, [Symbol(op)], items, k, acc, Stack(d + Ints(below), s), io, fuel)
         == MapLoop(fl, [Symbol(op)], items, k + 1, acc + [c], Stack(d + Ints(below[..|below| - 1]), s), io, fuel)
  {
    IntsSnoc(d, below);
    MapStep(fl, op, items, k, acc, d + Ints(below[..|below| - 1]), s, below[|below| - 1], io, fuel);
  }

  lemma IntsSnoc(d: seq<Value>, below: seq<Int32>)
    requires |below| > 0
    ensures d + Ints(below) == (d + Ints(below[..|below| - 1])) + [Int(below[|below| - 1])]
  {
    assert Ints(below) == Ints(below[..|below| - 1]) + [Int(below[|below| - 1])];
  }

  /** `process_map` on Ints, a list as long as they are, and `{op}`: all of them
      are replaced by the list of pairings. */
  lemma MapOnTop(fl: FloatOps, op: string, d: seq<Value>, s: map<string, Value>, below: seq<Int32>, items: seq<Value>,
                 io: Console, fuel: nat)
    requires fuel > 0 && IsArith(op) && AllInts(items) && |below| == |items| && MapFits(op, below, items)
    ensures ProcessMap(fl, Stack(d + Ints(below) + [Vec(items), Quotation([Symbol(op)])], s), io, fuel)
         == Run(Completed, Stack(d + [Vec(Mapped(op, below, items))], s), io)
  {
    var base := d + Ints(below);
    var st := Stack(base + [Vec(items), Quotation([Symbol(op)])], s);
    var s1 := Stack(base + [Vec(items)], s);
    assert st.data[..|st.data| - 1] == s1.data && s1.data[..|s1.data| - 1] == base;
    assert Top(st) == Quotation([Symbol(op)]) && Drop(st) == s1;
    assert Top(s1) == Vec(items) && Drop(s1) == Stack(base, s);
    assert items[0..] == items && [] + Mapped(op, below, items) == Mapped(op, below, items);
    MapZips(fl, op, items, 0, [], d, s, below, io, fuel);
  }

  // ---------------------------------------------------------------- whole lines

  /** Literal words push their values, in order, as the token loop passes them. */
  lemma {:induction false} StepsPushLiterals(fl: FloatOps, toks: seq<string>, i: nat, j: nat, d: seq<Value>, vs: seq<Value>,
                                             io: Console, fuel: nat)
    requires i <= j <= |toks| && PushesAll(fl, toks[i..j], vs)
    ensures Steps(fl, toks, i, Stack(d, map[]), io, fuel) == Steps(fl, toks, j, Stack(d + vs, map[]), io, fuel)
    decreases j - i
  {
    if i == j {
      assert d + vs == d;
    } else {
      var tok, st := toks[i], Stack(d, map[]);
      assert toks[i..j][0] == tok;
      assert Primitive(fl, tok, st) == Ok(Stack(d + [vs[0]], map[]));
      assert Step(fl, toks, i, st, io, fuel) == Lift(Primitive(fl, tok, st), st, io, i + 1);
      assert PushesAll(fl, toks[i + 1..j], vs[1..]) by {
        forall k | 0 <= k < j - i - 1
          ensures toks[i + 1..j][k] == toks[i..j][k + 1] && vs[1..][k] == vs[k + 1]
        {
        }
      }
      StepsPushLiterals(fl, toks, i + 1, j, d + [vs[0]], vs[1..], io, fuel);
      Regroup(d, vs);
    }
  }

  /** Literal words of the given values push them. */
  lemma LiteralsPush(fl: FloatOps, ws: seq<string>, vs: seq<Value>)
    requires |ws| == |vs| && forall k :: 0 <= k < |ws| ==> LiteralWord(fl, ws[k], vs[k])
    ensures PushesAll(fl, ws, vs)
  {
    forall k | 0 <= k < |ws|
      ensures ' ' !in ws[k]
    {
      assert IsSeparator(' ');
      assert forall p :: 0 <= p < |ws[k]| ==> ws[k][p] != ' ';
    }
  }

  /** `word` is `map`, `each` or `foldl`, and on `d` (the quotation on top) it
      completes with `r`. */
  predicate LoopRuns(fl: FloatOps, word: string, d: seq<Value>, r: Run, io: Console, fuel: nat) {
    && IsLoopWord(word)
    && r.status.Completed?
    && (word == "map" ==> ProcessMap(fl, Stack(d, map[]), io, fuel) == r)
    && (word == "each" ==> ProcessEach(fl, Stack(d, map[]), io, fuel) == r)
    && (word == "foldl" ==> ProcessFoldl(fl, Stack(d, map[]), io, fuel) == r)
  }

  /** The words that take the quotation written after them. */
  predicate IsLoopWord(word: string) {
    word == "map" || word == "each" || word == "foldl"
  }

  /** `map`, `each` or `foldl` with the text of a quotation after it, on a stack
      without bindings: the loop word runs on the stack with the quotation pushed,
      and the token loop resumes two tokens on. */
  lemma LoopStep(fl: FloatOps, toks: seq<string>, n: nat, d: seq<Value>, word: string, qtext: string, q: Value,
                 r: Run, io: Console, fuel: nat)
    requires n + 1 < |toks| && toks[n] == word && toks[n + 1] == qtext
    requires IsLoopWord(word) && ParseValue(fl, qtext) == Ok(q)
    requires word == "map" ==> ProcessMap(fl, Stack(d + [q], map[]), io, fuel) == r
    requires word == "each" ==> ProcessEach(fl, Stack(d + [q], map[]), io, fuel) == r
    requires word == "foldl" ==> ProcessFoldl(fl, Stack(d + [q], map[]), io, fuel) == r
    ensures Step(fl, toks, n, Stack(d, map[]), io, fuel) == Moved(r, n + 2)
  {
    assert PushNext(fl, toks, n, Stack(d, map[])) == Ok(Stack(d + [q], map[]));
  }

  lemma StepsLast(fl: FloatOps, toks: seq<string>, n: nat, st: Stack, r: Run, io: Console, fuel: nat)
    requires n + 2 == |toks| && r.status.Completed? && Step(fl, toks, n, st, io, fuel) == Moved(r, n + 2)
    ensures Steps(fl, toks, n, st, io, fuel) == r
  {
    assert Steps(fl, toks, n + 2, r.st, r.io, fuel) == r;
  }

  /** The token loop over literals, then a loop word and a quotation's text,
      from an empty stack. */
  lemma LoopLineSteps(fl: FloatOps, toks: seq<string>, vs: seq<Value>, word: string, qtext: string, q: Value,
                      r: Run, io: Console, fuel: nat)
    requires PushesAll(fl, toks, vs) && ParseValue(fl, qtext) == Ok(q) && LoopRuns(fl, word, vs + [q], r, io, fuel)
    ensures Steps(fl, toks + [word, qtext], 0, Stack([], map[]), io, fuel) == r
  {
    var all := toks + [word, qtext];
    var n := |toks|;
    assert all[0..n] == toks && all[n] == word && all[n + 1] == qtext;
    StepsPushLiterals(fl, all, 0, n, [], vs, io, fuel);
    assert [] + vs == vs;
    LoopStep(fl, all, n, vs, word, qtext, q, r, io, fuel);
    StepsLast(fl, all, n, Stack(vs, map[]), r, io, fuel);
  }

  /** The literals the examples write for a list of values. */
  function ShowAll(xs: seq<Value>): (ws: seq<string>)
    requires forall k :: 0 <= k < |xs| ==> Showable(xs[k])
    ensures |ws| == |xs| && forall k :: 0 <= k < |xs| ==> ws[k] == Show(xs[k])
  {
    seq(|xs|, k requires 0 <= k < |xs| => Show(xs[k]))
  }

  /** Words each followed by a space. */
  function Spaced(ws: seq<string>): string
    decreases |ws|
  {
    if |ws| == 0 then "" else ws[0] + " " + Spaced(ws[1..])
  }

  /** Joining with spaces is writing the leading words spaced, then the rest joined. */
  lemma {:induction false} JoinSpaced(ws: seq<string>, tail: seq<string>)
    requires |tail| > 0
    ensures Join(" ", ws + tail) == Spaced(ws) + Join(" ", tail)
    decreases |ws|
  {
    if |ws| == 0 {
      assert ws + tail == tail;
    } else {
      assert (ws + tail)[1..] == ws[1..] + tail;
      JoinSpaced(ws[1..], tail);
    }
  }

  lemma LoopWordsArePlain()
    ensures IsPlainWord("map") && IsPlainWord("each") && IsPlainWord("foldl")
  {
  }

  /** Plain words spaced out, then two more: tokenising gives the words back. */
  lemma TokenizeSpaced(ws: seq<string>, word: string, qtext: string)
    requires (forall k :: 0 <= k < |ws| ==> IsPlainWord(ws[k])) && IsPlainWord(word) && IsPlainWord(qtext)
    ensures Tokenize(Spaced(ws) + word + " " + qtext) == ws + [word, qtext]
  {
    var all := ws + [word, qtext];
    PlainThenTwo(ws, word, qtext);
    TokenizeJoin(all);
    SpacedThenTwo(ws, word, qtext);
  }

  lemma PlainThenTwo(ws: seq<string>, word: string, qtext: string)
    requires (forall k :: 0 <= k < |ws| ==> IsPlainWord(ws[k])) && IsPlainWord(word) && IsPlainWord(qtext)
    ensures forall k :: 0 <= k < |ws + [word, qtext]| ==> IsPlainWord((ws + [word, qtext])[k])
  {
    var all := ws + [word, qtext];
    forall k | 0 <= k < |all|
      ensures IsPlainWord(all[k])
    {
      if k < |ws| {
        assert all[k] == ws[k];
      } else if k == |ws| {
        assert all[k] == word;
      } else {
        assert all[k] == qtext;
      }
    }
  }

  lemma SpacedThenTwo(ws: seq<string>, word: string, qtext: string)
    ensures Join(" ", ws + [word, qtext]) == Spaced(ws) + word + " " + qtext
  {
    JoinSpaced(ws, [word, qtext]);
    assert Join(" ", [word, qtext]) == word + " " + qtext by {
      assert [word, qtext][1..] == [qtext];
    }
    assert Spaced(ws) + (word + " " + qtext) == Spaced(ws) + word + " " + qtext;
  }

  /** The tokens of values written out, then a loop word and a quotation's text. */
  lemma ShownLoopTokens(fl: FloatOps, line: string, xs: seq<Value>, word: string, qtext: string)
    requires (forall k :: 0 <= k < |xs| ==> Showable(xs[k])) && IsLoopWord(word) && IsPlainWord(qtext)
    requires Spaced(ShowAll(xs)) + word + " " + qtext == line
    ensures Tokenize(line) == ShowAll(xs) + [word, qtext]
  {
    var ws := ShowAll(xs);
    LoopWordsArePlain();
    forall k | 0 <= k < |ws|
      ensures IsPlainWord(ws[k])
    {
      ShownIsPlain(fl, xs[k]);
    }
    TokenizeSpaced(ws, word, qtext);
  }

  lemma ShownIsPlain(fl: FloatOps, v: Value)
    requires Showable(v)
    ensures IsPlainWord(Show(v))
  {
    ShownWord(fl, v);
  }

  /** The token loop over values written out, then the loop word and its quotation. */
  lemma ShownLoopSteps(fl: FloatOps, xs: seq<Value>, word: string, qtext: string, q: Value, r: Run, io: Console, fuel: nat)
    requires (forall k :: 0 <= k < |xs| ==> Showable(xs[k])) && ParseValue(fl, qtext) == Ok(q)
    requires LoopRuns(fl, word, xs + [q], r, io, fuel)
    ensures Steps(fl, ShowAll(xs) + [word, qtext], 0, Stack([], map[]), io, fuel) == r
  {
    var ws := ShowAll(xs);
    forall k | 0 <= k < |xs|
      ensures LiteralWord(fl, ws[k], xs[k])
    {
      ShownWord(fl, xs[k]);
    }
    LiteralsPush(fl, ws, xs);
    LoopLineSteps(fl, ws, xs, word, qtext, q, r, io, fuel);
  }

  /** A fresh line of values written out, then a loop word and the quotation
      text: the loop runs on the pushed values with the quotation on top, and what
      it leaves is the line's result. */
  lemma ShownThenLoop(fl: FloatOps, line: string, xs: seq<Value>, word: string, qtext: string, q: Value,
                      r: Run, io: Console, fuel: nat)
    requires forall k :: 0 <= k < |xs| ==> Showable(xs[k])
    requires Tokenize(line) == ShowAll(xs) + [word, qtext] && ParseValue(fl, qtext) == Ok(q)
    requires LoopRuns(fl, word, xs + [q], r, io, fuel)
    ensures Parse(fl, Fresh, io, line, fuel + 1) == Run(Completed, Stack(r.st.data, map[]), r.io)
  {
    ShownLoopSteps(fl, xs, word, qtext, q, r, io, fuel);
    ParseRunsSteps(fl, Fresh, io, line, ShowAll(xs) + [word, qtext], r, fuel + 1);
  }

  // ---------------------------------------------------------------- the tests

  const OneTwoThree: Value := Vec([Int(1), Int(2), Int(3)])

  lemma OneTwoThreeFacts()
    ensures AllInts(OneTwoThree.items)
    ensures Fits("*", 10, OneTwoThree.items) && Folded("*", 10, OneTwoThree.items) == 60
    ensures Fits("+", 0, OneTwoThree.items) && Folded("+", 0, OneTwoThree.items) == 6
  {
    var items := OneTwoThree.items;
    assert items[1..] == [Int(2), Int(3)] && items[1..][1..] == [Int(3)] && items[1..][1..][1..] == [];
  }

  /** `process_each` on 10, `[1,2,3]` and `{*}` leaves 60: the element and the
      running product share the stack. */
  lemma EachTimesTen(fl: FloatOps, io: Console, fuel: nat)
    requires fuel > 0
    ensures ProcessEach(fl, Stack([Int(10), OneTwoThree, Quotation([Symbol("*")])], map[]), io, fuel)
         == Run(Completed, Stack([Int(60)], map[]), io)
  {
    OneTwoThreeFacts();
    EachOnTop(fl, "*", [], map[], 10, OneTwoThree.items, io, fuel);
    assert [] + [Int(10), Vec(OneTwoThree.items), Quotation([Symbol("*")])] == [Int(10), OneTwoThree, Quotation([Symbol("*")])];
    assert [] + [Int(60)] == [Int(60)];
  }

  lemma EachTimesTenRuns(fl: FloatOps, io: Console, fuel: nat)
    requires fuel > 0
    ensures LoopRuns(fl, "each", [Int(10), OneTwoThree] + [Quotation([Symbol("*")])], Run(Completed, Stack([Int(60)], map[]), io), io, fuel)
  {
    EachTimesTen(fl, io, fuel);
    assert [Int(10), OneTwoThree] + [Quotation([Symbol("*")])] == [Int(10), OneTwoThree, Quotation([Symbol("*")])];
  }

  lemma EachLineShows()
    ensures forall k :: 0 <= k < |[Int(10), OneTwoThree]| ==> Showable([Int(10), OneTwoThree][k])
    ensures ShowAll([Int(10), OneTwoThree]) == ["10", "[1,2,3]"]
  {
    ShowTen();
    ShowOneTwoThree();
  }

  lemma EachLineSpaced()
    ensures Spaced(["10", "[1,2,3]"]) + "each" + " " + "{*}" == "10 [1,2,3] each {*}"
  {
    var ws := ["10", "[1,2,3]"];
    assert ws[1..] == ["[1,2,3]"] && Spaced(["[1,2,3]"]) == "[1,2,3] ";
  }

  /** The line `10 [1,2,3] each {*}` leaves 60: the `each` word takes the quotation
      written after it and runs it on each element with the running product. */
  lemma EachLine(fl: FloatOps, io: Console, fuel: nat)
    requires fuel > 1
    ensures Parse(fl, Fresh, io, "10 [1,2,3] each {*}", fuel) == Run(Completed, Stack([Int(60)], map[]), io)
  {
    EachLineShows();
    EachLineSpaced();
    OperatorInQuotation(fl);
    QuotationTextsArePlain();
    ShownLoopTokens(fl, "10 [1,2,3] each {*}", [Int(10), OneTwoThree], "each", "{*}");
    EachTimesTenRuns(fl, io, fuel - 1);
    ShownThenLoop(fl, "10 [1,2,3] each {*}", [Int(10), OneTwoThree], "each", "{*}",
      Quotation([Symbol("*")]), Run(Completed, Stack([Int(60)], map[]), io), io, fuel - 1);
  }

  lemma ShowTen()
    ensures Showable(Int(10)) && Show(Int(10)) == "10"
  {
  }

  lemma ShowZero()
    ensures Showable(Int(0)) && Show(Int(0)) == "0"
  {
  }

  lemma ShowOneTwoThree()
    ensures Showable(OneTwoThree) && Show(OneTwoThree) == "[1,2,3]"
  {
  }

  lemma MapLineShows()
    ensures forall k :: 0 <= k < |[Int(10), Int(10), Int(10), OneTwoThree]| ==> Showable([Int(10), Int(10), Int(10), OneTwoThree][k])
    ensures ShowAll([Int(10), Int(10), Int(10), OneTwoThree]) == ["10", "10", "10", "[1,2,3]"]
  {
    ShowTen();
    ShowOneTwoThree();
  }

  lemma MapLineSpaced()
    ensures Spaced(["10", "10", "10", "[1,2,3]"]) + "map" + " " + "{*}" == "10 10 10 [1,2,3] map {*}"
  {
    var ws := ["10", "10", "10", "[1,2,3]"];
    assert ws[1..] == ["10", "10", "[1,2,3]"] && ws[1..][1..] == ["10", "[1,2,3]"] && ws[1..][1..][1..] == ["[1,2,3]"];
    assert Spaced(["[1,2,3]"]) == "[1,2,3] ";
  }

  /** The `map` of the test: each 10 is consumed by the element above it. */
  lemma MapTimesTenRun(fl: FloatOps, io: Console, fuel: nat)
    requires fuel > 0
    ensures ProcessMap(fl, Stack([Int(10), Int(10), Int(10), OneTwoThree, Quotation([Symbol("*")])], map[]), io, fuel)
         == Run(Completed, Stack([Vec([Int(10), Int(20), Int(30)])], map[]), io)
  {
    var below: seq<Int32> := [10, 10, 10];
    OneTwoThreeMapped(below);
    MapOnTop(fl, "*", [], map[], below, OneTwoThree.items, io, fuel);
    assert [] + Ints(below) + [Vec(OneTwoThree.items), Quotation([Symbol("*")])]
        == [Int(10), Int(10), Int(10), OneTwoThree, Quotation([Symbol("*")])];
    assert [] + [Vec([Int(10), Int(20), Int(30)])] == [Vec([Int(10), Int(20), Int(30)])];
  }

  lemma OneTwoThreeMapped(below: seq<Int32>)
    requires below == [10, 10, 10]
    ensures AllInts(OneTwoThree.items) && MapFits("*", below, OneTwoThree.items)
    ensures Mapped("*", below, OneTwoThree.items) == [Int(10), Int(20), Int(30)]
  {
    var items := OneTwoThree.items;
    assert items[1..] == [Int(2), Int(3)] && items[1..][1..] == [Int(3)] && items[1..][1..][1..] == [];
    assert below[..2] == [10, 10] && below[..2][..1] == [10] && below[..2][..1][..0] == [];
  }

  lemma MapTimesTenRuns(fl: FloatOps, io: Console, fuel: nat)
    requires fuel > 0
    ensures LoopRuns(fl, "map", [Int(10), Int(10), Int(10), OneTwoThree] + [Quotation([Symbol("*")])],
                     Run(Completed, Stack([Vec([Int(10), Int(20), Int(30)])], map[]), io), io, fuel)
  {
    MapTimesTenRun(fl, io, fuel);
    assert [Int(10), Int(10), Int(10), OneTwoThree] + [Quotation([Symbol("*")])]
        == [Int(10), Int(10), Int(10), OneTwoThree, Quotation([Symbol("*")])];
  }

  /** `10 10 10 [1,2,3] map {*}` leaves `[10,20,30]`. */
  lemma MapTimesTen(fl: FloatOps, io: Console, fuel: nat)
    requires fuel > 1
    ensures Parse(fl, Fresh, io, "10 10 10 [1,2,3] map {*}", fuel)
         == Run(Completed, Stack([Vec([Int(10), Int(20), Int(30)])], map[]), io)
  {
    MapLineShows();
    MapLineSpaced();
    OperatorInQuotation(fl);
    QuotationTextsArePlain();
    ShownLoopTokens(fl, "10 10 10 [1,2,3] map {*}", [Int(10), Int(10), Int(10), OneTwoThree], "map", "{*}");
    MapTimesTenRuns(fl, io, fuel - 1);
    ShownThenLoop(fl, "10 10 10 [1,2,3] map {*}", [Int(10), Int(10), Int(10), OneTwoThree], "map", "{*}",
      Quotation([Symbol("*")]), Run(Completed, Stack([Vec([Int(10), Int(20), Int(30)])], map[]), io), io, fuel - 1);
  }

  lemma FoldlLineShows()
    ensures forall k :: 0 <= k < |[OneTwoThree, Int(0)]| ==> Showable([OneTwoThree, Int(0)][k])
    ensures ShowAll([OneTwoThree, Int(0)]) == ["[1,2,3]", "0"]
  {
    ShowZero();
    ShowOneTwoThree();
  }

  lemma FoldlLineSpaced()
    ensures Spaced(["[1,2,3]", "0"]) + "foldl" + " " + "{+}" == "[1,2,3] 0 foldl {+}"
  {
    var ws := ["[1,2,3]", "0"];
    assert ws[1..] == ["0"] && Spaced(["0"]) == "0 ";
  }

  /** The `foldl` of the test: 0 plus each element in turn. */
  lemma FoldlSumRun(fl: FloatOps, io: Console, fuel: nat)
    requires fuel > 0
    ensures ProcessFoldl(fl, Stack([OneTwoThree, Int(0), Quotation([Symbol("+")])], map[]), io, fuel)
         == Run(Completed, Stack([Int(6)], map[]), io)
  {
    OneTwoThreeFacts();
    FoldlOnTop(fl, "+", [], map[], OneTwoThree.items, 0, io, fuel);
    assert [] + [Vec(OneTwoThree.items), Int(0), Quotation([Symbol("+")])] == [OneTwoThree, Int(0), Quotation([Symbol("+")])];
    assert [] + [Int(6)] == [Int(6)];
  }

  lemma FoldlSumRuns(fl: FloatOps, io: Console, fuel: nat)
    requires fuel > 0
    ensures LoopRuns(fl, "foldl", [OneTwoThree, Int(0)] + [Quotation([Symbol("+")])], Run(Completed, Stack([Int(6)], map[]), io), io, fuel)
  {
    FoldlSumRun(fl, io, fuel);
    assert [OneTwoThree, Int(0)] + [Quotation([Symbol("+")])] == [OneTwoThree, Int(0), Quotation([Symbol("+")])];
  }

  /** `[1,2,3] 0 foldl {+}` leaves 6. */
  lemma FoldlSum(fl: FloatOps, io: Console, fuel: nat)
    requires fuel > 1
    ensures Parse(fl, Fresh, io, "[1,2,3] 0 foldl {+}", fuel) == Run(Completed, Stack([Int(6)], map[]), io)
  {
    FoldlLineShows();
    FoldlLineSpaced();
    PlusInQuotation(fl);
    QuotationTextsArePlain();
    ShownLoopTokens(fl, "[1,2,3] 0 foldl {+}", [OneTwoThree, Int(0)], "foldl", "{+}");
    FoldlSumRuns(fl, io, fuel - 1);
    ShownThenLoop(fl, "[1,2,3] 0 foldl {+}", [OneTwoThree, Int(0)], "foldl", "{+}",
      Quotation([Symbol("+")]), Run(Completed, Stack([Int(6)], map[]), io), io, fuel - 1);
  }

  lemma QuotationTextsArePlain()
    ensures IsPlainWord("{*}") && IsPlainWord("{+}")
  {
  }

  // ---------------------------------------------------------------- unwrap on nothing

  /** `map` whose quotation leaves nothing: `self.pop().unwrap()` panics on the first
      element. */
  lemma MapUnwrapPanics(fl: FloatOps, items: seq<Value>, s: map<string, Value>, io: Console, fuel: nat)
    requires |items| > 0 && fuel > 0
    ensures ProcessMap(fl, Stack([Vec(items), Quotation([Symbol("pop")])], s), io, fuel)
         == Run(Panicked(UnwrapNone), Stack([], s), io)
  {
    var st := Stack([Vec(items), Quotation([Symbol("pop")])], s);
    assert Top(st).body == [Symbol("pop")] && Top(Drop(st)) == Vec(items) && Drop(Drop(st)) == Stack([], s);
    var below := Stack([items[0]], s);
    assert Push(Push(Stack([], s), items[0]), Quotation([Symbol("pop")])) == Push(below, Quotation([Symbol("pop")]));
    ExecOneSymbol(fl, below, io, "pop", fuel);
    PopWord(fl, [items[0]], map[]);
    assert Drop(Stack([items[0]], map[])) == Stack([], map[]);
    ParseWord(fl, below, io, "pop", Stack([], map[]), fuel);
  }

  /** `foldl` whose quotation leaves nothing: `start = self.pop().unwrap()` panics on
      the first element. */
  lemma FoldlUnwrapPanics(fl: FloatOps, items: seq<Value>, start: Value, s: map<string, Value>, io: Console, fuel: nat)
    requires |items| > 0 && fuel > 0
    ensures ProcessFoldl(fl, Stack([Vec(items), start, Quotation([Symbol("pop"), Symbol("pop")])], s), io, fuel)
         == Run(Panicked(UnwrapNone), Stack([], s), io)
  {
    var code := [Symbol("pop"), Symbol("pop")];
    var st := Stack([Vec(items), start, Quotation(code)], s);
    assert Top(st).body == code && Top(Drop(st)) == start && Top(Drop(Drop(st))) == Vec(items);
    assert Drop(Drop(Drop(st))) == Stack([], s);
    assert Push(Push(Push(Stack([], s), start), items[0]), Quotation(code)) == Push(Stack([start, items[0]], s), Quotation(code));
    ExecTwoPops(fl, start, items[0], s, io, fuel);
  }

  lemma ExecTwoPops(fl: FloatOps, a: Value, b: Value, s: map<string, Value>, io: Console, fuel: nat)
    requires fuel > 0
    ensures Exec(fl, Push(Stack([a, b], s), Quotation([Symbol("pop"), Symbol("pop")])), io, fuel)
         == Run(Completed, Stack([], s), io)
  {
    var code := [Symbol("pop"), Symbol("pop")];
    var pushed := Push(Stack([a, b], s), Quotation(code));
    assert Top(pushed) == Quotation(code) && Drop(pushed) == Stack([a, b], s);
    ExecBodyPop(fl, code, 0, [a, b], s, io, fuel);
    ExecBodyPop(fl, code, 1, [a], s, io, fuel);
    assert [a, b][..1] == [a] && [a][..0] == [];
  }

  /** A `pop` symbol in an executing quotation drops the top value. */
  lemma ExecBodyPop(fl: FloatOps, code: seq<Value>, j: nat, d: seq<Value>, s: map<string, Value>, io: Console, fuel: nat)
    requires fuel > 0 && j < |code| && code[j] == Symbol("pop") && |d| > 0
    ensures ExecBody(fl, code, j, Stack(d, s), io, fuel) == ExecBody(fl, code, j + 1, Stack(d[..|d| - 1], s), io, fuel)
  {
    PopWord(fl, d, map[]);
    ParseWord(fl, Stack(d, s), io, "pop", Stack(d[..|d| - 1], map[]), fuel);
  }
}
