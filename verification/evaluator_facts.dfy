/** Properties of the token loop of rustVersion/src/stack.rs: a line without control
    words is a left fold of the primitives; a line's bindings never reach its
    caller nor the quotations it executes; `if` keeps only the popped condition's
    absence; and a self-reproducing quotation never finishes. */
module EvaluatorFacts {
  import opened Outcomes
  import opened Strings
  import opened Values
  import opened Tokenizer
  import opened Literals
  import opened StackOps
  import opened IfBlocks
  import opened Evaluator
  import opened I32

  /** The primitives of `toks`, applied one after another, stopping at the first failure. */
  function RunPrimitives(fl: FloatOps, toks: seq<string>, st: Stack): (r: Res<Stack>)
    ensures r.Ok? && (forall k :: 0 <= k < |toks| ==> toks[k] != ":=" && ' ' !in toks[k]) ==>
      r.value.symbols == st.symbols
    decreases |toks|
  {
    if |toks| == 0 then Ok(st)
    else
      var s :- Primitive(fl, toks[0], st);
      RunPrimitives(fl, toks[1..], s)
  }

  /** The run ended as the result says, with the console untouched. */
  predicate Agrees(run: Run, r: Res<Stack>, io: Console) {
    && run.io == io
    && match r
       case Ok(s) => run.status == Completed && run.st == s
       case Err(m) => run.status == Failed(m)
       case Panic(m) => run.status == Panicked(m)
  }

  /** On tokens without control words the token loop is the left fold of
      `Primitive`, whatever the fuel. */
  lemma {:induction false} StepsOfPrimitives(fl: FloatOps, toks: seq<string>, i: nat, st: Stack, io: Console, fuel: nat)
    requires i <= |toks|
    requires forall k :: i <= k < |toks| ==> !IsControl(toks[k])
    ensures Agrees(Steps(fl, toks, i, st, io, fuel), RunPrimitives(fl, toks[i..], st), io)
    decreases |toks| - i
  {
    if i < |toks| {
      var tok := toks[i];
      assert !IsControl(tok);
      assert Step(fl, toks, i, st, io, fuel) == Lift(Primitive(fl, tok, st), st, io, i + 1);
      assert toks[i..][0] == tok && toks[i..][1..] == toks[i + 1..];
      match Primitive(fl, tok, st)
      case Ok(s) =>
        StepsOfPrimitives(fl, toks, i + 1, s, io, fuel);
      case Err(_) =>
      case Panic(_) =>
    }
  }

  /** The run `parse` reports for a line whose tokens fold to `r`: the caller keeps
      its bindings, and its values are the fold's on success and none otherwise. */
  function PlainOutcome(r: Res<Stack>, symbols: map<string, Value>, io: Console): (run: Run)
    ensures run.io == io && run.st.symbols == symbols
    ensures run.status == Completed <==> r.Ok?
    ensures r.Ok? ==> run.st.data == r.value.data
    ensures !r.Ok? ==> run.st.data == [] && (run.status == Failed(r.msg) <==> r.Err?)
  {
    match r
    case Ok(s) => Run(Completed, Stack(s.data, symbols), io)
    case Err(m) => Run(Failed(m), Stack([], symbols), io)
    case Panic(m) => Run(Panicked(m), Stack([], symbols), io)
  }

  /** A line without control words: on success the caller's values become those the
      fold leaves, starting from the caller's values and no bindings; on failure the
      caller is left with no values. Its bindings never change. */
  lemma ParsePlainLine(fl: FloatOps, st: Stack, io: Console, input: string, fuel: nat)
    requires fuel > 0
    requires forall k :: 0 <= k < |Tokenize(input)| ==> !IsControl(Tokenize(input)[k])
    ensures Parse(fl, st, io, input, fuel) == PlainOutcome(RunPrimitives(fl, Tokenize(input), Stack(st.data, map[])), st.symbols, io)
  {
    var toks := Tokenize(input);
    assert toks[0..] == toks;
    StepsOfPrimitives(fl, toks, 0, Stack(st.data, map[]), io, fuel - 1);
    var run := Steps(fl, toks, 0, Stack(st.data, map[]), io, fuel - 1);
    AgreesOutcome(run, RunPrimitives(fl, toks, Stack(st.data, map[])), io, st.symbols);
  }

  lemma AgreesOutcome(run: Run, r: Res<Stack>, io: Console, symbols: map<string, Value>)
    requires Agrees(run, r, io)
    ensures PlainOutcome(r, symbols, io) ==
      if run.status.Completed? then Run(Completed, Stack(run.st.data, symbols), run.io)
      else Run(run.status, Stack([], symbols), run.io)
  {
  }

  /** `parse` does not look at the caller's bindings: two callers with the same
      values and console see the same outcome, values and console. */
  lemma ParseIgnoresCallerBindings(fl: FloatOps, d: seq<Value>, s1: map<string, Value>, s2: map<string, Value>,
                                   io: Console, input: string, fuel: nat)
    ensures var r1, r2 := Parse(fl, Stack(d, s1), io, input, fuel), Parse(fl, Stack(d, s2), io, input, fuel);
      r1.status == r2.status && r1.st.data == r2.st.data && r1.io == r2.io
  {
    if fuel > 0 {
      var r := Steps(fl, Tokenize(input), 0, Stack(d, map[]), io, fuel - 1);
      assert Parse(fl, Stack(d, s1), io, input, fuel).st.data == (if r.status.Completed? then r.st.data else []);
      assert Parse(fl, Stack(d, s2), io, input, fuel).st.data == (if r.status.Completed? then r.st.data else []);
    }
  }

  /** Executing a quotation does not depend on the executing stack's bindings: a
      symbol inside it is parsed as a line of its own, with none. */
  lemma {:induction false} ExecBodyIgnoresBindings(fl: FloatOps, body: seq<Value>, j: nat, d: seq<Value>,
                                                   s1: map<string, Value>, s2: map<string, Value>, io: Console, fuel: nat)
    ensures var r1, r2 := ExecBody(fl, body, j, Stack(d, s1), io, fuel), ExecBody(fl, body, j, Stack(d, s2), io, fuel);
      r1.status == r2.status && r1.io == r2.io && (r1.status.Completed? ==> r1.st.data == r2.st.data)
    decreases |body| - j
  {
    if j < |body| {
      match body[j]
      case Symbol(name) =>
        var p1, p2 := Parse(fl, Stack(d, s1), io, name, fuel), Parse(fl, Stack(d, s2), io, name, fuel);
        ParseIgnoresCallerBindings(fl, d, s1, s2, io, name, fuel);
        if p1.status.Completed? {
          assert p1.st == Stack(p1.st.data, s1) && p2.st == Stack(p1.st.data, s2);
          ExecBodyIgnoresBindings(fl, body, j + 1, p1.st.data, s1, s2, io.(stdin := p1.io.stdin, stdout := p1.io.stdout), fuel);
          assert p1.io == io.(stdin := p1.io.stdin, stdout := p1.io.stdout);
        }
      case Quotation(_) =>
      case _ =>
        ExecBodyIgnoresBindings(fl, body, j + 1, d + [body[j]], s1, s2, io, fuel);
        assert Push(Stack(d, s1), body[j]) == Stack(d + [body[j]], s1);
        assert Push(Stack(d, s2), body[j]) == Stack(d + [body[j]], s2);
    }
  }

  lemma ExecIgnoresBindings(fl: FloatOps, d: seq<Value>, s1: map<string, Value>, s2: map<string, Value>, io: Console, fuel: nat)
    ensures var r1, r2 := Exec(fl, Stack(d, s1), io, fuel), Exec(fl, Stack(d, s2), io, fuel);
      r1.status == r2.status && r1.io == r2.io && (r1.status.Completed? ==> r1.st.data == r2.st.data)
  {
    if |d| > 0 && d[|d| - 1].Quotation? {
      var rest := d[..|d| - 1];
      assert Drop(Stack(d, s1)) == Stack(rest, s1) && Drop(Stack(d, s2)) == Stack(rest, s2);
      ExecBodyIgnoresBindings(fl, d[|d| - 1].body, 0, rest, s1, s2, io, fuel);
    }
  }

  /** An element `exec` pushes as it is: neither a symbol nor a nested quotation. */
  predicate IsPlainElement(v: Value) {
    !v.Symbol? && !v.Quotation?
  }

  /** Elements that are neither symbols nor quotations are pushed in order. */
  lemma {:induction false} ExecBodyPushesPlain(fl: FloatOps, body: seq<Value>, j: nat, st: Stack, io: Console, fuel: nat)
    requires j <= |body| && forall k :: j <= k < |body| ==> IsPlainElement(body[k])
    ensures ExecBody(fl, body, j, st, io, fuel) == Run(Completed, Stack(st.data + body[j..], st.symbols), io)
    decreases |body| - j
  {
    if j < |body| {
      ExecBodyPushesPlain(fl, body, j + 1, Push(st, body[j]), io, fuel);
      assert st.data + [body[j]] + body[j + 1..] == st.data + body[j..];
    } else {
      assert st.data + body[j..] == st.data;
    }
  }

  /** `exec` of a quotation of plain values pushes them, first element deepest. */
  lemma ExecPushesPlain(fl: FloatOps, st: Stack, body: seq<Value>, io: Console, fuel: nat)
    requires forall k :: 0 <= k < |body| ==> IsPlainElement(body[k])
    ensures Exec(fl, Push(st, Quotation(body)), io, fuel) == Run(Completed, Stack(st.data + body, st.symbols), io)
  {
    var pushed := Push(st, Quotation(body));
    assert pushed.data[..|pushed.data| - 1] == st.data;
    assert Top(pushed) == Quotation(body) && Drop(pushed) == st;
    ExecBodyPushesPlain(fl, body, 0, st, io, fuel);
    assert body[0..] == body;
  }

  /** The elements behind a prefix run as they would on their own. */
  lemma {:induction false} ExecBodyShift(fl: FloatOps, pre: seq<Value>, b: seq<Value>, j: nat, st: Stack, io: Console, fuel: nat)
    requires j <= |b|
    ensures ExecBody(fl, pre + b, |pre| + j, st, io, fuel) == ExecBody(fl, b, j, st, io, fuel)
    decreases |b| - j
  {
    if j < |b| {
      assert (pre + b)[|pre| + j] == b[j];
      match b[j]
      case Symbol(name) =>
        var r := Parse(fl, st, io, name, fuel);
        if r.status.Completed? {
          ExecBodyShift(fl, pre, b, j + 1, r.st, r.io, fuel);
        }
      case Quotation(_) =>
      case _ =>
        ExecBodyShift(fl, pre, b, j + 1, Push(st, b[j]), io, fuel);
    }
  }

  /** Running `b1 + b2` is running `b1`, then, if that completes, `b2` on its result. */
  lemma {:induction false} ExecBodyConcat(fl: FloatOps, b1: seq<Value>, b2: seq<Value>, j: nat, st: Stack, io: Console, fuel: nat)
    requires j <= |b1|
    ensures var r := ExecBody(fl, b1, j, st, io, fuel);
      ExecBody(fl, b1 + b2, j, st, io, fuel) == if r.status.Completed? then ExecBody(fl, b2, 0, r.st, r.io, fuel) else r
    decreases |b1| - j
  {
    if j == |b1| {
      ExecBodyShift(fl, b1, b2, 0, st, io, fuel);
    } else {
      assert (b1 + b2)[j] == b1[j];
      match b1[j]
      case Symbol(name) =>
        var r := Parse(fl, st, io, name, fuel);
        if r.status.Completed? {
          ExecBodyConcat(fl, b1, b2, j + 1, r.st, r.io, fuel);
        }
      case Quotation(_) =>
      case _ =>
        ExecBodyConcat(fl, b1, b2, j + 1, Push(st, b1[j]), io, fuel);
    }
  }

  /** A nested quotation stops `exec` with its error, after the elements before it
      have run; nothing after it runs. */
  lemma ExecBodyNestedQuotation(fl: FloatOps, b1: seq<Value>, q: seq<Value>, b2: seq<Value>, st: Stack, io: Console, fuel: nat)
    ensures var r := ExecBody(fl, b1, 0, st, io, fuel);
      ExecBody(fl, b1 + [Quotation(q)] + b2, 0, st, io, fuel)
        == if r.status.Completed? then Run(Failed(NestedQuotation), r.st, r.io) else r
  {
    assert b1 + [Quotation(q)] + b2 == b1 + ([Quotation(q)] + b2);
    ExecBodyConcat(fl, b1, [Quotation(q)] + b2, 0, st, io, fuel);
    var r := ExecBody(fl, b1, 0, st, io, fuel);
    assert ([Quotation(q)] + b2)[0] == Quotation(q);
  }

  // ---------------------------------------------------------------- divergence

  /** `{'dup','exec'}`: a quotation that copies itself and runs the copy. */
  const Forever: Value := Quotation([Symbol("dup"), Symbol("exec")])

  lemma TokenizeWord(w: string)
    requires IsPlainWord(w)
    ensures Tokenize(w) == [w]
  {
    TokenizeJoin([w]);
  }

  /** The fold over a single token is that token's primitive. */
  lemma RunOne(fl: FloatOps, tok: string, st: Stack)
    ensures RunPrimitives(fl, [tok], st) == Primitive(fl, tok, st)
  {
    assert [tok][1..] == [];
  }

  /** A line of one primitive word, on any stack: the word's outcome on the values
      alone, with the caller's bindings kept. */
  lemma ParseWord(fl: FloatOps, st: Stack, io: Console, tok: string, after: Stack, fuel: nat)
    requires fuel > 0 && IsPlainWord(tok) && !IsControl(tok)
    requires Primitive(fl, tok, Stack(st.data, map[])) == Ok(after)
    ensures Parse(fl, st, io, tok, fuel) == Run(Completed, Stack(after.data, st.symbols), io)
  {
    TokenizeWord(tok);
    ParsePlainLine(fl, st, io, tok, fuel);
    RunOne(fl, tok, Stack(st.data, map[]));
  }

  /** Parsing `dup` on a stack holding something copies its top. */
  lemma ParseDup(fl: FloatOps, st: Stack, io: Console, fuel: nat)
    requires fuel > 0 && |st.data| > 0
    ensures Parse(fl, st, io, "dup", fuel) == Run(Completed, Push(st, Top(st)), io)
  {
    var after := Stack(st.data + [Top(st)], map[]);
    DupWord(fl, st.data, after);
    ParseWord(fl, st, io, "dup", after, fuel);
  }

  lemma DupWord(fl: FloatOps, d: seq<Value>, after: Stack)
    requires |d| > 0 && after == Stack(d + [d[|d| - 1]], map[])
    ensures IsPlainWord("dup") && !IsControl("dup")
    ensures Primitive(fl, "dup", Stack(d, map[])) == Ok(after)
  {
    assert Primitive(fl, "dup", Stack(d, map[])) == Dup(Stack(d, map[]));
  }

  /** With `Forever` on top of a copy of itself, `exec` never finishes: every fuel
      budget runs out. In the source the recursion overflows the call stack. */
  lemma {:induction false} ForeverDiverges(fl: FloatOps, d: seq<Value>, symbols: map<string, Value>, io: Console, fuel: nat)
    ensures Exec(fl, Stack(d + [Forever, Forever], symbols), io, fuel).status == OutOfFuel
    decreases fuel
  {
    var st := Stack(d + [Forever, Forever], symbols);
    var below := Stack(d + [Forever], symbols);
    ExecForever(fl, d, symbols, io, fuel);
    if fuel > 0 {
      ForeverDiverges(fl, d, map[], io, fuel - 1);
      ParseExecRunsOut(fl, st, io, fuel);
      DupThenRun(fl, below, io, fuel);
      assert Push(below, Forever) == st;
    } else {
      ExecBodyWithoutFuel(fl, below, io);
    }
  }

  /** `exec` on `Forever` runs its body on the rest of the stack. */
  lemma ExecForever(fl: FloatOps, d: seq<Value>, symbols: map<string, Value>, io: Console, fuel: nat)
    ensures Exec(fl, Stack(d + [Forever, Forever], symbols), io, fuel)
         == ExecBody(fl, Forever.body, 0, Stack(d + [Forever], symbols), io, fuel)
  {
    var st := Stack(d + [Forever, Forever], symbols);
    assert Top(st) == Forever && Drop(st) == Stack(d + [Forever], symbols);
  }

  /** Without fuel, the body's first symbol is already out of fuel. */
  lemma ExecBodyWithoutFuel(fl: FloatOps, below: Stack, io: Console)
    ensures ExecBody(fl, Forever.body, 0, below, io, 0).status == OutOfFuel
  {
    assert Forever.body[0] == Symbol("dup");
  }

  /** The body's `dup` copies `Forever`, and what follows is the body's `exec`. */
  lemma DupThenRun(fl: FloatOps, below: Stack, io: Console, fuel: nat)
    requires fuel > 0 && |below.data| > 0 && Top(below) == Forever
    ensures ExecBody(fl, Forever.body, 0, below, io, fuel).status
         == Parse(fl, Push(below, Forever), io, "exec", fuel).status
  {
    ParseDup(fl, below, io, fuel);
    assert Forever.body[0] == Symbol("dup") && Forever.body[1] == Symbol("exec");
    var st := Push(below, Forever);
    assert ExecBody(fl, Forever.body, 0, below, io, fuel) == ExecBody(fl, Forever.body, 1, st, io, fuel);
    var r := Parse(fl, st, io, "exec", fuel);
    if r.status.Completed? {
      assert ExecBody(fl, Forever.body, 1, st, io, fuel) == ExecBody(fl, Forever.body, 2, r.st, r.io, fuel);
    }
  }

  /** Parsing `exec` runs `exec` on the same values with one unit of fuel less. */
  lemma ParseExecRunsOut(fl: FloatOps, st: Stack, io: Console, fuel: nat)
    requires fuel > 0
    requires Exec(fl, Stack(st.data, map[]), io, fuel - 1).status == OutOfFuel
    ensures Parse(fl, st, io, "exec", fuel).status == OutOfFuel
  {
    TokenizeWord("exec");
    var toks := Tokenize("exec");
    assert Step(fl, toks, 0, Stack(st.data, map[]), io, fuel - 1).run.status == OutOfFuel;
  }

  // ---------------------------------------------------------------- pop

  /** `pop` on an empty stack is no error: `self.data.pop()` returns nothing and the
      result is ignored. */
  lemma PopOnEmpty(fl: FloatOps, s: map<string, Value>, io: Console, fuel: nat)
    requires fuel > 0
    ensures Primitive(fl, "pop", Stack([], s)) == Ok(Stack([], s))
    ensures Parse(fl, Stack([], s), io, "pop", fuel) == Run(Completed, Stack([], s), io)
  {
    PopWord(fl, [], map[]);
    PopWord(fl, [], s);
    ParseWord(fl, Stack([], s), io, "pop", Stack([], map[]), fuel);
  }

  lemma PopWord(fl: FloatOps, d: seq<Value>, s: map<string, Value>)
    ensures IsPlainWord("pop") && !IsControl("pop")
    ensures Primitive(fl, "pop", Stack(d, s)) == Ok(Drop(Stack(d, s)))
  {
  }

  /** A line of one primitive word: the word's outcome on the values alone, with
      the caller's bindings kept, and no values left when it fails. */
  lemma ParseOneWord(fl: FloatOps, st: Stack, io: Console, tok: string, fuel: nat)
    requires fuel > 0 && IsPlainWord(tok) && !IsControl(tok)
    ensures Parse(fl, st, io, tok, fuel) == PlainOutcome(Primitive(fl, tok, Stack(st.data, map[])), st.symbols, io)
  {
    TokenizeWord(tok);
    ParsePlainLine(fl, st, io, tok, fuel);
    RunOne(fl, tok, Stack(st.data, map[]));
  }

  /** `&&` combines two Bools; any other pair of operands ends the line with the
      mismatch error and no values. */
  lemma AndLine(fl: FloatOps, d: seq<Value>, a: Value, b: Value, s: map<string, Value>, io: Console, fuel: nat)
    requires fuel > 0
    ensures Parse(fl, Stack(d + [a, b], s), io, "&&", fuel)
      == if a.Bool? && b.Bool? then Run(Completed, Stack(d + [Bool(a.b && b.b)], s), io)
         else Run(Failed("Mismatched types for logical AND"), Stack([], s), io)
  {
    var st := Stack(d + [a, b], s);
    assert IsPlainWord("&&");
    ParseOneWord(fl, st, io, "&&", fuel);
    assert st.data[..|st.data| - 2] == d;
  }

  /** `||` combines two Bools; any other pair of operands ends the line with the
      mismatch error and no values. */
  lemma OrLine(fl: FloatOps, d: seq<Value>, a: Value, b: Value, s: map<string, Value>, io: Console, fuel: nat)
    requires fuel > 0
    ensures Parse(fl, Stack(d + [a, b], s), io, "||", fuel)
      == if a.Bool? && b.Bool? then Run(Completed, Stack(d + [Bool(a.b || b.b)], s), io)
         else Run(Failed("Mismatched types for logical OR"), Stack([], s), io)
  {
    var st := Stack(d + [a, b], s);
    assert IsPlainWord("||");
    ParseOneWord(fl, st, io, "||", fuel);
    assert st.data[..|st.data| - 2] == d;
  }

  /** `+` on two Ints: their sum when it fits in an i32, otherwise the overflow
      panic, which leaves no values. */
  lemma AddLine(fl: FloatOps, d: seq<Value>, x: Int32, y: Int32, s: map<string, Value>, io: Console, fuel: nat)
    requires fuel > 0
    ensures Parse(fl, Stack(d + [Int(x), Int(y)], s), io, "+", fuel)
      == if InRange(x as int + y) then Run(Completed, Stack(d + [Int((x as int + y) as Int32)], s), io)
         else Run(Panicked(AddOverflow), Stack([], s), io)
  {
    var st := Stack(d + [Int(x), Int(y)], s);
    assert IsPlainWord("+");
    ParseOneWord(fl, st, io, "+", fuel);
    assert st.data[..|st.data| - 2] == d;
  }
}
