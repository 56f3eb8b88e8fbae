/** The token loop of rustVersion/src/stack.rs (`parse`) and everything it re-enters:
    `exec`, `process_if`, `process_map`, `process_each`, `process_foldl` and
    `push_next`. These call `parse` again without bound, so the family carries a
    `fuel` budget that only `Parse` spends; a run that exhausts it ends in
    `OutOfFuel`, which stands for the source's unbounded recursion.

    `parse` works on a temporary stack: it takes the caller's values, starts from
    no bindings at all, and on success hands the values back; bindings made during
    the line are dropped. On an error the caller is left with no values. */
module Evaluator {
  import opened Outcomes
  import opened Strings
  import opened Values
  import opened Tokenizer
  import opened Literals
  import opened StackOps
  import opened IfBlocks

  /** Standard input as its remaining lines, and what `print` has written so far. */
  datatype Console = Console(stdin: seq<string>, stdout: seq<Value>)

  datatype Status = Completed | Failed(msg: string) | Panicked(msg: string) | OutOfFuel

  /** The end of a run: how it ended, the stack, and the console. The stack that
      goes with any status but `Completed` is never looked at again. */
  datatype Run = Run(status: Status, st: Stack, io: Console)

  /** A run of one token of a line, and the index of the token to read next. */
  datatype Moved = Moved(run: Run, next: nat)

  const MissingPushValue: string := "Missing value after 'push'"
  const ExpectedBool: string := "Expected a boolean value for the condition"
  const ExpectedQuotation: string := "Expected a Vec on the stack"
  const NestedQuotation: string := "Invalid StackValue in Quotation"
  const InvalidAssignment: string := "Invalid assignment syntax"

  /** The tokens `parse` dispatches to something other than `Primitive`. */
  predicate IsControl(tok: string) {
    tok in {"if", "exec", "map", "each", "foldl", "push", "print", "read"}
  }

  // ---------------------------------------------------------------- single tokens

  /** The tokens that touch only the stack and its bindings, and read no further
      tokens: the primitives, the operators, and the default branch (a
      `name := literal` token, a bound name, or a literal). */
  function Primitive(fl: FloatOps, tok: string, st: Stack): (r: Res<Stack>)
    ensures r.Ok? && r.value.symbols != st.symbols ==> tok == ":=" || ' ' in tok
    ensures ' ' in tok && !IsKeyword(tok) ==>
      var parts := SplitOn(tok, ' ');
      (|parts| != 3 || parts[1] != ":=") ==> r == Err(InvalidAssignment)
  {
    if tok == "dup" then Dup(st)
    else if tok == "swap" then Swap(st)
    else if tok == ":=" then Assignment(st)
    else if tok == "pop" then Ok(Drop(st))
    else if tok == "parseInteger" then ParseInteger(st)
    else if tok == "parseFloat" then ParseFloat(fl, st)
    else if tok == "words" then Words(st)
    else if tok == "+" then BinaryOp(st, (a, b) => Add(fl, a, b))
    else if tok == "-" then BinaryOp(st, (a, b) => Sub(fl, a, b))
    else if tok == "*" then BinaryOp(st, (a, b) => Mul(fl, a, b))
    else if tok == "/" then BinaryOp(st, (a, b) => FloatDiv(fl, a, b))
    else if tok == "div" then BinaryOp(st, IntDiv)
    else if tok == "<" then BinaryOp(st, (a, b) => Less(fl, a, b))
    else if tok == ">" then BinaryOp(st, (a, b) => Greater(fl, a, b))
    else if tok == "&&" then BinaryOp(st, And)
    else if tok == "||" then BinaryOp(st, Or)
    else if tok == "==" then Equal(fl, st)
    else if tok == "not" then ApplyTop(st, Negate)
    else if tok == "head" then ApplyTop(st, Head)
    else if tok == "tail" then ApplyTop(st, Tail)
    else if tok == "empty" then ApplyTop(st, IsEmpty)
    else if tok == "length" then ApplyTop(st, Length)
    else if tok == "cons" then Cons(st)
    else if tok == "append" then Append(st)
    else Literal(fl, tok, st)
  }

  /** The words `Primitive` gives a meaning of their own. */
  predicate IsKeyword(tok: string) {
    tok in {"dup", "swap", ":=", "pop", "parseInteger", "parseFloat", "words", "+", "-", "*", "/",
            "div", "<", ">", "&&", "||", "==", "not", "head", "tail", "empty", "length", "cons", "append"}
  }

  /** The default branch of the token loop. A token holding a space (only a quoted
      one can) is accepted only as `name := literal`; any other token is a bound
      name, whose value is pushed, or else a literal. */
  function Literal(fl: FloatOps, tok: string, st: Stack): (r: Res<Stack>)
    ensures r.Ok? && r.value.symbols != st.symbols ==> ' ' in tok
    ensures ' ' in tok ==> var parts := SplitOn(tok, ' ');
      && ((|parts| != 3 || parts[1] != ":=") ==> r == Err(InvalidAssignment))
      && (r.Ok? ==> r.value.data == st.data && parts[0] in r.value.symbols && Ok(r.value.symbols[parts[0]]) == ParseValue(fl, parts[2]))
    ensures ' ' !in tok && tok in st.symbols ==> r == Ok(Push(st, st.symbols[tok]))
    ensures ' ' !in tok && tok !in st.symbols ==>
      (r.Ok? <==> ParseValue(fl, tok).Ok?) && (r.Ok? ==> r.value == Push(st, ParseValue(fl, tok).value))
  {
    if ' ' in tok then AssignToken(fl, tok, st)
    else if tok in st.symbols then Ok(Push(st, st.symbols[tok]))
    else
      var v :- ParseValue(fl, tok);
      Ok(Push(st, v))
  }

  /** A token holding a space is accepted only as `name := literal`, which binds the
      name and leaves the values alone. */
  function AssignToken(fl: FloatOps, tok: string, st: Stack): (r: Res<Stack>)
    ensures var parts := SplitOn(tok, ' ');
      && ((|parts| != 3 || parts[1] != ":=") ==> r == Err(InvalidAssignment))
      && (r.Ok? ==> r.value.data == st.data && parts[0] in r.value.symbols && Ok(r.value.symbols[parts[0]]) == ParseValue(fl, parts[2]))
      && (r.Ok? ==> forall x :: x in st.symbols && x != parts[0] ==> x in r.value.symbols && r.value.symbols[x] == st.symbols[x])
  {
    var parts := SplitOn(tok, ' ');
    if |parts| == 3 && parts[1] == ":=" then
      var v :- ParseValue(fl, parts[2]);
      Ok(Assign(st, parts[0], v))
    else Err(InvalidAssignment)
  }

  /** `push_next`: the token after a loop keyword, looked up or parsed, goes on the
      stack; a missing token or one that does not parse is a panic (`unwrap`). */
  function PushNext(fl: FloatOps, toks: seq<string>, i: nat, st: Stack): (r: Res<Stack>)
    ensures !r.Err?
    ensures i + 1 >= |toks| ==> r == Panic(IndexOutOfBounds)
    ensures r.Ok? ==> i + 1 < |toks| && Drop(r.value) == st && |r.value.data| == |st.data| + 1
    ensures i + 1 < |toks| && toks[i + 1] in st.symbols ==> r == Ok(Push(st, st.symbols[toks[i + 1]]))
  {
    if i + 1 >= |toks| then Panic(IndexOutOfBounds)
    else
      var tok := toks[i + 1];
      if tok in st.symbols then Ok(Push(st, st.symbols[tok]))
      else
        match ParseValue(fl, tok)
        case Ok(v) => Ok(Push(st, v))
        case Err(_) => Panic(UnwrapErr)
        case Panic(m) => Panic(m)
  }

  /** `read`: the next line without trailing whitespace, or the empty text at end of input. */
  function Read(st: Stack, io: Console): (r: Run)
    ensures r.status.Completed? && Drop(r.st) == st && |r.st.data| == |st.data| + 1
    ensures |io.stdin| > 0 ==> Top(r.st) == Str(TrimEnd(io.stdin[0])) && r.io == Console(io.stdin[1..], io.stdout)
    ensures |io.stdin| == 0 ==> Top(r.st) == Str("") && r.io == io
  {
    if |io.stdin| == 0 then Run(Completed, Push(st, Str("")), io)
    else Run(Completed, Push(st, Str(TrimEnd(io.stdin[0]))), io.(stdin := io.stdin[1..]))
  }

  /** `print`: the top value is popped and written out. */
  function Print(st: Stack, io: Console): (r: Run)
    ensures |st.data| == 0 <==> r.status == Failed(StackEmpty)
    ensures r.status.Completed? ==> r.st == Drop(st) && r.io == io.(stdout := io.stdout + [Top(st)])
    ensures r.status.Completed? || r.status.Failed?
  {
    if |st.data| == 0 then Run(Failed(StackEmpty), st, io)
    else Run(Completed, Drop(st), io.(stdout := io.stdout + [Top(st)]))
  }

  /** A primitive's outcome as a run that continues at `next`. */
  function Lift(r: Res<Stack>, st: Stack, io: Console, next: nat): (m: Moved)
    ensures m.next == next && m.run.io == io
    ensures m.run.status.Completed? <==> r.Ok?
    ensures r.Ok? ==> m.run.st == r.value
    ensures r.Err? ==> m.run.status == Failed(r.msg)
    ensures r.Panic? ==> m.run.status == Panicked(r.msg)
  {
    match r
    case Ok(s) => Moved(Run(Completed, s, io), next)
    case Err(e) => Moved(Run(Failed(e), st, io), next)
    case Panic(e) => Moved(Run(Panicked(e), st, io), next)
  }

  // ---------------------------------------------------------------- the recursive family

  /** `parse`: tokenise `input` and run its tokens on a temporary stack holding the
      caller's values and no bindings. On success the caller gets the values back;
      otherwise it is left with none. The caller's bindings never change. */
  function Parse(fl: FloatOps, st: Stack, io: Console, input: string, fuel: nat): (r: Run)
    ensures r.st.symbols == st.symbols
    ensures !r.status.Completed? ==> r.st.data == []
    decreases fuel, 0, 0
  {
    if fuel == 0 then Run(OutOfFuel, Stack([], st.symbols), io)
    else
      var r := Steps(fl, Tokenize(input), 0, Stack(st.data, map[]), io, fuel - 1);
      if r.status.Completed? then Run(Completed, Stack(r.st.data, st.symbols), r.io)
      else Run(r.status, Stack([], st.symbols), r.io)
  }

  /** The `while index < tokens.len()` loop from index `i`. */
  function Steps(fl: FloatOps, toks: seq<string>, i: nat, st: Stack, io: Console, fuel: nat): (r: Run)
    decreases fuel, 6, |toks| + 1 - i
  {
    if i >= |toks| then Run(Completed, st, io)
    else
      var m := Step(fl, toks, i, st, io, fuel);
      if !m.run.status.Completed? then m.run
      else Steps(fl, toks, m.next, m.run.st, m.run.io, fuel)
  }

  /** One pass of the loop body on `toks[i]`, ending with the index of the next token. */
  function Step(fl: FloatOps, toks: seq<string>, i: nat, st: Stack, io: Console, fuel: nat): (m: Moved)
    requires i < |toks|
    ensures m.run.status.Completed? ==> i < m.next <= |toks| + 1
    decreases fuel, 5, 0
  {
    var tok := toks[i];
    if tok == "if" then ProcessIf(fl, toks, i, st, io, fuel)
    else if tok == "exec" then Moved(Exec(fl, st, io, fuel), i + 1)
    else if tok == "map" || tok == "each" || tok == "foldl" then
      var pushed := PushNext(fl, toks, i, st);
      if !pushed.Ok? then Moved(Run(Panicked(pushed.msg), st, io), i + 2)
      else if tok == "map" then Moved(ProcessMap(fl, pushed.value, io, fuel), i + 2)
      else if tok == "each" then Moved(ProcessEach(fl, pushed.value, io, fuel), i + 2)
      else Moved(ProcessFoldl(fl, pushed.value, io, fuel), i + 2)
    else if tok == "push" then
      if i + 1 < |toks| then
        match ParseValue(fl, toks[i + 1])
        case Ok(v) => Moved(Run(Completed, Push(st, v), io), i + 2)
        case Err(e) => Moved(Run(Failed(e), st, io), i + 2)
        case Panic(e) => Moved(Run(Panicked(e), st, io), i + 2)
      else Moved(Run(Failed(MissingPushValue), st, io), i + 1)
    else if tok == "print" then Moved(Print(st, io), i + 1)
    else if tok == "read" then Moved(Read(st, io), i + 1)
    else Lift(Primitive(fl, tok, st), st, io, i + 1)
  }

  /** `process_if` at the `if` in `toks[i]`: the blocks are split off, the condition
      popped, and the chosen block parsed; on success the stack goes back to what it
      was just after the condition was popped. The loop then moves one past the
      index `parse_if_blocks` returned, so the token after the closing `}` is skipped. */
  function ProcessIf(fl: FloatOps, toks: seq<string>, i: nat, st: Stack, io: Console, fuel: nat): (m: Moved)
    requires i < |toks|
    ensures m.run.status.Completed? ==> i < m.next <= |toks| + 1
    ensures m.run.status.Completed? ==>
      && ParseIfBlocks(toks, i + 1).Ok?
      && m.next == ParseIfBlocks(toks, i + 1).value.next + 1
      && |st.data| > 0 && Top(st).Bool?
      && m.run.st == Drop(st)
    ensures ParseIfBlocks(toks, i + 1).Err? ==> m.run == Run(Failed(MissingClose), st, io)
    ensures ParseIfBlocks(toks, i + 1).Ok? && (|st.data| == 0 || !Top(st).Bool?) ==>
      m.run == Run(Failed(ExpectedBool), Drop(st), io)
    ensures ParseIfBlocks(toks, i + 1).Ok? && |st.data| > 0 && Top(st).Bool? ==>
      var blocks := ParseIfBlocks(toks, i + 1).value;
      var chosen := Parse(fl, Drop(st), io, if Top(st).b then blocks.trueBlock else blocks.falseBlock, fuel);
      && m.run.status == chosen.status && m.run.io == chosen.io
      && m.run.st == Drop(st) && m.next == blocks.next + 1
    decreases fuel, 4, 0
  {
    match ParseIfBlocks(toks, i + 1)
    case Err(e) => Moved(Run(Failed(e), st, io), i + 1)
    case Panic(e) => Moved(Run(Panicked(e), st, io), i + 1)
    case Ok(blocks) =>
      if |st.data| == 0 || !Top(st).Bool? then Moved(Run(Failed(ExpectedBool), Drop(st), io), blocks.next + 1)
      else
        var rest := Drop(st);
        var block := if Top(st).b then blocks.trueBlock else blocks.falseBlock;
        var r := Parse(fl, rest, io, block, fuel);
        Moved(Run(r.status, rest, r.io), blocks.next + 1)
  }

  /** `exec`: pops a quotation and runs its elements in order on what is left. The
      top value is popped before its kind is tested, so an error leaves it off. */
  function Exec(fl: FloatOps, st: Stack, io: Console, fuel: nat): (r: Run)
    ensures (|st.data| == 0 || !Top(st).Quotation?) ==> r == Run(Failed(ExpectedQuotation), Drop(st), io)
    decreases fuel, 2, 0
  {
    if |st.data| == 0 || !Top(st).Quotation? then Run(Failed(ExpectedQuotation), Drop(st), io)
    else ExecBody(fl, Top(st).body, 0, Drop(st), io, fuel)
  }

  /** The elements `body[j..]` of an executing quotation: a Symbol is parsed as a
      line of its own, a nested quotation is an error, anything else is pushed. */
  function ExecBody(fl: FloatOps, body: seq<Value>, j: nat, st: Stack, io: Console, fuel: nat): (r: Run)
    ensures r.status.Completed? ==> r.st.symbols == st.symbols
    decreases fuel, 1, |body| - j
  {
    if j >= |body| then Run(Completed, st, io)
    else
      match body[j]
      case Symbol(name) =>
        var r := Parse(fl, st, io, name, fuel);
        if r.status.Completed? then ExecBody(fl, body, j + 1, r.st, r.io, fuel) else r
      case Quotation(_) => Run(Failed(NestedQuotation), st, io)
      case _ => ExecBody(fl, body, j + 1, Push(st, body[j]), io, fuel)
  }

  /** `process_map`: pops the quotation, then the list, and runs the quotation on
      each element in turn, collecting the top value after each run. */
  function ProcessMap(fl: FloatOps, st: Stack, io: Console, fuel: nat): (r: Run)
    ensures (|st.data| == 0 || !Top(st).Quotation?) ==> r == Run(Failed("Expected a code block for 'map'"), Drop(st), io)
    ensures r.status.Completed? ==>
      && |st.data| >= 2 && Top(st).Quotation? && Top(Drop(st)).Vec?
      && |r.st.data| > 0 && Top(r.st).Vec? && |Top(r.st).items| == |Top(Drop(st)).items|
    decreases fuel, 4, 0
  {
    if |st.data| == 0 || !Top(st).Quotation? then Run(Failed("Expected a code block for 'map'"), Drop(st), io)
    else
      var code, s1 := Top(st).body, Drop(st);
      if |s1.data| == 0 || !Top(s1).Vec? then Run(Failed("Expected a list for 'map'"), Drop(s1), io)
      else MapLoop(fl, code, Top(s1).items, 0, [], Drop(s1), io, fuel)
  }

  function MapLoop(fl: FloatOps, code: seq<Value>, items: seq<Value>, k: nat, acc: seq<Value>, st: Stack, io: Console, fuel: nat): (r: Run)
    requires k <= |items| && |acc| == k
    ensures r.status.Completed? ==> |r.st.data| > 0 && Top(r.st).Vec? && |Top(r.st).items| == |items|
    ensures r.status.Completed? ==> Top(r.st).items[..k] == acc
    decreases fuel, 3, |items| - k
  {
    if k == |items| then Run(Completed, Push(st, Vec(acc)), io)
    else
      var r := Exec(fl, Push(Push(st, items[k]), Quotation(code)), io, fuel);
      if !r.status.Completed? then r
      else if |r.st.data| == 0 then Run(Panicked(UnwrapNone), r.st, r.io)
      else
        var out := MapLoop(fl, code, items, k + 1, acc + [Top(r.st)], Drop(r.st), r.io, fuel);
        assert out.status.Completed? ==> Top(out.st).items[..k] == (acc + [Top(r.st)])[..k];
        out
  }

  /** `process_each`: like `map`, but the values the quotation leaves stay on the stack.
      It is public in the source, so the stack an error leaves is visible: each of the
      two values is popped before its kind is tested. */
  function ProcessEach(fl: FloatOps, st: Stack, io: Console, fuel: nat): (r: Run)
    ensures (|st.data| == 0 || !Top(st).Quotation?) ==> r == Run(Failed("Expected a code block for 'each'"), Drop(st), io)
    ensures |st.data| > 0 && Top(st).Quotation? && (|st.data| == 1 || !Top(Drop(st)).Vec?) ==>
      r == Run(Failed("Expected a list for 'each'"), Drop(Drop(st)), io)
    ensures |st.data| >= 2 && Top(st).Quotation? && Top(Drop(st)).Vec? && |Top(Drop(st)).items| == 0 ==>
      r == Run(Completed, Drop(Drop(st)), io)
    decreases fuel, 4, 0
  {
    if |st.data| == 0 || !Top(st).Quotation? then Run(Failed("Expected a code block for 'each'"), Drop(st), io)
    else
      var code, s1 := Top(st).body, Drop(st);
      if |s1.data| == 0 || !Top(s1).Vec? then Run(Failed("Expected a list for 'each'"), Drop(s1), io)
      else EachLoop(fl, code, Top(s1).items, 0, Drop(s1), io, fuel)
  }

  function EachLoop(fl: FloatOps, code: seq<Value>, items: seq<Value>, k: nat, st: Stack, io: Console, fuel: nat): (r: Run)
    requires k <= |items|
    ensures k == |items| ==> r == Run(Completed, st, io)
    decreases fuel, 3, |items| - k
  {
    if k == |items| then Run(Completed, st, io)
    else
      var r := Exec(fl, Push(Push(st, items[k]), Quotation(code)), io, fuel);
      if !r.status.Completed? then r
      else EachLoop(fl, code, items, k + 1, r.st, r.io, fuel)
  }

  /** `process_foldl`: pops the quotation, then the start value (a panic when there is
      none), then the list; each element is combined with the running value by the
      quotation, whose top result becomes the new running value. */
  function ProcessFoldl(fl: FloatOps, st: Stack, io: Console, fuel: nat): (r: Run)
    ensures (|st.data| == 0 || !Top(st).Quotation?) ==> r == Run(Failed("Expected a code block for 'foldl'"), Drop(st), io)
    ensures |st.data| == 1 && Top(st).Quotation? ==> r.status == Panicked(UnwrapNone)
    ensures |st.data| >= 3 && Top(st).Quotation? && Top(Drop(Drop(st))).Vec? && |Top(Drop(Drop(st))).items| == 0 ==>
      r == Run(Completed, Push(Drop(Drop(Drop(st))), Top(Drop(st))), io)
    ensures r.status.Completed? ==> |r.st.data| > 0
    decreases fuel, 4, 0
  {
    if |st.data| == 0 || !Top(st).Quotation? then Run(Failed("Expected a code block for 'foldl'"), Drop(st), io)
    else
      var code, s1 := Top(st).body, Drop(st);
      if |s1.data| == 0 then Run(Panicked(UnwrapNone), s1, io)
      else
        var start, s2 := Top(s1), Drop(s1);
        if |s2.data| == 0 || !Top(s2).Vec? then Run(Failed("Expected a list for 'map'"), Drop(s2), io)
        else FoldLoop(fl, code, Top(s2).items, 0, start, Drop(s2), io, fuel)
  }

  function FoldLoop(fl: FloatOps, code: seq<Value>, items: seq<Value>, k: nat, acc: Value, st: Stack, io: Console, fuel: nat): (r: Run)
    requires k <= |items|
    ensures k == |items| ==> r == Run(Completed, Push(st, acc), io)
    ensures r.status.Completed? ==> |r.st.data| > 0
    decreases fuel, 3, |items| - k
  {
    if k == |items| then Run(Completed, Push(st, acc), io)
    else
      var r := Exec(fl, Push(Push(Push(st, acc), items[k]), Quotation(code)), io, fuel);
      if !r.status.Completed? then r
      else if |r.st.data| == 0 then Run(Panicked(UnwrapNone), r.st, r.io)
      else FoldLoop(fl, code, items, k + 1, Top(r.st), Drop(r.st), r.io, fuel)
  }
}
