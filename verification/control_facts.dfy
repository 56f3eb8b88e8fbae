/** The control words of the token loop of rustVersion/src/stack.rs seen from a
    line: `if` runs the block its condition chooses and hands on that block's
    outcome and output, `print` writes the top value out, and `read` pushes the
    next input line. */
module ControlFacts {
  import opened Outcomes
  import opened Strings
  import opened Values
  import opened Tokenizer
  import opened Literals
  import opened StackOps
  import opened IfBlocks
  import opened Evaluator
  import opened EvaluatorFacts
  import opened LiteralFacts
  import opened TestCases
  import opened CombinatorTests

  // ---------------------------------------------------------------- if

  /** The token loop at an `if` whose construct closes and whose condition is a
      Bool: the chosen block is parsed on the values under the condition. If it
      completes, the loop resumes one past the closing `}` with those values and
      the block's console; otherwise the loop ends as the block did. */
  lemma IfStep(fl: FloatOps, toks: seq<string>, i: nat, st: Stack, io: Console, fuel: nat, blocks: Blocks)
    requires i < |toks| && toks[i] == "if" && ParseIfBlocks(toks, i + 1) == Ok(blocks)
    requires |st.data| > 0 && Top(st).Bool?
    ensures var r := Parse(fl, Drop(st), io, if Top(st).b then blocks.trueBlock else blocks.falseBlock, fuel);
      Steps(fl, toks, i, st, io, fuel)
        == if r.status.Completed? then Steps(fl, toks, blocks.next + 1, Drop(st), r.io, fuel)
           else Run(r.status, Drop(st), r.io)
  {
    assert Step(fl, toks, i, st, io, fuel) == ProcessIf(fl, toks, i, st, io, fuel);
  }

  /** An `if` whose construct closes the line and whose chosen block completes:
      the line completes with the values under the condition and the block's console. */
  lemma IfAtEnd(fl: FloatOps, toks: seq<string>, i: nat, st: Stack, below: Stack, c: bool, io: Console, fuel: nat,
                blocks: Blocks, r: Run)
    requires i < |toks| && toks[i] == "if" && ParseIfBlocks(toks, i + 1) == Ok(blocks) && |toks| <= blocks.next + 1
    requires |st.data| > 0 && Top(st) == Bool(c) && Drop(st) == below
    requires Parse(fl, below, io, if c then blocks.trueBlock else blocks.falseBlock, fuel) == r
    requires r.status.Completed?
    ensures Steps(fl, toks, i, st, io, fuel) == Run(Completed, below, r.io)
  {
    IfStep(fl, toks, i, st, io, fuel, blocks);
  }

  /** The condition word of the examples. */
  function CondWordOf(c: bool): string {
    if c then "True" else "False"
  }

  lemma CondIsLiteral(fl: FloatOps, c: bool)
    ensures LiteralWord(fl, CondWordOf(c), Bool(c))
  {
    if c { TrueWord(fl); } else { FalseWord(fl); }
  }

  /** A literal word at the front of the tokens pushes its value on a fresh stack. */
  lemma LeadingLiteral(fl: FloatOps, toks: seq<string>, v: Value, io: Console, fuel: nat)
    requires |toks| > 0 && LiteralWord(fl, toks[0], v)
    ensures Steps(fl, toks, 0, Fresh, io, fuel) == Steps(fl, toks, 1, Stack([v], map[]), io, fuel)
  {
    LiteralsPush(fl, [toks[0]], [v]);
    assert toks[0..1] == [toks[0]];
    StepsPushLiterals(fl, toks, 0, 1, [], [v], io, fuel);
    assert [] + [v] == [v];
  }

  /** The last token `print` or `read` ends the loop as that word does. */
  lemma LastWord(fl: FloatOps, toks: seq<string>, n: nat, st: Stack, io: Console, fuel: nat)
    requires n + 1 == |toks| && (toks[n] == "print" || toks[n] == "read")
    ensures Steps(fl, toks, n, st, io, fuel) == if toks[n] == "print" then Print(st, io) else Read(st, io)
  {
    var r := if toks[n] == "print" then Print(st, io) else Read(st, io);
    assert Step(fl, toks, n, st, io, fuel) == Moved(r, n + 1);
    assert r.status.Completed? ==> Steps(fl, toks, n + 1, r.st, r.io, fuel) == r;
  }

  /** The tokens of `C if 1 print }`. */
  function CondPrintTokens(c: bool): seq<string> {
    [CondWordOf(c), "if", "1", "print", "}"]
  }

  function CondPrintLine(c: bool): string {
    CondWordOf(c) + " if 1 print }"
  }

  lemma CondPrintTokenize(c: bool)
    ensures Tokenize(CondPrintLine(c)) == CondPrintTokens(c)
  {
    var ws := CondPrintTokens(c);
    assert IsPlainWord(ws[0]) && IsPlainWord("if") && IsPlainWord("1") && IsPlainWord("print") && IsPlainWord("}");
    assert ws[1..] == ["if", "1", "print", "}"] && ws[1..][1..] == ["1", "print", "}"];
    assert ws[1..][1..][1..] == ["print", "}"] && ws[1..][1..][1..][1..] == ["}"];
    calc {
      Join(" ", ws);
      ws[0] + " " + Join(" ", ["if", "1", "print", "}"]);
      ws[0] + " " + ("if" + " " + Join(" ", ["1", "print", "}"]));
      ws[0] + " " + ("if" + " " + ("1" + " " + Join(" ", ["print", "}"])));
      ws[0] + " " + ("if" + " " + ("1" + " " + ("print" + " " + "}")));
      CondPrintLine(c);
    }
    TokenizeJoin(ws);
  }

  /** The construct of `C if 1 print }` closes at its `}`, with `1 print` as the
      true block and nothing as the false block. */
  lemma CondPrintBlocks(c: bool)
    ensures ParseIfBlocks(CondPrintTokens(c), 2) == Ok(Blocks("1 print", "", 5))
  {
    var toks := CondPrintTokens(c);
    assert IfBlocks.Scan(toks, 2, 1, false, [], []) == IfBlocks.Scan(toks, 3, 1, false, ["1"], []);
    assert IfBlocks.Scan(toks, 3, 1, false, ["1"], []) == IfBlocks.Scan(toks, 4, 1, false, ["1", "print"], []);
    assert Join(" ", ["1", "print"]) == "1 print" by {
      assert ["1", "print"][1..] == ["print"];
    }
    assert IfBlocks.Scan(toks, 4, 1, false, ["1", "print"], []) == Ok(Blocks("1 print", "", 5));
  }

  /** The line `1 print` on an empty stack writes 1 and leaves nothing. */
  lemma OnePrint(fl: FloatOps, io: Console, fuel: nat)
    requires fuel > 0
    ensures Parse(fl, Fresh, io, "1 print", fuel)
         == Run(Completed, Fresh, io.(stdout := io.stdout + [Int(1)]))
  {
    var toks := ["1", "print"];
    assert IsPlainWord("1") && IsPlainWord("print");
    Tokens2("1", "print");
    assert "1" + " " + "print" == "1 print";
    OneSteps(fl, io, fuel - 1);
    ParseRunsSteps(fl, Fresh, io, "1 print", toks, Run(Completed, Fresh, io.(stdout := io.stdout + [Int(1)])), fuel);
  }

  lemma OneSteps(fl: FloatOps, io: Console, fuel: nat)
    ensures Steps(fl, ["1", "print"], 0, Fresh, io, fuel) == Run(Completed, Fresh, io.(stdout := io.stdout + [Int(1)]))
  {
    IntWord(fl, 1);
    assert IntToString(1) == "1";
    LeadingLiteral(fl, ["1", "print"], Int(1), io, fuel);
    LastWord(fl, ["1", "print"], 1, Stack([Int(1)], map[]), io, fuel);
  }

  /** The empty line completes and changes nothing. */
  lemma EmptyLine(fl: FloatOps, st: Stack, io: Console, fuel: nat)
    requires fuel > 0
    ensures Parse(fl, st, io, "", fuel) == Run(Completed, st, io)
  {
    assert Tokenize("") == [];
  }

  /** What `C if 1 print }` writes: 1 when the condition holds, nothing otherwise. */
  function CondOut(c: bool, io: Console): Console {
    if c then io.(stdout := io.stdout + [Int(1)]) else io
  }

  /** The block `C` chooses, run on the empty stack under the condition. */
  lemma ChosenBlockRuns(fl: FloatOps, c: bool, io: Console, fuel: nat)
    requires fuel > 0
    ensures Parse(fl, Fresh, io, if c then "1 print" else "", fuel) == Run(Completed, Fresh, CondOut(c, io))
  {
    if c {
      OnePrint(fl, io, fuel);
    } else {
      EmptyLine(fl, Fresh, io, fuel);
    }
  }

  /** The token loop over `C if 1 print }`. */
  lemma CondPrintSteps(fl: FloatOps, c: bool, io: Console, fuel: nat)
    requires fuel > 0
    ensures Steps(fl, CondPrintTokens(c), 0, Fresh, io, fuel) == Run(Completed, Fresh, CondOut(c, io))
  {
    CondIsLiteral(fl, c);
    CondPrintBlocks(c);
    ChosenBlockRuns(fl, c, io, fuel);
    CondLine(fl, CondPrintTokens(c), c, io, fuel, Blocks("1 print", "", 5), Run(Completed, Fresh, CondOut(c, io)));
  }

  /** A line of a Bool literal and one `if` construct that closes it: the line ends
      as the chosen block does, on the empty stack under the condition. */
  lemma CondLine(fl: FloatOps, toks: seq<string>, c: bool, io: Console, fuel: nat, blocks: Blocks, r: Run)
    requires 1 < |toks| && LiteralWord(fl, toks[0], Bool(c)) && toks[1] == "if"
    requires ParseIfBlocks(toks, 2) == Ok(blocks) && |toks| <= blocks.next + 1
    requires Parse(fl, Fresh, io, if c then blocks.trueBlock else blocks.falseBlock, fuel) == r && r.status.Completed?
    ensures Steps(fl, toks, 0, Fresh, io, fuel) == Run(Completed, Fresh, r.io)
  {
    var st := Stack([Bool(c)], map[]);
    LeadingLiteral(fl, toks, Bool(c), io, fuel);
    assert Drop(st) == Fresh && Top(st) == Bool(c);
    IfAtEnd(fl, toks, 1, st, Fresh, c, io, fuel, blocks, r);
  }

  /** `True if 1 print }` writes 1 and `False if 1 print }` writes nothing: the
      condition picks the block, and the block's output is the line's output. */
  lemma CondPrint(fl: FloatOps, c: bool, io: Console, fuel: nat)
    requires fuel > 1
    ensures Parse(fl, Fresh, io, CondPrintLine(c), fuel)
         == Run(Completed, Fresh, if c then io.(stdout := io.stdout + [Int(1)]) else io)
  {
    CondPrintTokenize(c);
    CondPrintSteps(fl, c, io, fuel - 1);
    ParseRunsSteps(fl, Fresh, io, CondPrintLine(c), CondPrintTokens(c), Run(Completed, Fresh, CondOut(c, io)), fuel);
  }

  /** `True if print }`: the block fails on the empty stack under the condition,
      and that failure ends the line, which keeps no values. */
  lemma IfBlockFailureEndsLine(fl: FloatOps, io: Console, fuel: nat)
    requires fuel > 1
    ensures Parse(fl, Fresh, io, "True if print }", fuel) == Run(Failed(StackEmpty), Fresh, io)
  {
    FailingIfTokens();
    FailingIfSteps(fl, io, fuel - 1);
  }

  lemma FailingIfTokens()
    ensures Tokenize("True if print }") == ["True", "if", "print", "}"]
  {
    var ws := ["True", "if", "print", "}"];
    assert IsPlainWord("True") && IsPlainWord("if") && IsPlainWord("print") && IsPlainWord("}");
    assert ws[1..] == ["if", "print", "}"] && ws[1..][1..] == ["print", "}"] && ws[1..][1..][1..] == ["}"];
    calc {
      Join(" ", ws);
      "True" + " " + Join(" ", ["if", "print", "}"]);
      "True" + " " + ("if" + " " + Join(" ", ["print", "}"]));
      "True" + " " + ("if" + " " + ("print" + " " + "}"));
      "True if print }";
    }
    TokenizeJoin(ws);
  }

  lemma FailingIfSteps(fl: FloatOps, io: Console, fuel: nat)
    requires fuel > 0
    ensures Steps(fl, ["True", "if", "print", "}"], 0, Fresh, io, fuel) == Run(Failed(StackEmpty), Fresh, io)
  {
    var toks := ["True", "if", "print", "}"];
    var st := Stack([Bool(true)], map[]);
    CondIsLiteral(fl, true);
    LeadingLiteral(fl, toks, Bool(true), io, fuel);
    assert IfBlocks.Scan(toks, 2, 1, false, [], []) == IfBlocks.Scan(toks, 3, 1, false, ["print"], []);
    assert ParseIfBlocks(toks, 2) == Ok(Blocks("print", "", 4));
    IfStep(fl, toks, 1, st, io, fuel, Blocks("print", "", 4));
    assert Drop(st) == Fresh;
    PrintOnEmpty(fl, map[], io, fuel);
  }

  /** The tokens of `True if 1 2 }`. */
  lemma PushingIfTokens()
    ensures Tokenize("True if 1 2 }") == ["True", "if", "1", "2", "}"]
  {
    var ws := ["True", "if", "1", "2", "}"];
    assert IsPlainWord("True") && IsPlainWord("if") && IsPlainWord("1") && IsPlainWord("2") && IsPlainWord("}");
    assert ws[1..] == ["if", "1", "2", "}"] && ws[1..][1..] == ["1", "2", "}"];
    assert ws[1..][1..][1..] == ["2", "}"] && ws[1..][1..][1..][1..] == ["}"];
    calc {
      Join(" ", ws);
      "True" + " " + Join(" ", ["if", "1", "2", "}"]);
      "True" + " " + ("if" + " " + Join(" ", ["1", "2", "}"]));
      "True" + " " + ("if" + " " + ("1" + " " + Join(" ", ["2", "}"])));
      "True" + " " + ("if" + " " + ("1" + " " + ("2" + " " + "}")));
      "True if 1 2 }";
    }
    TokenizeJoin(ws);
  }

  /** The construct of `True if 1 2 }` has `1 2` as its true block. */
  lemma PushingIfBlocks()
    ensures ParseIfBlocks(["True", "if", "1", "2", "}"], 2) == Ok(Blocks("1 2", "", 5))
  {
    var toks := ["True", "if", "1", "2", "}"];
    assert IfBlocks.Scan(toks, 2, 1, false, [], []) == IfBlocks.Scan(toks, 3, 1, false, ["1"], []);
    assert IfBlocks.Scan(toks, 3, 1, false, ["1"], []) == IfBlocks.Scan(toks, 4, 1, false, ["1", "2"], []);
    assert Join(" ", ["1", "2"]) == "1 2" by {
      assert ["1", "2"][1..] == ["2"];
    }
    assert IfBlocks.Scan(toks, 4, 1, false, ["1", "2"], []) == Ok(Blocks("1 2", "", 5));
  }

  /** The block `1 2` on its own pushes 1 and 2. */
  lemma PushingBlockRuns(fl: FloatOps, io: Console, fuel: nat)
    requires fuel > 0
    ensures Parse(fl, Fresh, io, "1 2", fuel) == Run(Completed, Stack([Int(1), Int(2)], map[]), io)
  {
    PushingBlockLiterals(fl);
    OnlyLiterals(fl, "1 2", ["1", "2"], [Int(1), Int(2)], io, fuel);
  }

  lemma PushingBlockLiterals(fl: FloatOps)
    ensures Tokenize("1 2") == ["1", "2"]
    ensures PushesAll(fl, ["1", "2"], [Int(1), Int(2)])
  {
    IntWord(fl, 1);
    IntWord(fl, 2);
    assert IntToString(1) == "1" && IntToString(2) == "2";
    Tokens2("1", "2");
    assert "1" + " " + "2" == "1 2";
  }

  /** `True if 1 2 }`: the chosen block pushes two values, and the `if` throws
      them away with the snapshot it restores, so the line leaves nothing. */
  lemma IfDropsBlockPushes(fl: FloatOps, io: Console, fuel: nat)
    requires fuel > 1
    ensures Parse(fl, Fresh, io, "True if 1 2 }", fuel) == Run(Completed, Fresh, io)
  {
    var toks := ["True", "if", "1", "2", "}"];
    PushingIfTokens();
    PushingIfBlocks();
    CondIsLiteral(fl, true);
    assert toks[0] == CondWordOf(true);
    PushingBlockRuns(fl, io, fuel - 1);
    CondLine(fl, toks, true, io, fuel - 1, Blocks("1 2", "", 5), Run(Completed, Stack([Int(1), Int(2)], map[]), io));
    ParseRunsSteps(fl, Fresh, io, "True if 1 2 }", toks, Run(Completed, Fresh, io), fuel);
  }

  // ---------------------------------------------------------------- print and read

  /** The line `print`: the top value is appended to the output and removed. */
  lemma PrintLine(fl: FloatOps, d: seq<Value>, v: Value, s: map<string, Value>, io: Console, fuel: nat)
    requires fuel > 0
    ensures Parse(fl, Stack(d + [v], s), io, "print", fuel)
         == Run(Completed, Stack(d, s), io.(stdout := io.stdout + [v]))
  {
    var st := Stack(d + [v], map[]);
    WordAlone(fl, "print", st, io, fuel - 1);
    assert Drop(st) == Stack(d, map[]);
  }

  /** The line `print` on no values fails with the empty-stack error. */
  lemma PrintOnEmpty(fl: FloatOps, s: map<string, Value>, io: Console, fuel: nat)
    requires fuel > 0
    ensures Parse(fl, Stack([], s), io, "print", fuel) == Run(Failed(StackEmpty), Stack([], s), io)
  {
    WordAlone(fl, "print", Stack([], map[]), io, fuel - 1);
  }

  /** The line `read`: the next input line, without trailing whitespace, is pushed
      and consumed; at the end of the input the empty text is pushed. */
  lemma ReadLine(fl: FloatOps, d: seq<Value>, s: map<string, Value>, io: Console, fuel: nat)
    requires fuel > 0
    ensures Parse(fl, Stack(d, s), io, "read", fuel)
         == if |io.stdin| > 0 then Run(Completed, Stack(d + [Str(TrimEnd(io.stdin[0]))], s), io.(stdin := io.stdin[1..]))
            else Run(Completed, Stack(d + [Str("")], s), io)
  {
    WordAlone(fl, "read", Stack(d, map[]), io, fuel - 1);
  }

  /** A line of the single control word `print` or `read` runs that word once. */
  lemma WordAlone(fl: FloatOps, w: string, st: Stack, io: Console, fuel: nat)
    requires w == "print" || w == "read"
    ensures Tokenize(w) == [w]
    ensures Steps(fl, [w], 0, st, io, fuel) == if w == "print" then Print(st, io) else Read(st, io)
  {
    assert IsPlainWord(w);
    TokenizeWord(w);
    LastWord(fl, [w], 0, st, io, fuel);
  }
}
