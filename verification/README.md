# A postfix stack interpreter, modelled in Dafny

The modelled system is a small postfix language interpreter written in Rust. A line
of program text is cut into tokens. The tokens are run left to right against a stack
of values (`StackValue`: i32, f64, bool, text, list, symbol, quotation) and a table
of bindings. Tokens are literals, stack words (`dup`, `swap`, `pop`), arithmetic,
comparison and logic operators, list words (`head`, `tail`, `empty`, `length`,
`cons`, `append`), text conversions (`parseInteger`, `parseFloat`, `words`),
assignment (`:=`), input and output (`read`, `print`) and control words. The control
words are `if`, `exec`, `map`, `each` and `foldl`. Control words run quotations
(`{...}`) by re-entering the line parser, with no bound on the depth.

The project models `rustVersion/src/stackvalues.rs` and `rustVersion/src/stack.rs`
as pure functions:

- `Outcomes` holds the result type. `Ok`, `Err` and `Panic` stand for Rust's
  `Result` and for a panic such as an `unwrap` on `None`, a slice out of range or an
  i32 overflow.
- `I32` models i32 range checks, division that truncates toward zero, and `as i32`
  wrap-around.
- `Strings` models the text routines the source relies on: trimming, splitting,
  `split_whitespace`, `eq_ignore_ascii_case`, UTF-8 byte length, i32 parsing and
  rendering, and the syntax `f64::from_str` accepts.
- `Values` models the value type: `same_type`, the derived equality, `head`,
  `tail`, `is_empty`, `length`, and `Display` for Ints, Bools, texts, symbols and
  quotations of those.
- `Literals` models `parse_value`, `parse_quotation` and `parse_single_value`.
- `LiteralFacts` proves properties of the literal parser.
- `Tokenizer` models `tokenize`, with proofs that tokens are maximal runs and that
  quoted text stays in one token.
- `StackOps` models the stack operations and the operator closures of `parse`.
- `IfBlocks` models `parse_if_blocks`.
- `Evaluator` models `parse` and everything it re-enters: `exec`, `process_if`,
  `process_map`, `process_each`, `process_foldl` and `push_next`. They form one
  mutually recursive family of functions with a `fuel` budget. Running out of fuel
  (`OutOfFuel`) stands for the source's unbounded recursion.
- `EvaluatorFacts` proves general properties of the token loop.
- `ControlFacts` states `if`, `print` and `read` as seen from a whole line: which
  block an `if` runs and how that block's outcome and output carry over, what
  `print` writes and removes, and what `read` pushes.
- `TestCases` and `CombinatorTests` restate every assertion of
  `rustVersion/src/test.rs` as a lemma about `Parse` and prove it. The examples
  include `map`, `each` and `foldl`, which rest on all-inputs lemmas about those
  loops. The `map` and `foldl` tests go through `Parse` itself; the `each` test
  calls `process_each` directly, as the Rust test does, and a further lemma runs
  the same `each` through `Parse`.

Floating-point arithmetic is not modelled numerically. An `f64` is kept as its
64-bit pattern. Its addition, subtraction, multiplication, division, comparisons,
equality, conversion from i32 and the value of a decimal literal come from a
`FloatOps` parameter. Negation is a sign-bit flip. The test `== 0.0` holds for both
zeros.

Behaviour that follows the code:

- A failing line leaves the caller's stack empty. `parse` swaps the caller's values
  into a temporary stack and swaps them back only on success
  (rustVersion/src/stack.rs:541 and 737). The comment at line 540 suggests that an
  error leaves the stack as it was. The model follows the code.
- Bindings made during a line are dropped when the line ends. Every `parse` starts
  from a fresh table of bindings, including the `parse` of a symbol inside an
  executed quotation.
- After an `if` construct, the token after the closing `}` is skipped.
  `process_if` sets the index past the `}` and the loop then adds one more.
- A `{` does not count in `parse_if_blocks`.
- The values an `if` block leaves behind are discarded.
- Integer `+`, `-`, `*` and `not` panic on i32 overflow, as in a debug build.
  `MIN div -1` panics in every build.
- `len() == 1` in `parse_single_value` counts UTF-8 bytes, so a lone non-ASCII
  character is not a symbol.

## Model

| member | source | states |
|---|---|---|
| I32.Checked | rustVersion/src/stack.rs:588-602 | an i32 result is accepted exactly when the true result lies in the i32 range, and is then that result; otherwise the operation panics with the given overflow message |
| I32.TruncDivRoundsTowardZero | rustVersion/src/stack.rs:621-630 | i32 `/` truncates: the remainder is smaller in magnitude than the divisor and is zero or has the dividend's sign |
| I32.TruncDivOverflow | rustVersion/src/stack.rs:626 | the quotient of two i32 values leaves the i32 range exactly for `MIN / -1` |
| I32.TruncDiv | rustVersion/src/stack.rs:621-630 | the quotient is no larger in magnitude than the dividend, and a non-zero quotient is positive exactly when the operands have the same sign |
| I32.WrapToI32 | rustVersion/src/stackvalues.rs:73 | `as i32` keeps a length up to i32::MAX and otherwise gives the value congruent to it modulo 2^32 |
| Strings.TrimStart | rustVersion/src/stack.rs:192-193 | the result is a suffix of the input that does not start with whitespace, and everything removed is whitespace |
| Strings.TrimEnd | rustVersion/src/stack.rs:117 | the result is a prefix of the input that does not end with whitespace, and everything removed is whitespace |
| Strings.Trim | rustVersion/src/stack.rs:192-193 | the result is the input without its leading and trailing whitespace: a slice of the input that neither starts nor ends with whitespace, everything before and after it being whitespace |
| Strings.TrimStartMatches | rustVersion/src/stack.rs:239 | the result is a suffix of the input that no longer starts with the character, and every character removed is that character |
| Strings.TrimEndMatches | rustVersion/src/stack.rs:239 | the result is a prefix of the input that no longer ends with the character, and every character removed is that character |
| Strings.IndexOf | rustVersion/src/stack.rs:210 | None exactly when the character is absent; otherwise the index of its first occurrence |
| Strings.SplitOn | rustVersion/src/stack.rs:221 | `split` gives at least one piece, no piece holds the separator, and joining the pieces with it gives the input back |
| Strings.SplitJoinRoundTrip | rustVersion/src/stack.rs:221 | splitting separator-free pieces joined by the separator gives the pieces back |
| Strings.IndexOfDots | rustVersion/src/stack.rs:185 | `contains("..")`: None exactly when there is no `..`; otherwise the leftmost one |
| Strings.SplitDots | rustVersion/src/stack.rs:187 | `split("..")` gives at least one piece; no piece contains `..`, no piece but the last ends with `.`, so each cut is at the leftmost `..`; joining the pieces with `..` gives the input back |
| Strings.Replace | rustVersion/src/stack.rs:210 | `replace(',', ".")`: same length, every comma becomes a point and every other character stays |
| Strings.SplitWhitespaceJoin | rustVersion/src/stack.rs:300 | `split_whitespace` of words joined by single spaces gives the words back |
| Strings.SplitWhitespaceGaps | rustVersion/src/stack.rs:300 | `split_whitespace` cuts the input into its words and the whitespace gaps around them: the input is gap, word, gap, ..., word, gap, every gap whitespace only and every inner gap non-empty, so the words are the maximal non-whitespace runs in order |
| Strings.InterleaveSplits | rustVersion/src/stack.rs:300 | conversely, words interleaved with such gaps split back into exactly those words |
| Strings.SplitWhitespace | rustVersion/src/stack.rs:300 | every piece is a non-empty word without whitespace |
| Strings.NatToDecimal | rustVersion/src/stack.rs:164 | the decimal rendering is a non-empty digit string without leading zeros whose value is the number |
| Strings.IntToStringRoundTrip | rustVersion/src/stack.rs:207 | `parse::<i32>` of an i32's decimal rendering gives the i32 back |
| Strings.ParseI32Shape | rustVersion/src/stack.rs:207 | conversely, an optional sign followed by at most nine digits is accepted by `parse::<i32>`, as the signed decimal value of the digits |
| Strings.ParseI32 | rustVersion/src/stack.rs:164 | a text `parse::<i32>` accepts is an optional sign followed by at least one digit |
| Strings.ByteLen | rustVersion/src/stack.rs:174 | the UTF-8 length is at least the character count |
| Strings.ByteLenOne | rustVersion/src/stack.rs:174 | `len() == 1` holds exactly for a single ASCII character |
| Strings.IsFloatLiteral | rustVersion/src/stack.rs:210 | a text `f64::from_str` accepts is non-empty and made only of digits, signs, points and ASCII letters (the exponent mark and the letters of `inf`, `infinity` and `nan`); a text holding a bracket, brace, quote or comma is never a float |
| Values.SameType | rustVersion/src/stackvalues.rs:19-30 | two values have the same type exactly when they use the same constructor |
| Values.SameTypeIsEquivalence | rustVersion/src/stackvalues.rs:19-30 | `same_type` is reflexive, symmetric and transitive |
| Values.ValueEqIsEquality | rustVersion/src/stackvalues.rs:4 | when f64 equality is equality of bit patterns, the derived equality is structural equality of values |
| Values.ValueEqSameType | rustVersion/src/stackvalues.rs:4 | equal values have the same type |
| Values.ValueEq | rustVersion/src/stackvalues.rs:4 | the derived equality only holds between values built by the same constructor |
| Values.Head | rustVersion/src/stackvalues.rs:33-45 | a non-empty list gives its first element; an empty list and a non-list give their two distinct errors |
| Values.Tail | rustVersion/src/stackvalues.rs:48-60 | a non-empty list gives the list of its remaining elements in order; the two error cases as for `head` |
| Values.HeadTailReassemble | rustVersion/src/stackvalues.rs:33-60 | the head followed by the tail is the original list |
| Values.IsEmpty | rustVersion/src/stackvalues.rs:63-68 | a list gives whether it has no elements; anything else is the not-a-list error |
| Values.Length | rustVersion/src/stackvalues.rs:71-76 | a list gives its element count as an i32, wrapped modulo 2^32; anything else is the not-a-list error |
| Values.EmptyIffLengthZero | rustVersion/src/stackvalues.rs:63-76 | `empty` is true exactly when `length` is 0 |
| Values.Display | rustVersion/src/stackvalues.rs:80-99 | an Int displays as a decimal text that `parse::<i32>` reads back as that Int; a Bool as exactly `true` or `false`, matching its value; a text and a symbol as their own characters; a quotation as text between braces |
| Values.DisplayQuotation | rustVersion/src/stackvalues.rs:90-96 | a quotation of any renderable elements displays as each element's own rendering, joined by single spaces, between `{` and `}` |
| Values.DisplayQuotationSplits | rustVersion/src/stackvalues.rs:90-96 | when no element's rendering holds a space, the text between the braces splits at its spaces back into one rendering per element, in order |
| Literals.RangeList | rustVersion/src/stack.rs:202 | `start..=end` has end - start + 1 elements, the k-th being start + k, and none when start > end |
| Literals.ParseRange | rustVersion/src/stack.rs:185-206 | a range literal that parses is a list forming an ascending run of consecutive Ints |
| LiteralFacts.ParseListItems | rustVersion/src/stack.rs:217-236 | a bracket literal that parses is the list of its trimmed comma pieces, each parsed by `parse_value` |
| LiteralFacts.ParseListAccepted | rustVersion/src/stack.rs:226-235 | when every trimmed piece parses, the literal is a list exactly when neighbouring values have the same type, and otherwise the mixed-types error |
| LiteralFacts.ParseListFirstFailure | rustVersion/src/stack.rs:219-235 | when a piece fails and all pieces before it parse, the literal fails with that piece's error or panic |
| LiteralFacts.ParseAllOkIff | rustVersion/src/stack.rs:219-224 | collecting the pieces' results succeeds exactly when every piece (trimmed where the source trims) parses |
| LiteralFacts.ParseAllFailsAtFirst | rustVersion/src/stack.rs:219-224 | when a piece fails and all pieces before it parse, the collection is that piece's failure |
| Literals.ParseAll | rustVersion/src/stack.rs:219-224 | on success the k-th value is what `parse_value` gives the k-th piece, trimmed where the source trims |
| LiteralFacts.ParseQuotationElements | rustVersion/src/stack.rs:252-265 | a quotation parses exactly when every piece, untrimmed, parses; it then holds one element per piece, each the piece's value; otherwise it is the failure of the first piece that fails |
| Literals.ParseSingleValue | rustVersion/src/stack.rs:163-180 | panics exactly on a lone `'` or `"` (a slice out of range); an error only for text that is not an i32 and not one byte long; an Int, Bool, text or symbol result is what its branch reads from the input |
| LiteralFacts.ParseValueKinds | rustVersion/src/stack.rs:183-249 | every value `parse_value` returns comes from the branch of its kind: an Int from `parse::<i32>`, a Float from accepted float syntax, a Bool from `true`/`false` in any case, a text or symbol from its quotes, a list from brackets, a quotation from braces |
| LiteralFacts.LoneQuotePanics | rustVersion/src/stack.rs:170-173 | a lone `"` or `'` panics with a slice out of range, since it both starts and ends with the quote (for `"` the same slice is taken earlier, at line 244) |
| LiteralFacts.IntegersWin | rustVersion/src/stack.rs:207-208 | any text `parse::<i32>` accepts is an Int literal, even though `f64` would accept it too |
| LiteralFacts.BooleansInAnyCase | rustVersion/src/stack.rs:212-215 | `true` and `false` in any ASCII case are Bool literals |
| LiteralFacts.RangeOfInts | rustVersion/src/stack.rs:185-206 | a range literal whose two trimmed ends parse to Ints is the inclusive run between them |
| LiteralFacts.RangeErrors | rustVersion/src/stack.rs:188-204 | a range literal fails as an invalid range when it does not have exactly two parts, or when its ends parse but are not both Ints |
| LiteralFacts.RangesComeFirst | rustVersion/src/stack.rs:185 | a bracket literal containing `..` is never read as a plain list |
| LiteralFacts.BracketListsAreHomogeneous | rustVersion/src/stack.rs:217-236 | every list read from a bracket literal has all its elements of one type |
| LiteralFacts.BracketsAreLists | rustVersion/src/stack.rs:217 | a bracket literal without `..` is parsed by the list branch |
| LiteralFacts.BracesAreQuotations | rustVersion/src/stack.rs:238-242 | a brace literal is parsed by the quotation branch on its comma pieces |
| LiteralFacts.EmptyBracketsFail | rustVersion/src/stack.rs:217-242 | `[]` and `{}` fail as unrecognizable, because their single empty piece is not a value |
| LiteralFacts.EmptyIsUnrecognizable | rustVersion/src/stack.rs:176-178 | the empty text is not a value |
| LiteralFacts.SinglePieceQuotation | rustVersion/src/stack.rs:252-265 | a one-piece quotation succeeds or fails exactly as its piece does |
| LiteralFacts.BareKeywordInQuotation | rustVersion/src/stack.rs:238-242 | `{exec}` is not a quotation, because `exec` is not a value |
| LiteralFacts.QuotedKeywordInQuotation | rustVersion/src/stack.rs:170-171 | `{'exec'}` is a quotation of the symbol `exec` |
| LiteralFacts.QuotedNameIsSymbol | rustVersion/src/stack.rs:170-171 | a name between single quotes is the symbol of that name |
| LiteralFacts.StarIsSymbol | rustVersion/src/stack.rs:174-175 | a one-character operator such as `*` is a symbol |
| LiteralFacts.OperatorInQuotation | rustVersion/src/stack.rs:238-242 | `{*}` is the quotation of the symbol `*` |
| LiteralFacts.AscendingRangeExample | rustVersion/src/stack.rs:185-206 | `[1..3]` is the list 1, 2, 3 |
| LiteralFacts.EmptyRangeExample | rustVersion/src/stack.rs:185-206 | `[3..1]` is the empty list |
| LiteralFacts.QuotationLiteralOfInts | rustVersion/src/stack.rs:238-242 | a brace literal of comma-separated i32 renderings is the quotation of those Ints |
| LiteralFacts.DisplayQuotationOfInts | rustVersion/src/stackvalues.rs:90-96 | a quotation of Ints displays as its elements' renderings joined by spaces, inside braces |
| LiteralFacts.QuotationRoundTrip | rustVersion/src/stackvalues.rs:90-96 | parsing the comma form of a quotation of Ints gives it back, and its display is the space form |
| LiteralFacts.ParseAllInts | rustVersion/src/stack.rs:219-224 | i32 renderings parse piece by piece to their Ints |
| LiteralFacts.ListLiteralOfInts | rustVersion/src/stack.rs:217-236 | a bracket literal of comma-separated i32 renderings is the list of those Ints |
| Tokenizer.Scan | rustVersion/src/stack.rs:340-369 | the scan only appends token spans, in increasing and non-overlapping order within the input |
| Tokenizer.Tokenize | rustVersion/src/stack.rs:333-372 | the tokens are the non-empty slices of the input at the scanned spans, in order; which slices those are is stated by Tokenizer.TokensAreMaximalRuns, Tokenizer.QuotedTokens and Tokenizer.TokenizeJoin |
| Tokenizer.TokensAreMaximalRuns | rustVersion/src/stack.rs:333-372 | without double quotes, the tokens are exactly the maximal runs of non-separator characters, and every such character lies in a token |
| Tokenizer.QuotedTokens | rustVersion/src/stack.rs:343-350 | every closing double quote ends a token, and an unclosed quote extends the last token to the end of the input |
| Tokenizer.TokenizeJoin | rustVersion/src/stack.rs:333-372 | plain words joined by single spaces tokenize back to the words |
| StackOps.Dup | rustVersion/src/stack.rs:83-90 | fails exactly on an empty stack; otherwise one more value, a copy of the top, with everything below and the bindings unchanged |
| StackOps.DupThenPop | rustVersion/src/stack.rs:78-90 | `dup` then `pop` gives back the original stack |
| StackOps.Swap | rustVersion/src/stack.rs:93-100 | fails exactly below two values; otherwise the top two values change places, the rest stays and the contents are a permutation |
| StackOps.SwapIsInvolution | rustVersion/src/stack.rs:93-100 | swapping twice changes nothing |
| StackOps.Assignment | rustVersion/src/stack.rs:43-59 | fails below two values or when the value under the top is not a symbol; otherwise both are popped and the symbol is bound to the top value |
| StackOps.AssignmentBinds | rustVersion/src/stack.rs:43-59 | after `:=` the symbol is bound to the former top, and every other binding is kept |
| StackOps.Assign | rustVersion/src/stack.rs:62-65 | the name is bound to the value, other bindings are kept and the values are untouched |
| StackOps.Cons | rustVersion/src/stack.rs:122-140 | fails below two values or when the top is not a list; otherwise the item under the list is put at the list's front |
| StackOps.ConsThenHeadTail | rustVersion/src/stack.rs:122-140 | the head of the consed list is the item and its tail is the old list |
| StackOps.Append | rustVersion/src/stack.rs:143-160 | fails below two values or unless both top values are lists; otherwise one list replaces both |
| StackOps.AppendOrder | rustVersion/src/stack.rs:148-155 | the appended list holds the former top list's elements first, then those of the list under it |
| StackOps.ParseInteger | rustVersion/src/stack.rs:268-280 | a Text on top is replaced by the i32 it spells; a non-Text top or an empty stack, and a Text that is not an i32, are the two errors |
| StackOps.ParseIntegerRoundTrip | rustVersion/src/stack.rs:268-280 | `parseInteger` on an i32's rendering gives the i32 back |
| StackOps.ParseFloat | rustVersion/src/stack.rs:283-295 | a Text on top that `f64::from_str` accepts is replaced by its f64; otherwise one of the two errors |
| StackOps.FloatAcceptsIntegers | rustVersion/src/stack.rs:268-295 | every text `parseInteger` accepts, `parseFloat` accepts too |
| StackOps.Words | rustVersion/src/stack.rs:298-306 | a Text on top is replaced by the list of its `split_whitespace` pieces as Texts, each non-empty and without whitespace |
| StackOps.BinaryOp | rustVersion/src/stack.rs:21-40 | fails below two values; otherwise the operator gets the value under the top as left operand and the top as right, and its result replaces both |
| StackOps.Add | rustVersion/src/stack.rs:588-592 | i32 sum, panicking outside the i32 range; f64 sum; any other pair is the mismatch error |
| StackOps.Sub | rustVersion/src/stack.rs:593-597 | i32 difference, panicking outside the i32 range; f64 difference; any other pair is the mismatch error |
| StackOps.Mul | rustVersion/src/stack.rs:598-602 | i32 product, panicking outside the i32 range; f64 product; any other pair is the mismatch error |
| StackOps.AddSubInverse | rustVersion/src/stack.rs:588-597 | on i32 values, subtracting what was added, and adding what was subtracted, gives the first operand back |
| StackOps.FloatDiv | rustVersion/src/stack.rs:603-620 | always an f64: two i32 values are converted before dividing; a zero divisor is an error; any other pair is the mismatch error |
| StackOps.IntDiv | rustVersion/src/stack.rs:621-630 | i32 quotient rounding toward zero; a zero divisor is an error, `MIN div -1` panics, and any other pair is the mismatch error |
| StackOps.Less | rustVersion/src/stack.rs:631-635 | a Bool for two i32 or two f64 values; anything else is the mismatch error |
| StackOps.Greater | rustVersion/src/stack.rs:636-640 | a Bool for two i32 or two f64 values; anything else is the mismatch error |
| StackOps.LessIsMirroredGreater | rustVersion/src/stack.rs:631-640 | `a < b` agrees with `b > a`, in outcome and in value |
| StackOps.And | rustVersion/src/stack.rs:641-644 | the conjunction of two Bools; anything else is the mismatch error |
| StackOps.Or | rustVersion/src/stack.rs:645-648 | the disjunction of two Bools; anything else is the mismatch error |
| StackOps.Negate | rustVersion/src/stack.rs:656-668 | negates an Int (panicking on MIN), a Float or a Bool, keeping its type; anything else is an error |
| StackOps.NegateTwice | rustVersion/src/stack.rs:656-668 | negating twice gives the value back |
| StackOps.Equal | rustVersion/src/stack.rs:650-655 | fails exactly below two values; otherwise both are replaced by whether they are equal |
| StackOps.DupThenEqual | rustVersion/src/stack.rs:650-655 | `dup ==` pushes true when f64 equality is reflexive |
| StackOps.ApplyTop | rustVersion/src/stack.rs:669-700 | on an empty stack the empty-stack error; otherwise the top is replaced by the accessor's result, or the accessor's error is the outcome |
| IfBlocks.ParseIfBlocks | rustVersion/src/stack.rs:375-421 | on success the construct ends just past a `}` beyond the start; the only error is the missing-close message |
| IfBlocks.ClosesAtFirstZero | rustVersion/src/stack.rs:383-416 | the construct ends at the first `}` that brings the if-counter to zero, and it is an error exactly when no such `}` exists |
| IfBlocks.TrueBlockOnly | rustVersion/src/stack.rs:383-420 | when no `}` returns the counter to one, all tokens before the closing `}` form the true block and the false block is empty |
| IfBlocks.BlocksCollected | rustVersion/src/stack.rs:386-404 | when the first `}` that brings the counter back to 1 is at k, the true block is the tokens before k, and the false block is the tokens from k + 1 to the closing `}` except the later `}`s that bring the counter back to 1 |
| IfBlocks.BracedBlocksExample | rustVersion/src/stack.rs:391-399 | in `if { a } { b }` the first `}` already closes the construct |
| IfBlocks.NestedIfExample | rustVersion/src/stack.rs:386-404 | in `if if x } y }` the true block is `if x` and the false block is `y` |
| IfBlocks.UnclosedExample | rustVersion/src/stack.rs:414-416 | an `if` without a closing `}` is the missing-close error |
| Evaluator.Primitive | rustVersion/src/stack.rs:547-731 | only `:=` and a token holding a space can change the bindings; a spaced non-keyword token that is not `name := literal` is the invalid-assignment error |
| Evaluator.Literal | rustVersion/src/stack.rs:703-731 | `name := literal` binds the name to the parsed literal; a bound name pushes its value; anything else pushes the parsed literal or fails as the literal does |
| Evaluator.AssignToken | rustVersion/src/stack.rs:705-718 | a spaced token that is not three parts with `:=` in the middle is the invalid-assignment error; otherwise the first part is bound to the parsed third part, every other binding and all values are kept, and a literal that does not parse is the failure |
| Evaluator.PushNext | rustVersion/src/stack.rs:522-532 | never an ordinary error: the next token's bound value or parsed literal is pushed; a missing token or a failed parse is a panic |
| Evaluator.Read | rustVersion/src/stack.rs:113-119 | pushes the next input line without trailing whitespace and consumes it; at end of input pushes the empty text |
| Evaluator.Print | rustVersion/src/stack.rs:103-110 | fails exactly on an empty stack; otherwise pops the top and writes it to the output |
| Evaluator.Parse | rustVersion/src/stack.rs:535-739 | the caller's bindings never change, and a line that does not complete leaves no values |
| Evaluator.Step | rustVersion/src/stack.rs:545-735 | a completed token always moves the loop forward |
| Evaluator.ProcessIf | rustVersion/src/stack.rs:501-520 | with a closed construct and a Bool condition, the block the condition chooses is parsed on the values under the condition; the `if` ends with that block's status and output, the values under the condition, and the index two past the closing `}`, skipping one token; an unclosed construct is the missing-close error with the stack untouched; a missing or non-Bool condition is the expected-bool error with the condition popped |
| Evaluator.Exec | rustVersion/src/stack.rs:309-330 | without a quotation on top, the expected-quotation error, with the top popped |
| Evaluator.ExecBody | rustVersion/src/stack.rs:311-325 | running a quotation's elements never changes the bindings |
| Evaluator.ProcessMap | rustVersion/src/stack.rs:423-447 | without a quotation on top, its error with the top popped; a completed `map` needed a list under the quotation and leaves a list of the same length |
| Evaluator.MapLoop | rustVersion/src/stack.rs:435-445 | the collected results come first in the list left behind, which has one element per input element |
| Evaluator.ProcessEach | rustVersion/src/stack.rs:449-468 | without a quotation on top, its error with the top popped; without a list under it, the missing-list error with both popped; an empty list just removes the list and the quotation |
| Evaluator.EachLoop | rustVersion/src/stack.rs:462-467 | after the last element the stack is left as it is |
| Evaluator.ProcessFoldl | rustVersion/src/stack.rs:470-498 | without a quotation on top, its error with the top popped; a panic when no start value exists; an empty list leaves the start value; a completed `foldl` leaves a value |
| Evaluator.FoldLoop | rustVersion/src/stack.rs:488-497 | after the last element the running value is pushed |
| EvaluatorFacts.RunPrimitives | rustVersion/src/stack.rs:545-735 | a run of primitives without `:=` or spaced tokens keeps the bindings |
| EvaluatorFacts.StepsOfPrimitives | rustVersion/src/stack.rs:545-735 | on tokens without control words, the token loop is the left fold of the primitives, stopping at the first failure |
| EvaluatorFacts.PlainOutcome | rustVersion/src/stack.rs:535-739 | what the caller sees: the values on success, none on failure, with the status following the result |
| EvaluatorFacts.ParsePlainLine | rustVersion/src/stack.rs:535-739 | parsing a line without control words equals folding its primitives over the caller's values with no bindings |
| EvaluatorFacts.ParseIgnoresCallerBindings | rustVersion/src/stack.rs:538-541 | two callers with the same values see the same outcome, whatever their bindings |
| EvaluatorFacts.ExecIgnoresBindings | rustVersion/src/stack.rs:309-330 | executing a quotation does not depend on the bindings of the executing stack |
| EvaluatorFacts.ExecPushesPlain | rustVersion/src/stack.rs:309-326 | `exec` of a quotation of Ints, Floats, Bools, texts and lists pushes its elements in order, first element deepest |
| EvaluatorFacts.ExecBodyPushesPlain | rustVersion/src/stack.rs:311-325 | from any position, elements that are neither symbols nor quotations are pushed in order |
| EvaluatorFacts.ExecBodyShift | rustVersion/src/stack.rs:311-325 | the elements behind a prefix run as they would on their own |
| EvaluatorFacts.ExecBodyConcat | rustVersion/src/stack.rs:311-325 | running two element sequences in a row is running the first, then, if it completes, the second on its result; a failure in the first stops the loop |
| EvaluatorFacts.ExecBodyNestedQuotation | rustVersion/src/stack.rs:323 | a nested quotation stops `exec` with the invalid-element error once the elements before it have run, and nothing after it runs |
| EvaluatorFacts.ParseWord | rustVersion/src/stack.rs:535-739 | a one-primitive line gives the primitive's values back to the caller, bindings kept |
| EvaluatorFacts.ParseDup | rustVersion/src/stack.rs:548 | the line `dup` pushes a copy of the top |
| EvaluatorFacts.ForeverDiverges | rustVersion/src/stack.rs:309-330 | `{dup exec}` executed on a copy of itself never finishes, for any fuel |
| EvaluatorFacts.ParseExecRunsOut | rustVersion/src/stack.rs:563 | the line `exec` runs `exec` on the same values with one unit of fuel less |
| EvaluatorFacts.PopOnEmpty | rustVersion/src/stack.rs:555-557 | `pop` on an empty stack is not an error: the line completes and the stack stays empty |
| EvaluatorFacts.ParseOneWord | rustVersion/src/stack.rs:535-739 | a line of one primitive word ends as the word does on the caller's values, with no values left on failure |
| EvaluatorFacts.AndLine | rustVersion/src/stack.rs:641-644 | the line `&&` replaces two Bools by their conjunction; with any other operands it fails with the logical-AND mismatch error and leaves no values |
| EvaluatorFacts.OrLine | rustVersion/src/stack.rs:645-648 | the line `\|\|` replaces two Bools by their disjunction; with any other operands it fails with the logical-OR mismatch error and leaves no values |
| EvaluatorFacts.AddLine | rustVersion/src/stack.rs:588-592 | the line `+` on two Ints replaces them by their sum when it fits in an i32, and otherwise panics with the add-overflow message, leaving no values |
| TestCases.PushAll | rustVersion/src/stack.rs:720-729 | literal tokens push their values in order, before whatever follows |
| TestCases.LiteralsThen | rustVersion/src/stack.rs:535-739 | a line of literals followed by one primitive applies that primitive to the values pushed |
| TestCases.OnlyLiterals | rustVersion/src/stack.rs:535-739 | a line of literals leaves exactly their values |
| TestCases.ParseRunsSteps | rustVersion/src/stack.rs:535-739 | a line whose tokens complete hands their final values back to the caller |
| TestCases.PushWord | rustVersion/src/stack.rs:577-586 | `push` of a literal pushes its value |
| TestCases.PushSteps | rustVersion/src/stack.rs:577-586 | `push` reads the next token as a literal and continues after it |
| TestCases.OpAlone | rustVersion/src/stack.rs:535-739 | a line holding one primitive applies it to the caller's values |
| TestCases.LiteralThree | rustVersion/src/test.rs:30 | `3` leaves the Int 3 |
| TestCases.LiteralOnePointZero | rustVersion/src/test.rs:31 | `1.0` leaves the f64 of `1.0` |
| TestCases.LiteralFalse | rustVersion/src/test.rs:32 | `False` leaves false |
| TestCases.LiteralTrue | rustVersion/src/test.rs:33 | `True` leaves true |
| TestCases.OnePlusOne | rustVersion/src/test.rs:40 | `1 1 +` leaves 2 |
| TestCases.TenTimesTwenty | rustVersion/src/test.rs:41 | `10 20 *` leaves 200 |
| TestCases.TwentyDivTwo | rustVersion/src/test.rs:42 | `20 2 div` leaves 10 |
| TestCases.TwentyOverTwo | rustVersion/src/test.rs:43 | `20 2 /` leaves the f64 quotient of 20.0 and 2.0 |
| TestCases.TwentyMinusFour | rustVersion/src/test.rs:44 | `20 4 -` leaves 16 |
| TestCases.OneEqualsOne | rustVersion/src/test.rs:51 | `1 1 ==` leaves true |
| TestCases.OneEqualsTwo | rustVersion/src/test.rs:52 | `1 2 ==` leaves false |
| TestCases.OneLessThanTwo | rustVersion/src/test.rs:53 | `1 2 <` leaves true |
| TestCases.OneGreaterThanTwo | rustVersion/src/test.rs:54 | `1 2 >` leaves false |
| TestCases.TrueEqualsTrue | rustVersion/src/test.rs:55 | `True True ==` leaves true |
| TestCases.TrueAndTrue | rustVersion/src/test.rs:62 | `True True &&` leaves true |
| TestCases.TrueAndFalse | rustVersion/src/test.rs:63 | `True False &&` leaves false |
| TestCases.TrueOrFalse | rustVersion/src/test.rs:64 | the logical OR of `True False` leaves true |
| TestCases.FalseOrFalse | rustVersion/src/test.rs:65 | the logical OR of `False False` leaves false |
| TestCases.NotOne | rustVersion/src/test.rs:67 | `1 not` leaves -1 |
| TestCases.NotMinusTwoPointFive | rustVersion/src/test.rs:68 | `-2.5 not` leaves the negation of the f64 of `-2.5` |
| TestCases.NotTrue | rustVersion/src/test.rs:69 | `True not` leaves false |
| TestCases.NotFalse | rustVersion/src/test.rs:70 | `False not` leaves true |
| TestCases.ConsOntoList | rustVersion/src/test.rs:77-84 | `1 [2,3] cons` leaves `[1,2,3]` |
| TestCases.AppendLists | rustVersion/src/test.rs:86-94 | `[3,4] [1,2] append` leaves `[1,2,3,4]` |
| TestCases.HeadOfList | rustVersion/src/test.rs:96-99 | `[1,2,3] head` leaves 1 |
| TestCases.TailOfList | rustVersion/src/test.rs:101-104 | `[1,2,3] tail` leaves `[2,3]` |
| TestCases.LengthOfList | rustVersion/src/test.rs:106-109 | `[1,2,3] length` leaves 3 |
| TestCases.EmptyOfList | rustVersion/src/test.rs:111-114 | `[1,2,3] empty` leaves false |
| TestCases.PushFortyTwo | rustVersion/src/test.rs:123-126 | `push 42` leaves 42 |
| TestCases.ParseIntegerOfText | rustVersion/src/test.rs:128-132 | `parseInteger` on the text `10` leaves 10 |
| TestCases.PushThreePointOneFour | rustVersion/src/test.rs:134-137 | `push 3.14` leaves the f64 of `3.14` |
| TestCases.SwapTwo | rustVersion/src/test.rs:139-144 | `swap` on 10, 100 leaves 100, 10 |
| TestCases.DupSix | rustVersion/src/test.rs:146-149 | `dup` on 100, 6 leaves 100, 6, 6 |
| TestCases.ParseFloatOfText | rustVersion/src/test.rs:152-156 | `parseFloat` on the text `3.14` leaves its f64 in place, the values below untouched |
| TestCases.WordsOfText | rustVersion/src/test.rs:158-166 | `words` on three words joined by single spaces leaves the list of the three texts in its place |
| CombinatorTests.ArithOnTop | rustVersion/src/stack.rs:588-602 | `+` or `*` on two Ints whose result fits replaces them by the result |
| CombinatorTests.ExecOneSymbol | rustVersion/src/stack.rs:309-330 | executing a one-symbol quotation is parsing that symbol as a line |
| CombinatorTests.ExecArith | rustVersion/src/stack.rs:309-330 | executing `{+}` or `{*}` on two Ints replaces them by the result |
| CombinatorTests.FoldTail | rustVersion/src/stack.rs:488-494 | folding from element k is one step of the operator followed by folding from element k + 1 |
| CombinatorTests.FoldlFolds | rustVersion/src/stack.rs:488-497 | the `foldl` loop with `{+}` or `{*}` leaves the left fold of the list from the running value |
| CombinatorTests.EachFolds | rustVersion/src/stack.rs:462-467 | the `each` loop with `{+}` or `{*}` over a value on the stack leaves the left fold of the list from that value |
| CombinatorTests.FoldlOnTop | rustVersion/src/stack.rs:470-498 | `foldl` with `{+}` or `{*}` replaces list, start value and quotation by the left fold |
| CombinatorTests.EachOnTop | rustVersion/src/stack.rs:449-468 | `each` with `{+}` or `{*}` replaces the value, list and quotation by the left fold |
| CombinatorTests.MapStep | rustVersion/src/stack.rs:437-442 | one `map` step consumes the value below, records the result, and continues with the next element |
| CombinatorTests.MapZips | rustVersion/src/stack.rs:435-445 | the `map` loop with `{+}` or `{*}` pairs the first element with the value just below the list, the next with the one below that, and so on, consuming those values |
| CombinatorTests.MapOnTop | rustVersion/src/stack.rs:423-447 | `map` with `{+}` or `{*}` replaces the values below, the list and the quotation by the list of paired results |
| CombinatorTests.StepsPushLiterals | rustVersion/src/stack.rs:720-729 | running literal tokens is pushing their values and continuing after them |
| CombinatorTests.LoopStep | rustVersion/src/stack.rs:564-575 | `map`, `each` or `foldl` followed by a quotation literal pushes it and runs the matching loop, continuing two tokens on |
| CombinatorTests.LoopLineSteps | rustVersion/src/stack.rs:545-735 | a line of literals then `map`, `each` or `foldl` and a quotation ends as the loop on the pushed values does |
| CombinatorTests.TokenizeSpaced | rustVersion/src/stack.rs:333-372 | plain words, a loop word and a quotation joined by spaces tokenize back to them |
| CombinatorTests.ShownThenLoop | rustVersion/src/stack.rs:535-739 | such a line, parsed on a fresh stack, hands back what the loop leaves |
| CombinatorTests.EachTimesTen | rustVersion/src/test.rs:185-199 | `process_each` on 10, `[1,2,3]`, `{*}` leaves 60 |
| CombinatorTests.MapTimesTen | rustVersion/src/test.rs:174-181 | `10 10 10 [1,2,3] map {*}` leaves `[10,20,30]` |
| CombinatorTests.FoldlSum | rustVersion/src/test.rs:207-210 | `[1,2,3] 0 foldl {+}` leaves 6 |
| CombinatorTests.EachLine | rustVersion/src/stack.rs:568-571 | the line `10 [1,2,3] each {*}` leaves 60, the `each` word pushing the quotation after it and running `process_each` |
| ControlFacts.IfStep | rustVersion/src/stack.rs:549-552 | at an `if` with a closed construct and a Bool condition, the token loop parses the chosen block on the values under the condition; if that completes, the loop resumes one token past the `}` with those values and the block's output, and otherwise the line ends with the block's status |
| ControlFacts.CondLine | rustVersion/src/stack.rs:512-517 | a line that pushes a Bool and runs an `if` construct reaching the end of the line ends with the output of the block the Bool chooses, from an empty stack |
| ControlFacts.IfDropsBlockPushes | rustVersion/src/stack.rs:514-517 | in `True if 1 2 }` the chosen block pushes 1 and 2, and the line still ends with no values, because `process_if` restores the values it saved before the block |
| ControlFacts.CondPrint | rustVersion/src/stack.rs:512-517 | `True if 1 print }` prints 1 and `False if 1 print }` prints nothing, both completing with an empty stack |
| ControlFacts.IfBlockFailureEndsLine | rustVersion/src/stack.rs:515 | `True if print }` fails with the empty-stack error of the `print` in the chosen block, and that failure ends the line |
| ControlFacts.PrintLine | rustVersion/src/stack.rs:103-110 | the line `print` removes the top value and appends it to the output, leaving the values under it |
| ControlFacts.PrintOnEmpty | rustVersion/src/stack.rs:107-109 | the line `print` on an empty stack fails with the empty-stack error and writes nothing |
| ControlFacts.ReadLine | rustVersion/src/stack.rs:113-119 | the line `read` pushes the next input line with trailing whitespace trimmed and consumes it; with no input left it pushes the empty text |
| ControlFacts.WordAlone | rustVersion/src/stack.rs:561-562 | a line holding only `print` or `read` is that one token, and runs as `print` or `read` does |
| CombinatorTests.MapUnwrapPanics | rustVersion/src/stack.rs:437-441 | `map` with `{pop}` over a non-empty list panics at the `unwrap`, since the quotation leaves nothing to collect |
| CombinatorTests.FoldlUnwrapPanics | rustVersion/src/stack.rs:488-494 | `foldl` with `{pop pop}` over a non-empty list panics at the `unwrap`, since the quotation leaves no running value |

## Left out

- f64 arithmetic, comparison, equality, conversion from i32 and the value of a decimal literal are a `FloatOps` parameter, not IEEE-754 numerics. Only the syntax `f64::from_str` accepts is modelled.
- `Display` of a list uses Rust's `Debug` formatting, and `Display` of an f64 needs float formatting; neither is modelled. `Display` is modelled for Ints, Bools, texts, symbols and quotations of those.
- `print` records the printed value in an output list instead of its text. `show` and the `println!` diagnostics in `parse_single_value` and `process_if` are left out, being output only.
- Standard input is a list of lines. An I/O error from `read_line`, reported as "Failed to read from stdin", is left out.
- `rustVersion/src/main.rs`, the read–eval loop around `parse`, is not part of this model.
- Integer overflow follows a debug build (a panic). A release build would wrap around instead; that is not modelled.
- Unbounded recursion through `parse`, which can overflow the call stack, is modelled by the `fuel` budget. An exhausted budget is reported as `OutOfFuel` and stands for a run that does not finish.
- The bindings table is a Dafny map, so `HashMap` hashing and iteration order are left out; nothing in the core depends on them.
- Strings are sequences of characters. Slices the source takes by byte offset are taken by character, with the same results for ASCII text. `len() == 1` is the one place where byte length matters, and it is modelled.
- TestCases.WordsOfText: states `words` for any three words, covering the test's `one two three` on the stack the test leaves.
- CombinatorTests.FoldlOnTop: stated only for one-symbol `{+}` and `{*}` quotations over Int lists whose fold stays in the i32 range, the case the tests use.
- CombinatorTests.EachOnTop: stated only for one-symbol `{+}` and `{*}` quotations over Int lists whose fold stays in the i32 range.
- CombinatorTests.MapOnTop: stated only for one-symbol `{+}` and `{*}` quotations over Int lists whose results stay in the i32 range.
- Evaluator.ProcessMap: its own contract gives only the error cases and the length of the result. The contents are stated by CombinatorTests.MapOnTop for arithmetic quotations.
- Evaluator.Step: its contract gives only that the loop advances. What each token does is stated elsewhere: the primitives by Evaluator.Primitive and EvaluatorFacts.StepsOfPrimitives, `if` by ControlFacts.IfStep, `print` and `read` by ControlFacts.PrintLine, ControlFacts.PrintOnEmpty and ControlFacts.ReadLine, `map`, `each` and `foldl` by CombinatorTests.LoopStep, `push` by TestCases.PushSteps and `exec` by EvaluatorFacts.ParseExecRunsOut.
- Evaluator.Exec, Evaluator.ProcessIf, Evaluator.ProcessMap, Evaluator.ProcessEach, Evaluator.ProcessFoldl: on an error they pop what they have read, as the source does, and their contracts say so; but `parse` runs every line on a temporary stack whose values are dropped on any failure, so those pops cannot be observed from a line.
- Literals.ParseList: its own contract, being part of the mutually recursive literal parser, gives only that a list it returns has neighbouring elements of the same type. Its elements, the mixed-types error and the failure of a piece are stated by LiteralFacts.ParseListItems, LiteralFacts.ParseListAccepted and LiteralFacts.ParseListFirstFailure.
- Literals.ParseQuotation: its own contract gives only that a quotation it returns has one element per piece, for the same reason. The elements themselves and the failure of a piece are stated by LiteralFacts.ParseQuotationElements.
- Literals.ParseValue: carries no contract of its own, being part of the mutually recursive literal parser; what it returns is stated by LiteralFacts.ParseValueKinds, LiteralFacts.IntegersWin, LiteralFacts.RangeOfInts and the other LiteralFacts lemmas.
- Literals.ParseNonInteger: carries no contract of its own for the same reason; its branches are stated by LiteralFacts.BracketsAreLists, LiteralFacts.BracesAreQuotations, LiteralFacts.BooleansInAnyCase and LiteralFacts.ParseValueKinds.
- Evaluator.Steps: carries no contract of its own; the token loop is stated by EvaluatorFacts.StepsOfPrimitives, CombinatorTests.StepsPushLiterals and CombinatorTests.LoopStep.
- Strings.ParseI32Shape: the converse of Strings.ParseI32's contract is stated only for texts of at most nine digits; a ten-digit text is accepted exactly when its value lies in the i32 range, which is what the body computes but no lemma states.
- Tokenizer.TokensAreMaximalRuns: holds only for input without double quotes. Quoted input is described by Tokenizer.QuotedTokens.
