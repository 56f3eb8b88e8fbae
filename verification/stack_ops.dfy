/** The stack machine of rustVersion/src/stack.rs below the token loop: the `Stack`
    record, the primitives that rearrange it (`dup`, `swap`, `pop`, `:=`, `cons`,
    `append`, `parseInteger`, `parseFloat`, `words`) and the operators the token
    loop hands to `binary_op` or applies to the top value. Every operation returns
    the new stack or the error the source returns; a failed line discards its
    stack, so the stack left behind by an error is not modelled. */
module StackOps {
  import opened Outcomes
  import opened I32
  import opened Strings
  import opened Values

  /** `Stack`: the value stack, top last, and the symbol bindings. */
  datatype Stack = Stack(data: seq<Value>, symbols: map<string, Value>)

  const StackEmpty: string := "Stack is empty"
  const NotEnough: string := "Not enough elements in the stack"
  const NotASymbol: string := "Left hand side of assignment must be a symbol"
  const BothLists: string := "Both values must be lists"
  const NotAText: string := "Stack is empty or top value is not a Text"
  const BadInteger: string := "Failed to parse integer"
  const BadFloat: string := "Failed to parse float"
  const DivisionByZero: string := "Division by zero"
  const NoValue: string := "No value on the stack"
  const BadNegation: string := "Invalid type for negation or logical NOT"

  function Push(st: Stack, v: Value): Stack {
    st.(data := st.data + [v])
  }

  /** The stack without its top value; `pop` on an empty stack changes nothing. */
  function Drop(st: Stack): Stack {
    if |st.data| == 0 then st else st.(data := st.data[..|st.data| - 1])
  }

  function Top(st: Stack): Value
    requires |st.data| > 0
  {
    st.data[|st.data| - 1]
  }

  // ---------------------------------------------------------------- rearranging

  /** `dup`: a copy of the top value goes on top. */
  function Dup(st: Stack): (r: Res<Stack>)
    ensures r.Err? <==> |st.data| == 0
    ensures r.Err? ==> r.msg == StackEmpty
    ensures r.Ok? ==> r.value.symbols == st.symbols
    ensures r.Ok? ==> |r.value.data| == |st.data| + 1 && r.value.data[..|st.data|] == st.data
    ensures r.Ok? ==> r.value.data[|st.data|] == st.data[|st.data| - 1]
  {
    if |st.data| == 0 then Err(StackEmpty) else Ok(Push(st, Top(st)))
  }

  /** Popping after `dup` gives back the stack `dup` started from. */
  lemma DupThenPop(st: Stack)
    requires |st.data| > 0
    ensures Drop(Dup(st).value) == st
  {
    assert (st.data + [Top(st)])[..|st.data|] == st.data;
  }

  /** `swap`: the two top values change places. */
  function Swap(st: Stack): (r: Res<Stack>)
    ensures r.Err? <==> |st.data| < 2
    ensures r.Err? ==> r.msg == NotEnough
    ensures r.Ok? ==> r.value.symbols == st.symbols && |r.value.data| == |st.data|
    ensures r.Ok? ==> var n := |st.data|;
      && r.value.data[..n - 2] == st.data[..n - 2]
      && r.value.data[n - 1] == st.data[n - 2]
      && r.value.data[n - 2] == st.data[n - 1]
    ensures r.Ok? ==> multiset(r.value.data) == multiset(st.data)
  {
    var n := |st.data|;
    if n < 2 then Err(NotEnough)
    else
      var d := st.data[..n - 2] + [st.data[n - 1], st.data[n - 2]];
      assert st.data == st.data[..n - 2] + [st.data[n - 2], st.data[n - 1]];
      Ok(st.(data := d))
  }

  /** Swapping twice changes nothing. */
  lemma SwapIsInvolution(st: Stack)
    requires |st.data| >= 2
    ensures Swap(Swap(st).value) == Ok(st)
  {
    var n := |st.data|;
    var t := Swap(st).value;
    var u := Swap(t).value;
    assert u.data[..n - 2] == st.data[..n - 2];
    assert u.data[n - 2] == st.data[n - 2] && u.data[n - 1] == st.data[n - 1];
    assert u.data == u.data[..n - 2] + [u.data[n - 2], u.data[n - 1]];
    assert st.data == st.data[..n - 2] + [st.data[n - 2], st.data[n - 1]];
  }

  /** `:=`: pops the value, then a symbol, and binds the symbol to the value. */
  function Assignment(st: Stack): (r: Res<Stack>)
    ensures |st.data| < 2 ==> r == Err(StackEmpty)
    ensures |st.data| >= 2 && !st.data[|st.data| - 2].Symbol? ==> r == Err(NotASymbol)
    ensures r.Ok? <==> |st.data| >= 2 && st.data[|st.data| - 2].Symbol?
    ensures r.Ok? ==> var n := |st.data|;
      && r.value.data == st.data[..n - 2]
      && r.value.symbols == st.symbols[st.data[n - 2].name := st.data[n - 1]]
  {
    var n := |st.data|;
    if n < 2 then Err(StackEmpty)
    else
      var lhs := st.data[n - 2];
      if lhs.Symbol? then Ok(Stack(st.data[..n - 2], st.symbols[lhs.name := st.data[n - 1]]))
      else Err(NotASymbol)
  }

  /** The binding made by `:=` is the value that was on top, and every other
      binding is kept. */
  lemma AssignmentBinds(st: Stack, other: string)
    requires |st.data| >= 2 && st.data[|st.data| - 2].Symbol?
    ensures var r := Assignment(st).value;
      var name := st.data[|st.data| - 2].name;
      && r.symbols[name] == st.data[|st.data| - 1]
      && (other != name && other in st.symbols ==> other in r.symbols && r.symbols[other] == st.symbols[other])
  {
  }

  /** `assign`, used by the `name := literal` token form: binds without touching the stack. */
  function Assign(st: Stack, name: string, v: Value): (r: Stack)
    ensures r.data == st.data && name in r.symbols && r.symbols[name] == v
    ensures forall k :: k in st.symbols && k != name ==> k in r.symbols && r.symbols[k] == st.symbols[k]
  {
    st.(symbols := st.symbols[name := v])
  }

  // ---------------------------------------------------------------- lists

  /** `cons`: pops a list, then an item, and pushes the list with the item in front. */
  function Cons(st: Stack): (r: Res<Stack>)
    ensures |st.data| < 2 ==> r == Err(NotEnough)
    ensures |st.data| >= 2 && !st.data[|st.data| - 1].Vec? ==> r == Err(NotAList)
    ensures r.Ok? <==> |st.data| >= 2 && st.data[|st.data| - 1].Vec?
    ensures r.Ok? ==> var n := |st.data|;
      && r.value.symbols == st.symbols
      && r.value.data == st.data[..n - 2] + [Vec([st.data[n - 2]] + st.data[n - 1].items)]
  {
    var n := |st.data|;
    if n < 2 then Err(NotEnough)
    else
      var list, item := st.data[n - 1], st.data[n - 2];
      if list.Vec? then Ok(st.(data := st.data[..n - 2] + [Vec([item] + list.items)]))
      else Err(NotAList)
  }

  /** `cons` and the list accessors are inverse: the head of the new list is the
      item and its tail is the old list. */
  lemma ConsThenHeadTail(st: Stack)
    requires |st.data| >= 2 && st.data[|st.data| - 1].Vec?
    ensures var n := |st.data|;
      var list := Top(Cons(st).value);
      && Head(list) == Ok(st.data[n - 2])
      && Tail(list) == Ok(st.data[n - 1])
  {
    var n := |st.data|;
    var items := st.data[n - 1].items;
    assert ([st.data[n - 2]] + items)[1..] == items;
  }

  /** `append`: pops a list, then another, and pushes the top one followed by the
      one under it. */
  function Append(st: Stack): (r: Res<Stack>)
    ensures |st.data| < 2 ==> r == Err(NotEnough)
    ensures r.Ok? <==> |st.data| >= 2 && st.data[|st.data| - 1].Vec? && st.data[|st.data| - 2].Vec?
    ensures |st.data| >= 2 && !r.Ok? ==> r == Err(BothLists)
    ensures r.Ok? ==> var n := |st.data|;
      && r.value.symbols == st.symbols
      && |r.value.data| == n - 1 && r.value.data[..n - 2] == st.data[..n - 2]
  {
    var n := |st.data|;
    if n < 2 then Err(NotEnough)
    else
      var list1, list2 := st.data[n - 1], st.data[n - 2];
      if list1.Vec? && list2.Vec? then
        var d := st.data[..n - 2] + [Vec(list1.items + list2.items)];
        assert d[..n - 2] == st.data[..n - 2];
        Ok(st.(data := d))
      else Err(BothLists)
  }

  /** The list `append` leaves holds the former top list's elements first, then
      those of the list under it: `[3,4] [1,2] append` gives `[1,2,3,4]`. */
  lemma AppendOrder(st: Stack)
    requires |st.data| >= 2 && st.data[|st.data| - 1].Vec? && st.data[|st.data| - 2].Vec?
    ensures var n := |st.data|;
      var top, under := st.data[n - 1].items, st.data[n - 2].items;
      var out := Top(Append(st).value);
      && out.Vec? && |out.items| == |top| + |under|
      && (forall k :: 0 <= k < |top| ==> out.items[k] == top[k])
      && (forall k :: 0 <= k < |under| ==> out.items[|top| + k] == under[k])
  {
  }

  // ---------------------------------------------------------------- text

  /** `parseInteger`: a Text on top is replaced by the i32 it spells. */
  function ParseInteger(st: Stack): (r: Res<Stack>)
    ensures (|st.data| == 0 || !Top(st).Str?) ==> r == Err(NotAText)
    ensures |st.data| > 0 && Top(st).Str? ==>
      (r.Ok? <==> ParseI32(Top(st).s).Some?) && (!r.Ok? ==> r == Err(BadInteger))
    ensures r.Ok? ==> r.value == Push(Drop(st), Int(ParseI32(Top(st).s).value))
  {
    if |st.data| == 0 || !Top(st).Str? then Err(NotAText)
    else
      match ParseI32(Top(st).s)
      case Some(n) => Ok(Push(Drop(st), Int(n)))
      case None => Err(BadInteger)
  }

  /** Rendering an i32 as text and running `parseInteger` on it gives the i32 back. */
  lemma ParseIntegerRoundTrip(st: Stack, n: Int32)
    ensures ParseInteger(Push(st, Str(IntToString(n)))) == Ok(Push(st, Int(n)))
  {
    IntToStringRoundTrip(n);
    assert Drop(Push(st, Str(IntToString(n)))) == st;
  }

  /** `parseFloat`: a Text on top is replaced by the `f64` it spells. Unlike literals
      in the source text, a `,` is not read as a decimal point here. */
  function ParseFloat(fl: FloatOps, st: Stack): (r: Res<Stack>)
    ensures (|st.data| == 0 || !Top(st).Str?) ==> r == Err(NotAText)
    ensures |st.data| > 0 && Top(st).Str? ==>
      (r.Ok? <==> IsFloatLiteral(Top(st).s)) && (!r.Ok? ==> r == Err(BadFloat))
    ensures r.Ok? ==> r.value == Push(Drop(st), Float(fl.literal(Top(st).s)))
  {
    if |st.data| == 0 || !Top(st).Str? then Err(NotAText)
    else if IsFloatLiteral(Top(st).s) then Ok(Push(Drop(st), Float(fl.literal(Top(st).s))))
    else Err(BadFloat)
  }

  /** Every text `parseInteger` accepts, `parseFloat` accepts too. */
  lemma FloatAcceptsIntegers(fl: FloatOps, st: Stack)
    requires ParseInteger(st).Ok?
    ensures ParseFloat(fl, st).Ok?
  {
    var s := Top(st).s;
    var body := if StartsWith(s, '+') || StartsWith(s, '-') then s[1..] else s;
    assert AllDigits(body) && |body| > 0;
    IndexOfAbsent(body, '.');
    IndexOfAbsent(AsciiLowered(body), 'e');
  }

  lemma IndexOfAbsent(s: string, c: char)
    requires forall k :: 0 <= k < |s| ==> s[k] != c
    ensures IndexOf(s, c) == None
  {
    match IndexOf(s, c)
    case None =>
    case Some(k) =>
  }

  /** `words`: a Text on top is replaced by the list of its whitespace-separated words. */
  function Words(st: Stack): (r: Res<Stack>)
    ensures (|st.data| == 0 || !Top(st).Str?) <==> r == Err(NotAText)
    ensures r.Ok? ==> |st.data| > 0 && |r.value.data| == |st.data| && var w := Top(r.value);
      && Drop(r.value) == Drop(st)
      && w.Vec? && |w.items| == |SplitWhitespace(Top(st).s)|
      && forall k :: 0 <= k < |w.items| ==>
           w.items[k] == Str(SplitWhitespace(Top(st).s)[k]) && IsWord(w.items[k].s)
  {
    if |st.data| == 0 || !Top(st).Str? then Err(NotAText)
    else
      var ws := SplitWhitespace(Top(st).s);
      Ok(Push(Drop(st), Vec(seq(|ws|, k requires 0 <= k < |ws| => Str(ws[k])))))
  }

  // ---------------------------------------------------------------- binary_op

  /** `binary_op`: at least two values; the top is the right operand and the one
      under it the left; the result replaces both. */
  function BinaryOp(st: Stack, op: (Value, Value) -> Res<Value>): (r: Res<Stack>)
    ensures |st.data| < 2 ==> r == Err(NotEnough)
    ensures |st.data| >= 2 ==> var n := |st.data|;
      var v := op(st.data[n - 2], st.data[n - 1]);
      && (r.Ok? <==> v.Ok?)
      && (r.Ok? ==> r.value == Stack(st.data[..n - 2] + [v.value], st.symbols))
      && (r.Err? <==> v.Err?) && (r.Panic? <==> v.Panic?)
      && (!r.Ok? ==> r.msg == v.msg)
  {
    var n := |st.data|;
    if n < 2 then Err(NotEnough)
    else
      var v :- op(st.data[n - 2], st.data[n - 1]);
      Ok(Stack(st.data[..n - 2] + [v], st.symbols))
  }

  /** `+`: i32 addition that panics on overflow, or `f64` addition. */
  function Add(fl: FloatOps, a: Value, b: Value): (r: Res<Value>)
    ensures a.Int? && b.Int? ==> (r.Ok? <==> InRange(a.i + b.i)) && (r.Ok? ==> r.value == Int(a.i + b.i))
    ensures a.Int? && b.Int? && !r.Ok? ==> r == Panic(AddOverflow)
    ensures a.Float? && b.Float? ==> r == Ok(Float(fl.add(a.f, b.f)))
    ensures !(a.Int? && b.Int?) && !(a.Float? && b.Float?) ==> r == Err("Mismatched types for addition")
  {
    match (a, b)
    case (Int(x), Int(y)) => var z :- Checked(x as int + y, AddOverflow); Ok(Int(z))
    case (Float(x), Float(y)) => Ok(Float(fl.add(x, y)))
    case _ => Err("Mismatched types for addition")
  }

  /** `-`: i32 subtraction that panics on overflow, or `f64` subtraction. */
  function Sub(fl: FloatOps, a: Value, b: Value): (r: Res<Value>)
    ensures a.Int? && b.Int? ==> (r.Ok? <==> InRange(a.i - b.i)) && (r.Ok? ==> r.value == Int(a.i - b.i))
    ensures a.Int? && b.Int? && !r.Ok? ==> r == Panic(SubOverflow)
    ensures a.Float? && b.Float? ==> r == Ok(Float(fl.sub(a.f, b.f)))
    ensures !(a.Int? && b.Int?) && !(a.Float? && b.Float?) ==> r == Err("Mismatched types for subtraction")
  {
    match (a, b)
    case (Int(x), Int(y)) => var z :- Checked(x as int - y, SubOverflow); Ok(Int(z))
    case (Float(x), Float(y)) => Ok(Float(fl.sub(x, y)))
    case _ => Err("Mismatched types for subtraction")
  }

  /** `*`: i32 multiplication that panics on overflow, or `f64` multiplication. */
  function Mul(fl: FloatOps, a: Value, b: Value): (r: Res<Value>)
    ensures a.Int? && b.Int? ==> (r.Ok? <==> InRange(a.i * b.i)) && (r.Ok? ==> r.value == Int(a.i * b.i))
    ensures a.Int? && b.Int? && !r.Ok? ==> r == Panic(MulOverflow)
    ensures a.Float? && b.Float? ==> r == Ok(Float(fl.mul(a.f, b.f)))
    ensures !(a.Int? && b.Int?) && !(a.Float? && b.Float?) ==> r == Err("Mismatched types for multiplication")
  {
    match (a, b)
    case (Int(x), Int(y)) => var z :- Checked(x as int * y, MulOverflow); Ok(Int(z))
    case (Float(x), Float(y)) => Ok(Float(fl.mul(x, y)))
    case _ => Err("Mismatched types for multiplication")
  }

  /** On Ints, `-` undoes `+` and `+` undoes `-`, whenever neither overflows. */
  lemma AddSubInverse(fl: FloatOps, x: Int32, y: Int32)
    ensures Add(fl, Int(x), Int(y)).Ok? ==> Sub(fl, Add(fl, Int(x), Int(y)).value, Int(y)) == Ok(Int(x))
    ensures Sub(fl, Int(x), Int(y)).Ok? ==> Add(fl, Sub(fl, Int(x), Int(y)).value, Int(y)) == Ok(Int(x))
  {
  }

  /** `/`: always an `f64` quotient; Ints are converted first. Division by an Int
      zero or by either `f64` zero is an error. */
  function FloatDiv(fl: FloatOps, a: Value, b: Value): (r: Res<Value>)
    ensures r.Ok? ==> r.value.Float?
    ensures a.Int? && b.Int? ==>
      r == if b.i == 0 then Err(DivisionByZero) else Ok(Float(fl.div(fl.ofInt(a.i), fl.ofInt(b.i))))
    ensures a.Float? && b.Float? ==>
      r == if FloatIsZero(b.f) then Err(DivisionByZero) else Ok(Float(fl.div(a.f, b.f)))
    ensures !(a.Int? && b.Int?) && !(a.Float? && b.Float?) ==> r == Err("Mismatched types for floating point division")
  {
    match (a, b)
    case (Int(x), Int(y)) =>
      if y == 0 then Err(DivisionByZero) else Ok(Float(fl.div(fl.ofInt(x), fl.ofInt(y))))
    case (Float(x), Float(y)) =>
      if FloatIsZero(y) then Err(DivisionByZero) else Ok(Float(fl.div(x, y)))
    case _ => Err("Mismatched types for floating point division")
  }

  /** `div`: i32 division rounding toward zero; `MIN div -1` overflows and panics. */
  function IntDiv(a: Value, b: Value): (r: Res<Value>)
    ensures !(a.Int? && b.Int?) ==> r == Err("Mismatched types for integer division")
    ensures a.Int? && b.Int? && b.i == 0 ==> r == Err(DivisionByZero)
    ensures a.Int? && b.Int? && b.i != 0 ==>
      (r.Ok? <==> !(a.i == MIN && b.i == -1)) && (!r.Ok? ==> r == Panic(DivOverflow))
    ensures r.Ok? ==> r.value.Int? && var rem := a.i - r.value.i * b.i;
      Abs(rem) < Abs(b.i) && (rem == 0 || (rem > 0) == (a.i > 0))
  {
    match (a, b)
    case (Int(x), Int(y)) =>
      if y == 0 then Err(DivisionByZero)
      else
        TruncDivRoundsTowardZero(x, y);
        TruncDivOverflow(x, y);
        var q :- Checked(TruncDiv(x, y), DivOverflow);
        Ok(Int(q))
    case _ => Err("Mismatched types for integer division")
  }

  /** `<` and `>`: i32 or `f64` ordering. */
  function Less(fl: FloatOps, a: Value, b: Value): (r: Res<Value>)
    ensures r.Ok? <==> (a.Int? && b.Int?) || (a.Float? && b.Float?)
    ensures a.Int? && b.Int? ==> r == Ok(Bool(a.i < b.i))
    ensures a.Float? && b.Float? ==> r == Ok(Bool(fl.less(a.f, b.f)))
    ensures !r.Ok? ==> r == Err("Mismatched types for '<' comparison")
  {
    match (a, b)
    case (Int(x), Int(y)) => Ok(Bool(x < y))
    case (Float(x), Float(y)) => Ok(Bool(fl.less(x, y)))
    case _ => Err("Mismatched types for '<' comparison")
  }

  function Greater(fl: FloatOps, a: Value, b: Value): (r: Res<Value>)
    ensures r.Ok? <==> (a.Int? && b.Int?) || (a.Float? && b.Float?)
    ensures a.Int? && b.Int? ==> r == Ok(Bool(a.i > b.i))
    ensures a.Float? && b.Float? ==> r == Ok(Bool(fl.greater(a.f, b.f)))
    ensures !r.Ok? ==> r == Err("Mismatched types for '>' comparison")
  {
    match (a, b)
    case (Int(x), Int(y)) => Ok(Bool(x > y))
    case (Float(x), Float(y)) => Ok(Bool(fl.greater(x, y)))
    case _ => Err("Mismatched types for '>' comparison")
  }

  /** `a < b` and `b > a` agree whenever the `f64` orderings are each other's mirror;
      on Ints always. */
  lemma LessIsMirroredGreater(fl: FloatOps, a: Value, b: Value)
    requires forall x: F64, y: F64 :: fl.less(x, y) == fl.greater(y, x)
    ensures Less(fl, a, b).Ok? ==> Less(fl, a, b).value == Greater(fl, b, a).value
    ensures Less(fl, a, b).Ok? == Greater(fl, b, a).Ok?
  {
  }

  /** `&&` and `||` on two Bools. */
  function And(a: Value, b: Value): (r: Res<Value>)
    ensures r.Ok? <==> a.Bool? && b.Bool?
    ensures r.Ok? ==> r.value == Bool(a.b && b.b)
    ensures !r.Ok? ==> r == Err("Mismatched types for logical AND")
  {
    match (a, b)
    case (Bool(x), Bool(y)) => Ok(Bool(x && y))
    case _ => Err("Mismatched types for logical AND")
  }

  function Or(a: Value, b: Value): (r: Res<Value>)
    ensures r.Ok? <==> a.Bool? && b.Bool?
    ensures r.Ok? ==> r.value == Bool(a.b || b.b)
    ensures !r.Ok? ==> r == Err("Mismatched types for logical OR")
  {
    match (a, b)
    case (Bool(x), Bool(y)) => Ok(Bool(x || y))
    case _ => Err("Mismatched types for logical OR")
  }

  /** `not`: negates an Int (panicking on `MIN`) or an `f64`, or inverts a Bool. */
  function Negate(v: Value): (r: Res<Value>)
    ensures r.Ok? <==> (v.Int? && v.i != MIN) || v.Float? || v.Bool?
    ensures v.Int? && v.i == MIN ==> r == Panic(NegOverflow)
    ensures !(v.Int? || v.Float? || v.Bool?) ==> r == Err(BadNegation)
    ensures r.Ok? ==> SameType(r.value, v)
    ensures r.Ok? && v.Int? ==> r.value.i == -v.i
    ensures r.Ok? && v.Bool? ==> r.value.b == !v.b
  {
    match v
    case Int(x) => var y :- Checked(-(x as int), NegOverflow); Ok(Int(y))
    case Float(x) => Ok(Float(FloatNeg(x)))
    case Bool(x) => Ok(Bool(!x))
    case _ => Err(BadNegation)
  }

  /** `not not` is the identity wherever the first `not` succeeds. */
  lemma NegateTwice(v: Value)
    requires Negate(v).Ok?
    ensures Negate(Negate(v).value) == Ok(v)
  {
    if v.Float? {
      assert FloatNeg(FloatNeg(v.f)) == v.f;
    }
  }

  /** `==`: pops the right operand, then the left, and pushes whether they are equal. */
  function Equal(fl: FloatOps, st: Stack): (r: Res<Stack>)
    ensures r.Err? <==> |st.data| < 2
    ensures r.Err? ==> r.msg == NoValue
    ensures r.Ok? ==> var n := |st.data|;
      r.value == Stack(st.data[..n - 2] + [Bool(ValueEq(fl, st.data[n - 2], st.data[n - 1]))], st.symbols)
  {
    var n := |st.data|;
    if n < 2 then Err(NoValue)
    else Ok(Stack(st.data[..n - 2] + [Bool(ValueEq(fl, st.data[n - 2], st.data[n - 1]))], st.symbols))
  }

  /** `dup ==` pushes true, when `f64` equality is reflexive (no NaN). */
  lemma DupThenEqual(fl: FloatOps, st: Stack)
    requires |st.data| > 0 && forall x: F64 :: fl.eq(x, x)
    ensures Equal(fl, Dup(st).value) == Ok(Push(Drop(st), Bool(true)))
  {
    ValueEqReflexive(fl, Top(st));
    var d := Dup(st).value.data;
    assert d[..|d| - 2] == st.data[..|st.data| - 1];
  }

  /** `==` holds of a value and itself when `f64` equality is reflexive (no NaN). */
  lemma {:induction false} ValueEqReflexive(fl: FloatOps, v: Value)
    requires forall x: F64 :: fl.eq(x, x)
    ensures ValueEq(fl, v, v)
    decreases v
  {
    match v
    case Vec(xs) =>
      forall k | 0 <= k < |xs| ensures ValueEq(fl, xs[k], xs[k]) {
        ValueEqReflexive(fl, xs[k]);
      }
    case Quotation(xs) =>
      forall k | 0 <= k < |xs| ensures ValueEq(fl, xs[k], xs[k]) {
        ValueEqReflexive(fl, xs[k]);
      }
    case _ =>
  }

  /** The unary list operators applied to the top value: `head`, `tail`, `empty`,
      `length`, and `not`. */
  function ApplyTop(st: Stack, f: Value -> Res<Value>): (r: Res<Stack>)
    ensures |st.data| == 0 ==> r == Err(StackEmpty)
    ensures |st.data| > 0 ==> (r.Ok? <==> f(Top(st)).Ok?) && (!r.Ok? ==> r == f(Top(st)).PropagateFailure())
    ensures r.Ok? ==> r.value == Push(Drop(st), f(Top(st)).value)
  {
    if |st.data| == 0 then Err(StackEmpty)
    else
      var v :- f(Top(st));
      Ok(Push(Drop(st), v))
  }
}
