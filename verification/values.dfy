/** The interpreter's one value type (`StackValue`) and the methods on it:
    the constructor test `same_type`, the list accessors `head`, `tail`,
    `is_empty`, `length`, and the `Display` rendering. */
module Values {
  import opened Outcomes
  import opened I32
  import opened Strings

  /** An `f64`, kept as its IEEE-754 bit pattern; its arithmetic is a parameter (`FloatOps`). */
  type F64 = bv64

  datatype Value =
    | Int(i: Int32)
    | Float(f: F64)
    | Bool(b: bool)
    | Str(s: string)          // StackValue::String
    | Vec(items: seq<Value>)
    | Symbol(name: string)
    | Quotation(body: seq<Value>)

  /** The `f64` behaviour the model does not compute itself: the value of a literal,
      `i32 as f64`, the four operations, the two orderings and `==`. */
  datatype FloatOps = FloatOps(
    literal: string -> F64,
    ofInt: Int32 -> F64,
    add: (F64, F64) -> F64,
    sub: (F64, F64) -> F64,
    mul: (F64, F64) -> F64,
    div: (F64, F64) -> F64,
    less: (F64, F64) -> bool,
    greater: (F64, F64) -> bool,
    eq: (F64, F64) -> bool)

  /** `-x` on an `f64` flips the sign bit. */
  function FloatNeg(x: F64): F64 {
    x ^ 0x8000_0000_0000_0000
  }

  /** `x == 0.0` on an `f64`: true for both zeros and nothing else. */
  predicate FloatIsZero(x: F64) {
    x & 0x7FFF_FFFF_FFFF_FFFF == 0
  }

  datatype Tag = IntTag | FloatTag | BoolTag | StrTag | VecTag | SymbolTag | QuotationTag

  /** The constructor of a value, forgetting its payload. */
  function TagOf(v: Value): Tag {
    match v
    case Int(_) => IntTag
    case Float(_) => FloatTag
    case Bool(_) => BoolTag
    case Str(_) => StrTag
    case Vec(_) => VecTag
    case Symbol(_) => SymbolTag
    case Quotation(_) => QuotationTag
  }

  /** `same_type`: both values use the same constructor; payloads, and the element
      types of lists, are ignored. */
  predicate SameType(a: Value, b: Value)
    ensures SameType(a, b) <==> TagOf(a) == TagOf(b)
  {
    || (a.Int? && b.Int?)
    || (a.Float? && b.Float?)
    || (a.Bool? && b.Bool?)
    || (a.Str? && b.Str?)
    || (a.Vec? && b.Vec?)
    || (a.Symbol? && b.Symbol?)
    || (a.Quotation? && b.Quotation?)
  }

  /** `same_type` is an equivalence relation. */
  lemma SameTypeIsEquivalence(a: Value, b: Value, c: Value)
    ensures SameType(a, a)
    ensures SameType(a, b) == SameType(b, a)
    ensures SameType(a, b) && SameType(b, c) ==> SameType(a, c)
  {
  }

  /** The derived `PartialEq`: the same constructor and equal payloads, lists and
      quotations element by element, floats by `f64` equality. */
  predicate ValueEq(fl: FloatOps, a: Value, b: Value)
    ensures ValueEq(fl, a, b) ==> TagOf(a) == TagOf(b)
    decreases a
  {
    match (a, b)
    case (Int(x), Int(y)) => x == y
    case (Float(x), Float(y)) => fl.eq(x, y)
    case (Bool(x), Bool(y)) => x == y
    case (Str(x), Str(y)) => x == y
    case (Symbol(x), Symbol(y)) => x == y
    case (Vec(xs), Vec(ys)) =>
      |xs| == |ys| && forall k :: 0 <= k < |xs| ==> ValueEq(fl, xs[k], ys[k])
    case (Quotation(xs), Quotation(ys)) =>
      |xs| == |ys| && forall k :: 0 <= k < |xs| ==> ValueEq(fl, xs[k], ys[k])
    case _ => false
  }

  /** When `f64` equality is equality of bit patterns (no NaN, one zero), `==` on
      values is structural equality. */
  lemma {:induction false} ValueEqIsEquality(fl: FloatOps, a: Value, b: Value)
    requires forall x: F64, y: F64 :: fl.eq(x, y) <==> x == y
    ensures ValueEq(fl, a, b) <==> a == b
    decreases a
  {
    match (a, b)
    case (Vec(xs), Vec(ys)) =>
      forall k | 0 <= k < |xs| && k < |ys| {
        ValueEqIsEquality(fl, xs[k], ys[k]);
      }
      if ValueEq(fl, a, b) {
        assert xs == ys;
      }
    case (Quotation(xs), Quotation(ys)) =>
      forall k | 0 <= k < |xs| && k < |ys| {
        ValueEqIsEquality(fl, xs[k], ys[k]);
      }
      if ValueEq(fl, a, b) {
        assert xs == ys;
      }
    case _ =>
  }

  /** `==` never holds between values of different constructors. */
  lemma ValueEqSameType(fl: FloatOps, a: Value, b: Value)
    requires ValueEq(fl, a, b)
    ensures SameType(a, b)
  {
  }

  const ListIsEmpty: string := "The list is empty"
  const NotAList: string := "The value is not a list"

  /** `head`: the first element of a non-empty list. */
  function Head(v: Value): (r: Res<Value>)
    ensures r.Ok? <==> v.Vec? && |v.items| > 0
    ensures r.Ok? ==> r.value == v.items[0]
    ensures v.Vec? && |v.items| == 0 ==> r == Err(ListIsEmpty)
    ensures !v.Vec? ==> r == Err(NotAList)
  {
    match v
    case Vec(items) => if |items| > 0 then Ok(items[0]) else Err(ListIsEmpty)
    case _ => Err(NotAList)
  }

  /** `tail`: a non-empty list without its first element. */
  function Tail(v: Value): (r: Res<Value>)
    ensures r.Ok? <==> v.Vec? && |v.items| > 0
    ensures r.Ok? ==> r.value.Vec? && |r.value.items| == |v.items| - 1
    ensures r.Ok? ==> forall k :: 0 <= k < |r.value.items| ==> r.value.items[k] == v.items[k + 1]
    ensures v.Vec? && |v.items| == 0 ==> r == Err(ListIsEmpty)
    ensures !v.Vec? ==> r == Err(NotAList)
  {
    match v
    case Vec(items) => if |items| > 0 then Ok(Vec(items[1..])) else Err(ListIsEmpty)
    case _ => Err(NotAList)
  }

  /** A non-empty list is its head in front of its tail. */
  lemma HeadTailReassemble(v: Value)
    requires v.Vec? && |v.items| > 0
    ensures Vec([Head(v).value] + Tail(v).value.items) == v
  {
    assert [v.items[0]] + v.items[1..] == v.items;
  }

  /** `is_empty`: whether a list has no elements. */
  function IsEmpty(v: Value): (r: Res<Value>)
    ensures r.Ok? <==> v.Vec?
    ensures r.Ok? ==> r.value == Bool(|v.items| == 0)
    ensures !v.Vec? ==> r == Err(NotAList)
  {
    match v
    case Vec(items) => Ok(Bool(|items| == 0))
    case _ => Err(NotAList)
  }

  /** `length`: the number of elements, through Rust's `usize as i32` cast. */
  function Length(v: Value): (r: Res<Value>)
    ensures r.Ok? <==> v.Vec?
    ensures r.Ok? ==> r.value.Int? && (r.value.i - |v.items|) % 0x1_0000_0000 == 0
    ensures v.Vec? && |v.items| <= MAX ==> r == Ok(Int(|v.items|))
    ensures !v.Vec? ==> r == Err(NotAList)
  {
    match v
    case Vec(items) => Ok(Int(WrapToI32(|items|)))
    case _ => Err(NotAList)
  }

  /** `empty` and `length` agree: a list is empty exactly when its length is 0. */
  lemma EmptyIffLengthZero(v: Value)
    requires v.Vec? && |v.items| <= MAX
    ensures IsEmpty(v) == Ok(Bool(Length(v) == Ok(Int(0))))
  {
  }

  /** Values whose `Display` the model defines: no `f64` and no `Vec` (whose
      rendering is Rust's `Debug` format) anywhere inside. */
  predicate Renderable(v: Value) {
    match v
    case Float(_) => false
    case Vec(_) => false
    case Quotation(body) => forall k :: 0 <= k < |body| ==> Renderable(body[k])
    case _ => true
  }

  /** `Display`: bare payload text, and a quotation as its elements' renderings
      joined by single spaces between braces. */
  function Display(v: Value): (r: string)
    requires Renderable(v)
    ensures v.Int? ==> ParseI32(r) == Some(v.i)
    ensures v.Bool? ==> EqIgnoreAsciiCase(r, "true") == v.b && EqIgnoreAsciiCase(r, "false") == !v.b
    ensures v.Bool? ==> r == if v.b then "true" else "false"
    ensures v.Str? ==> r == v.s
    ensures v.Symbol? ==> r == v.name
    ensures v.Quotation? ==> |r| >= 2 && StartsWith(r, '{') && EndsWith(r, '}')
  {
    match v
    case Int(n) => IntToStringRoundTrip(n); IntToString(n)
    case Bool(b) => if b then "true" else "false"
    case Str(s) => s
    case Symbol(s) => s
    case Quotation(body) =>
      "{" + Join(" ", seq(|body|, k requires 0 <= k < |body| && Renderable(body[k]) => Display(body[k]))) + "}"
  }

  /** The renderings of a quotation's elements, in order. */
  function Renderings(body: seq<Value>): (r: seq<string>)
    requires forall k :: 0 <= k < |body| ==> Renderable(body[k])
    ensures |r| == |body|
  {
    seq(|body|, k requires 0 <= k < |body| && Renderable(body[k]) => Display(body[k]))
  }

  /** A quotation displays as the renderings of its elements, each element's own
      `Display`, joined by single spaces and put between braces. */
  lemma DisplayQuotation(body: seq<Value>)
    requires Renderable(Quotation(body))
    ensures forall k :: 0 <= k < |body| ==> Renderings(body)[k] == Display(body[k])
    ensures Display(Quotation(body)) == "{" + Join(" ", Renderings(body)) + "}"
  {
  }

  /** The rendering of a quotation gives back its elements' renderings: the text
      between the braces, split at its spaces, is one rendering per element, as
      long as no element's rendering holds a space. */
  lemma DisplayQuotationSplits(body: seq<Value>)
    requires Renderable(Quotation(body)) && |body| > 0
    requires forall k :: 0 <= k < |body| ==> ' ' !in Display(body[k])
    ensures var r := Display(Quotation(body)); SplitOn(r[1..|r| - 1], ' ') == Renderings(body)
  {
    DisplayQuotation(body);
    var r := Display(Quotation(body));
    var inner := Join([' '], Renderings(body));
    assert r == "{" + inner + "}";
    assert r[1..|r| - 1] == inner;
    SplitJoinRoundTrip(Renderings(body), ' ');
  }
}
