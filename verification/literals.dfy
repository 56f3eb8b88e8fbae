/** The literal parser of rustVersion/src/stack.rs: `parse_value`,
    `parse_single_value` and `parse_quotation`. A span of text is tried, in a fixed
    order, as a range `[a..b]`, an i32, a float (`,` read as `.`), a boolean in any
    case, a comma-separated list, a comma-separated quotation, a double-quoted
    string, a single-quoted symbol, and a one-byte symbol. Every recursive call is on
    a strictly shorter piece of the span. */
module Literals {
  import opened Outcomes
  import opened I32
  import opened Strings
  import opened Values

  const Unrecognizable: string := "Unrecognizable type"
  const InvalidRange: string := "Invalid range list format"
  const MixedList: string := "Lists with mixed types are not allowed"

  /** The inclusive ascending run `a, a+1, ..., b` (empty when `a > b`), as `(a..=b)` yields it. */
  function RangeList(a: Int32, b: Int32): (r: seq<Value>)
    ensures |r| == if a <= b then b - a + 1 else 0
    ensures forall k :: 0 <= k < |r| ==> r[k] == Int(a + k)
  {
    if a > b then [] else seq(b - a + 1, k requires 0 <= k < b - a + 1 => Int(a + k))
  }

  /** Every element is an Int, each one greater by one than the one before. */
  predicate IsAscendingRun(vs: seq<Value>) {
    && (forall k :: 0 <= k < |vs| ==> vs[k].Int?)
    && (forall k :: 0 <= k < |vs| - 1 ==> vs[k + 1].i == vs[k].i + 1)
  }

  /** `windows(2).all(same_type)`. */
  predicate AdjacentSameType(vs: seq<Value>) {
    forall k :: 0 <= k < |vs| - 1 ==> SameType(vs[k], vs[k + 1])
  }

  predicate RangeShaped(s: string) {
    StartsWith(s, '[') && ContainsDots(s) && EndsWith(s, ']')
  }

  /** `parse_value`: a range first, then an i32, then the remaining forms. */
  function ParseValue(fl: FloatOps, s: string): (r: Res<Value>)
    decreases |s| + 1, 3
  {
    if RangeShaped(s) then ParseRange(fl, s)
    else
      match ParseI32(s)
      case Some(n) => Ok(Int(n))
      case None => ParseNonInteger(fl, s)
  }

  /** The range branch: the text between the brackets split at `..`, each side trimmed
      and parsed; two Int ends give the inclusive run. */
  function ParseRange(fl: FloatOps, s: string): (r: Res<Value>)
    requires RangeShaped(s)
    ensures r.Ok? ==> r.value.Vec? && IsAscendingRun(r.value.items)
    decreases |s| + 1, 2
  {
    var parts := SplitDots(s[1..|s| - 1]);
    if |parts| != 2 then Err(InvalidRange)
    else
      var start :- ParseValue(fl, Trim(parts[0]));
      var end :- ParseValue(fl, Trim(parts[1]));
      if start.Int? && end.Int? then Ok(Vec(RangeList(start.i, end.i))) else Err(InvalidRange)
  }

  /** The branches after the i32 test, in the source's order. */
  function ParseNonInteger(fl: FloatOps, s: string): (r: Res<Value>)
    decreases |s| + 1, 1
  {
    var f := Replace(s, ',', '.');
    if IsFloatLiteral(f) then Ok(Float(fl.literal(f)))
    else if EqIgnoreAsciiCase(s, "true") then Ok(Bool(true))
    else if EqIgnoreAsciiCase(s, "false") then Ok(Bool(false))
    else if StartsWith(s, '[') && EndsWith(s, ']') then ParseList(fl, s)
    else if StartsWith(s, '{') && EndsWith(s, '}') then
      var inner := TrimEndMatches(TrimStartMatches(s, '{'), '}');
      ParseQuotation(fl, SplitOn(inner, ','), |s|)
    else if StartsWith(s, '"') && EndsWith(s, '"') then
      if |s| < 2 then Panic(SliceOutOfRange) else Ok(Str(s[1..|s| - 1]))
    else ParseSingleValue(s)
  }

  /** The plain-list branch: comma pieces, each trimmed and parsed, adjacent elements
      of the same constructor. */
  function ParseList(fl: FloatOps, s: string): (r: Res<Value>)
    requires StartsWith(s, '[') && EndsWith(s, ']')
    ensures r.Ok? ==> r.value.Vec? && AdjacentSameType(r.value.items)
    decreases |s| + 1, 0
  {
    var elements :- ParseAll(fl, SplitOn(s[1..|s| - 1], ','), true, |s|);
    if AdjacentSameType(elements) then Ok(Vec(elements)) else Err(MixedList)
  }

  /** Parses each piece in order (trimmed first when `trim`), stopping at the first
      failure, as `map(..).collect::<Result<Vec<_>, _>>()` does. */
  function ParseAll(fl: FloatOps, pieces: seq<string>, trim: bool, bound: nat): (r: Res<seq<Value>>)
    requires forall k :: 0 <= k < |pieces| ==> |pieces[k]| < bound
    ensures r.Ok? ==> |r.value| == |pieces|
    ensures r.Ok? ==> forall k :: 0 <= k < |pieces| ==> ParseValue(fl, Piece(pieces, trim, k)) == Ok(r.value[k])
    decreases bound, |pieces| + 4
  {
    if |pieces| == 0 then Ok([])
    else
      var piece := if trim then Trim(pieces[0]) else pieces[0];
      var first :- ParseValue(fl, piece);
      var rest :- ParseAll(fl, pieces[1..], trim, bound);
      Ok([first] + rest)
  }

  /** The `k`th piece as it is handed to `parse_value`: trimmed or as it is. */
  function Piece(pieces: seq<string>, trim: bool, k: nat): string
    requires k < |pieces|
  {
    if trim then Trim(pieces[k]) else pieces[k]
  }

  /** Starts and ends with `q`; a lone `q` does both. */
  predicate IsQuoted(s: string, q: char) {
    |s| >= 2 && s[0] == q && s[|s| - 1] == q
  }

  /** `parse_quotation`: every piece, untrimmed, becomes one element. */
  function ParseQuotation(fl: FloatOps, pieces: seq<string>, bound: nat): (r: Res<Value>)
    requires forall k :: 0 <= k < |pieces| ==> |pieces[k]| < bound
    ensures r.Ok? ==> r.value.Quotation? && |r.value.body| == |pieces|
    decreases bound, |pieces| + 5
  {
    var values :- ParseAll(fl, pieces, false, bound);
    Ok(Quotation(values))
  }

  /** `parse_single_value`: the forms left once the compound ones are ruled out.
      `len() == 1` counts UTF-8 bytes, so a lone non-ASCII character is rejected. */
  function ParseSingleValue(s: string): (r: Res<Value>)
    ensures r.Panic? <==> s == "'" || s == "\""
    ensures r.Panic? ==> r.msg == SliceOutOfRange
    ensures r.Err? ==> r.msg == Unrecognizable && ParseI32(s).None? && ByteLen(s) != 1
    ensures r.Ok? && r.value.Int? ==> ParseI32(s) == Some(r.value.i)
    ensures r.Ok? && r.value.Bool? ==> EqIgnoreAsciiCase(s, if r.value.b then "true" else "false")
    ensures r.Ok? && r.value.Str? ==> IsQuoted(s, '"') && r.value.s == s[1..|s| - 1]
    ensures r.Ok? && r.value.Symbol? ==>
      (IsQuoted(s, '\'') && r.value.name == s[1..|s| - 1]) || (ByteLen(s) == 1 && r.value.name == s)
    ensures r.Ok? ==> r.value.Int? || r.value.Bool? || r.value.Str? || r.value.Symbol?
  {
    match ParseI32(s)
    case Some(n) => Ok(Int(n))
    case None =>
      if EqIgnoreAsciiCase(s, "true") then Ok(Bool(true))
      else if EqIgnoreAsciiCase(s, "false") then Ok(Bool(false))
      else if StartsWith(s, '\'') && EndsWith(s, '\'') then
        if |s| < 2 then Panic(SliceOutOfRange) else Ok(Symbol(s[1..|s| - 1]))
      else if StartsWith(s, '"') && EndsWith(s, '"') then
        if |s| < 2 then Panic(SliceOutOfRange) else Ok(Str(s[1..|s| - 1]))
      else if ByteLen(s) == 1 then Ok(Symbol(s))
      else Err(Unrecognizable)
  }
}
