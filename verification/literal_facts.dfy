/** What the literal parser promises: the precedence of its forms, the shape of
    ranges and lists, and the round trip between `Display` and quotation literals. */
module LiteralFacts {
  import opened Outcomes
  import opened I32
  import opened Strings
  import opened Values
  import opened Literals

  /** Any span that `parse::<i32>` accepts becomes an Int, never a Float or Symbol. */
  lemma IntegersWin(fl: FloatOps, s: string)
    requires ParseI32(s).Some?
    ensures ParseValue(fl, s) == Ok(Int(ParseI32(s).value))
  {
    assert !RangeShaped(s);
  }

  lemma LowerIsIdempotent(s: string, word: string)
    requires EqIgnoreAsciiCase(s, word)
    requires forall k :: 0 <= k < |word| ==> 'a' <= word[k] <= 'z'
    ensures AsciiLowered(s) == word
    ensures forall k :: 0 <= k < |s| ==>
      s[k] != ',' && s[k] != '.' && !IsDigit(s[k]) && s[k] != '+' && s[k] != '-' && s[k] != '['
  {
  }

  /** `true` and `false`, in any mix of cases, are booleans. */
  lemma BooleansInAnyCase(fl: FloatOps, s: string)
    requires EqIgnoreAsciiCase(s, "true") || EqIgnoreAsciiCase(s, "false")
    ensures ParseValue(fl, s) == Ok(Bool(EqIgnoreAsciiCase(s, "true")))
  {
    var word := if EqIgnoreAsciiCase(s, "true") then "true" else "false";
    LowerIsIdempotent(s, word);
    assert !StartsWith(s, '[') && !IsDigit(s[0]) && s[0] != '+' && s[0] != '-';
    assert ParseI32(s) == None;
    assert Replace(s, ',', '.') == s;
    NotAFloat(s, word);
    assert ParseNonInteger(fl, s) == Ok(Bool(EqIgnoreAsciiCase(s, "true")));
  }

  lemma NotAFloat(s: string, word: string)
    requires word == "true" || word == "false"
    requires EqIgnoreAsciiCase(s, word) && AsciiLowered(s) == word
    requires forall k :: 0 <= k < |s| ==> s[k] != '.' && !IsDigit(s[k]) && s[k] != '+' && s[k] != '-'
    ensures !IsFloatLiteral(s)
  {
    assert IndexOf(word, 'e') == Some(|s| - 1);
    assert IndexOf(s[..|s| - 1], '.') == None;
    assert !AllDigits(s[..|s| - 1]) by { assert !IsDigit(s[0]); }
    assert !IsDecimalNumber(s);
    assert !EqIgnoreAsciiCase(s, "inf") && !EqIgnoreAsciiCase(s, "infinity") && !EqIgnoreAsciiCase(s, "nan");
  }

  /** `[a..b]` with Int ends is the inclusive ascending run, empty when `a > b`. */
  lemma RangeOfInts(fl: FloatOps, s: string)
    requires RangeShaped(s)
    requires var parts := SplitDots(s[1..|s| - 1]);
      && |parts| == 2
      && ParseValue(fl, Trim(parts[0])).Ok? && ParseValue(fl, Trim(parts[0])).value.Int?
      && ParseValue(fl, Trim(parts[1])).Ok? && ParseValue(fl, Trim(parts[1])).value.Int?
    ensures var parts := SplitDots(s[1..|s| - 1]);
      var a, b := ParseValue(fl, Trim(parts[0])).value.i, ParseValue(fl, Trim(parts[1])).value.i;
      ParseValue(fl, s) == Ok(Vec(RangeList(a, b)))
  {
    assert ParseValue(fl, s) == ParseRange(fl, s);
  }

  /** A range span fails unless it has exactly two parts around `..` and both parse to Ints. */
  lemma RangeErrors(fl: FloatOps, s: string)
    requires RangeShaped(s)
    ensures var parts := SplitDots(s[1..|s| - 1]);
      |parts| != 2 ==> ParseValue(fl, s) == Err(InvalidRange)
    ensures var parts := SplitDots(s[1..|s| - 1]);
      && |parts| == 2
      && ParseValue(fl, Trim(parts[0])).Ok? && ParseValue(fl, Trim(parts[1])).Ok?
      && !(ParseValue(fl, Trim(parts[0])).value.Int? && ParseValue(fl, Trim(parts[1])).value.Int?)
      ==> ParseValue(fl, s) == Err(InvalidRange)
  {
  }

  /** A span of the form `[..]` containing `..` is read as a range, never as a plain list:
      what it parses to is an ascending run of Ints. */
  lemma RangesComeFirst(fl: FloatOps, s: string)
    requires RangeShaped(s) && ParseValue(fl, s).Ok?
    ensures ParseValue(fl, s).value.Vec? && IsAscendingRun(ParseValue(fl, s).value.items)
  {
  }

  lemma {:induction false} AdjacentToAll(vs: seq<Value>)
    requires AdjacentSameType(vs)
    ensures forall j, k :: 0 <= j < |vs| && 0 <= k < |vs| ==> TagOf(vs[j]) == TagOf(vs[k])
    decreases |vs|
  {
    if |vs| > 1 {
      var init := vs[..|vs| - 1];
      assert AdjacentSameType(init) by {
        forall k | 0 <= k < |init| - 1 ensures SameType(init[k], init[k + 1]) {
          assert init[k] == vs[k] && init[k + 1] == vs[k + 1];
        }
      }
      AdjacentToAll(init);
      assert SameType(vs[|vs| - 2], vs[|vs| - 1]);
      forall j | 0 <= j < |vs| ensures TagOf(vs[j]) == TagOf(vs[0]) {
        if j < |vs| - 1 {
          assert init[j] == vs[j] && init[0] == vs[0];
        } else {
          assert init[|vs| - 2] == vs[|vs| - 2];
        }
      }
    }
  }

  /** A bracketed literal that parses is a list whose elements all share one constructor. */
  lemma BracketListsAreHomogeneous(fl: FloatOps, s: string)
    requires StartsWith(s, '[') && EndsWith(s, ']')
    requires ParseValue(fl, s).Ok?
    ensures ParseValue(fl, s).value.Vec?
    ensures var vs := ParseValue(fl, s).value.items;
      forall j, k :: 0 <= j < |vs| && 0 <= k < |vs| ==> SameType(vs[j], vs[k])
  {
    if RangeShaped(s) {
      RangesComeFirst(fl, s);
      AllIntsSameType(ParseValue(fl, s).value.items);
    } else {
      BracketsAreLists(fl, s);
      AdjacentToAll(ParseValue(fl, s).value.items);
    }
  }

  lemma AllIntsSameType(vs: seq<Value>)
    requires IsAscendingRun(vs)
    ensures forall j, k :: 0 <= j < |vs| && 0 <= k < |vs| ==> SameType(vs[j], vs[k])
  {
  }

  /** A span starting with `[` is neither a float nor a boolean. */
  lemma BracketNotScalar(s: string)
    requires StartsWith(s, '[')
    ensures !IsFloatLiteral(Replace(s, ',', '.'))
    ensures !EqIgnoreAsciiCase(s, "true") && !EqIgnoreAsciiCase(s, "false")
  {
    var f := Replace(s, ',', '.');
    assert f[0] == '[';
    assert AsciiLower(f[0]) == '[';
    assert !EqIgnoreAsciiCase(f, "inf") && !EqIgnoreAsciiCase(f, "infinity") && !EqIgnoreAsciiCase(f, "nan");
    assert !IsDecimalNumber(f) by {
      match IndexOf(AsciiLowered(f), 'e')
      case None =>
        NotMantissa(f);
      case Some(e) =>
        assert AsciiLowered(f)[0] == '[';
        assert e > 0;
        NotMantissa(f[..e]);
    }
  }

  lemma NotMantissa(m: string)
    requires StartsWith(m, '[')
    ensures !IsMantissa(m)
  {
    assert !IsDigit(m[0]);
    match IndexOf(m, '.')
    case None =>
    case Some(d) =>
      assert d > 0;
      assert m[..d][0] == m[0];
  }

  /** A span that starts with neither a digit nor a sign is not an i32. */
  lemma NotAnInteger(s: string)
    requires |s| > 0 && !IsDigit(s[0]) && s[0] != '+' && s[0] != '-'
    ensures ParseI32(s) == None
  {
  }

  /** A span between braces is read as a quotation of its comma pieces. */
  lemma BracesAreQuotations(fl: FloatOps, s: string)
    requires StartsWith(s, '{') && EndsWith(s, '}')
    ensures ParseValue(fl, s) == ParseQuotation(fl, SplitOn(TrimEndMatches(TrimStartMatches(s, '{'), '}'), ','), |s|)
  {
    assert !RangeShaped(s);
    NotAnInteger(s);
    assert ParseValue(fl, s) == ParseNonInteger(fl, s);
    BraceNotFloat(Replace(s, ',', '.'));
    BraceNotBool(s);
  }

  lemma BraceNotBool(s: string)
    requires StartsWith(s, '{')
    ensures !EqIgnoreAsciiCase(s, "true") && !EqIgnoreAsciiCase(s, "false")
  {
    assert AsciiLower(s[0]) == '{';
  }

  /** A span between square brackets without `..` is read as a plain list. */
  lemma BracketsAreLists(fl: FloatOps, s: string)
    requires StartsWith(s, '[') && EndsWith(s, ']') && !ContainsDots(s)
    ensures ParseValue(fl, s) == ParseList(fl, s)
  {
    NotAnInteger(s);
    BracketNotScalar(s);
  }

  /** `[]` and `{}` are errors: the one empty piece between the brackets is unrecognised. */
  lemma EmptyBracketsFail(fl: FloatOps)
    ensures ParseValue(fl, "[]") == Err(Unrecognizable)
    ensures ParseValue(fl, "{}") == Err(Unrecognizable)
  {
    EmptyListFails(fl);
    EmptyQuotationFails(fl);
  }

  lemma EmptyIsUnrecognizable(fl: FloatOps)
    ensures ParseValue(fl, "") == Err(Unrecognizable)
  {
    assert ParseI32("") == None;
    assert !IsFloatLiteral("");
    assert ParseSingleValue("") == Err(Unrecognizable);
  }

  lemma EmptyListFails(fl: FloatOps)
    ensures ParseValue(fl, "[]") == Err(Unrecognizable)
  {
    EmptyIsUnrecognizable(fl);
    assert !ContainsDots("[]");
    BracketsAreLists(fl, "[]");
    assert "[]"[1..1] == "";
    assert SplitOn("", ',') == [""];
    assert Trim("") == "";
  }

  lemma EmptyQuotationFails(fl: FloatOps)
    ensures ParseValue(fl, "{}") == Err(Unrecognizable)
  {
    EmptyIsUnrecognizable(fl);
    assert TrimStartMatches("{}", '{') == "}";
    assert TrimEndMatches("}", '}') == "";
    assert SplitOn("", ',') == [""];
    BracesAreQuotations(fl, "{}");
  }

  /** A quotation of one piece is the quotation of that piece's value, or its failure. */
  lemma SinglePieceQuotation(fl: FloatOps, piece: string, bound: nat)
    requires |piece| < bound
    ensures ParseValue(fl, piece).Ok? ==> ParseQuotation(fl, [piece], bound) == Ok(Quotation([ParseValue(fl, piece).value]))
    ensures ParseValue(fl, piece).Err? ==> ParseQuotation(fl, [piece], bound) == Err(ParseValue(fl, piece).msg)
  {
    var v := ParseValue(fl, piece);
    assert [piece][0] == piece && [piece][1..] == [];
    assert ParseAll(fl, [piece][1..], false, bound) == Ok([]);
    if v.Ok? {
      assert [v.value] + [] == [v.value];
      assert ParseAll(fl, [piece], false, bound) == Ok([v.value]);
    } else if v.Err? {
      assert ParseAll(fl, [piece], false, bound) == Err(v.msg);
    }
  }

  /** Inside a quotation a bare multi-character word is unrecognised; the keyword has
      to be single-quoted. */
  lemma BareKeywordInQuotation(fl: FloatOps)
    ensures ParseValue(fl, "{exec}") == Err(Unrecognizable)
  {
    assert "{" + "exec" + "}" == "{exec}";
    PieceOfBraces(fl, "exec");
    ExecIsNoLiteral(fl);
    SinglePieceQuotation(fl, "exec", 6);
  }

  lemma ExecIsNoLiteral(fl: FloatOps)
    ensures ParseValue(fl, "exec") == Err(Unrecognizable)
  {
    ExecText();
    assert !RangeShaped("exec");
    assert ParseValue(fl, "exec") == ParseNonInteger(fl, "exec");
  }

  /** The text `exec` fits none of the literal forms. */
  lemma ExecText()
    ensures ParseI32("exec") == None && ByteLen("exec") == 4
    ensures Replace("exec", ',', '.') == "exec" && !IsFloatLiteral("exec")
    ensures !EqIgnoreAsciiCase("exec", "true") && !EqIgnoreAsciiCase("exec", "false")
  {
    NotAnInteger("exec");
    assert Replace("exec", ',', '.') == "exec";
    assert !IsFloatLiteral("exec") by {
      assert AsciiLowered("exec") == "exec";
      assert IndexOf("exec", 'e') == Some(0);
      assert !IsMantissa("exec"[..0]);
    }
  }

  /** A single-quoted keyword inside a quotation is that keyword's symbol. */
  lemma QuotedKeywordInQuotation(fl: FloatOps)
    ensures ParseValue(fl, "{'exec'}") == Ok(Quotation([Symbol("exec")]))
  {
    assert "{" + "'exec'" + "}" == "{'exec'}";
    PieceOfBraces(fl, "'exec'");
    QuotedExecIsSymbol(fl);
    SinglePieceQuotation(fl, "'exec'", 8);
  }

  lemma QuotedExecIsSymbol(fl: FloatOps)
    ensures ParseValue(fl, "'exec'") == Ok(Symbol("exec"))
  {
    assert "'" + "exec" + "'" == "'exec'";
    QuotedNameIsSymbol(fl, "exec");
  }

  /** A name between single quotes is that name's symbol, commas included. */
  lemma QuotedNameIsSymbol(fl: FloatOps, name: string)
    ensures ParseValue(fl, "'" + name + "'") == Ok(Symbol(name))
  {
    var s := "'" + name + "'";
    NotAnInteger(s);
    var f := Replace(s, ',', '.');
    assert f[0] == '\'' && !IsFloatChar(f[0]);
    assert !IsFloatLiteral(f);
    assert AsciiLower(s[0]) != AsciiLower('t') && AsciiLower(s[0]) != AsciiLower('f');
    assert !EqIgnoreAsciiCase(s, "true") && !EqIgnoreAsciiCase(s, "false");
    assert ParseNonInteger(fl, s) == ParseSingleValue(s);
    assert s[1..|s| - 1] == name;
  }

  /** A one-character operator needs no quotes. */
  lemma OperatorInQuotation(fl: FloatOps)
    ensures ParseValue(fl, "{*}") == Ok(Quotation([Symbol("*")]))
  {
    assert "{" + "*" + "}" == "{*}";
    PieceOfBraces(fl, "*");
    StarIsSymbol(fl);
    SinglePieceQuotation(fl, "*", 3);
  }

  lemma StarIsSymbol(fl: FloatOps)
    ensures ParseValue(fl, "*") == Ok(Symbol("*"))
  {
    NotAnInteger("*");
    NotMantissaStart("*");
    assert Replace("*", ',', '.') == "*";
    assert ByteLen("*") == 1;
  }

  /** `{+}` is the quotation of the symbol `+`. */
  lemma PlusInQuotation(fl: FloatOps)
    ensures ParseValue(fl, "{+}") == Ok(Quotation([Symbol("+")]))
  {
    assert "{" + "+" + "}" == "{+}";
    PieceOfBraces(fl, "+");
    PlusIsSymbol(fl);
    SinglePieceQuotation(fl, "+", 3);
  }

  /** A lone sign is neither an i32 nor a float: `+` is a one-character symbol. */
  lemma PlusIsSymbol(fl: FloatOps)
    ensures ParseValue(fl, "+") == Ok(Symbol("+"))
  {
    assert ParseI32("+") == None;
    assert "+"[1..] == "";
    assert !IsMantissa("");
    assert Replace("+", ',', '.') == "+";
    assert ByteLen("+") == 1;
  }

  lemma PieceOfBraces(fl: FloatOps, piece: string)
    requires |piece| > 0 && piece[0] != '{' && piece[|piece| - 1] != '}' && ',' !in piece
    ensures ParseValue(fl, "{" + piece + "}") == ParseQuotation(fl, [piece], |piece| + 2)
  {
    var s := "{" + piece + "}";
    assert s[1..] == piece + "}";
    assert TrimStartMatches(s, '{') == piece + "}";
    assert (piece + "}")[..|piece|] == piece;
    assert TrimEndMatches(piece + "}", '}') == piece;
    assert SplitOn(piece, ',') == [piece];
    BracesAreQuotations(fl, s);
  }

  /** A span whose first character is neither a digit nor `.` is not a decimal mantissa. */
  lemma NotMantissaStart(m: string)
    requires |m| > 0 && !IsDigit(m[0]) && m[0] != '.' && m[0] != '+' && m[0] != '-'
    requires AsciiLower(m[0]) != 'i' && AsciiLower(m[0]) != 'n'
    ensures !IsMantissa(m)
    ensures AsciiLower(m[0]) != 'e' ==> !IsFloatLiteral(m)
  {
    match IndexOf(m, '.')
    case None =>
    case Some(d) =>
      assert d > 0;
      assert m[..d][0] == m[0];
    if AsciiLower(m[0]) != 'e' {
      assert AsciiLowered(m)[0] == AsciiLower(m[0]);
      match IndexOf(AsciiLowered(m), 'e')
      case None =>
      case Some(e) =>
        assert e > 0;
        assert m[..e][0] == m[0];
        NotMantissaStart(m[..e]);
    }
  }

  /** Splitting `a..b` where neither side holds `..` and `a` does not end in `.`. */
  lemma SplitDotsPair(a: string, b: string)
    requires !ContainsDots(a) && !ContainsDots(b)
    requires |a| == 0 || a[|a| - 1] != '.'
    ensures SplitDots(a + ".." + b) == [a, b]
  {
    var s := a + ".." + b;
    assert DotsAt(s, |a|);
    forall k | 0 <= k < |a| ensures !DotsAt(s, k) {
      if k + 1 < |a| {
        assert !DotsAt(a, k);
      }
    }
    assert IndexOfDots(s) == Some(|a|);
    assert s[..|a|] == a && s[|a| + 2..] == b;
  }

  /** Concrete ranges: `[1..3]` is [1,2,3] and `[3..1]` is empty. */
  lemma AscendingRangeExample(fl: FloatOps)
    ensures ParseValue(fl, "[1..3]") == Ok(Vec([Int(1), Int(2), Int(3)]))
  {
    assert "[" + "1" + ".." + "3" + "]" == "[1..3]";
    RangeParts("1", "3");
    OneAndThree(fl);
    RangeOfInts(fl, "[1..3]");
    OneToThree();
  }

  lemma EmptyRangeExample(fl: FloatOps)
    ensures ParseValue(fl, "[3..1]") == Ok(Vec([]))
  {
    assert "[" + "3" + ".." + "1" + "]" == "[3..1]";
    RangeParts("3", "1");
    OneAndThree(fl);
    RangeOfInts(fl, "[3..1]");
  }

  lemma OneAndThree(fl: FloatOps)
    ensures ParseValue(fl, "1") == Ok(Int(1)) && ParseValue(fl, "3") == Ok(Int(3))
  {
    assert ParseI32("1") == Some(1) && ParseI32("3") == Some(3);
    IntegersWin(fl, "1");
    IntegersWin(fl, "3");
  }

  lemma OneToThree()
    ensures RangeList(1, 3) == [Int(1), Int(2), Int(3)]
  {
    var r := RangeList(1, 3);
    assert |r| == 3 && r[0] == Int(1) && r[1] == Int(2) && r[2] == Int(3);
  }

  /** `[a..b]` for single digits a and b is range-shaped with parts a and b. */
  lemma RangeParts(a: string, b: string)
    requires |a| == 1 && |b| == 1 && IsDigit(a[0]) && IsDigit(b[0])
    ensures RangeShaped("[" + a + ".." + b + "]")
    ensures SplitDots(("[" + a + ".." + b + "]")[1..5]) == [a, b]
    ensures Trim(a) == a && Trim(b) == b
  {
    var s := "[" + a + ".." + b + "]";
    assert s[1..5] == a + ".." + b;
    assert DotsAt(s, 2);
    SingleDigitNoDots(a);
    SingleDigitNoDots(b);
    SplitDotsPair(a, b);
  }

  lemma SingleDigitNoDots(a: string)
    requires |a| == 1 && IsDigit(a[0])
    ensures !ContainsDots(a) && Trim(a) == a
  {
  }

  function Renders(ns: seq<Int32>): seq<string> {
    seq(|ns|, k requires 0 <= k < |ns| => IntToString(ns[k]))
  }

  function Ints(ns: seq<Int32>): seq<Value> {
    seq(|ns|, k requires 0 <= k < |ns| => Int(ns[k]))
  }

  lemma RendersHaveNoComma(ns: seq<Int32>)
    ensures forall k :: 0 <= k < |ns| ==> ',' !in Renders(ns)[k] && |Renders(ns)[k]| > 0
    ensures forall k :: 0 <= k < |ns| ==> Renders(ns)[k][0] != '{'
    ensures forall k :: 0 <= k < |ns| ==> var r := Renders(ns)[k]; IsDigit(r[|r| - 1])
  {
    forall k | 0 <= k < |ns| ensures ',' !in Renders(ns)[k] {
      var d := NatToDecimal(if ns[k] < 0 then -(ns[k] as int) else ns[k]);
      assert Renders(ns)[k] == (if ns[k] < 0 then "-" + d else d);
      assert forall j :: 0 <= j < |d| ==> d[j] != ',';
    }
  }

  lemma {:induction false} JoinShape(parts: seq<string>, sep: string)
    requires |parts| >= 1
    requires forall k :: 0 <= k < |parts| ==> |parts[k]| > 0
    ensures |Join(sep, parts)| > 0
    ensures Join(sep, parts)[0] == parts[0][0]
    ensures var j := Join(sep, parts); var l := parts[|parts| - 1]; j[|j| - 1] == l[|l| - 1]
    decreases |parts|
  {
    if |parts| > 1 {
      JoinShape(parts[1..], sep);
    }
  }

  /** A quotation literal of Ints, written with commas, parses to the quotation of
      those Ints; rendering that quotation gives the same numbers joined by single
      spaces between braces. */
  lemma QuotationRoundTrip(fl: FloatOps, ns: seq<Int32>)
    requires |ns| >= 1
    ensures ParseValue(fl, "{" + Join(",", Renders(ns)) + "}") == Ok(Quotation(Ints(ns)))
    ensures Renderable(Quotation(Ints(ns)))
    ensures Display(Quotation(Ints(ns))) == "{" + Join(" ", Renders(ns)) + "}"
  {
    QuotationLiteralOfInts(fl, ns);
    DisplayQuotationOfInts(ns);
  }

  lemma QuotationLiteralOfInts(fl: FloatOps, ns: seq<Int32>)
    requires |ns| >= 1
    ensures ParseValue(fl, "{" + Join(",", Renders(ns)) + "}") == Ok(Quotation(Ints(ns)))
  {
    var s := "{" + Join(",", Renders(ns)) + "}";
    BracedRenders(ns);
    BracesAreQuotations(fl, s);
    ParseAllInts(fl, ns, false, |s|);
  }

  /** The text between the braces of a quotation of renderings splits back into them. */
  lemma BracedRenders(ns: seq<Int32>)
    requires |ns| >= 1
    ensures var text := Join(",", Renders(ns)); var s := "{" + text + "}";
      && StartsWith(s, '{') && EndsWith(s, '}')
      && SplitOn(TrimEndMatches(TrimStartMatches(s, '{'), '}'), ',') == Renders(ns)
      && forall k :: 0 <= k < |ns| ==> |Renders(ns)[k]| < |s|
  {
    var text := Join(",", Renders(ns));
    var s := "{" + text + "}";
    RendersHaveNoComma(ns);
    JoinShape(Renders(ns), ",");
    assert TrimStartMatches(s, '{') == text + "}" by {
      assert s[1..] == text + "}";
    }
    assert TrimEndMatches(text + "}", '}') == text by {
      assert (text + "}")[..|text|] == text;
    }
    SplitJoinRoundTrip(Renders(ns), ',');
    assert forall k :: 0 <= k < |ns| ==> |Renders(ns)[k]| <= |text|;
  }

  lemma DisplayQuotationOfInts(ns: seq<Int32>)
    ensures Renderable(Quotation(Ints(ns)))
    ensures Display(Quotation(Ints(ns))) == "{" + Join(" ", Renders(ns)) + "}"
  {
    var vs := Ints(ns);
    assert seq(|vs|, k requires 0 <= k < |vs| && Renderable(vs[k]) => Display(vs[k])) == Renders(ns);
  }

  lemma BraceNotFloat(f: string)
    requires StartsWith(f, '{')
    ensures !IsFloatLiteral(f)
  {
    assert AsciiLower(f[0]) == '{';
    assert !EqIgnoreAsciiCase(f, "inf") && !EqIgnoreAsciiCase(f, "infinity") && !EqIgnoreAsciiCase(f, "nan");
    assert !IsDecimalNumber(f) by {
      match IndexOf(AsciiLowered(f), 'e')
      case None =>
        BraceNotMantissa(f);
      case Some(e) =>
        assert AsciiLowered(f)[0] == '{';
        assert e > 0;
        BraceNotMantissa(f[..e]);
    }
  }

  lemma BraceNotMantissa(m: string)
    requires StartsWith(m, '{')
    ensures !IsMantissa(m)
  {
    assert !IsDigit(m[0]);
    match IndexOf(m, '.')
    case None =>
    case Some(d) =>
      assert d > 0;
      assert m[..d][0] == m[0];
  }

  lemma {:induction false} ParseAllInts(fl: FloatOps, ns: seq<Int32>, trim: bool, bound: nat)
    requires forall k :: 0 <= k < |ns| ==> |Renders(ns)[k]| < bound
    ensures ParseAll(fl, Renders(ns), trim, bound) == Ok(Ints(ns))
    decreases |ns|
  {
    if |ns| > 0 {
      RenderParses(fl, ns[0], trim);
      RendersSplit(ns);
      ParseAllInts(fl, ns[1..], trim, bound);
      ParseAllStep(fl, Renders(ns), trim, bound, Int(ns[0]), Ints(ns[1..]));
    } else {
      assert Renders(ns) == [] && Ints(ns) == [];
    }
  }

  /** A rendered `i32`, trimmed or not, parses back to that Int. */
  lemma RenderParses(fl: FloatOps, n: Int32, trim: bool)
    ensures ParseValue(fl, if trim then Trim(IntToString(n)) else IntToString(n)) == Ok(Int(n))
  {
    IntToStringRoundTrip(n);
    IntegersWin(fl, IntToString(n));
    RenderIsTrimmed(n);
  }

  lemma RendersSplit(ns: seq<Int32>)
    requires |ns| > 0
    ensures |Renders(ns)| == |ns| && Renders(ns)[0] == IntToString(ns[0]) && Renders(ns)[1..] == Renders(ns[1..])
    ensures Ints(ns) == [Int(ns[0])] + Ints(ns[1..])
  {
  }

  /** One step of `ParseAll`: the first piece's value in front of the rest's. */
  lemma ParseAllStep(fl: FloatOps, pieces: seq<string>, trim: bool, bound: nat, v: Value, vs: seq<Value>)
    requires |pieces| > 0 && forall k :: 0 <= k < |pieces| ==> |pieces[k]| < bound
    requires ParseValue(fl, if trim then Trim(pieces[0]) else pieces[0]) == Ok(v)
    requires ParseAll(fl, pieces[1..], trim, bound) == Ok(vs)
    ensures ParseAll(fl, pieces, trim, bound) == Ok([v] + vs)
  {
  }

  /** A rendered `i32` has no surrounding whitespace. */
  lemma RenderIsTrimmed(n: Int32)
    ensures Trim(IntToString(n)) == IntToString(n)
  {
    var s := IntToString(n);
    var d := NatToDecimal(if n < 0 then -(n as int) else n);
    assert s == (if n < 0 then "-" + d else d);
    assert s[|s| - 1] == d[|d| - 1];
    assert !IsWhitespace(s[0]) && !IsWhitespace(s[|s| - 1]);
    assert TrimStart(s) == s;
  }

  /** A list literal of Ints, written with commas, parses to the list of those Ints. */
  lemma ListLiteralOfInts(fl: FloatOps, ns: seq<Int32>)
    requires |ns| >= 1
    ensures ParseValue(fl, "[" + Join(",", Renders(ns)) + "]") == Ok(Vec(Ints(ns)))
  {
    var text := Join(",", Renders(ns));
    var s := "[" + text + "]";
    RenderedListText(ns);
    BracketsAreLists(fl, s);
    assert s[1..|s| - 1] == text;
    ParseAllInts(fl, ns, true, |s|);
    IntsAreHomogeneous(ns);
  }

  lemma IntsAreHomogeneous(ns: seq<Int32>)
    ensures AdjacentSameType(Ints(ns))
  {
  }

  /** The text between the brackets of a rendered list: no `..` anywhere, and its
      comma pieces are the renderings. */
  lemma RenderedListText(ns: seq<Int32>)
    requires |ns| >= 1
    ensures var text := Join(",", Renders(ns));
      && !ContainsDots("[" + text + "]")
      && SplitOn(text, ',') == Renders(ns)
      && forall k :: 0 <= k < |ns| ==> |Renders(ns)[k]| <= |text|
  {
    var text := Join(",", Renders(ns));
    RendersHaveNoComma(ns);
    RendersHaveNoDot(ns);
    JoinAvoids(",", Renders(ns), '.');
    NoDotNoDots("[" + text + "]");
    SplitJoinRoundTrip(Renders(ns), ',');
  }

  lemma RendersHaveNoDot(ns: seq<Int32>)
    ensures forall k :: 0 <= k < |ns| ==> '.' !in Renders(ns)[k]
  {
    forall k | 0 <= k < |ns| ensures '.' !in Renders(ns)[k] {
      var d := NatToDecimal(if ns[k] < 0 then -(ns[k] as int) else ns[k]);
      assert Renders(ns)[k] == (if ns[k] < 0 then "-" + d else d);
      assert forall j :: 0 <= j < |d| ==> d[j] != '.';
    }
  }

  lemma NoDotNoDots(s: string)
    requires '.' !in s
    ensures !ContainsDots(s)
  {
  }

  // ---------------------------------------------------------------- collecting results

  /** `collect::<Result<Vec<_>, _>>()`: the pieces parse together exactly when each one does. */
  lemma {:induction false} ParseAllOkIff(fl: FloatOps, pieces: seq<string>, trim: bool, bound: nat)
    requires forall k :: 0 <= k < |pieces| ==> |pieces[k]| < bound
    ensures ParseAll(fl, pieces, trim, bound).Ok? <==>
      forall k :: 0 <= k < |pieces| ==> ParseValue(fl, Piece(pieces, trim, k)).Ok?
    decreases |pieces|
  {
    if |pieces| > 0 {
      var rest := pieces[1..];
      ParseAllOkIff(fl, rest, trim, bound);
      ParseAllCons(fl, pieces, trim, bound);
      PieceShift(pieces, trim);
      if forall k :: 0 <= k < |pieces| ==> ParseValue(fl, Piece(pieces, trim, k)).Ok? {
        forall k | 0 <= k < |rest| ensures ParseValue(fl, Piece(rest, trim, k)).Ok? {
          assert Piece(rest, trim, k) == Piece(pieces, trim, k + 1);
        }
      }
    }
  }

  /** ... and otherwise the result is the failure of the first piece that fails. */
  lemma ParseAllFailsAtFirst(fl: FloatOps, pieces: seq<string>, trim: bool, bound: nat, i: nat)
    requires forall k :: 0 <= k < |pieces| ==> |pieces[k]| < bound
    requires i < |pieces| && !ParseValue(fl, Piece(pieces, trim, i)).Ok?
    requires forall k :: 0 <= k < i ==> ParseValue(fl, Piece(pieces, trim, k)).Ok?
    ensures ParseAll(fl, pieces, trim, bound) == ParseValue(fl, Piece(pieces, trim, i)).PropagateFailure()
  {
    FailsFromSuffix(fl, pieces, trim, bound, i, 0);
    assert pieces[0..] == pieces;
  }

  /** Every suffix that still holds the first failing piece `i` fails with it. */
  lemma {:induction false} FailsFromSuffix(fl: FloatOps, pieces: seq<string>, trim: bool, bound: nat, i: nat, j: nat)
    requires forall k :: 0 <= k < |pieces| ==> |pieces[k]| < bound
    requires j <= i < |pieces| && !ParseValue(fl, Piece(pieces, trim, i)).Ok?
    requires forall k :: 0 <= k < i ==> ParseValue(fl, Piece(pieces, trim, k)).Ok?
    ensures ParseAll(fl, pieces[j..], trim, bound) == ParseValue(fl, Piece(pieces, trim, i)).PropagateFailure()
    decreases i - j
  {
    SuffixHead(pieces, trim, bound, j);
    if j == i {
      ParseAllHeadFails(fl, pieces[j..], trim, bound);
    } else {
      FailsFromSuffix(fl, pieces, trim, bound, i, j + 1);
      ParseAllTailFails(fl, pieces[j..], trim, bound, ParseValue(fl, Piece(pieces, trim, i)));
    }
  }

  lemma SuffixHead(pieces: seq<string>, trim: bool, bound: nat, j: nat)
    requires forall k :: 0 <= k < |pieces| ==> |pieces[k]| < bound
    requires j < |pieces|
    ensures forall k :: 0 <= k < |pieces[j..]| ==> |pieces[j..][k]| < bound
    ensures Piece(pieces[j..], trim, 0) == Piece(pieces, trim, j)
    ensures pieces[j..][1..] == pieces[j + 1..]
  {
  }

  lemma ParseAllHeadFails(fl: FloatOps, pieces: seq<string>, trim: bool, bound: nat)
    requires |pieces| > 0 && forall k :: 0 <= k < |pieces| ==> |pieces[k]| < bound
    requires !ParseValue(fl, Piece(pieces, trim, 0)).Ok?
    ensures ParseAll(fl, pieces, trim, bound) == ParseValue(fl, Piece(pieces, trim, 0)).PropagateFailure()
  {
  }

  lemma ParseAllTailFails(fl: FloatOps, pieces: seq<string>, trim: bool, bound: nat, e: Res<Value>)
    requires |pieces| > 0 && forall k :: 0 <= k < |pieces| ==> |pieces[k]| < bound
    requires ParseValue(fl, Piece(pieces, trim, 0)).Ok? && !e.Ok?
    requires ParseAll(fl, pieces[1..], trim, bound) == e.PropagateFailure()
    ensures ParseAll(fl, pieces, trim, bound) == e.PropagateFailure()
  {
  }

  /** One step of `ParseAll`, with its two ways to stop. */
  lemma ParseAllCons(fl: FloatOps, pieces: seq<string>, trim: bool, bound: nat)
    requires |pieces| > 0 && forall k :: 0 <= k < |pieces| ==> |pieces[k]| < bound
    ensures var v, rest := ParseValue(fl, Piece(pieces, trim, 0)), ParseAll(fl, pieces[1..], trim, bound);
      ParseAll(fl, pieces, trim, bound) ==
        if !v.Ok? then v.PropagateFailure()
        else if !rest.Ok? then rest.PropagateFailure()
        else Ok([v.value] + rest.value)
  {
  }

  lemma PieceShift(pieces: seq<string>, trim: bool)
    requires |pieces| > 0
    ensures forall k :: 0 <= k < |pieces| - 1 ==> Piece(pieces[1..], trim, k) == Piece(pieces, trim, k + 1)
  {
  }

  /** `parse_quotation`: the elements are the pieces' values in order; a failing piece
      makes the first failure the result. */
  lemma ParseQuotationElements(fl: FloatOps, pieces: seq<string>, bound: nat)
    requires forall k :: 0 <= k < |pieces| ==> |pieces[k]| < bound
    ensures var r := ParseQuotation(fl, pieces, bound);
      && (r.Ok? <==> forall k :: 0 <= k < |pieces| ==> ParseValue(fl, pieces[k]).Ok?)
      && (r.Ok? ==>
            && r.value.Quotation? && |r.value.body| == |pieces|
            && forall k :: 0 <= k < |pieces| ==> ParseValue(fl, pieces[k]) == Ok(r.value.body[k]))
      && forall i :: 0 <= i < |pieces| && !ParseValue(fl, pieces[i]).Ok? ==>
           (forall k :: 0 <= k < i ==> ParseValue(fl, pieces[k]).Ok?) ==>
             r == ParseValue(fl, pieces[i]).PropagateFailure()
  {
    assert forall k :: 0 <= k < |pieces| ==> Piece(pieces, false, k) == pieces[k];
    ParseAllOkIff(fl, pieces, false, bound);
    forall i | 0 <= i < |pieces| && !ParseValue(fl, pieces[i]).Ok? &&
      (forall k :: 0 <= k < i ==> ParseValue(fl, pieces[k]).Ok?)
      ensures ParseQuotation(fl, pieces, bound) == ParseValue(fl, pieces[i]).PropagateFailure()
    {
      ParseAllFailsAtFirst(fl, pieces, false, bound, i);
    }
  }

  /** A bracket list holds the values of its trimmed comma pieces, in order. */
  lemma ParseListItems(fl: FloatOps, s: string, pieces: seq<string>)
    requires StartsWith(s, '[') && EndsWith(s, ']') && pieces == SplitOn(s[1..|s| - 1], ',')
    requires forall k :: 0 <= k < |pieces| ==> Piece(pieces, true, k) == Trim(pieces[k])
    ensures var r := ParseList(fl, s); r.Ok? ==>
      && r.value.Vec? && |r.value.items| == |pieces|
      && forall k :: 0 <= k < |pieces| ==> ParseValue(fl, Trim(pieces[k])) == Ok(r.value.items[k])
  {
    ParseListUnfold(fl, s);
  }

  /** When every trimmed piece parses, the list is accepted exactly when neighbouring
      values share a type, and is otherwise the mixed-type error. */
  lemma ParseListAccepted(fl: FloatOps, s: string, pieces: seq<string>)
    requires StartsWith(s, '[') && EndsWith(s, ']') && pieces == SplitOn(s[1..|s| - 1], ',')
    requires forall k :: 0 <= k < |pieces| ==> Piece(pieces, true, k) == Trim(pieces[k])
    requires forall k :: 0 <= k < |pieces| ==> ParseValue(fl, Trim(pieces[k])).Ok?
    ensures var r := ParseList(fl, s);
      && (r.Ok? || r == Err(MixedList))
      && (r.Ok? <==> forall k :: 0 <= k < |pieces| - 1 ==>
            SameType(ParseValue(fl, Trim(pieces[k])).value, ParseValue(fl, Trim(pieces[k + 1])).value))
  {
    ParseListUnfold(fl, s);
    ParseAllOkIff(fl, pieces, true, |s|);
    var items := ParseAll(fl, pieces, true, |s|).value;
    AdjacentOfParsed(fl, pieces, items);
  }

  lemma AdjacentOfParsed(fl: FloatOps, pieces: seq<string>, items: seq<Value>)
    requires |items| == |pieces|
    requires forall k :: 0 <= k < |pieces| ==> ParseValue(fl, Piece(pieces, true, k)) == Ok(items[k])
    requires forall k :: 0 <= k < |pieces| ==> Piece(pieces, true, k) == Trim(pieces[k])
    ensures AdjacentSameType(items) <==> forall k :: 0 <= k < |pieces| - 1 ==>
      SameType(ParseValue(fl, Trim(pieces[k])).value, ParseValue(fl, Trim(pieces[k + 1])).value)
  {
    assert forall k :: 0 <= k < |pieces| ==> ParseValue(fl, Trim(pieces[k])).value == items[k];
  }

  /** A piece that fails makes the first failing piece's failure the list's result. */
  lemma ParseListFirstFailure(fl: FloatOps, s: string, pieces: seq<string>)
    requires StartsWith(s, '[') && EndsWith(s, ']') && pieces == SplitOn(s[1..|s| - 1], ',')
    requires forall k :: 0 <= k < |pieces| ==> Piece(pieces, true, k) == Trim(pieces[k])
    ensures forall i :: 0 <= i < |pieces| && !ParseValue(fl, Trim(pieces[i])).Ok? ==>
      (forall k :: 0 <= k < i ==> ParseValue(fl, Trim(pieces[k])).Ok?) ==>
        ParseList(fl, s) == ParseValue(fl, Trim(pieces[i])).PropagateFailure()
  {
    forall i | 0 <= i < |pieces| && !ParseValue(fl, Trim(pieces[i])).Ok? &&
      (forall k :: 0 <= k < i ==> ParseValue(fl, Trim(pieces[k])).Ok?)
      ensures ParseList(fl, s) == ParseValue(fl, Trim(pieces[i])).PropagateFailure()
    {
      ParseListFailsAt(fl, s, pieces, i);
    }
  }

  lemma ParseListFailsAt(fl: FloatOps, s: string, pieces: seq<string>, i: nat)
    requires StartsWith(s, '[') && EndsWith(s, ']') && pieces == SplitOn(s[1..|s| - 1], ',')
    requires i < |pieces| && Piece(pieces, true, i) == Trim(pieces[i])
    requires forall k :: 0 <= k < i ==> ParseValue(fl, Piece(pieces, true, k)).Ok?
    requires !ParseValue(fl, Trim(pieces[i])).Ok?
    ensures ParseList(fl, s) == ParseValue(fl, Trim(pieces[i])).PropagateFailure()
  {
    ParseAllFailsAtFirst(fl, pieces, true, |s|, i);
    ParseListUnfold(fl, s);
  }

  lemma ParseListUnfold(fl: FloatOps, s: string)
    requires StartsWith(s, '[') && EndsWith(s, ']')
    ensures var all := ParseAll(fl, SplitOn(s[1..|s| - 1], ','), true, |s|);
      ParseList(fl, s) ==
        if !all.Ok? then all.PropagateFailure()
        else if AdjacentSameType(all.value) then Ok(Vec(all.value))
        else Err(MixedList)
  {
  }

  // ---------------------------------------------------------------- what each form needs

  /** The kind of a parsed value tells which rule read it, and from what text. */
  lemma ParseValueKinds(fl: FloatOps, s: string)
    ensures var r := ParseValue(fl, s);
      && (r.Ok? && r.value.Int? ==> ParseI32(s) == Some(r.value.i))
      && (r.Ok? && r.value.Float? ==> IsFloatLiteral(Replace(s, ',', '.')))
      && (r.Ok? && r.value.Bool? ==> EqIgnoreAsciiCase(s, if r.value.b then "true" else "false"))
      && (r.Ok? && r.value.Str? ==> IsQuoted(s, '"') && r.value.s == s[1..|s| - 1])
      && (r.Ok? && r.value.Symbol? ==>
            (IsQuoted(s, '\'') && r.value.name == s[1..|s| - 1]) || (ByteLen(s) == 1 && r.value.name == s))
      && (r.Ok? && r.value.Vec? ==> StartsWith(s, '[') && EndsWith(s, ']'))
      && (r.Ok? && r.value.Quotation? ==> StartsWith(s, '{') && EndsWith(s, '}'))
  {
    if !RangeShaped(s) && ParseI32(s).None? {
      assert ParseValue(fl, s) == ParseNonInteger(fl, s);
    }
  }

  /** A lone `"` or `'` passes the starts-with and ends-with tests, and slicing
      `[1..0]` out of it panics. */
  lemma LoneQuotePanics(fl: FloatOps)
    ensures ParseValue(fl, "\"") == Panic(SliceOutOfRange)
    ensures ParseValue(fl, "'") == Panic(SliceOutOfRange)
  {
    LoneCharNoLiteral(fl, '"');
    LoneCharNoLiteral(fl, '\'');
  }

  lemma LoneCharNoLiteral(fl: FloatOps, c: char)
    requires c == '"' || c == '\''
    ensures ParseValue(fl, [c]) == Panic(SliceOutOfRange)
  {
    var s := [c];
    NotAnInteger(s);
    assert Replace(s, ',', '.')[0] == c && !IsFloatChar(c);
    assert !EqIgnoreAsciiCase(s, "true") && !EqIgnoreAsciiCase(s, "false");
    assert ParseValue(fl, s) == ParseNonInteger(fl, s);
  }
}
