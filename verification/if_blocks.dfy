/** `parse_if_blocks` of rustVersion/src/stack.rs: after an `if`, the tokens up to
    the matching `}` are split into a true block and a false block. A counter starts
    at 1; every `if` token raises it and every `}` lowers it. A `}` that brings it to
    0 ends the construct; one that brings it to 1 moves collection to the false
    block and is itself dropped. `{` carries no weight, so the construct is
    `if <true> } <false> }` only when the true block holds an `if` of its own. */
module IfBlocks {
  import opened Outcomes
  import opened Strings

  const MissingClose: string := "Missing closing '}' for 'if' block"

  /** The two blocks, each joined with single spaces, and the index just past the
      closing `}`. */
  datatype Blocks = Blocks(trueBlock: string, falseBlock: string, next: nat)

  /** The counter after the tokens `toks[start..k]`. */
  function Depth(toks: seq<string>, start: nat, k: nat): int
    requires start <= k <= |toks|
    decreases k - start
  {
    if k == start then 1
    else Depth(toks, start, k - 1) + (if toks[k - 1] == "if" then 1 else if toks[k - 1] == "}" then -1 else 0)
  }

  /** The scanning loop from index `i`, with the counter, which block collects, and
      the two blocks so far. */
  function Scan(toks: seq<string>, i: nat, depth: int, inFalse: bool, tb: seq<string>, fb: seq<string>): (r: Res<Blocks>)
    ensures r.Ok? ==> i < r.value.next <= |toks| && toks[r.value.next - 1] == "}"
    ensures r.Err? ==> r.msg == MissingClose
    ensures !r.Panic?
    decreases |toks| - i
  {
    if i >= |toks| then Err(MissingClose)
    else
      var tok := toks[i];
      if tok == "}" then
        if depth - 1 == 0 then Ok(Blocks(Join(" ", tb), Join(" ", fb), i + 1))
        else if depth - 1 == 1 then Scan(toks, i + 1, depth - 1, true, tb, fb)
        else if inFalse then Scan(toks, i + 1, depth - 1, inFalse, tb, fb + [tok])
        else Scan(toks, i + 1, depth - 1, inFalse, tb + [tok], fb)
      else
        var d := if tok == "if" then depth + 1 else depth;
        if inFalse then Scan(toks, i + 1, d, inFalse, tb, fb + [tok])
        else Scan(toks, i + 1, d, inFalse, tb + [tok], fb)
  }

  /** `parse_if_blocks(tokens, start)`. */
  function ParseIfBlocks(toks: seq<string>, start: nat): (r: Res<Blocks>)
    ensures r.Ok? ==> start < r.value.next <= |toks| && toks[r.value.next - 1] == "}"
    ensures r.Err? ==> r.msg == MissingClose
    ensures !r.Panic?
  {
    Scan(toks, start, 1, false, [], [])
  }

  /** The counter never reached 0 on `toks[start..i]`. */
  predicate OpenThrough(toks: seq<string>, start: nat, i: nat)
    requires start <= i <= |toks|
  {
    forall k :: start < k <= i ==> Depth(toks, start, k) > 0
  }

  /** A `}` that brings the counter back to 1, switching to the false block. */
  predicate Switches(toks: seq<string>, start: nat, k: nat)
    requires start <= k < |toks|
  {
    toks[k] == "}" && Depth(toks, start, k + 1) == 1
  }

  /** One token that does not close the construct: the scan continues from the
      next index with the counter moved by the token's weight. Outside the false
      block, a token that does not switch blocks joins the true block. */
  lemma ScanAdvance(toks: seq<string>, i: nat, depth: int, inFalse: bool, tb: seq<string>, fb: seq<string>)
    returns (depth': int, inFalse': bool, tb': seq<string>, fb': seq<string>)
    requires i < |toks| && !(toks[i] == "}" && depth - 1 == 0)
    ensures Scan(toks, i, depth, inFalse, tb, fb) == Scan(toks, i + 1, depth', inFalse', tb', fb')
    ensures depth' == depth + (if toks[i] == "if" then 1 else if toks[i] == "}" then -1 else 0)
    ensures !inFalse && !(toks[i] == "}" && depth - 1 == 1) ==> !inFalse' && tb' == tb + [toks[i]] && fb' == fb
    ensures inFalse ==> inFalse' && tb' == tb && fb' == (if toks[i] == "}" && depth - 1 == 1 then fb else fb + [toks[i]])
  {
    var tok := toks[i];
    if tok == "}" {
      if depth - 1 == 1 {
        depth', inFalse', tb', fb' := depth - 1, true, tb, fb;
      } else if inFalse {
        depth', inFalse', tb', fb' := depth - 1, inFalse, tb, fb + [tok];
      } else {
        depth', inFalse', tb', fb' := depth - 1, inFalse, tb + [tok], fb;
      }
    } else {
      var d := if tok == "if" then depth + 1 else depth;
      if inFalse {
        depth', inFalse', tb', fb' := d, inFalse, tb, fb + [tok];
      } else {
        depth', inFalse', tb', fb' := d, inFalse, tb + [tok], fb;
      }
    }
  }

  lemma DepthStep(toks: seq<string>, start: nat, i: nat)
    requires start <= i < |toks|
    ensures Depth(toks, start, i + 1) == Depth(toks, start, i) + (if toks[i] == "if" then 1 else if toks[i] == "}" then -1 else 0)
  {
  }

  /** While the counter stays positive, the construct stays open. */
  lemma OpenStep(toks: seq<string>, start: nat, i: nat)
    requires start <= i < |toks| && OpenThrough(toks, start, i) && Depth(toks, start, i + 1) > 0
    ensures OpenThrough(toks, start, i + 1)
    ensures Depth(toks, start, i) > 0
  {
    if i > start {
      assert Depth(toks, start, i) > 0;
    }
  }

  lemma {:induction false} ScanCloses(toks: seq<string>, start: nat, i: nat, depth: int, inFalse: bool, tb: seq<string>, fb: seq<string>)
    requires start <= i <= |toks| && depth == Depth(toks, start, i) && OpenThrough(toks, start, i)
    ensures var r := Scan(toks, i, depth, inFalse, tb, fb);
      && (r.Ok? ==> Depth(toks, start, r.value.next) == 0 && OpenThrough(toks, start, r.value.next - 1))
      && (r.Err? ==> OpenThrough(toks, start, |toks|))
    decreases |toks| - i
  {
    if i < |toks| {
      DepthStep(toks, start, i);
      if !(toks[i] == "}" && depth - 1 == 0) {
        var d', f', tb', fb' := ScanAdvance(toks, i, depth, inFalse, tb, fb);
        OpenStep(toks, start, i);
        ScanCloses(toks, start, i + 1, d', f', tb', fb');
      }
    }
  }

  /** The construct ends at the first `}` that brings the counter to 0, and it is
      an error exactly when no prefix of the remaining tokens does. */
  lemma ClosesAtFirstZero(toks: seq<string>, start: nat)
    requires start <= |toks|
    ensures var r := ParseIfBlocks(toks, start);
      && (r.Ok? ==> Depth(toks, start, r.value.next) == 0 && OpenThrough(toks, start, r.value.next - 1))
      && (r.Err? <==> OpenThrough(toks, start, |toks|))
  {
    ScanCloses(toks, start, start, 1, false, [], []);
    var r := ParseIfBlocks(toks, start);
    if r.Ok? {
      assert Depth(toks, start, r.value.next) == 0;
      assert !OpenThrough(toks, start, |toks|);
    }
  }

  lemma {:induction false} ScanTrueOnly(toks: seq<string>, start: nat, i: nat, depth: int, tb: seq<string>)
    requires start <= i <= |toks| && depth == Depth(toks, start, i) && OpenThrough(toks, start, i)
    requires tb == toks[start..i]
    requires forall k :: i <= k < |toks| ==> !Switches(toks, start, k)
    ensures var r := Scan(toks, i, depth, false, tb, []);
      r.Ok? ==> r.value.trueBlock == Join(" ", toks[start..r.value.next - 1]) && r.value.falseBlock == ""
    decreases |toks| - i
  {
    if i < |toks| {
      DepthStep(toks, start, i);
      assert !Switches(toks, start, i);
      if toks[i] == "}" && depth - 1 == 0 {
        assert Join(" ", []) == "";
      } else {
        var d', f', tb', fb' := ScanAdvance(toks, i, depth, false, tb, []);
        OpenStep(toks, start, i);
        assert toks[start..i + 1] == tb';
        ScanTrueOnly(toks, start, i + 1, d', tb');
      }
    }
  }

  /** When no `}` brings the counter back to 1, every token before the closing `}`
      belongs to the true block, `{` and inner `}` included, and the false block is
      empty. */
  lemma TrueBlockOnly(toks: seq<string>, start: nat)
    requires start <= |toks|
    requires forall k :: start <= k < |toks| ==> !Switches(toks, start, k)
    ensures var r := ParseIfBlocks(toks, start);
      r.Ok? ==> r.value.trueBlock == Join(" ", toks[start..r.value.next - 1]) && r.value.falseBlock == ""
  {
    ScanTrueOnly(toks, start, start, 1, []);
  }

  /** The tokens of `toks[lo..hi]` except each `}` that brings the counter back to 1:
      what the false block collects once collection has moved to it. */
  function Unswitched(toks: seq<string>, start: nat, lo: nat, hi: nat): (r: seq<string>)
    requires start <= lo <= hi <= |toks|
    ensures |r| <= hi - lo
    decreases hi - lo
  {
    if hi == lo then []
    else Unswitched(toks, start, lo, hi - 1) + (if Switches(toks, start, hi - 1) then [] else [toks[hi - 1]])
  }

  /** Before the first switch, every token joins the true block. */
  lemma {:induction false} ScanUntilSwitch(toks: seq<string>, start: nat, i: nat, k: nat, depth: int, tb: seq<string>)
    requires start <= i <= k < |toks| && depth == Depth(toks, start, i) && OpenThrough(toks, start, k + 1)
    requires tb == toks[start..i]
    requires Switches(toks, start, k) && forall j :: i <= j < k ==> !Switches(toks, start, j)
    ensures Scan(toks, i, depth, false, tb, []) == Scan(toks, k + 1, 1, true, toks[start..k], [])
    decreases k - i
  {
    DepthStep(toks, start, i);
    if i < k {
      assert Depth(toks, start, i + 1) > 0;
      assert !Switches(toks, start, i);
      var d', f', tb', fb' := ScanAdvance(toks, i, depth, false, tb, []);
      assert toks[start..i + 1] == tb';
      ScanUntilSwitch(toks, start, i + 1, k, d', tb');
    }
  }

  lemma UnswitchedStep(toks: seq<string>, start: nat, lo: nat, i: nat)
    requires start <= lo <= i < |toks|
    ensures Unswitched(toks, start, lo, i + 1)
      == Unswitched(toks, start, lo, i) + (if toks[i] == "}" && Depth(toks, start, i) - 1 == 1 then [] else [toks[i]])
  {
    DepthStep(toks, start, i);
  }

  /** After the switch at `k`, the false block gathers every token up to the close
      except the `}`s that bring the counter back to 1. */
  lemma {:induction false} ScanFalse(toks: seq<string>, start: nat, k: nat, i: nat, depth: int, tb: seq<string>, fb: seq<string>)
    requires start <= k < i <= |toks| && depth == Depth(toks, start, i) && OpenThrough(toks, start, i)
    requires fb == Unswitched(toks, start, k + 1, i)
    ensures var r := Scan(toks, i, depth, true, tb, fb);
      r.Ok? ==>
        && r.value.trueBlock == Join(" ", tb)
        && r.value.falseBlock == Join(" ", Unswitched(toks, start, k + 1, r.value.next - 1))
    decreases |toks| - i
  {
    if i < |toks| && !(toks[i] == "}" && depth - 1 == 0) {
      DepthStep(toks, start, i);
      OpenStep(toks, start, i);
      UnswitchedStep(toks, start, k + 1, i);
      var d', f', tb', fb' := ScanAdvance(toks, i, depth, true, tb, fb);
      assert fb' == Unswitched(toks, start, k + 1, i + 1);
      assert d' == Depth(toks, start, i + 1);
      ScanFalse(toks, start, k, i + 1, d', tb', fb');
    }
  }

  /** How the two blocks are collected: when the first `}` that brings the counter
      back to 1 is at `k`, the true block is the tokens before it, and the false
      block is the tokens after it up to the closing `}`, without the later `}`s that
      bring the counter back to 1. */
  lemma BlocksCollected(toks: seq<string>, start: nat, k: nat)
    requires start <= k < |toks| && OpenThrough(toks, start, k + 1)
    requires Switches(toks, start, k) && forall j :: start <= j < k ==> !Switches(toks, start, j)
    ensures var r := ParseIfBlocks(toks, start);
      r.Ok? ==>
        && k + 1 < r.value.next
        && r.value.trueBlock == Join(" ", toks[start..k])
        && r.value.falseBlock == Join(" ", Unswitched(toks, start, k + 1, r.value.next - 1))
  {
    ScanUntilSwitch(toks, start, start, k, 1, []);
    ScanFalse(toks, start, k, k + 1, 1, toks[start..k], []);
  }

  /** `if { a } { b }`: the first `}` already closes the construct, so the true
      block is `{ a`, the false block is empty, and scanning resumes at the second
      `{`. */
  lemma BracedBlocksExample()
    ensures ParseIfBlocks(["if", "{", "a", "}", "{", "b", "}"], 1) == Ok(Blocks("{ a", "", 4))
  {
    var toks := ["if", "{", "a", "}", "{", "b", "}"];
    assert Join(" ", ["{", "a"]) == "{ a" by {
      assert Join(" ", ["a"]) == "a";
    }
  }

  /** An `if` inside the true block is what lets a `}` reach the false block:
      `if if x } y }` has true block `if x` and false block `y`. */
  lemma NestedIfExample()
    ensures ParseIfBlocks(["if", "if", "x", "}", "y", "}"], 1) == Ok(Blocks("if x", "y", 6))
  {
    assert Join(" ", ["if", "x"]) == "if x" by {
      assert Join(" ", ["x"]) == "x";
    }
    assert Join(" ", ["y"]) == "y";
  }

  /** Without a closing `}` the construct is an error. */
  lemma UnclosedExample()
    ensures ParseIfBlocks(["if", "1", "{"], 1) == Err(MissingClose)
  {
  }
}
