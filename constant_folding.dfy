/**
 * Constant folding (src/optimizers/constant_folding.rs): for each function, one
 * forward pass over its entry block's span that replaces, in place, every
 * binary operation whose operands are both integer constants or both float
 * constants by the constant it computes.  Operands are read from the array
 * being rewritten, so a chain of constant operations folds in one pass.
 * Folded-away operands stay in the arena; nothing is added or removed.
 */
module ConstantFolding {

  import opened Wrappers
  import opened Format
  import opened Tokens
  import opened FlatIr

  /** The four arithmetic operators, as the fold selects its operation. */
  datatype ArithOp = AddOp | SubOp | MulOp | DivOp

  function OpOf(v: InstructionValue): ArithOp
    requires v.IsBinary()
  {
    if v.Add? then AddOp else if v.Subtract? then SubOp else if v.Multiply? then MulOp else DivOp
  }

  /** The float arithmetic of the target, kept abstract: float payloads are opaque. */
  type FloatArith = (ArithOp, Float, Float) -> Float

  function Abs(x: int): nat {
    if x < 0 then -x else x
  }

  /** Rust's integer `/`: the quotient truncated toward zero (Dafny's `/` is Euclidean). */
  function TruncDiv(a: int, b: int): int
    requires b != 0
  {
    if (a < 0) == (b < 0) then Abs(a) / Abs(b) else -(Abs(a) / Abs(b))
  }

  lemma AbsMul(x: int, y: int)
    ensures Abs(x * y) == Abs(x) * Abs(y)
  {
    if x < 0 && y >= 0 {
      assert x * y == -((-x) * y);
    } else if x >= 0 && y < 0 {
      assert x * y == -(x * (-y));
    } else if x < 0 && y < 0 {
      assert x * y == (-x) * (-y);
    }
  }

  /**
   * Truncating division: the quotient is the integer of largest magnitude whose
   * product with the divisor does not exceed the dividend in magnitude, and it
   * has the sign of the exact quotient.
   */
  lemma TruncDivTowardZero(a: int, b: int)
    requires b != 0
    ensures var q := TruncDiv(a, b);
      Abs(b * q) <= Abs(a) && Abs(a) - Abs(b * q) < Abs(b) &&
      (q > 0 ==> (a < 0) == (b < 0)) && (q < 0 ==> (a < 0) != (b < 0))
  {
    var q := TruncDiv(a, b);
    var n := Abs(a) / Abs(b);
    var m := Abs(a) % Abs(b);
    assert Abs(a) == Abs(b) * n + m && 0 <= m < Abs(b);
    assert Abs(q) == n;
    AbsMul(b, q);
  }

  /** Where truncation and Dafny's Euclidean division part ways. */
  lemma TruncDivDiffersFromEuclidean()
    ensures TruncDiv(-7, 2) == -3 && -7 / 2 == -4
    ensures TruncDiv(7, -2) == -3 && 7 / -2 == -3
  {
  }

  /** The exact value of an integer operation (truncating division). */
  function IntegerValue(op: ArithOp, a: int, b: int): int
    requires !(op == DivOp && b == 0)
  {
    match op
    case AddOp => a + b
    case SubOp => a - b
    case MulOp => a * b
    case DivOp => TruncDiv(a, b)
  }

  /**
   * The i64 result of an integer operation, or `None` where Rust panics:
   * division by zero, or a result outside the i64 range (overflow).
   */
  function IntegerArith(op: ArithOp, a: I64, b: I64): (r: Option<I64>)
    ensures r.Some? <==> (!(op == DivOp && b == 0) && I64_MIN <= IntegerValue(op, a, b) <= I64_MAX)
    ensures r.Some? ==> r.value == IntegerValue(op, a, b)
  {
    if op == DivOp && b == 0 then None
    else
      var x := IntegerValue(op, a, b);
      if I64_MIN <= x <= I64_MAX then Some(x) else None
  }

  /** The kinds the pass handles (any other kind is `unimplemented!()`), with binary operands inside the arena. */
  predicate Foldable(v: InstructionValue, n: nat) {
    v.IsConst() || v.Return? || (v.IsBinary() && v.l < n && v.r < n)
  }

  /** The loop over `span` stays inside the arena and meets only handled kinds. */
  predicate SpanFoldable(instrs: seq<Instruction>, span: Span) {
    SpanWithin(span, |instrs|) &&
    forall k :: 0 <= k < |instrs| && InSpan(span, k) ==> Foldable(instrs[k].val, |instrs|)
  }

  /** Every function's entry block exists and can be folded. */
  predicate UnitFoldable(instrs: seq<Instruction>, blocks: seq<Span>, funcs: seq<Function>) {
    forall j :: 0 <= j < |funcs| ==>
      funcs[j].block < |blocks| && SpanFoldable(instrs, blocks[funcs[j].block])
  }

  /**
   * `b` is `a` with some instructions replaced by constants of the same type and
   * token: the only change the pass makes.
   */
  predicate Refines(a: seq<Instruction>, b: seq<Instruction>) {
    |b| == |a| &&
    forall x :: 0 <= x < |a| ==>
      b[x] == a[x] || (b[x].val.IsConst() && b[x].ty == a[x].ty && b[x].tok == a[x].tok)
  }

  lemma RefinesTransitive(a: seq<Instruction>, b: seq<Instruction>, c: seq<Instruction>)
    requires Refines(a, b) && Refines(b, c)
    ensures Refines(a, c)
  {
  }

  /** Folding keeps every block foldable. */
  lemma RefinesFoldable(a: seq<Instruction>, b: seq<Instruction>, blocks: seq<Span>, funcs: seq<Function>)
    requires Refines(a, b) && UnitFoldable(a, blocks, funcs)
    ensures UnitFoldable(b, blocks, funcs)
  {
    forall j | 0 <= j < |funcs|
      ensures SpanFoldable(b, blocks[funcs[j].block])
    {
      var span := blocks[funcs[j].block];
      forall k | 0 <= k < |b| && InSpan(span, k)
        ensures Foldable(b[k].val, |b|)
      {
        assert Foldable(a[k].val, |a|);
      }
    }
  }

  /** What one iteration does to its instruction. */
  datatype Outcome = Keep | Replace(val: InstructionValue) | Panic

  /**
   * The replacement value for binary operation `v` whose operands currently hold
   * `lv` and `rv`: a constant when both are integer or both are float constants.
   */
  function FoldBinary(v: InstructionValue, lv: InstructionValue, rv: InstructionValue, fa: FloatArith): Outcome
    requires v.IsBinary()
  {
    if lv.ConstInteger? && rv.ConstInteger? then
      match IntegerArith(OpOf(v), lv.i, rv.i)
      case Some(x) => Replace(ConstInteger(x))
      case None => Panic
    else if lv.ConstFloat? && rv.ConstFloat? then
      Replace(ConstFloat(fa(OpOf(v), lv.f, rv.f)))
    else Keep
  }

  /** The body of the loop in `fold_block` for index `k` of the current array. */
  function FoldStep(instrs: seq<Instruction>, k: nat, fa: FloatArith): Outcome
    requires k < |instrs| && Foldable(instrs[k].val, |instrs|)
  {
    var v := instrs[k].val;
    if v.IsBinary() then FoldBinary(v, instrs[v.l].val, instrs[v.r].val, fa) else Keep
  }

  /** `instrs` after one iteration at `k` that did not panic. */
  function Apply(instrs: seq<Instruction>, k: nat, o: Outcome): seq<Instruction>
    requires k < |instrs| && !o.Panic?
  {
    if o.Replace? then instrs[k := Instruction(o.val, instrs[k].ty, instrs[k].tok)] else instrs
  }

  /**
   * The loop of `fold_block` after visiting `[start, i)`: the rewritten array,
   * or `None` when some iteration panicked.
   */
  function FoldedUpTo(instrs: seq<Instruction>, start: nat, i: nat, fa: FloatArith): (r: Option<seq<Instruction>>)
    requires start <= i && SpanFoldable(instrs, Span(start, i))
    ensures r.Some? ==> Refines(instrs, r.value)
    ensures r.Some? ==> forall x :: 0 <= x < |instrs| && !(start <= x < i) ==> r.value[x] == instrs[x]
    decreases i - start
  {
    if i == start then Some(instrs)
    else
      match FoldedUpTo(instrs, start, i - 1, fa)
      case None => None
      case Some(cur) =>
        assert cur[i - 1] == instrs[i - 1];
        var o := FoldStep(cur, i - 1, fa);
        if o.Panic? then None else Some(Apply(cur, i - 1, o))
  }

  /** `fold_block` on a whole span (an empty loop when `end <= start`). */
  function FoldedSpan(instrs: seq<Instruction>, span: Span, fa: FloatArith): (r: Option<seq<Instruction>>)
    requires SpanFoldable(instrs, span)
    ensures r.Some? ==> Refines(instrs, r.value)
  {
    if span.end <= span.start then Some(instrs) else FoldedUpTo(instrs, span.start, span.end, fa)
  }

  /** `fold`: the entry block of every function of `funcs`, in order, or `None` on a panic. */
  function FoldedFuncs(instrs: seq<Instruction>, blocks: seq<Span>, funcs: seq<Function>, fa: FloatArith): (r: Option<seq<Instruction>>)
    requires UnitFoldable(instrs, blocks, funcs)
    ensures r.Some? ==> Refines(instrs, r.value)
    decreases |funcs|
  {
    if funcs == [] then Some(instrs)
    else
      match FoldedFuncs(instrs, blocks, funcs[..|funcs| - 1], fa)
      case None => None
      case Some(cur) =>
        RefinesFoldable(instrs, cur, blocks, funcs);
        var r := FoldedSpan(cur, blocks[funcs[|funcs| - 1].block], fa);
        if r.Some? then RefinesTransitive(instrs, cur, r.value); r else r
  }

  /** A loop that finishes without panicking did not panic on the way. */
  lemma {:induction false} FoldedUpToPrefix(instrs: seq<Instruction>, start: nat, i: nat, end: nat, fa: FloatArith)
    requires start <= i <= end && SpanFoldable(instrs, Span(start, end))
    requires FoldedUpTo(instrs, start, end, fa).Some?
    ensures SpanFoldable(instrs, Span(start, i)) && FoldedUpTo(instrs, start, i, fa).Some?
    decreases end - i
  {
    if i < end {
      FoldedUpToPrefix(instrs, start, i + 1, end, fa);
    }
  }

  /** One iteration of a loop that finishes without panicking. */
  lemma FoldedUpToStep(instrs: seq<Instruction>, start: nat, i: nat, end: nat, fa: FloatArith)
    requires start <= i < end && SpanFoldable(instrs, Span(start, end))
    requires FoldedUpTo(instrs, start, end, fa).Some?
    ensures SpanFoldable(instrs, Span(start, i)) && SpanFoldable(instrs, Span(start, i + 1))
    ensures FoldedUpTo(instrs, start, i, fa).Some?
    ensures var cur := FoldedUpTo(instrs, start, i, fa).value;
      i < |cur| && cur[i] == instrs[i] && Foldable(cur[i].val, |cur|) && !FoldStep(cur, i, fa).Panic? &&
      FoldedUpTo(instrs, start, i + 1, fa) == Some(Apply(cur, i, FoldStep(cur, i, fa)))
  {
    FoldedUpToPrefix(instrs, start, i + 1, end, fa);
    assert Foldable(instrs[i].val, |instrs|);
  }

  /** A unit that folds without panicking folds every prefix of its functions without panicking. */
  lemma {:induction false} FoldedFuncsPrefix(instrs: seq<Instruction>, blocks: seq<Span>, funcs: seq<Function>, j: nat, fa: FloatArith)
    requires j <= |funcs| && UnitFoldable(instrs, blocks, funcs)
    requires FoldedFuncs(instrs, blocks, funcs, fa).Some?
    ensures UnitFoldable(instrs, blocks, funcs[..j]) && FoldedFuncs(instrs, blocks, funcs[..j], fa).Some?
    decreases |funcs| - j
  {
    if j < |funcs| {
      var init := funcs[..|funcs| - 1];
      assert UnitFoldable(instrs, blocks, init);
      assert init[..j] == funcs[..j];
      FoldedFuncsPrefix(instrs, blocks, init, j, fa);
    } else {
      assert funcs[..j] == funcs;
    }
  }

  /**
   * The value operand `x` of instruction `k` is read with during the pass,
   * expressed through the final array: instructions of the span before `k`
   * have already been folded, every other instruction has not.
   */
  function SeenVal(input: seq<Instruction>, output: seq<Instruction>, start: nat, k: nat, x: nat): InstructionValue
    requires x < |input| && |output| == |input|
  {
    if start <= x < k then output[x].val else input[x].val
  }

  /** The outcome the rule of the pass gives instruction `k`, read against the final array. */
  function RuleOutcome(input: seq<Instruction>, output: seq<Instruction>, start: nat, k: nat, fa: FloatArith): Outcome
    requires k < |input| && |output| == |input| && Foldable(input[k].val, |input|)
  {
    var v := input[k].val;
    if v.IsBinary() then FoldBinary(v, SeenVal(input, output, start, k, v.l), SeenVal(input, output, start, k, v.r), fa)
    else Keep
  }

  /** Instruction `k` of `output` is `input[k]` folded by the rule of the pass, without a panic. */
  predicate FoldedAt(input: seq<Instruction>, output: seq<Instruction>, start: nat, k: nat, fa: FloatArith)
    requires k < |input| && |output| == |input| && Foldable(input[k].val, |input|)
  {
    var o := RuleOutcome(input, output, start, k, fa);
    !o.Panic? && output[k] == (if o.Replace? then Instruction(o.val, input[k].ty, input[k].tok) else input[k])
  }

  /**
   * `output` is what the rule of the pass gives for `[start, i)`: instructions
   * outside are untouched and every instruction inside is folded by the rule as
   * read against `output`.
   */
  predicate FoldCharacterized(input: seq<Instruction>, output: seq<Instruction>, start: nat, i: nat, fa: FloatArith) {
    |output| == |input| &&
    (forall x :: 0 <= x < |input| && !(start <= x < i) ==> output[x] == input[x]) &&
    (forall k :: start <= k < i ==> k < |input| && Foldable(input[k].val, |input|) && FoldedAt(input, output, start, k, fa))
  }

  /** The rule for instruction `k` reads the final array only in `[start, k]`. */
  lemma FoldedAtFrame(input: seq<Instruction>, o1: seq<Instruction>, o2: seq<Instruction>, start: nat, k: nat, fa: FloatArith)
    requires start <= k < |input| && |o1| == |input| && |o2| == |input| && Foldable(input[k].val, |input|)
    requires forall x :: start <= x <= k ==> o1[x] == o2[x]
    ensures RuleOutcome(input, o1, start, k, fa) == RuleOutcome(input, o2, start, k, fa)
    ensures FoldedAt(input, o1, start, k, fa) == FoldedAt(input, o2, start, k, fa)
  {
    assert o1[k] == o2[k];
    forall x: nat | x < |input|
      ensures SeenVal(input, o1, start, k, x) == SeenVal(input, o2, start, k, x)
    {
    }
  }

  /** The iteration at `k` applies the rule of the pass. */
  lemma LastStepFolded(input: seq<Instruction>, cur: seq<Instruction>, start: nat, k: nat, fa: FloatArith)
    requires start <= k < |input| && |cur| == |input| && Foldable(input[k].val, |input|)
    requires forall x :: 0 <= x < |input| && !(start <= x < k) ==> cur[x] == input[x]
    requires !FoldStep(cur, k, fa).Panic?
    ensures FoldedAt(input, Apply(cur, k, FoldStep(cur, k, fa)), start, k, fa)
  {
    assert cur[k] == input[k];
    var out := Apply(cur, k, FoldStep(cur, k, fa));
    forall x: nat | x < |input|
      ensures cur[x].val == SeenVal(input, out, start, k, x)
    {
    }
  }

  /** One iteration extends the characterization by one instruction. */
  lemma FoldCharacterizedStep(input: seq<Instruction>, cur: seq<Instruction>, start: nat, i: nat, fa: FloatArith)
    requires start <= i < |input| && Foldable(input[i].val, |input|)
    requires FoldCharacterized(input, cur, start, i, fa)
    requires !FoldStep(cur, i, fa).Panic?
    ensures FoldCharacterized(input, Apply(cur, i, FoldStep(cur, i, fa)), start, i + 1, fa)
  {
    var out := Apply(cur, i, FoldStep(cur, i, fa));
    LastStepFolded(input, cur, start, i, fa);
    forall k | start <= k < i
      ensures k < |input| && Foldable(input[k].val, |input|) && FoldedAt(input, out, start, k, fa)
    {
      FoldedAtFrame(input, cur, out, start, k, fa);
    }
  }

  /** What the loop has done after visiting `[start, i)` without panicking, stated without the loop. */
  lemma {:induction false} FoldedUpToCharacterized(input: seq<Instruction>, start: nat, i: nat, fa: FloatArith)
    requires start <= i && SpanFoldable(input, Span(start, i)) && FoldedUpTo(input, start, i, fa).Some?
    ensures FoldCharacterized(input, FoldedUpTo(input, start, i, fa).value, start, i, fa)
    decreases i - start
  {
    if i > start {
      assert SpanFoldable(input, Span(start, i - 1));
      FoldedUpToCharacterized(input, start, i - 1, fa);
      var cur := FoldedUpTo(input, start, i - 1, fa).value;
      assert Foldable(input[i - 1].val, |input|);
      FoldCharacterizedStep(input, cur, start, i - 1, fa);
    }
  }

  /**
   * With def-before-use inside the block, folding is complete in one pass: a
   * binary operation whose operands end up integer constants (or float
   * constants) is itself replaced by the constant they compute, keeping its type
   * and token, and every other instruction of the block is left as it was.
   */
  lemma FoldedSpanNested(input: seq<Instruction>, span: Span, fa: FloatArith)
    requires span.start < span.end && SpanFoldable(input, span) && OperandsPrecedeInSpan(input, span)
    requires FoldedSpan(input, span, fa).Some?
    ensures var out := FoldedSpan(input, span, fa).value;
      |out| == |input| &&
      forall k :: span.start <= k < span.end ==>
        out[k].ty == input[k].ty && out[k].tok == input[k].tok &&
        var v := input[k].val;
        if v.IsBinary() && out[v.l].val.ConstInteger? && out[v.r].val.ConstInteger? then
          !(OpOf(v) == DivOp && out[v.r].val.i == 0) &&
          out[k].val.ConstInteger? && out[k].val.i == IntegerValue(OpOf(v), out[v.l].val.i, out[v.r].val.i)
        else if v.IsBinary() && out[v.l].val.ConstFloat? && out[v.r].val.ConstFloat? then
          out[k].val == ConstFloat(fa(OpOf(v), out[v.l].val.f, out[v.r].val.f))
        else out[k] == input[k]
  {
    var out := FoldedSpan(input, span, fa).value;
    FoldedUpToCharacterized(input, span.start, span.end, fa);
    forall k | span.start <= k < span.end
      ensures out[k].ty == input[k].ty && out[k].tok == input[k].tok &&
        var v := input[k].val;
        if v.IsBinary() && out[v.l].val.ConstInteger? && out[v.r].val.ConstInteger? then
          !(OpOf(v) == DivOp && out[v.r].val.i == 0) &&
          out[k].val.ConstInteger? && out[k].val.i == IntegerValue(OpOf(v), out[v.l].val.i, out[v.r].val.i)
        else if v.IsBinary() && out[v.l].val.ConstFloat? && out[v.r].val.ConstFloat? then
          out[k].val == ConstFloat(fa(OpOf(v), out[v.l].val.f, out[v.r].val.f))
        else out[k] == input[k]
    {
      assert InSpan(span, k) && OperandsIn(input[k].val, span.start, k);
      assert FoldedAt(input, out, span.start, k, fa);
    }
  }

  /** Re-running the loop over the folded block finds nothing left to fold. */
  lemma {:induction false} RefoldedUpTo(input: seq<Instruction>, out: seq<Instruction>, span: Span, i: nat, fa: FloatArith)
    requires span.start <= i <= span.end <= |input| && OperandsPrecedeInSpan(input, span)
    requires FoldCharacterized(input, out, span.start, span.end, fa)
    ensures SpanFoldable(out, Span(span.start, i)) && FoldedUpTo(out, span.start, i, fa) == Some(out)
    decreases i - span.start
  {
    if i > span.start {
      var k := i - 1;
      RefoldedUpTo(input, out, span, k, fa);
      assert InSpan(span, k) && OperandsIn(input[k].val, span.start, k);
      assert FoldedAt(input, out, span.start, k, fa);
      assert Foldable(out[k].val, |out|);
      assert FoldStep(out, k, fa) == Keep;
    }
  }

  /**
   * With def-before-use inside the block, folding a folded block neither
   * panics nor changes anything.
   */
  lemma FoldingIdempotent(input: seq<Instruction>, span: Span, fa: FloatArith)
    requires span.start < span.end && SpanFoldable(input, span) && OperandsPrecedeInSpan(input, span)
    requires FoldedSpan(input, span, fa).Some?
    ensures var out := FoldedSpan(input, span, fa).value;
      SpanFoldable(out, span) && FoldedSpan(out, span, fa) == Some(out)
  {
    FoldedUpToCharacterized(input, span.start, span.end, fa);
    RefoldedUpTo(input, FoldedSpan(input, span, fa).value, span, span.end, fa);
  }

  /** A block fold touches only its own span, and only binary operations in it. */
  lemma FoldedSpanFrame(input: seq<Instruction>, span: Span, fa: FloatArith)
    requires SpanFoldable(input, span) && FoldedSpan(input, span, fa).Some?
    ensures var out := FoldedSpan(input, span, fa).value;
      |out| == |input| &&
      forall x :: 0 <= x < |input| && (!InSpan(span, x) || !input[x].val.IsBinary()) ==> out[x] == input[x]
  {
    if span.start < span.end {
      FoldedUpToCharacterized(input, span.start, span.end, fa);
      var out := FoldedSpan(input, span, fa).value;
      forall x | 0 <= x < |input| && InSpan(span, x) && !input[x].val.IsBinary()
        ensures out[x] == input[x]
      {
        assert FoldedAt(input, out, span.start, x, fa);
      }
    }
  }

  /**
   * `fold` leaves the arena's length, every type and every token alone, and
   * rewrites only binary operations inside some function's entry block.
   */
  lemma {:induction false} FoldedFuncsFrame(instrs: seq<Instruction>, blocks: seq<Span>, funcs: seq<Function>, fa: FloatArith)
    requires UnitFoldable(instrs, blocks, funcs) && FoldedFuncs(instrs, blocks, funcs, fa).Some?
    ensures var out := FoldedFuncs(instrs, blocks, funcs, fa).value;
      |out| == |instrs| &&
      (forall x :: 0 <= x < |instrs| ==> out[x].ty == instrs[x].ty && out[x].tok == instrs[x].tok) &&
      (forall x :: 0 <= x < |instrs| && (!InEntrySpan(blocks, funcs, x) || !instrs[x].val.IsBinary()) ==> out[x] == instrs[x])
    decreases |funcs|
  {
    var out := FoldedFuncs(instrs, blocks, funcs, fa).value;
    if funcs != [] {
      var init := funcs[..|funcs| - 1];
      var last := funcs[|funcs| - 1];
      assert UnitFoldable(instrs, blocks, init);
      FoldedFuncsFrame(instrs, blocks, init, fa);
      var cur := FoldedFuncs(instrs, blocks, init, fa).value;
      RefinesFoldable(instrs, cur, blocks, funcs);
      FoldedSpanFrame(cur, blocks[last.block], fa);
      forall x | 0 <= x < |instrs| && (!InEntrySpan(blocks, funcs, x) || !instrs[x].val.IsBinary())
        ensures out[x] == instrs[x]
      {
        if !instrs[x].val.IsBinary() {
          assert cur[x] == instrs[x];
        } else {
          assert !InSpan(blocks[last.block], x) by {
            assert funcs[|funcs| - 1] == last;
          }
        }
      }
    }
  }

  /** `a` and `b` hold the same instructions throughout `span`. */
  predicate AgreeOn(a: seq<Instruction>, b: seq<Instruction>, span: Span) {
    |a| == |b| && forall x :: 0 <= x < |a| && InSpan(span, x) ==> a[x] == b[x]
  }

  /** Folding `span` of `instrs` neither panics nor changes anything. */
  predicate FixedOn(instrs: seq<Instruction>, span: Span, fa: FloatArith) {
    SpanFoldable(instrs, span) && FoldedSpan(instrs, span, fa) == Some(instrs)
  }

  /** Def-before-use in every function's entry block. */
  predicate UnitOperandsPrecede(instrs: seq<Instruction>, blocks: seq<Span>, funcs: seq<Function>) {
    forall j :: 0 <= j < |funcs| && funcs[j].block < |blocks| ==> OperandsPrecedeInSpan(instrs, blocks[funcs[j].block])
  }

  /** Replacing instructions by constants keeps def-before-use. */
  lemma RefinesOperands(a: seq<Instruction>, b: seq<Instruction>, span: Span)
    requires Refines(a, b) && OperandsPrecedeInSpan(a, span)
    ensures OperandsPrecedeInSpan(b, span)
  {
  }

  /**
   * With def-before-use, the loop over a span reads nothing outside it: two
   * arrays that agree on the span fold to arrays that agree on it.
   */
  lemma {:induction false} FoldedUpToLocal(a: seq<Instruction>, b: seq<Instruction>, start: nat, i: nat, fa: FloatArith)
    requires start <= i && SpanFoldable(a, Span(start, i)) && SpanFoldable(b, Span(start, i))
    requires OperandsPrecedeInSpan(a, Span(start, i)) && AgreeOn(a, b, Span(start, i))
    ensures FoldedUpTo(a, start, i, fa).Some? == FoldedUpTo(b, start, i, fa).Some?
    ensures FoldedUpTo(a, start, i, fa).Some? ==>
      AgreeOn(FoldedUpTo(a, start, i, fa).value, FoldedUpTo(b, start, i, fa).value, Span(start, i))
    decreases i - start
  {
    if i > start {
      var k := i - 1;
      FoldedUpToLocal(a, b, start, k, fa);
      var ra, rb := FoldedUpTo(a, start, k, fa), FoldedUpTo(b, start, k, fa);
      if ra.Some? {
        var ca, cb := ra.value, rb.value;
        assert InSpan(Span(start, i), k);
        assert ca[k] == a[k] == b[k] == cb[k];
        assert OperandsIn(a[k].val, start, k);
        assert FoldStep(ca, k, fa) == FoldStep(cb, k, fa);
      }
    }
  }

  /** Whether a span is already folded depends only on the instructions in it. */
  lemma FixedOnAgree(x: seq<Instruction>, y: seq<Instruction>, span: Span, fa: FloatArith)
    requires FixedOn(y, span, fa) && OperandsPrecedeInSpan(y, span)
    requires AgreeOn(x, y, span) && SpanFoldable(x, span)
    ensures FixedOn(x, span, fa)
  {
    if span.start < span.end {
      FoldedUpToLocal(y, x, span.start, span.end, fa);
      var r := FoldedSpan(x, span, fa).value;
      assert r == x by {
        forall k | 0 <= k < |x|
          ensures r[k] == x[k]
        {
          if InSpan(span, k) {
            assert r[k] == y[k];
          }
        }
      }
    }
  }

  /**
   * When distinct blocks are disjoint and each entry block has def-before-use,
   * the folded unit is fixed on every function's entry block.
   */
  lemma {:induction false} FoldedFuncsFixed(instrs: seq<Instruction>, blocks: seq<Span>, funcs: seq<Function>, fa: FloatArith)
    requires BlocksDisjoint(blocks) && UnitFoldable(instrs, blocks, funcs) && UnitOperandsPrecede(instrs, blocks, funcs)
    requires FoldedFuncs(instrs, blocks, funcs, fa).Some?
    ensures forall j :: 0 <= j < |funcs| ==> FixedOn(FoldedFuncs(instrs, blocks, funcs, fa).value, blocks[funcs[j].block], fa)
    decreases |funcs|
  {
    if funcs != [] {
      var init := funcs[..|funcs| - 1];
      var last := funcs[|funcs| - 1];
      var spanL := blocks[last.block];
      assert UnitFoldable(instrs, blocks, init) && UnitOperandsPrecede(instrs, blocks, init);
      FoldedFuncsFixed(instrs, blocks, init, fa);
      var cur := FoldedFuncs(instrs, blocks, init, fa).value;
      var out := FoldedFuncs(instrs, blocks, funcs, fa).value;
      RefinesFoldable(instrs, cur, blocks, funcs);
      RefinesFoldable(instrs, out, blocks, funcs);
      assert OperandsPrecedeInSpan(instrs, spanL);
      RefinesOperands(instrs, cur, spanL);
      FoldedSpanFrame(cur, spanL, fa);
      assert FixedOn(out, spanL, fa) by {
        if spanL.start < spanL.end {
          FoldingIdempotent(cur, spanL, fa);
        }
      }
      forall j | 0 <= j < |funcs|
        ensures FixedOn(out, blocks[funcs[j].block], fa)
      {
        if funcs[j].block != last.block {
          var spanJ := blocks[funcs[j].block];
          assert j < |init| && init[j] == funcs[j];
          assert Disjoint(spanJ, spanL);
          assert OperandsPrecedeInSpan(instrs, spanJ);
          RefinesOperands(instrs, cur, spanJ);
          FixedOnAgree(out, cur, spanJ, fa);
        }
      }
    }
  }

  /** An array fixed on every entry block is left alone by `fold`. */
  lemma {:induction false} FixedFuncs(instrs: seq<Instruction>, blocks: seq<Span>, funcs: seq<Function>, fa: FloatArith)
    requires UnitFoldable(instrs, blocks, funcs)
    requires forall j :: 0 <= j < |funcs| ==> FixedOn(instrs, blocks[funcs[j].block], fa)
    ensures FoldedFuncs(instrs, blocks, funcs, fa) == Some(instrs)
    decreases |funcs|
  {
    if funcs != [] {
      var init := funcs[..|funcs| - 1];
      assert UnitFoldable(instrs, blocks, init);
      assert forall j :: 0 <= j < |init| ==> init[j] == funcs[j];
      FixedFuncs(instrs, blocks, init, fa);
      assert FixedOn(instrs, blocks[funcs[|funcs| - 1].block], fa);
    }
  }

  /**
   * `fold(fold(u)) == fold(u)` when blocks are disjoint and every operand
   * precedes its user in the same block.
   */
  lemma FoldIdempotent(instrs: seq<Instruction>, blocks: seq<Span>, funcs: seq<Function>, fa: FloatArith)
    requires BlocksDisjoint(blocks) && UnitFoldable(instrs, blocks, funcs) && UnitOperandsPrecede(instrs, blocks, funcs)
    requires FoldedFuncs(instrs, blocks, funcs, fa).Some?
    ensures var out := FoldedFuncs(instrs, blocks, funcs, fa).value;
      UnitFoldable(out, blocks, funcs) && FoldedFuncs(out, blocks, funcs, fa) == Some(out)
  {
    var out := FoldedFuncs(instrs, blocks, funcs, fa).value;
    RefinesFoldable(instrs, out, blocks, funcs);
    FoldedFuncsFixed(instrs, blocks, funcs, fa);
    FixedFuncs(out, blocks, funcs, fa);
  }

  /** One iteration of `fold`: function `j` comes next, after those before it. */
  lemma FoldedFuncsNext(input: seq<Instruction>, blocks: seq<Span>, funcs: seq<Function>, j: nat, cur: seq<Instruction>, fa: FloatArith)
    requires j < |funcs| && UnitFoldable(input, blocks, funcs) && FoldedFuncs(input, blocks, funcs, fa).Some?
    requires UnitFoldable(input, blocks, funcs[..j]) && FoldedFuncs(input, blocks, funcs[..j], fa) == Some(cur)
    ensures UnitFoldable(input, blocks, funcs[..j + 1])
    ensures funcs[j].block < |blocks| && SpanFoldable(cur, blocks[funcs[j].block])
    ensures FoldedSpan(cur, blocks[funcs[j].block], fa).Some?
    ensures FoldedFuncs(input, blocks, funcs[..j + 1], fa) == FoldedSpan(cur, blocks[funcs[j].block], fa)
  {
    FoldedFuncsPrefix(input, blocks, funcs, j + 1, fa);
    assert funcs[..j + 1][..j] == funcs[..j];
    RefinesFoldable(input, cur, blocks, funcs[..j + 1]);
    assert funcs[..j + 1][j] == funcs[j];
  }

  /** One iteration of the loop in `fold_block`: folds instruction `i` in place. */
  method FoldInstruction(unit: IrUnit, i: nat, fa: FloatArith)
    requires i < unit.instructions.Length && Foldable(unit.instructions[i].val, unit.instructions.Length)
    requires !FoldStep(unit.instructions[..], i, fa).Panic?
    modifies unit.instructions
    ensures unit.instructions[..] == Apply(old(unit.instructions[..]), i, FoldStep(old(unit.instructions[..]), i, fa))
  {
    ghost var cur := unit.instructions[..];
    ghost var o := FoldStep(cur, i, fa);
    var instr := unit.instructions[i];
    if instr.val.IsBinary() {
      var lval := unit.instructions[instr.val.l];
      var rval := unit.instructions[instr.val.r];
      if lval.val.ConstInteger? && rval.val.ConstInteger? {
        var li, ri := lval.val.i, rval.val.i;
        var x := IntegerValue(OpOf(instr.val), li, ri);
        assert o == Replace(ConstInteger(x));
        unit.instructions[i] := Instruction(ConstInteger(x), instr.ty, instr.tok);
      } else if lval.val.ConstFloat? && rval.val.ConstFloat? {
        var f := fa(OpOf(instr.val), lval.val.f, rval.val.f);
        unit.instructions[i] := Instruction(ConstFloat(f), instr.ty, instr.tok);
      } else {
        assert o == Keep;
      }
    } else {
      assert o == Keep;
    }
  }

  /** `fold_block`: folds the span of block `blockidx` in place. */
  method FoldBlock(unit: IrUnit, blockidx: nat, fa: FloatArith)
    requires blockidx < |unit.blocks| && SpanFoldable(unit.instructions[..], unit.blocks[blockidx])
    requires FoldedSpan(unit.instructions[..], unit.blocks[blockidx], fa).Some?
    modifies unit.instructions
    ensures unit.instructions[..] == FoldedSpan(old(unit.instructions[..]), unit.blocks[blockidx], fa).value
  {
    ghost var input := unit.instructions[..];
    var span := unit.blocks[blockidx];
    var i := span.start;
    while i < span.end
      invariant span.start <= i && (i == span.start || i <= span.end)
      invariant SpanFoldable(input, Span(span.start, i))
      invariant FoldedUpTo(input, span.start, i, fa) == Some(unit.instructions[..])
      decreases span.end - i
    {
      FoldedUpToStep(input, span.start, i, span.end, fa);
      FoldInstruction(unit, i, fa);
      i := i + 1;
    }
  }

  /** `fold`: folds every function's entry block in turn. */
  method Fold(unit: IrUnit, fa: FloatArith)
    requires UnitFoldable(unit.instructions[..], unit.blocks, unit.funcs)
    requires FoldedFuncs(unit.instructions[..], unit.blocks, unit.funcs, fa).Some?
    modifies unit.instructions
    ensures unit.instructions[..] == FoldedFuncs(old(unit.instructions[..]), unit.blocks, unit.funcs, fa).value
  {
    ghost var input := unit.instructions[..];
    var funcs := unit.funcs;
    var j := 0;
    while j < |funcs|
      invariant 0 <= j <= |funcs|
      invariant UnitFoldable(input, unit.blocks, funcs[..j])
      invariant FoldedFuncs(input, unit.blocks, funcs[..j], fa) == Some(unit.instructions[..])
    {
      FoldedFuncsNext(input, unit.blocks, funcs, j, unit.instructions[..], fa);
      FoldBlock(unit, funcs[j].block, fa);
      j := j + 1;
    }
    assert funcs[..j] == funcs;
  }
}
