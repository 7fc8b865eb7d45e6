/**
 * Type propagation (src/sema/type_propogation.rs): for each function, one
 * forward pass over its entry block's span that rewrites the type of every
 * instruction in place and appends a diagnostic for every ill-typed binary
 * operation.  Operand types are read from the array being rewritten, so an
 * operand earlier in the span is seen with its new type and any other operand
 * with the type it had before the pass.
 */
module TypePropagation {

  import opened Types
  import opened Tokens
  import opened Diagnostics
  import opened FlatIr
  import opened Context

  /** The kinds the pass handles (any other kind is `unimplemented!()`), with operands inside the arena. */
  predicate Propagatable(v: InstructionValue, n: nat) {
    v.IsConst() || (v.IsBinary() && v.l < n && v.r < n) || (v.Return? && v.x < n)
  }

  /** The instruction values of an arena, without their types. */
  function Vals(instrs: seq<Instruction>): seq<InstructionValue> {
    seq(|instrs|, k requires 0 <= k < |instrs| => instrs[k].val)
  }

  /** Rewriting the type of one instruction leaves the values alone. */
  lemma ValsRetyped(instrs: seq<Instruction>, k: nat, instr: Instruction)
    requires k < |instrs| && instr.val == instrs[k].val
    ensures Vals(instrs[k := instr]) == Vals(instrs)
  {
  }

  /** The loop over `span` stays inside the arena and meets only handled kinds. */
  predicate SpanPropagatable(vals: seq<InstructionValue>, span: Span) {
    SpanWithin(span, |vals|) &&
    forall k :: 0 <= k < |vals| && InSpan(span, k) ==> Propagatable(vals[k], |vals|)
  }

  /** Every function's entry block exists and can be propagated. */
  predicate UnitPropagatable(vals: seq<InstructionValue>, blocks: seq<Span>, funcs: seq<Function>) {
    forall j :: 0 <= j < |funcs| ==>
      funcs[j].block < |blocks| && SpanPropagatable(vals, blocks[funcs[j].block])
  }

  const INCOMPATIBLE_PREFIX: string := "Invalid binary operation types in add operator: "
  const UNCOERCIBLE_MESSAGE: string :=
    "Unable to coerce the left side operand of a binary operation to the type of the right side operand"

  /** The diagnostic for operand types that are not binary compatible. */
  function IncompatibleDiagnostic(lt: Type, rt: Type, tok: nat): Diagnostic {
    Diagnostic(tok, Error, INCOMPATIBLE_PREFIX + TypeName(lt) + " and " + TypeName(rt))
  }

  /** What processing one instruction produces: its rewritten form and the diagnostics it appends. */
  datatype Step = Step(instr: Instruction, diags: seq<Diagnostic>)

  /** `propogate_instruction` on index `k` of the current array. */
  function Propagated(instrs: seq<Instruction>, k: nat): (s: Step)
    requires k < |instrs| && Propagatable(instrs[k].val, |instrs|)
    ensures s.instr.val == instrs[k].val && s.instr.tok == instrs[k].tok
  {
    var instr := instrs[k];
    var tok := instr.tok;
    if instr.val.IsConst() then Step(instr, [])
    else if instr.val.Return? then Step(Instruction(instr.val, instrs[instr.val.x].ty, tok), [])
    else
      var lt, rt := instrs[instr.val.l].ty, instrs[instr.val.r].ty;
      if !BinaryCompatibleTypes(lt, rt) then
        Step(Instruction(instr.val, Invalid, tok), [IncompatibleDiagnostic(lt, rt, tok)])
      else if !CoerceType(lt, rt) then
        Step(Instruction(instr.val, Invalid, tok), [Diagnostic(tok, Error, UNCOERCIBLE_MESSAGE)])
      else
        Step(Instruction(instr.val, rt, tok), [])
  }

  /** The type a binary operation gets from its operand types. */
  function BinaryResult(lt: Type, rt: Type): (t: Type)
    ensures t == Invalid || (t == lt && t == rt && Decided(t))
  {
    if BinaryCompatibleTypes(lt, rt) then rt else Invalid
  }

  /** The diagnostics a binary operation earns from its operand types. */
  function BinaryDiagnostics(lt: Type, rt: Type, tok: nat): (ds: seq<Diagnostic>)
    ensures |ds| <= 1 && (ds == [] <==> BinaryResult(lt, rt) != Invalid)
  {
    if BinaryCompatibleTypes(lt, rt) then [] else [IncompatibleDiagnostic(lt, rt, tok)]
  }

  /**
   * The typing rule one step applies: a constant keeps its type, a return takes its
   * operand's type, and a binary operation takes its right operand's type when the
   * operand types are binary compatible and otherwise becomes `Invalid` with one
   * diagnostic naming both types.  The "unable to coerce" branch is never taken.
   */
  lemma PropagatedTyping(instrs: seq<Instruction>, k: nat)
    requires k < |instrs| && Propagatable(instrs[k].val, |instrs|)
    ensures var s := Propagated(instrs, k); var v := instrs[k].val;
      (v.IsConst() ==> s == Step(instrs[k], [])) &&
      (v.Return? ==> s.instr.ty == instrs[v.x].ty && s.diags == []) &&
      (v.IsBinary() ==>
        s.instr.ty == BinaryResult(instrs[v.l].ty, instrs[v.r].ty) &&
        s.diags == BinaryDiagnostics(instrs[v.l].ty, instrs[v.r].ty, instrs[k].tok))
  {
    var v := instrs[k].val;
    if v.IsBinary() && BinaryCompatibleTypes(instrs[v.l].ty, instrs[v.r].ty) {
      BinaryCompatibleImpliesCoerce(instrs[v.l].ty, instrs[v.r].ty);
    }
  }

  /**
   * The loop of `BlockTypePropogator::propogate` after visiting `[start, i)`: the
   * rewritten array and the diagnostics in the order they were pushed.
   */
  function PropagatedUpTo(instrs: seq<Instruction>, start: nat, i: nat): (r: (seq<Instruction>, seq<Diagnostic>))
    requires start <= i && SpanPropagatable(Vals(instrs), Span(start, i))
    ensures Vals(r.0) == Vals(instrs)
    decreases i - start
  {
    if i == start then (instrs, [])
    else
      var p := PropagatedUpTo(instrs, start, i - 1);
      assert Vals(p.0)[i - 1] == p.0[i - 1].val;
      var s := Propagated(p.0, i - 1);
      ValsRetyped(p.0, i - 1, s.instr);
      (p.0[i - 1 := s.instr], p.1 + s.diags)
  }

  /** One more iteration of the loop over `[start, end)`. */
  lemma UpToStep(instrs: seq<Instruction>, start: nat, i: nat, end: nat)
    requires start <= i < end && SpanPropagatable(Vals(instrs), Span(start, end))
    ensures SpanPropagatable(Vals(instrs), Span(start, i)) && SpanPropagatable(Vals(instrs), Span(start, i + 1))
    ensures var p := PropagatedUpTo(instrs, start, i);
      i < |p.0| && Propagatable(p.0[i].val, |p.0|) &&
      PropagatedUpTo(instrs, start, i + 1) == (p.0[i := Propagated(p.0, i).instr], p.1 + Propagated(p.0, i).diags)
  {
    var p := PropagatedUpTo(instrs, start, i);
    assert Propagatable(Vals(instrs)[i], |instrs|);
    assert Vals(p.0)[i] == p.0[i].val;
  }

  /** The last iteration of the loop over `[start, i)`. */
  lemma UpToLast(instrs: seq<Instruction>, start: nat, i: nat)
    requires start < i && SpanPropagatable(Vals(instrs), Span(start, i))
    ensures SpanPropagatable(Vals(instrs), Span(start, i - 1))
    ensures var p := PropagatedUpTo(instrs, start, i - 1);
      i - 1 < |p.0| && Propagatable(p.0[i - 1].val, |p.0|) &&
      PropagatedUpTo(instrs, start, i) == (p.0[i - 1 := Propagated(p.0, i - 1).instr], p.1 + Propagated(p.0, i - 1).diags)
  {
    var p := PropagatedUpTo(instrs, start, i - 1);
    assert Propagatable(Vals(instrs)[i - 1], |instrs|);
    assert Vals(p.0)[i - 1] == p.0[i - 1].val;
  }

  /** `BlockTypePropogator::propogate` over a whole span (an empty loop when `end <= start`). */
  function PropagatedSpan(instrs: seq<Instruction>, span: Span): (r: (seq<Instruction>, seq<Diagnostic>))
    requires SpanPropagatable(Vals(instrs), span)
    ensures Vals(r.0) == Vals(instrs)
  {
    if span.end <= span.start then (instrs, []) else PropagatedUpTo(instrs, span.start, span.end)
  }

  /** `propogate`: the entry block of every function of `funcs`, in order. */
  function PropagatedFuncs(instrs: seq<Instruction>, blocks: seq<Span>, funcs: seq<Function>): (r: (seq<Instruction>, seq<Diagnostic>))
    requires UnitPropagatable(Vals(instrs), blocks, funcs)
    ensures Vals(r.0) == Vals(instrs)
    decreases |funcs|
  {
    if funcs == [] then (instrs, [])
    else
      var p := PropagatedFuncs(instrs, blocks, funcs[..|funcs| - 1]);
      var q := PropagatedSpan(p.0, blocks[funcs[|funcs| - 1].block]);
      (q.0, p.1 + q.1)
  }

  /**
   * The type operand `x` of instruction `k` is read with during the pass,
   * expressed through the final array: instructions of the span before `k`
   * have already been rewritten, every other instruction has not.
   */
  function SeenType(input: seq<Instruction>, output: seq<Instruction>, start: nat, k: nat, x: nat): Type
    requires x < |input| && |output| == |input|
  {
    if start <= x < k then output[x].ty else input[x].ty
  }

  /** Instruction `k` of `output` is `input[k]` retyped by the rule of the pass. */
  predicate TypedAt(input: seq<Instruction>, output: seq<Instruction>, start: nat, k: nat)
    requires k < |input| && |output| == |input|
  {
    var v := input[k].val;
    Propagatable(v, |input|) && output[k].val == v && output[k].tok == input[k].tok &&
    (v.IsConst() ==> output[k].ty == input[k].ty) &&
    (v.Return? ==> output[k].ty == SeenType(input, output, start, k, v.x)) &&
    (v.IsBinary() ==> output[k].ty == BinaryResult(SeenType(input, output, start, k, v.l), SeenType(input, output, start, k, v.r)))
  }

  /** The diagnostics instruction `k` earns by the rule of the pass. */
  function DiagnosticsAt(input: seq<Instruction>, output: seq<Instruction>, start: nat, k: nat): seq<Diagnostic>
    requires k < |input| && |output| == |input|
  {
    var v := input[k].val;
    if Propagatable(v, |input|) && v.IsBinary() then
      BinaryDiagnostics(SeenType(input, output, start, k, v.l), SeenType(input, output, start, k, v.r), input[k].tok)
    else []
  }

  /** The diagnostics of the instructions in `[start, i)`, in index order. */
  function SpanDiagnostics(input: seq<Instruction>, output: seq<Instruction>, start: nat, i: nat): seq<Diagnostic>
    requires start <= i <= |input| && |output| == |input|
    decreases i - start
  {
    if i == start then []
    else
      SpanDiagnostics(input, output, start, i - 1) + DiagnosticsAt(input, output, start, i - 1)
  }

  /** The rule for instruction `k` reads the final array only in `[start, k]`. */
  lemma TypedAtFrame(input: seq<Instruction>, o1: seq<Instruction>, o2: seq<Instruction>, start: nat, k: nat)
    requires start <= k < |input| && |o1| == |input| && |o2| == |input|
    requires forall x :: start <= x <= k ==> o1[x] == o2[x]
    ensures TypedAt(input, o1, start, k) == TypedAt(input, o2, start, k)
    ensures DiagnosticsAt(input, o1, start, k) == DiagnosticsAt(input, o2, start, k)
  {
    assert o1[k] == o2[k];
    forall x: nat | x < |input|
      ensures SeenType(input, o1, start, k, x) == SeenType(input, o2, start, k, x)
    {
    }
  }

  /** The diagnostics of `[start, i)` read the final array only in `[start, i)`. */
  lemma {:induction false} SpanDiagnosticsFrame(input: seq<Instruction>, o1: seq<Instruction>, o2: seq<Instruction>, start: nat, i: nat)
    requires start <= i <= |input| && |o1| == |input| && |o2| == |input|
    requires forall x :: start <= x < i ==> o1[x] == o2[x]
    ensures SpanDiagnostics(input, o1, start, i) == SpanDiagnostics(input, o2, start, i)
    decreases i - start
  {
    if i > start {
      SpanDiagnosticsFrame(input, o1, o2, start, i - 1);
      TypedAtFrame(input, o1, o2, start, i - 1);
    }
  }

  /**
   * The step at `k` applies the rule of the pass: when everything in `[start, k)`
   * has been rewritten and nothing else, the rewritten instruction and its
   * diagnostics are those the rule gives against the array after the step.
   */
  lemma LastStepTyped(input: seq<Instruction>, cur: seq<Instruction>, start: nat, k: nat)
    requires start <= k < |input| && |cur| == |input| && Propagatable(input[k].val, |input|)
    requires forall x :: 0 <= x < |input| && !(start <= x < k) ==> cur[x] == input[x]
    ensures var s := Propagated(cur, k);
      TypedAt(input, cur[k := s.instr], start, k) && s.diags == DiagnosticsAt(input, cur[k := s.instr], start, k)
  {
    assert cur[k] == input[k];
    var out := cur[k := Propagated(cur, k).instr];
    PropagatedTyping(cur, k);
    forall x | 0 <= x < |input|
      ensures cur[x].ty == SeenType(input, out, start, k, x)
    {
    }
  }

  /**
   * `output` with diagnostics `diags` is what the rule of the pass gives for
   * `[start, i)`: instructions outside are untouched, every instruction inside is
   * retyped by the rule as read against `output`, and the diagnostics are those
   * of the ill-typed binary operations, in index order.
   */
  predicate Characterized(input: seq<Instruction>, output: seq<Instruction>, diags: seq<Diagnostic>, start: nat, i: nat)
    requires start <= i <= |input|
  {
    |output| == |input| &&
    (forall x :: 0 <= x < |input| && !(start <= x < i) ==> output[x] == input[x]) &&
    (forall k :: start <= k < i ==> TypedAt(input, output, start, k)) &&
    diags == SpanDiagnostics(input, output, start, i)
  }

  /** Outside `[start, j)`, `cur` still holds the instructions of `input`. */
  predicate Untouched(input: seq<Instruction>, cur: seq<Instruction>, start: nat, j: nat) {
    |cur| == |input| && forall x :: 0 <= x < |input| && !(start <= x < j) ==> cur[x] == input[x]
  }

  /** The loop touches nothing outside the part of the span it has visited. */
  lemma {:induction false} UpToUntouched(input: seq<Instruction>, start: nat, i: nat)
    requires start <= i <= |input| && SpanPropagatable(Vals(input), Span(start, i))
    ensures Untouched(input, PropagatedUpTo(input, start, i).0, start, i)
    decreases i - start
  {
    if i > start {
      UpToLast(input, start, i);
      UpToUntouched(input, start, i - 1);
    }
  }

  /** What `Characterized` says of `cur` before the step at `j`, without the diagnostics. */
  predicate RewrittenBefore(input: seq<Instruction>, cur: seq<Instruction>, start: nat, j: nat) {
    start <= j < |input| && Untouched(input, cur, start, j) && Propagatable(input[j].val, |input|) &&
    (forall k :: start <= k < j ==> TypedAt(input, cur, start, k))
  }

  /** After the step at `j`, every instruction of `[start, j]` obeys the rule against the new array. */
  lemma StepTyped(input: seq<Instruction>, cur: seq<Instruction>, start: nat, j: nat)
    requires RewrittenBefore(input, cur, start, j)
    ensures var out := cur[j := Propagated(cur, j).instr];
      forall k :: start <= k < j + 1 ==> TypedAt(input, out, start, k)
  {
    var out := cur[j := Propagated(cur, j).instr];
    assert cur[j] == input[j];
    LastStepTyped(input, cur, start, j);
    forall k | start <= k < j
      ensures TypedAt(input, out, start, k)
    {
      TypedAtFrame(input, cur, out, start, k);
    }
  }

  /** Every instruction the loop has visited obeys the rule against the array it leaves. */
  lemma {:induction false} UpToTyped(input: seq<Instruction>, start: nat, i: nat)
    requires start <= i <= |input| && SpanPropagatable(Vals(input), Span(start, i))
    ensures var out := PropagatedUpTo(input, start, i).0;
      |out| == |input| && forall k :: start <= k < i ==> TypedAt(input, out, start, k)
    decreases i - start
  {
    if i > start {
      UpToLast(input, start, i);
      var p := PropagatedUpTo(input, start, i - 1);
      var out := p.0[i - 1 := Propagated(p.0, i - 1).instr];
      assert forall k :: start <= k < i ==> TypedAt(input, out, start, k) by {
        assert RewrittenBefore(input, p.0, start, i - 1) by {
          UpToUntouched(input, start, i - 1);
          UpToTyped(input, start, i - 1);
        }
        StepTyped(input, p.0, start, i - 1);
      }
    }
  }

  /** After the step at `j`, the diagnostics are those of `[start, j]` against the new array. */
  lemma StepDiagnostics(input: seq<Instruction>, cur: seq<Instruction>, diags: seq<Diagnostic>, start: nat, j: nat)
    requires start <= j < |input| && Untouched(input, cur, start, j) && Propagatable(input[j].val, |input|)
    requires diags == SpanDiagnostics(input, cur, start, j)
    ensures var s := Propagated(cur, j);
      diags + s.diags == SpanDiagnostics(input, cur[j := s.instr], start, j + 1)
  {
    var s := Propagated(cur, j);
    var out := cur[j := s.instr];
    assert cur[j] == input[j];
    LastStepTyped(input, cur, start, j);
    SpanDiagnosticsFrame(input, cur, out, start, j);
  }

  /** The loop pushes the diagnostics of the visited instructions, read against the array it leaves. */
  lemma {:induction false} UpToDiagnostics(input: seq<Instruction>, start: nat, i: nat)
    requires start <= i <= |input| && SpanPropagatable(Vals(input), Span(start, i))
    ensures var r := PropagatedUpTo(input, start, i);
      |r.0| == |input| && r.1 == SpanDiagnostics(input, r.0, start, i)
    decreases i - start
  {
    if i > start {
      UpToLast(input, start, i);
      var p := PropagatedUpTo(input, start, i - 1);
      var s := Propagated(p.0, i - 1);
      assert p.1 + s.diags == SpanDiagnostics(input, p.0[i - 1 := s.instr], start, i) by {
        UpToUntouched(input, start, i - 1);
        UpToDiagnostics(input, start, i - 1);
        assert Propagatable(Vals(input)[i - 1], |input|);
        StepDiagnostics(input, p.0, p.1, start, i - 1);
      }
    } else {
      assert SpanDiagnostics(input, input, start, i) == [];
    }
  }

  /** What the loop has done after visiting `[start, i)`, stated without the loop. */
  lemma PropagatedUpToCharacterized(input: seq<Instruction>, start: nat, i: nat)
    requires start <= i <= |input| && SpanPropagatable(Vals(input), Span(start, i))
    ensures var r := PropagatedUpTo(input, start, i); Characterized(input, r.0, r.1, start, i)
  {
    UpToUntouched(input, start, i);
    UpToTyped(input, start, i);
    UpToDiagnostics(input, start, i);
  }

  /** The whole-span form of `PropagatedUpToCharacterized`. */
  lemma PropagatedSpanCharacterized(input: seq<Instruction>, span: Span)
    requires span.start <= span.end <= |input| && SpanPropagatable(Vals(input), span)
    ensures var r := PropagatedSpan(input, span); Characterized(input, r.0, r.1, span.start, span.end)
  {
    PropagatedUpToCharacterized(input, span.start, span.end);
  }

  /**
   * With def-before-use inside the block, the pass leaves the block well typed:
   * every return has its operand's final type and every binary operation the
   * type the rule gives for its operands' final types.
   */
  lemma PropagatedSpanWellTyped(input: seq<Instruction>, span: Span)
    requires span.start <= span.end <= |input| && SpanPropagatable(Vals(input), span)
    requires OperandsPrecedeInSpan(input, span)
    ensures var out := PropagatedSpan(input, span).0;
      |out| == |input| &&
      forall k :: span.start <= k < span.end ==>
        out[k].val == input[k].val &&
        (input[k].val.IsConst() ==> out[k].ty == input[k].ty) &&
        (input[k].val.Return? ==> out[k].ty == out[input[k].val.x].ty) &&
        (input[k].val.IsBinary() ==> out[k].ty == BinaryResult(out[input[k].val.l].ty, out[input[k].val.r].ty))
  {
    PropagatedSpanCharacterized(input, span);
    var out := PropagatedSpan(input, span).0;
    forall k | span.start <= k < span.end
      ensures out[k].val == input[k].val &&
        (input[k].val.IsConst() ==> out[k].ty == input[k].ty) &&
        (input[k].val.Return? ==> out[k].ty == out[input[k].val.x].ty) &&
        (input[k].val.IsBinary() ==> out[k].ty == BinaryResult(out[input[k].val.l].ty, out[input[k].val.r].ty))
    {
      assert InSpan(span, k) && OperandsIn(input[k].val, span.start, k);
      assert TypedAt(input, out, span.start, k);
    }
  }

  /** An instruction whose operands lie in `[start, k)` earns its diagnostics from `output` alone. */
  lemma DiagnosticsAtOwnOperands(a: seq<Instruction>, b: seq<Instruction>, output: seq<Instruction>, start: nat, k: nat)
    requires start <= k < |a| && |b| == |a| && |output| == |a|
    requires a[k].val == b[k].val && a[k].tok == b[k].tok && OperandsIn(a[k].val, start, k)
    ensures DiagnosticsAt(a, output, start, k) == DiagnosticsAt(b, output, start, k)
  {
  }

  /** With def-before-use, the rule reads only types the span itself produced. */
  lemma {:induction false} SpanDiagnosticsOwnOperands(a: seq<Instruction>, b: seq<Instruction>, output: seq<Instruction>, start: nat, i: nat)
    requires start <= i <= |a| && |b| == |a| && |output| == |a| && OperandsPrecedeInSpan(a, Span(start, i))
    requires forall k :: start <= k < i ==> a[k].val == b[k].val && a[k].tok == b[k].tok
    ensures SpanDiagnostics(a, output, start, i) == SpanDiagnostics(b, output, start, i)
    decreases i - start
  {
    if i > start {
      var k := i - 1;
      assert InSpan(Span(start, i), k);
      DiagnosticsAtOwnOperands(a, b, output, start, k);
      assert OperandsPrecedeInSpan(a, Span(start, k));
      SpanDiagnosticsOwnOperands(a, b, output, start, k);
    }
  }

  /** Under `Characterized` twice over, with def-before-use, the two outputs agree on `[start, k]`. */
  lemma {:induction false} RepropagatedAgrees(input: seq<Instruction>, out: seq<Instruction>, out2: seq<Instruction>,
                                              d: seq<Diagnostic>, d2: seq<Diagnostic>, span: Span, k: nat)
    requires span.start <= k < span.end <= |input| && SpanPropagatable(Vals(input), span)
    requires OperandsPrecedeInSpan(input, span) && Vals(out) == Vals(input)
    requires Characterized(input, out, d, span.start, span.end)
    requires SpanPropagatable(Vals(out), span) && Characterized(out, out2, d2, span.start, span.end)
    ensures forall x :: span.start <= x <= k ==> out2[x] == out[x]
    decreases k
  {
    if k > span.start {
      RepropagatedAgrees(input, out, out2, d, d2, span, k - 1);
    }
    assert InSpan(span, k) && OperandsIn(input[k].val, span.start, k);
    assert TypedAt(input, out, span.start, k);
    assert Propagatable(out[k].val, |out|) && TypedAt(out, out2, span.start, k);
  }

  /**
   * With def-before-use inside the block, propagating a second time changes no
   * type and reports the same diagnostics again.
   */
  lemma PropagationIdempotent(input: seq<Instruction>, span: Span)
    requires span.start < span.end <= |input| && SpanPropagatable(Vals(input), span)
    requires OperandsPrecedeInSpan(input, span)
    ensures var r := PropagatedSpan(input, span);
      SpanPropagatable(Vals(r.0), span) && PropagatedSpan(r.0, span) == r
  {
    var r := PropagatedSpan(input, span);
    var out := r.0;
    PropagatedSpanCharacterized(input, span);
    PropagatedSpanCharacterized(out, span);
    var r2 := PropagatedSpan(out, span);
    RepropagatedAgrees(input, out, r2.0, r.1, r2.1, span, span.end - 1);
    assert r2.0 == out;
    assert OperandsPrecedeInSpan(out, span);
    forall k | span.start <= k < span.end
      ensures out[k].val == input[k].val && out[k].tok == input[k].tok
    {
      assert TypedAt(input, out, span.start, k);
    }
    SpanDiagnosticsOwnOperands(out, input, out, span.start, span.end);
  }

  /** A span pass touches only its own span and no constant anywhere, and keeps every value and token. */
  lemma PropagatedSpanFrame(input: seq<Instruction>, span: Span)
    requires SpanPropagatable(Vals(input), span)
    ensures var out := PropagatedSpan(input, span).0;
      |out| == |input| &&
      (forall x :: 0 <= x < |input| && !InSpan(span, x) ==> out[x] == input[x]) &&
      (forall x :: 0 <= x < |input| && input[x].val.IsConst() ==> out[x] == input[x]) &&
      (forall x :: 0 <= x < |input| ==> out[x].val == input[x].val && out[x].tok == input[x].tok)
  {
    if span.start < span.end {
      PropagatedSpanCharacterized(input, span);
      var out := PropagatedSpan(input, span).0;
      forall x | 0 <= x < |input|
        ensures input[x].val.IsConst() ==> out[x] == input[x]
        ensures out[x].val == input[x].val && out[x].tok == input[x].tok
      {
        if InSpan(span, x) {
          assert TypedAt(input, out, span.start, x);
        }
      }
    }
  }

  /**
   * `propogate` keeps every value and token, rewrites only instructions inside
   * some function's entry block, and never a constant.
   */
  lemma {:induction false} PropagatedFuncsFrame(instrs: seq<Instruction>, blocks: seq<Span>, funcs: seq<Function>)
    requires UnitPropagatable(Vals(instrs), blocks, funcs)
    ensures var out := PropagatedFuncs(instrs, blocks, funcs).0;
      |out| == |instrs| &&
      (forall x :: 0 <= x < |instrs| ==> out[x].val == instrs[x].val && out[x].tok == instrs[x].tok) &&
      (forall x :: 0 <= x < |instrs| && !InEntrySpan(blocks, funcs, x) ==> out[x] == instrs[x]) &&
      (forall x :: 0 <= x < |instrs| && instrs[x].val.IsConst() ==> out[x] == instrs[x])
    decreases |funcs|
  {
    if funcs != [] {
      var init := funcs[..|funcs| - 1];
      var last := funcs[|funcs| - 1];
      assert UnitPropagatable(Vals(instrs), blocks, init);
      PropagatedFuncsFrame(instrs, blocks, init);
      var p := PropagatedFuncs(instrs, blocks, init);
      assert SpanPropagatable(Vals(p.0), blocks[last.block]);
      PropagatedSpanFrame(p.0, blocks[last.block]);
      var out := PropagatedFuncs(instrs, blocks, funcs).0;
      forall x | 0 <= x < |instrs| && !InEntrySpan(blocks, funcs, x)
        ensures out[x] == instrs[x]
      {
        assert !InSpan(blocks[last.block], x) by {
          assert funcs[|funcs| - 1] == last;
        }
      }
      forall x | 0 <= x < |instrs| && instrs[x].val.IsConst()
        ensures out[x] == instrs[x]
      {
        assert Vals(p.0)[x] == p.0[x].val;
      }
    }
  }

  /** Rewrites one function's entry block in place; one object per function, as in the source. */
  class BlockTypePropagator {
    const ctx: CompilerContext
    const unit: IrUnit
    const span: Span

    constructor (ctx: CompilerContext, unit: IrUnit, span: Span)
      ensures this.ctx == ctx && this.unit == unit && this.span == span
    {
      this.ctx := ctx;
      this.unit := unit;
      this.span := span;
    }

    method PropagateInstruction(k: nat)
      requires k < unit.instructions.Length
      requires Propagatable(unit.instructions[k].val, unit.instructions.Length)
      modifies ctx, unit.instructions
      ensures var s := Propagated(old(unit.instructions[..]), k);
        unit.instructions[..] == old(unit.instructions[..])[k := s.instr] &&
        ctx.diagnostics == old(ctx.diagnostics) + s.diags
    {
      var instr := unit.instructions[k];
      var tok := instr.tok;
      var out: Instruction;
      if instr.val.IsConst() {
        out := instr;
      } else if instr.val.Return? {
        out := Instruction(instr.val, unit.instructions[instr.val.x].ty, tok);
      } else {
        var lt := unit.instructions[instr.val.l].ty;
        var rt := unit.instructions[instr.val.r].ty;
        var ty: Type;
        if !BinaryCompatibleTypes(lt, rt) {
          ctx.PushDiagnostic(IncompatibleDiagnostic(lt, rt, tok));
          ty := Invalid;
        } else if !CoerceType(lt, rt) {
          ctx.PushDiagnostic(Diagnostic(tok, Error, UNCOERCIBLE_MESSAGE));
          ty := Invalid;
        } else {
          ty := rt;
        }
        out := Instruction(instr.val, ty, tok);
      }
      unit.instructions[k] := out;
    }

    /** One iteration of `propogate`: instruction `i` of the span, after those before it. */
    method PropagateNext(ghost input: seq<Instruction>, i: nat, ghost diags: seq<Diagnostic>)
      requires span.start <= i < span.end && SpanPropagatable(Vals(input), span)
      requires unit.instructions[..] == PropagatedUpTo(input, span.start, i).0
      requires ctx.diagnostics == diags + PropagatedUpTo(input, span.start, i).1
      modifies ctx, unit.instructions
      ensures unit.instructions[..] == PropagatedUpTo(input, span.start, i + 1).0
      ensures ctx.diagnostics == diags + PropagatedUpTo(input, span.start, i + 1).1
    {
      UpToStep(input, span.start, i, span.end);
      ghost var p := PropagatedUpTo(input, span.start, i);
      PropagateInstruction(i);
      AppendAssoc(diags, p.1, Propagated(p.0, i).diags);
    }

    method Propagate()
      requires SpanPropagatable(Vals(unit.instructions[..]), span)
      modifies ctx, unit.instructions
      ensures var r := PropagatedSpan(old(unit.instructions[..]), span);
        unit.instructions[..] == r.0 && ctx.diagnostics == old(ctx.diagnostics) + r.1
    {
      ghost var input := unit.instructions[..];
      var i := span.start;
      while i < span.end
        invariant span.start <= i && (i == span.start || i <= span.end)
        invariant SpanPropagatable(Vals(input), Span(span.start, i))
        invariant unit.instructions[..] == PropagatedUpTo(input, span.start, i).0
        invariant ctx.diagnostics == old(ctx.diagnostics) + PropagatedUpTo(input, span.start, i).1
        decreases span.end - i
      {
        PropagateNext(input, i, old(ctx.diagnostics));
        i := i + 1;
      }
      assert PropagatedSpan(input, span) == PropagatedUpTo(input, span.start, i);
    }
  }

  /** `propogate`: runs a fresh block propagator over each function's entry block. */
  method Propagate(ctx: CompilerContext, unit: IrUnit)
    requires UnitPropagatable(Vals(unit.instructions[..]), unit.blocks, unit.funcs)
    modifies ctx, unit.instructions
    ensures var r := PropagatedFuncs(old(unit.instructions[..]), unit.blocks, unit.funcs);
      unit.instructions[..] == r.0 && ctx.diagnostics == old(ctx.diagnostics) + r.1
  {
    ghost var input := unit.instructions[..];
    var funcs := unit.funcs;
    var j := 0;
    while j < |funcs|
      invariant 0 <= j <= |funcs|
      invariant UnitPropagatable(Vals(input), unit.blocks, funcs[..j])
      invariant unit.instructions[..] == PropagatedFuncs(input, unit.blocks, funcs[..j]).0
      invariant ctx.diagnostics == old(ctx.diagnostics) + PropagatedFuncs(input, unit.blocks, funcs[..j]).1
    {
      assert funcs[..j + 1][..j] == funcs[..j];
      ghost var p := PropagatedFuncs(input, unit.blocks, funcs[..j]);
      var propagator := new BlockTypePropagator(ctx, unit, unit.blocks[funcs[j].block]);
      propagator.Propagate();
      AppendAssoc(old(ctx.diagnostics), p.1, PropagatedSpan(p.0, unit.blocks[funcs[j].block]).1);
      j := j + 1;
    }
    assert funcs[..j] == funcs;
  }
}
