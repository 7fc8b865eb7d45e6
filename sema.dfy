/**
 * The older per-function typechecker (src/sema.rs).  For each function a
 * fresh context walks the instructions in order and pushes a typed copy of
 * each onto an output buffer; an operand's type is read from the copies
 * already pushed, so operands must index earlier instructions.  An addition
 * whose operand types have no common type becomes `Invalid` and reports one
 * error through the compiler context.
 */
module Sema {

  import opened Wrappers
  import opened Tokens
  import opened Types
  import opened Diagnostics
  import opened Context
  import opened FlatIr
  import opened FuncIr
  import TypePropagation

  /** `TypeChecker::compat_types`: the common type of two operands, if any. */
  function CompatTypes(left: Type, right: Type): (r: Option<Type>)
    ensures r.Some? <==> BinaryCompatibleTypes(left, right)
    ensures r.Some? ==> r.value == left && r.value == right
  {
    match (left, right)
    case (Integer, Integer) => Some(Type.Integer)
    case (Floating, Floating) => Some(Type.Floating)
    case _ => None
  }

  /**
   * The kinds `typecheck_instruction` handles (any other is `unimplemented!()`),
   * with operands among the `n` instructions already checked.
   */
  predicate CheckableValue(v: InstructionValue, n: nat) {
    v.IsConst() || (v.Add? && v.l < n && v.r < n) || (v.Return? && v.x < n)
  }

  /** Every instruction of a function can be checked when its turn comes. */
  predicate Checkable(instrs: seq<Instruction>) {
    forall k :: 0 <= k < |instrs| ==> CheckableValue(instrs[k].val, k)
  }

  predicate UnitCheckable(funcs: seq<IrFunction>) {
    forall j :: 0 <= j < |funcs| ==> Checkable(funcs[j].instrs)
  }

  /** What checking one instruction against the buffer `out` pushes and reports. */
  function CheckStep(out: seq<Instruction>, instr: Instruction): (s: TypePropagation.Step)
    requires CheckableValue(instr.val, |out|)
    ensures s.instr.val == instr.val && s.instr.tok == instr.tok
  {
    var v := instr.val;
    if v.IsConst() then TypePropagation.Step(instr, [])
    else if v.Add? then
      var lt, rt := out[v.l].ty, out[v.r].ty;
      match CompatTypes(lt, rt)
      case Some(t) => TypePropagation.Step(Instruction(v, t, instr.tok), [])
      case None => TypePropagation.Step(Instruction(v, Invalid, instr.tok), [TypePropagation.IncompatibleDiagnostic(lt, rt, instr.tok)])
    else TypePropagation.Step(Instruction(v, out[v.x].ty, instr.tok), [])
  }

  /** The output buffer and the diagnostics after checking the first `i` instructions. */
  function CheckedPrefix(instrs: seq<Instruction>, i: nat): (r: (seq<Instruction>, seq<Diagnostic>))
    requires i <= |instrs| && Checkable(instrs)
    ensures |r.0| == i
  {
    if i == 0 then ([], [])
    else
      var p := CheckedPrefix(instrs, i - 1);
      var s := CheckStep(p.0, instrs[i - 1]);
      (p.0 + [s.instr], p.1 + s.diags)
  }

  /** Checking copies every operation and token; only types change. */
  lemma {:induction false} CheckedPrefixShape(instrs: seq<Instruction>, i: nat)
    requires i <= |instrs| && Checkable(instrs)
    ensures forall k :: 0 <= k < i ==>
      CheckedPrefix(instrs, i).0[k].val == instrs[k].val && CheckedPrefix(instrs, i).0[k].tok == instrs[k].tok
  {
    if i > 0 {
      CheckedPrefixShape(instrs, i - 1);
      var p := CheckedPrefix(instrs, i - 1).0;
      assert forall k :: 0 <= k < i - 1 ==> CheckedPrefix(instrs, i).0[k] == p[k];
    }
  }

  /** The buffer only grows: a shorter run's buffer is a prefix of a longer run's. */
  lemma {:induction false} CheckedPrefixStable(instrs: seq<Instruction>, i: nat, j: nat)
    requires i <= j <= |instrs| && Checkable(instrs)
    ensures CheckedPrefix(instrs, j).0[..i] == CheckedPrefix(instrs, i).0
    decreases j - i
  {
    if i < j {
      CheckedPrefixStable(instrs, i, j - 1);
      var p := CheckedPrefix(instrs, j - 1).0;
      assert CheckedPrefix(instrs, j).0[..j - 1] == p;
      assert p[..i] == CheckedPrefix(instrs, i).0;
    }
  }

  /** The type an addition gets from its operand types. */
  function AddType(lt: Type, rt: Type): Type {
    match CompatTypes(lt, rt)
    case Some(t) => t
    case None => Invalid
  }

  /**
   * The typing rule at `k`, stated on the output alone: a constant is copied
   * unchanged, an addition gets the common type of its checked operands or
   * `Invalid`, and a return gets its checked operand's type.
   */
  predicate WellTypedAt(instrs: seq<Instruction>, out: seq<Instruction>, k: nat)
    requires k < |instrs| && k < |out| && CheckableValue(instrs[k].val, k)
  {
    var v := instrs[k].val;
    (v.IsConst() ==> out[k] == instrs[k]) &&
    (v.Add? ==> out[k].ty == AddType(out[v.l].ty, out[v.r].ty)) &&
    (v.Return? ==> out[k].ty == out[v.x].ty)
  }

  /** Instruction `k` of a checked prefix obeys the typing rule. */
  lemma CheckedAt(instrs: seq<Instruction>, k: nat, n: nat)
    requires k < n <= |instrs| && Checkable(instrs)
    ensures CheckableValue(instrs[k].val, k) && WellTypedAt(instrs, CheckedPrefix(instrs, n).0, k)
  {
    var out := CheckedPrefix(instrs, n).0;
    CheckedPrefixStable(instrs, k + 1, n);
    var p := CheckedPrefix(instrs, k).0;
    var s := CheckStep(p, instrs[k]);
    assert out[..k + 1] == p + [s.instr];
    assert out[k] == s.instr;
    assert CheckableValue(instrs[k].val, k);
    var v := instrs[k].val;
    if v.Add? {
      assert out[v.l] == p[v.l] && out[v.r] == p[v.r];
    } else if v.Return? {
      assert out[v.x] == p[v.x];
    }
  }

  /** Every instruction of the checked function obeys the typing rule. */
  lemma CheckedWellTyped(instrs: seq<Instruction>)
    requires Checkable(instrs)
    ensures forall k :: 0 <= k < |instrs| ==>
      CheckableValue(instrs[k].val, k) && WellTypedAt(instrs, CheckedPrefix(instrs, |instrs|).0, k)
  {
    forall k | 0 <= k < |instrs|
      ensures CheckableValue(instrs[k].val, k) && WellTypedAt(instrs, CheckedPrefix(instrs, |instrs|).0, k)
    {
      CheckedAt(instrs, k, |instrs|);
    }
  }

  /** An addition gets the same type here as a binary operation gets in type propagation. */
  lemma AddTypeAgreesWithPropagation(lt: Type, rt: Type)
    ensures AddType(lt, rt) == TypePropagation.BinaryResult(lt, rt)
  {
  }

  /** The checked function can be checked again, and checking it again changes nothing. */
  lemma CheckIdempotent(instrs: seq<Instruction>)
    requires Checkable(instrs)
    ensures var out := CheckedPrefix(instrs, |instrs|).0;
      Checkable(out) && CheckedPrefix(out, |out|).0 == out
  {
    var out := CheckedPrefix(instrs, |instrs|).0;
    CheckedPrefixShape(instrs, |instrs|);
    assert Checkable(out) by {
      forall k | 0 <= k < |out|
        ensures CheckableValue(out[k].val, k)
      {
        assert CheckableValue(instrs[k].val, k);
      }
    }
    CheckedWellTyped(instrs);
    RecheckedPrefix(instrs, out, |out|);
  }

  /** Checking a well-typed instruction again, after its well-typed predecessors, pushes it unchanged. */
  lemma RecheckStep(instrs: seq<Instruction>, out: seq<Instruction>, k: nat)
    requires k < |instrs| == |out| && out[k].val == instrs[k].val && out[k].tok == instrs[k].tok
    requires CheckableValue(instrs[k].val, k) && WellTypedAt(instrs, out, k)
    ensures CheckableValue(out[k].val, |out[..k]|) && CheckStep(out[..k], out[k]).instr == out[k]
  {
    var v := instrs[k].val;
    var p := out[..k];
    if v.Add? {
      assert p[v.l] == out[v.l] && p[v.r] == out[v.r];
    } else if v.Return? {
      assert p[v.x] == out[v.x];
    }
  }

  lemma {:induction false} RecheckedPrefix(instrs: seq<Instruction>, out: seq<Instruction>, i: nat)
    requires |out| == |instrs| && Checkable(out) && i <= |out|
    requires forall k :: 0 <= k < |instrs| ==> out[k].val == instrs[k].val && out[k].tok == instrs[k].tok
    requires forall k :: 0 <= k < |instrs| ==> CheckableValue(instrs[k].val, k) && WellTypedAt(instrs, out, k)
    ensures CheckedPrefix(out, i).0 == out[..i]
  {
    if i > 0 {
      var k := i - 1;
      RecheckedPrefix(instrs, out, k);
      RecheckStep(instrs, out, k);
      assert out[..i] == out[..k] + [out[k]];
    }
  }

  /** The additions among the first `n` instructions that `out` types `Invalid`, in order. */
  function InvalidAdds(instrs: seq<Instruction>, out: seq<Instruction>, n: nat): (r: seq<nat>)
    requires n <= |instrs| && n <= |out|
    ensures forall m :: 0 <= m < |r| ==> r[m] < n && instrs[r[m]].val.Add? && out[r[m]].ty == Invalid
  {
    if n == 0 then [] else InvalidAdds(instrs, out, n - 1) + InvalidAt(instrs, out, n - 1)
  }

  /** Every addition below `n` typed `Invalid` is listed. */
  lemma {:induction false} InvalidAddsComplete(instrs: seq<Instruction>, out: seq<Instruction>, n: nat)
    requires n <= |instrs| && n <= |out|
    ensures forall k :: 0 <= k < n && instrs[k].val.Add? && out[k].ty == Invalid ==> k in InvalidAdds(instrs, out, n)
  {
    if n > 0 {
      InvalidAddsComplete(instrs, out, n - 1);
      var r := InvalidAdds(instrs, out, n - 1);
      assert InvalidAdds(instrs, out, n) == r + InvalidAt(instrs, out, n - 1);
    }
  }

  /** The listed additions are in increasing order. */
  lemma {:induction false} InvalidAddsIncreasing(instrs: seq<Instruction>, out: seq<Instruction>, n: nat)
    requires n <= |instrs| && n <= |out|
    ensures forall m, m' :: 0 <= m < m' < |InvalidAdds(instrs, out, n)| ==> InvalidAdds(instrs, out, n)[m] < InvalidAdds(instrs, out, n)[m']
  {
    if n > 0 {
      InvalidAddsIncreasing(instrs, out, n - 1);
      var r, last := InvalidAdds(instrs, out, n - 1), InvalidAt(instrs, out, n - 1);
      var r2 := r + last;
      assert InvalidAdds(instrs, out, n) == r2;
      assert |last| <= 1;
      forall m, m' | 0 <= m < m' < |r2|
        ensures r2[m] < r2[m']
      {
        if m' >= |r| {
          assert r2[m'] == last[m' - |r|] == n - 1;
          if m < |r| {
            assert r2[m] == r[m] < n - 1;
          }
        } else {
          assert r2[m] == r[m] && r2[m'] == r[m'];
        }
      }
    }
  }

  /** `[k]` when the addition at `k` is typed `Invalid`, else nothing. */
  function InvalidAt(instrs: seq<Instruction>, out: seq<Instruction>, k: nat): (r: seq<nat>)
    requires k < |instrs| && k < |out|
    ensures forall m :: 0 <= m < |r| ==> r[m] == k && instrs[k].val.Add? && out[k].ty == Invalid
    ensures instrs[k].val.Add? && out[k].ty == Invalid ==> r == [k]
  {
    if instrs[k].val.Add? && out[k].ty == Invalid then [k] else []
  }

  lemma {:induction false} InvalidAddsFrame(instrs: seq<Instruction>, o1: seq<Instruction>, o2: seq<Instruction>, n: nat)
    requires n <= |instrs| && n <= |o1| && n <= |o2| && o1[..n] == o2[..n]
    ensures InvalidAdds(instrs, o1, n) == InvalidAdds(instrs, o2, n)
  {
    if n > 0 {
      assert o1[..n - 1] == o1[..n][..n - 1] && o2[..n - 1] == o2[..n][..n - 1];
      InvalidAddsFrame(instrs, o1, o2, n - 1);
      assert o1[n - 1] == o1[..n][n - 1];
    }
  }

  /** The error reported for the invalid addition at `k`. */
  function AddDiagnostic(instrs: seq<Instruction>, out: seq<Instruction>, k: nat): Diagnostic
    requires k < |instrs| && k < |out| && instrs[k].val.Add? && instrs[k].val.l < |out| && instrs[k].val.r < |out|
  {
    var v := instrs[k].val;
    TypePropagation.IncompatibleDiagnostic(out[v.l].ty, out[v.r].ty, instrs[k].tok)
  }

  /** `ds` are the errors of the invalid additions `bad` of `out`, one each, in order. */
  predicate ReportsInvalidAdds(instrs: seq<Instruction>, out: seq<Instruction>, ds: seq<Diagnostic>, bad: seq<nat>) {
    |ds| == |bad| &&
    forall m :: 0 <= m < |ds| ==>
      bad[m] < |instrs| && bad[m] < |out| && CheckableValue(instrs[bad[m]].val, bad[m]) && instrs[bad[m]].val.Add? &&
      ds[m] == AddDiagnostic(instrs, out, bad[m])
  }

  lemma ReportsFrame(instrs: seq<Instruction>, o1: seq<Instruction>, o2: seq<Instruction>, ds: seq<Diagnostic>, bad: seq<nat>, n: nat)
    requires n <= |o1| && n <= |o2| && o1[..n] == o2[..n]
    requires ReportsInvalidAdds(instrs, o1, ds, bad) && forall m :: 0 <= m < |bad| ==> bad[m] < n
    ensures ReportsInvalidAdds(instrs, o2, ds, bad)
  {
    forall m | 0 <= m < |ds|
      ensures AddDiagnostic(instrs, o1, bad[m]) == AddDiagnostic(instrs, o2, bad[m])
    {
      var v := instrs[bad[m]].val;
      assert o1[v.l] == o1[..n][v.l] && o1[v.r] == o1[..n][v.r];
    }
  }

  /**
   * Exactly one error per addition typed `Invalid`, at that addition's token,
   * naming the operand types, in instruction order; nothing else is reported.
   */
  lemma {:induction false} CheckedDiagnostics(instrs: seq<Instruction>, i: nat)
    requires i <= |instrs| && Checkable(instrs)
    ensures var r := CheckedPrefix(instrs, i);
      ReportsInvalidAdds(instrs, r.0, r.1, InvalidAdds(instrs, r.0, i))
  {
    if i > 0 {
      CheckedDiagnostics(instrs, i - 1);
      var p := CheckedPrefix(instrs, i - 1);
      var r := CheckedPrefix(instrs, i);
      var s := CheckStep(p.0, instrs[i - 1]);
      assert r.0 == p.0 + [s.instr] && r.1 == p.1 + s.diags;
      assert r.0[..i - 1] == p.0;
      InvalidAddsFrame(instrs, r.0, p.0, i - 1);
      var pbad := InvalidAdds(instrs, p.0, i - 1);
      ReportsFrame(instrs, p.0, r.0, p.1, pbad, i - 1);
      StepReports(instrs, i);
      ReportsAppend(instrs, r.0, p.1, pbad, s.diags, InvalidAt(instrs, r.0, i - 1));
    }
  }

  /** The errors step `i - 1` reports are those of its own invalid addition. */
  lemma StepReports(instrs: seq<Instruction>, i: nat)
    requires 0 < i <= |instrs| && Checkable(instrs)
    ensures var p := CheckedPrefix(instrs, i - 1).0; var r := CheckedPrefix(instrs, i).0;
      ReportsInvalidAdds(instrs, r, CheckStep(p, instrs[i - 1]).diags, InvalidAt(instrs, r, i - 1))
  {
    var p := CheckedPrefix(instrs, i - 1).0;
    var r := CheckedPrefix(instrs, i).0;
    assert CheckableValue(instrs[i - 1].val, i - 1);
    var v := instrs[i - 1].val;
    if v.Add? {
      assert r[v.l] == p[v.l] && r[v.r] == p[v.r];
    }
  }

  lemma ReportsAppend(instrs: seq<Instruction>, out: seq<Instruction>, ds1: seq<Diagnostic>, bad1: seq<nat>, ds2: seq<Diagnostic>, bad2: seq<nat>)
    requires ReportsInvalidAdds(instrs, out, ds1, bad1) && ReportsInvalidAdds(instrs, out, ds2, bad2)
    ensures ReportsInvalidAdds(instrs, out, ds1 + ds2, bad1 + bad2)
  {
    forall m | |ds1| <= m < |ds1| + |ds2|
      ensures (ds1 + ds2)[m] == ds2[m - |ds1|] && (bad1 + bad2)[m] == bad2[m - |ds1|]
    {
    }
  }

  /** `typecheck` of one function: the checked copy and the errors it reports. */
  function CheckedFunction(f: IrFunction): (r: (IrFunction, seq<Diagnostic>))
    requires Checkable(f.instrs)
  {
    var (out, ds) := CheckedPrefix(f.instrs, |f.instrs|);
    (IrFunction(f.name, out), ds)
  }

  /**
   * `TypeChecker::inner_typecheck` after the first `|funcs|` functions: the
   * same functions, in order, under the same names, each the same length with
   * the same operations and tokens; and the errors, function after function.
   */
  function CheckedUnit(funcs: seq<IrFunction>): (r: (seq<IrFunction>, seq<Diagnostic>))
    requires UnitCheckable(funcs)
    ensures |r.0| == |funcs|
    ensures forall j :: 0 <= j < |funcs| ==>
      r.0[j].name == funcs[j].name && |r.0[j].instrs| == |funcs[j].instrs| &&
      forall k :: 0 <= k < |funcs[j].instrs| ==>
        r.0[j].instrs[k].val == funcs[j].instrs[k].val && r.0[j].instrs[k].tok == funcs[j].instrs[k].tok
    decreases |funcs|
  {
    if funcs == [] then ([], [])
    else
      var init := funcs[..|funcs| - 1];
      assert forall j :: 0 <= j < |init| ==> init[j] == funcs[j];
      var p := CheckedUnit(init);
      var c := CheckedFunction(funcs[|funcs| - 1]);
      CheckedPrefixShape(funcs[|funcs| - 1].instrs, |funcs[|funcs| - 1].instrs|);
      (p.0 + [c.0], p.1 + c.1)
  }

  /** Checks one function; a fresh context per function, as in the source. */
  class FunctionSemaContext {
    const ctx: CompilerContext
    const func: IrFunction
    var outBuffer: seq<Instruction>

    constructor (ctx: CompilerContext, func: IrFunction)
      ensures this.ctx == ctx && this.func == func && outBuffer == []
    {
      this.ctx := ctx;
      this.func := func;
      outBuffer := [];
    }

    /** `typecheck_instruction`: pushes exactly one checked instruction. */
    method TypecheckInstruction(k: nat)
      requires k < |func.instrs| && CheckableValue(func.instrs[k].val, |outBuffer|)
      modifies this, ctx
      ensures var s := CheckStep(old(outBuffer), func.instrs[k]);
        outBuffer == old(outBuffer) + [s.instr] && ctx.diagnostics == old(ctx.diagnostics) + s.diags
    {
      var instr := func.instrs[k];
      var tok := instr.tok;
      var out: Instruction;
      if instr.val.IsConst() {
        out := instr;
      } else if instr.val.Add? {
        var lt, rt := outBuffer[instr.val.l].ty, outBuffer[instr.val.r].ty;
        var ty := CompatTypes(lt, rt);
        if ty.None? {
          ctx.PushDiagnostic(TypePropagation.IncompatibleDiagnostic(lt, rt, instr.tok));
          ty := Some(Invalid);
        }
        out := Instruction(instr.val, ty.value, tok);
      } else {
        out := Instruction(instr.val, outBuffer[instr.val.x].ty, tok);
      }
      outBuffer := outBuffer + [out];
    }

    /** `inner_context`: checks every instruction in order and returns the checked function. */
    method InnerContext() returns (f: IrFunction)
      requires outBuffer == [] && Checkable(func.instrs)
      modifies this, ctx
      ensures f == CheckedFunction(func).0
      ensures ctx.diagnostics == old(ctx.diagnostics) + CheckedFunction(func).1
    {
      var n := |func.instrs|;
      for i := 0 to n
        invariant outBuffer == CheckedPrefix(func.instrs, i).0
        invariant ctx.diagnostics == old(ctx.diagnostics) + CheckedPrefix(func.instrs, i).1
      {
        assert CheckableValue(func.instrs[i].val, i);
        TypecheckInstruction(i);
        AppendAssoc(old(ctx.diagnostics), CheckedPrefix(func.instrs, i).1, CheckStep(CheckedPrefix(func.instrs, i).0, func.instrs[i]).diags);
      }
      f := IrFunction(func.name, outBuffer);
    }
  }

  /** `TypeChecker::typecheck`: checks every function of the unit in order. */
  method Typecheck(ctx: CompilerContext, funcs: seq<IrFunction>) returns (out: seq<IrFunction>)
    requires UnitCheckable(funcs)
    modifies ctx
    ensures out == CheckedUnit(funcs).0
    ensures ctx.diagnostics == old(ctx.diagnostics) + CheckedUnit(funcs).1
  {
    out := [];
    for j := 0 to |funcs|
      invariant UnitCheckable(funcs[..j])
      invariant out == CheckedUnit(funcs[..j]).0
      invariant ctx.diagnostics == old(ctx.diagnostics) + CheckedUnit(funcs[..j]).1
    {
      assert funcs[..j + 1][..j] == funcs[..j];
      assert Checkable(funcs[j].instrs);
      var fc := new FunctionSemaContext(ctx, funcs[j]);
      var f := fc.InnerContext();
      AppendAssoc(old(ctx.diagnostics), CheckedUnit(funcs[..j]).1, CheckedFunction(funcs[j]).1);
      out := out + [f];
    }
    assert funcs[..|funcs|] == funcs;
  }
}
