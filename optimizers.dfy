/**
 * The optimizer driver (src/optimizers/mod.rs): the flags that select passes
 * and `optimize`, which runs constant folding when its flag is set and
 * otherwise hands the unit back untouched.
 */
module Optimizers {

  import opened Wrappers
  import opened Tokens
  import opened FlatIr
  import opened ConstantFolding

  /** Which optimizing passes are enabled; constant folding is the only one. */
  datatype OptimizerFlags = OptimizerFlags(constFolding: bool)

  /** `OptimizerFlags::default`. */
  function DefaultFlags(): (flags: OptimizerFlags)
    ensures flags.constFolding
  {
    OptimizerFlags(true)
  }

  /**
   * The arena `optimize` returns, or `None` when the folding pass panics.
   * Whatever the flags, nothing but constant folding's replacements happens.
   */
  function Optimized(flags: OptimizerFlags, instrs: seq<Instruction>, blocks: seq<Span>, funcs: seq<Function>, fa: FloatArith): (r: Option<seq<Instruction>>)
    requires UnitFoldable(instrs, blocks, funcs)
    ensures !flags.constFolding ==> r == Some(instrs)
    ensures r.Some? ==> Refines(instrs, r.value)
  {
    if flags.constFolding then FoldedFuncs(instrs, blocks, funcs, fa) else Some(instrs)
  }

  /**
   * No pass other than folding runs: the arena keeps its length, every type and
   * token, and changes only at binary operations inside entry blocks.
   */
  lemma OptimizedFrame(flags: OptimizerFlags, instrs: seq<Instruction>, blocks: seq<Span>, funcs: seq<Function>, fa: FloatArith)
    requires UnitFoldable(instrs, blocks, funcs) && Optimized(flags, instrs, blocks, funcs, fa).Some?
    ensures var out := Optimized(flags, instrs, blocks, funcs, fa).value;
      |out| == |instrs| &&
      (forall x :: 0 <= x < |instrs| ==> out[x].ty == instrs[x].ty && out[x].tok == instrs[x].tok) &&
      (forall x :: 0 <= x < |instrs| && (!InEntrySpan(blocks, funcs, x) || !instrs[x].val.IsBinary()) ==> out[x] == instrs[x])
  {
    if flags.constFolding {
      FoldedFuncsFrame(instrs, blocks, funcs, fa);
    }
  }

  /**
   * Optimizing twice is optimizing once, when blocks are disjoint and every
   * operand precedes its user in the same block.
   */
  lemma OptimizedIdempotent(flags: OptimizerFlags, instrs: seq<Instruction>, blocks: seq<Span>, funcs: seq<Function>, fa: FloatArith)
    requires BlocksDisjoint(blocks) && UnitFoldable(instrs, blocks, funcs) && UnitOperandsPrecede(instrs, blocks, funcs)
    requires Optimized(flags, instrs, blocks, funcs, fa).Some?
    ensures var out := Optimized(flags, instrs, blocks, funcs, fa).value;
      UnitFoldable(out, blocks, funcs) && Optimized(flags, out, blocks, funcs, fa) == Some(out)
  {
    if flags.constFolding {
      FoldIdempotent(instrs, blocks, funcs, fa);
    }
  }

  /** `optimize`: folds the unit in place when the flag is set. */
  method Optimize(flags: OptimizerFlags, unit: IrUnit, fa: FloatArith)
    requires UnitFoldable(unit.instructions[..], unit.blocks, unit.funcs)
    requires Optimized(flags, unit.instructions[..], unit.blocks, unit.funcs, fa).Some?
    modifies unit.instructions
    ensures unit.instructions[..] == Optimized(flags, old(unit.instructions[..]), unit.blocks, unit.funcs, fa).value
  {
    if flags.constFolding {
      Fold(unit, fa);
    }
  }
}
