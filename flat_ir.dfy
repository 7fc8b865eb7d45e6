/**
 * The flat-arena IR that type propagation, constant folding and the optimizer
 * driver work on: one array of instructions for the whole unit, blocks as
 * half-open spans into it, and functions naming their entry block.
 */
module FlatIr {

  import opened Types
  import opened Tokens
  import opened Format

  /** Instruction kinds; operands are indices of earlier instructions in the arena. */
  datatype InstructionValue =
    | ConstInteger(i: I64)
    | ConstFloat(f: Float)
    | Add(l: nat, r: nat)
    | Subtract(l: nat, r: nat)
    | Multiply(l: nat, r: nat)
    | Divide(l: nat, r: nat)
    | Return(x: nat)
    | Cast(x: nat, target: Type)
    | Equal(l: nat, r: nat)
    | Call(name: nat, args: seq<nat>)
    | Branch(cond: nat, thenBlock: nat, elseBlock: nat)
    | Phi(source: nat, chained: nat)
    | PhiTerminal(blockA: nat, blockB: nat)
  {
    predicate IsBinary() {
      Add? || Subtract? || Multiply? || Divide?
    }

    predicate IsConst() {
      ConstInteger? || ConstFloat?
    }
  }

  datatype Instruction = Instruction(val: InstructionValue, ty: Type, tok: nat)

  datatype Function = Function(name: Span, block: nat)

  predicate InSpan(span: Span, k: int) {
    span.start <= k < span.end
  }

  /** Every index the loop `span.start..span.end` visits lies below `n`. */
  predicate SpanWithin(span: Span, n: nat) {
    span.end <= span.start || span.end <= n
  }

  predicate Disjoint(a: Span, b: Span) {
    a.end <= a.start || b.end <= b.start || a.end <= b.start || b.end <= a.start
  }

  /** No two blocks share an instruction. */
  predicate BlocksDisjoint(blocks: seq<Span>) {
    forall i, j :: 0 <= i < |blocks| && 0 <= j < |blocks| && i != j ==> Disjoint(blocks[i], blocks[j])
  }

  /** Each function names an existing block whose span lies inside the arena. */
  predicate EntrySpansValid(n: nat, blocks: seq<Span>, funcs: seq<Function>) {
    forall j :: 0 <= j < |funcs| ==> funcs[j].block < |blocks| && SpanWithin(blocks[funcs[j].block], n)
  }

  /** `k` lies in the entry-block span of some function. */
  predicate InEntrySpan(blocks: seq<Span>, funcs: seq<Function>, k: int) {
    exists j :: 0 <= j < |funcs| && funcs[j].block < |blocks| && InSpan(blocks[funcs[j].block], k)
  }

  /** The operands an instruction reads lie in `[lo, hi)`. */
  predicate OperandsIn(v: InstructionValue, lo: int, hi: int) {
    (v.IsBinary() ==> lo <= v.l < hi && lo <= v.r < hi) &&
    (v.Return? ==> lo <= v.x < hi)
  }

  /**
   * Def-before-use inside one block: every operand of an instruction of the
   * span is an earlier instruction of the same span.
   */
  predicate OperandsPrecedeInSpan(instrs: seq<Instruction>, span: Span) {
    forall k :: 0 <= k < |instrs| && InSpan(span, k) ==> OperandsIn(instrs[k].val, span.start, k)
  }

  /** The IR unit; the passes rewrite `instructions` in place and never resize it. */
  class IrUnit {
    const instructions: array<Instruction>
    const blocks: seq<Span>
    const funcs: seq<Function>

    constructor (instructions: seq<Instruction>, blocks: seq<Span>, funcs: seq<Function>)
      ensures fresh(this.instructions) && this.instructions[..] == instructions
      ensures this.blocks == blocks && this.funcs == funcs
    {
      this.instructions := new Instruction[|instructions|](i requires 0 <= i < |instructions| => instructions[i]);
      this.blocks := blocks;
      this.funcs := funcs;
    }
  }
}
