/**
 * The per-function IR that the older typechecker (src/sema.rs), the AST-to-IR
 * emitter and the older C and x86 emitters work on: each function owns its own
 * list of instructions, and operands index that list.
 */
module FuncIr {

  import opened Format
  import opened Tokens
  import opened FlatIr

  /** A function: its name (a span of the source) and its one block of instructions. */
  datatype IrFunction = IrFunction(name: Span, instrs: seq<Instruction>)

  /** Def-before-use within one function: every operand indexes an earlier instruction. */
  predicate OperandsPrecede(instrs: seq<Instruction>) {
    OperandsPrecedeInSpan(instrs, Span(0, |instrs|))
  }

  /**
   * What the older backends print but do not compute: the source text of a
   * span, and the text Rust's `{}` gives a double.
   */
  datatype Show = Show(name: Span -> string, float: Float -> string)

  /** No shown name or double holds a line break. */
  ghost predicate ShowsOneLine(sh: Show) {
    (forall sp: Span :: '\n' !in sh.name(sp)) && (forall f: Float :: '\n' !in sh.float(f))
  }
}
