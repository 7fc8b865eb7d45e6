/**
 * The AST-to-IR emitter (src/ast2ir.rs): a post-order walk from a function's
 * body that appends one instruction per arithmetic, literal and return node to
 * a shared buffer and answers with the index of the instruction it pushed.
 * Operands are emitted before their user, which is what establishes the
 * def-before-use order the checking and folding passes rely on.
 */
module Ast2Ir {

  import opened Wrappers
  import opened Types
  import opened FlatIr
  import opened FuncIr
  import Ast

  const UNKNOWN_NODE: string := "unknown node in ast->ir emitter"
  const NO_MAIN: string := "Main function is not defined"

  function Max(a: nat, b: nat): nat {
    if a < b then b else a
  }

  /** The instruction kind of a binary node over operand instructions `l` and `r`. */
  function BinaryValue(d: Ast.NodeData, l: nat, r: nat): (v: InstructionValue)
    requires d.IsBinary()
    ensures v.IsBinary() && v.l == l && v.r == r
  {
    match d
    case Add(_, _) => InstructionValue.Add(l, r)
    case Subtract(_, _) => InstructionValue.Subtract(l, r)
    case Multiply(_, _) => InstructionValue.Multiply(l, r)
    case Divide(_, _) => InstructionValue.Divide(l, r)
  }

  /**
   * `emit_node` on node `n` with `base` instructions already in the buffer:
   * what it appends (up to the failure, if any) and what it answers.
   */
  function Emit(nodes: seq<Ast.Node>, n: nat, base: nat): (r: (seq<Instruction>, Result<nat>))
    requires n < |nodes| && Ast.ChildrenPrecede(nodes)
    ensures r.1.Ok? && !nodes[n].data.Block? ==> |r.0| > 0 && r.1.value == base + |r.0| - 1
    ensures r.1.Ok? && nodes[n].data.Block? ==> r.1.value == 0
    decreases n, 1, 0
  {
    var d := nodes[n].data;
    match d
    case Add(_, _) | Subtract(_, _) | Multiply(_, _) | Divide(_, _) =>
      assert d.Children()[0] == d.left && d.Children()[1] == d.right;
      var p := EmitPair(nodes, d.left, d.right, base);
      if p.1.Err? then (p.0, Err(p.1.error))
      else (p.0 + [Instruction(BinaryValue(d, p.1.value.0, p.1.value.1), Undecided, 0)], Ok(base + |p.0|))
    case Floating(f) => ([Instruction(ConstFloat(f), Type.Floating, 0)], Ok(base))
    case Block(stmts) =>
      var p := EmitStmts(nodes, n, |stmts|, base);
      (p.0, if p.1.Err? then p.1 else Ok(0))
    case Return(x) =>
      assert d.Children()[0] == x;
      var p := Emit(nodes, x, base);
      if p.1.Err? then p
      else (p.0 + [Instruction(InstructionValue.Return(p.1.value), Undecided, 0)], Ok(base + |p.0|))
    case FunctionDef(_, _, _) | Moot => ([], Err(UNKNOWN_NODE))
  }

  /** `emit_binary`: the left operand, then the right one. */
  function EmitPair(nodes: seq<Ast.Node>, l: nat, r: nat, base: nat): (p: (seq<Instruction>, Result<(nat, nat)>))
    requires l < |nodes| && r < |nodes| && Ast.ChildrenPrecede(nodes)
    ensures p.1.Ok? && !nodes[l].data.Block? ==> p.1.value.0 < base + |p.0|
    ensures p.1.Ok? && !nodes[r].data.Block? ==> p.1.value.1 == base + |p.0| - 1
    decreases Max(l, r), 2, 0
  {
    var pl := Emit(nodes, l, base);
    if pl.1.Err? then (pl.0, Err(pl.1.error))
    else
      var pr := Emit(nodes, r, base + |pl.0|);
      if pr.1.Err? then (pl.0 + pr.0, Err(pr.1.error))
      else (pl.0 + pr.0, Ok((pl.1.value, pr.1.value)))
  }

  /** The loop over a block's statements, after the first `j`. */
  function EmitStmts(nodes: seq<Ast.Node>, k: nat, j: nat, base: nat): (r: (seq<Instruction>, Result<nat>))
    requires k < |nodes| && nodes[k].data.Block? && j <= |nodes[k].data.stmts| && Ast.ChildrenPrecede(nodes)
    ensures r.1.Ok? ==> r.1.value == 0
    decreases k, 0, j
  {
    if j == 0 then ([], Ok(0))
    else
      var p := EmitStmts(nodes, k, j - 1, base);
      if p.1.Err? then p
      else
        var c := nodes[k].data.stmts[j - 1];
        assert nodes[k].data.Children()[j - 1] == c;
        var q := Emit(nodes, c, base + |p.0|);
        (p.0 + q.0, if q.1.Err? then q.1 else Ok(0))
  }

  /** What every emitted instruction looks like: a float literal or an untyped operation. */
  predicate EmittedKind(i: Instruction) {
    i.tok == 0 &&
    ((i.val.ConstFloat? && i.ty == Type.Floating) || ((i.val.IsBinary() || i.val.Return?) && i.ty == Undecided))
  }

  /**
   * `e`, appended at index `base`, holds only emitted kinds, and each of its
   * instructions reads only instructions before it.
   */
  predicate EmittedWell(e: seq<Instruction>, base: nat) {
    forall k :: 0 <= k < |e| ==> EmittedKind(e[k]) && OperandsIn(e[k].val, 0, base + k)
  }

  lemma EmittedWellAppend(a: seq<Instruction>, b: seq<Instruction>, base: nat)
    requires EmittedWell(a, base) && EmittedWell(b, base + |a|)
    ensures EmittedWell(a + b, base)
  {
    forall k | |a| <= k < |a| + |b|
      ensures (a + b)[k] == b[k - |a|]
    {
    }
  }

  /** Emitting a node appends only emitted kinds, each after its operands. */
  lemma {:induction false} EmitWell(nodes: seq<Ast.Node>, n: nat, base: nat)
    requires n < |nodes| && Ast.ChildrenPrecede(nodes) && Ast.OperandsAreExpressions(nodes)
    ensures EmittedWell(Emit(nodes, n, base).0, base)
    decreases n, 1, 0
  {
    var d := nodes[n].data;
    match d
    case Add(_, _) | Subtract(_, _) | Multiply(_, _) | Divide(_, _) =>
      assert d.Children()[0] == d.left && d.Children()[1] == d.right;
      EmitPairWell(nodes, d.left, d.right, base);
      var (e, res) := EmitPair(nodes, d.left, d.right, base);
      if res.Ok? {
        assert !nodes[d.left].data.Block? && !nodes[d.right].data.Block?;
        var i := Instruction(BinaryValue(d, res.value.0, res.value.1), Undecided, 0);
        assert EmittedWell([i], base + |e|);
        EmittedWellAppend(e, [i], base);
      }
    case Floating(f) =>
    case Block(stmts) =>
      EmitStmtsWell(nodes, n, |stmts|, base);
    case Return(x) =>
      assert d.Children()[0] == x;
      EmitWell(nodes, x, base);
      var (e, res) := Emit(nodes, x, base);
      if res.Ok? {
        assert !nodes[x].data.Block?;
        var i := Instruction(InstructionValue.Return(res.value), Undecided, 0);
        assert EmittedWell([i], base + |e|);
        EmittedWellAppend(e, [i], base);
      }
    case FunctionDef(_, _, _) | Moot =>
  }

  lemma {:induction false} EmitPairWell(nodes: seq<Ast.Node>, l: nat, r: nat, base: nat)
    requires l < |nodes| && r < |nodes| && Ast.ChildrenPrecede(nodes) && Ast.OperandsAreExpressions(nodes)
    ensures EmittedWell(EmitPair(nodes, l, r, base).0, base)
    decreases Max(l, r), 2, 0
  {
    EmitWell(nodes, l, base);
    var (el, rl) := Emit(nodes, l, base);
    if rl.Ok? {
      EmitWell(nodes, r, base + |el|);
      EmittedWellAppend(el, Emit(nodes, r, base + |el|).0, base);
    }
  }

  lemma {:induction false} EmitStmtsWell(nodes: seq<Ast.Node>, k: nat, j: nat, base: nat)
    requires k < |nodes| && nodes[k].data.Block? && j <= |nodes[k].data.stmts|
    requires Ast.ChildrenPrecede(nodes) && Ast.OperandsAreExpressions(nodes)
    ensures EmittedWell(EmitStmts(nodes, k, j, base).0, base)
    decreases k, 0, j
  {
    if j > 0 {
      EmitStmtsWell(nodes, k, j - 1, base);
      var (e, res) := EmitStmts(nodes, k, j - 1, base);
      if res.Ok? {
        var c := nodes[k].data.stmts[j - 1];
        assert nodes[k].data.Children()[j - 1] == c;
        EmitWell(nodes, c, base + |e|);
        EmittedWellAppend(e, Emit(nodes, c, base + |e|).0, base);
      }
    }
  }

  /** The AST shape the parser produces and the emitter relies on. */
  predicate WellFormed(nodes: seq<Ast.Node>) {
    Ast.ChildrenPrecede(nodes) && Ast.BodiesExist(nodes)
  }

  /** `emit_function` on the function definition at `nidx`. */
  function EmittedFunction(nodes: seq<Ast.Node>, nidx: nat): Result<IrFunction>
    requires nidx < |nodes| && nodes[nidx].data.FunctionDef? && WellFormed(nodes)
  {
    var d := nodes[nidx].data;
    var (e, res) := Emit(nodes, d.exec, 0);
    if res.Err? then Err(res.error) else Ok(IrFunction(d.name, e))
  }

  /**
   * `emit_unit`: the unit of the one function at node 0, which must be a
   * definition. Only a definition's body is walked, so only then must the
   * nodes be well formed; the parser's placeholder at node 0 is rejected.
   */
  function EmittedUnit(nodes: seq<Ast.Node>): (r: Result<seq<IrFunction>>)
    requires |nodes| > 0 && (nodes[0].data.FunctionDef? ==> WellFormed(nodes))
    ensures !nodes[0].data.FunctionDef? ==> r == Err(NO_MAIN)
    ensures r.Ok? ==> |r.value| == 1 && nodes[0].data.FunctionDef? && r.value[0].name == nodes[0].data.name
  {
    if !nodes[0].data.FunctionDef? then Err(NO_MAIN)
    else
      match EmittedFunction(nodes, 0)
      case Ok(f) => Ok([f])
      case Err(msg) => Err(msg)
  }

  /** Once a statement fails, the block's loop appends nothing more. */
  lemma {:induction false} EmitStmtsStopped(nodes: seq<Ast.Node>, k: nat, j: nat, j2: nat, base: nat)
    requires k < |nodes| && nodes[k].data.Block? && j <= j2 <= |nodes[k].data.stmts| && Ast.ChildrenPrecede(nodes)
    requires EmitStmts(nodes, k, j, base).1.Err?
    ensures EmitStmts(nodes, k, j2, base) == EmitStmts(nodes, k, j, base)
    decreases j2 - j
  {
    if j < j2 {
      EmitStmtsStopped(nodes, k, j, j2 - 1, base);
    }
  }

  lemma InstrAppendAssoc(a: seq<Instruction>, b: seq<Instruction>, c: seq<Instruction>)
    ensures (a + b) + c == a + (b + c)
  {
  }

  /** The buffer `emit_node` appends to (a `&mut Vec<Instruction>` in the source). */
  class InstrBuffer {
    var instrs: seq<Instruction>

    constructor ()
      ensures instrs == []
    {
      instrs := [];
    }

    method Push(i: Instruction)
      modifies this
      ensures instrs == old(instrs) + [i]
    {
      instrs := instrs + [i];
    }
  }

  class IrEmitter {
    const ast: Ast.Ast

    constructor (ast: Ast.Ast)
      ensures this.ast == ast
    {
      this.ast := ast;
    }

    /** `emit_binary`. */
    method EmitBinary(l: nat, r: nat, buffer: InstrBuffer) returns (res: Result<(nat, nat)>)
      requires l < |ast.nodes| && r < |ast.nodes| && Ast.ChildrenPrecede(ast.nodes)
      modifies buffer
      ensures var p := EmitPair(ast.nodes, l, r, |old(buffer.instrs)|);
        buffer.instrs == old(buffer.instrs) + p.0 && res == p.1
      decreases Max(l, r), 2
    {
      var rl := EmitNode(l, buffer);
      if rl.Err? {
        return Err(rl.error);
      }
      var rr := EmitNode(r, buffer);
      if rr.Err? {
        return Err(rr.error);
      }
      res := Ok((rl.value, rr.value));
    }

    /** `emit_node`: appends node `nidx`'s instructions and answers the index of the last. */
    method EmitNode(nidx: nat, buffer: InstrBuffer) returns (res: Result<nat>)
      requires nidx < |ast.nodes| && Ast.ChildrenPrecede(ast.nodes)
      modifies buffer
      ensures var p := Emit(ast.nodes, nidx, |old(buffer.instrs)|);
        buffer.instrs == old(buffer.instrs) + p.0 && res == p.1
      decreases nidx, 1
    {
      var d := ast.nodes[nidx].data;
      var v: InstructionValue;
      var ty: Type;
      match d {
        case Floating(f) =>
          v, ty := ConstFloat(f), Type.Floating;
        case Add(_, _) | Subtract(_, _) | Multiply(_, _) | Divide(_, _) =>
          assert d.Children()[0] == d.left && d.Children()[1] == d.right;
          var lr := EmitBinary(d.left, d.right, buffer);
          if lr.Err? {
            return Err(lr.error);
          }
          v, ty := BinaryValue(d, lr.value.0, lr.value.1), Undecided;
        case Block(_) =>
          res := EmitBlock(nidx, buffer);
          return;
        case Return(x) =>
          assert d.Children()[0] == x;
          var r := EmitNode(x, buffer);
          if r.Err? {
            return r;
          }
          v, ty := InstructionValue.Return(r.value), Undecided;
        case FunctionDef(_, _, _) | Moot =>
          return Err(UNKNOWN_NODE);
      }
      buffer.Push(Instruction(v, ty, 0));
      res := Ok(|buffer.instrs| - 1);
    }

    /** The `Block` arm of `emit_node`: emits the statements in order and answers 0. */
    method EmitBlock(nidx: nat, buffer: InstrBuffer) returns (res: Result<nat>)
      requires nidx < |ast.nodes| && ast.nodes[nidx].data.Block? && Ast.ChildrenPrecede(ast.nodes)
      modifies buffer
      ensures var p := Emit(ast.nodes, nidx, |old(buffer.instrs)|);
        buffer.instrs == old(buffer.instrs) + p.0 && res == p.1
      decreases nidx, 0
    {
      var stmts := ast.nodes[nidx].data.stmts;
      ghost var base := |buffer.instrs|;
      for j := 0 to |stmts|
        invariant buffer.instrs == old(buffer.instrs) + EmitStmts(ast.nodes, nidx, j, base).0
        invariant EmitStmts(ast.nodes, nidx, j, base).1.Ok?
      {
        ghost var e := EmitStmts(ast.nodes, nidx, j, base).0;
        assert ast.nodes[nidx].data.Children()[j] == stmts[j];
        var r := EmitNode(stmts[j], buffer);
        InstrAppendAssoc(old(buffer.instrs), e, Emit(ast.nodes, stmts[j], base + |e|).0);
        if r.Err? {
          EmitStmtsStopped(ast.nodes, nidx, j + 1, |stmts|, base);
          return r;
        }
      }
      res := Ok(0);
    }

    /** `emit_function`: emits the body of the definition at `nidx` into a fresh buffer. */
    method EmitFunction(nidx: nat) returns (res: Result<IrFunction>)
      requires nidx < |ast.nodes| && ast.nodes[nidx].data.FunctionDef? && WellFormed(ast.nodes)
      ensures res == EmittedFunction(ast.nodes, nidx)
    {
      var d := ast.nodes[nidx].data;
      var buf := new InstrBuffer();
      var r := EmitNode(d.exec, buf);
      assert buf.instrs == Emit(ast.nodes, d.exec, 0).0;
      if r.Err? {
        return Err(r.error);
      }
      res := Ok(IrFunction(d.name, buf.instrs));
    }

    /** `emit_unit`. */
    method EmitUnit() returns (res: Result<seq<IrFunction>>)
      requires |ast.nodes| > 0 && (ast.nodes[0].data.FunctionDef? ==> WellFormed(ast.nodes))
      ensures res == EmittedUnit(ast.nodes)
    {
      if !ast.nodes[0].data.FunctionDef? {
        return Err(NO_MAIN);
      }
      var main := EmitFunction(0);
      if main.Err? {
        return Err(main.error);
      }
      res := Ok([main.value]);
    }
  }
}
