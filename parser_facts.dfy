/**
 * What the parser guarantees about the tree it builds: children are pushed
 * before their parents, operands are expressions, `funcs` lists function
 * definitions, and where an expression holds no parenthesis the tree follows
 * the precedence and left-associativity of the grammar.
 */
module ParsingFacts {

  import opened Wrappers
  import opened Tokens
  import opened Ast
  import opened Parsing

  /** An expression node: a number, an arithmetic node or "()". */
  predicate IsExprData(d: NodeData) {
    d.Floating? || d.IsBinary() || d.Moot?
  }

  /** A statement node: an expression or a `return`. */
  predicate IsStmtData(d: NodeData) {
    IsExprData(d) || d.Return?
  }

  /**
   * Node `k` refers only to nodes pushed before it (never to node 0), its
   * operands are expressions, a block's statements are statements, and a
   * function's body is a block.
   */
  predicate NodeWell(nodes: seq<Node>, k: nat)
    requires k < |nodes|
  {
    var d := nodes[k].data;
    && (d.IsBinary() ==>
          1 <= d.left < k && 1 <= d.right < k
          && IsExprData(nodes[d.left].data) && IsExprData(nodes[d.right].data))
    && (d.Return? ==> 1 <= d.expr < k && IsExprData(nodes[d.expr].data))
    && (d.Block? ==> forall m :: 0 <= m < |d.stmts| ==> 1 <= d.stmts[m] < k && IsStmtData(nodes[d.stmts[m]].data))
    && (d.FunctionDef? ==> 1 <= d.exec < |nodes| && nodes[d.exec].data.Block?)
  }

  /** The node list the parser maintains: node 0 is the placeholder or `main`, every other node is well placed. */
  predicate Arena(nodes: seq<Node>) {
    && |nodes| > 0
    && (nodes[0] == PLACEHOLDER || (nodes[0].data.FunctionDef? && NodeWell(nodes, 0)))
    && forall k :: 1 <= k < |nodes| ==> NodeWell(nodes, k)
  }

  /** Statement indices `stmts` name statement nodes other than node 0. */
  predicate StmtsWell(nodes: seq<Node>, stmts: seq<nat>) {
    forall m :: 0 <= m < |stmts| ==> 1 <= stmts[m] < |nodes| && IsStmtData(nodes[stmts[m]].data)
  }

  lemma NodeWellAppend(nodes: seq<Node>, x: Node, k: nat)
    requires k < |nodes| && (k == 0 ==> nodes[0].data.FunctionDef?) && NodeWell(nodes, k)
    ensures NodeWell(nodes + [x], k)
  {
    var n := nodes + [x];
    assert n[k] == nodes[k];
    var d := nodes[k].data;
    if d.Block? {
      forall m | 0 <= m < |d.stmts|
        ensures n[d.stmts[m]] == nodes[d.stmts[m]]
      {
      }
    }
  }

  /** Appending a well-placed node keeps the list well formed and extends it. */
  lemma AppendWell(nodes: seq<Node>, x: Node)
    requires Arena(nodes) && NodeWell(nodes + [x], |nodes|)
    ensures Arena(nodes + [x]) && nodes <= nodes + [x]
  {
    var n := nodes + [x];
    forall k | 1 <= k < |n|
      ensures NodeWell(n, k)
    {
      if k < |nodes| {
        NodeWellAppend(nodes, x, k);
      }
    }
    if nodes[0] != PLACEHOLDER {
      NodeWellAppend(nodes, x, 0);
    }
  }

  lemma PrefixIndex(a: seq<Node>, b: seq<Node>, i: nat)
    requires a <= b && i < |a|
    ensures i < |b| && b[i] == a[i]
  {
  }

  lemma {:induction false} FactorArena(e: Env, t: nat, nodes: seq<Node>)
    requires t <= |e.toks| && Arena(nodes) && Factor(e, t, nodes).Ok?
    ensures var p := Factor(e, t, nodes).value;
      Arena(p.nodes) && nodes <= p.nodes && IsExprData(p.nodes[p.idx].data)
    decreases |e.toks| - t, 0
  {
    var tok := e.toks[t];
    if tok.ty == Number {
      var v := e.parseF64(e.text(tok.span));
      AppendWell(nodes, Node(NodeData.Floating(v.value), t + 1));
    } else if e.toks[t + 1].ty == RightParenthesis {
      AppendWell(nodes, Node(NodeData.Moot, t + 1));
    } else {
      ExprArena(e, t + 1, nodes);
    }
  }

  lemma {:induction false} TermArena(e: Env, t: nat, nodes: seq<Node>)
    requires t <= |e.toks| && Arena(nodes) && Term(e, t, nodes).Ok?
    ensures var p := Term(e, t, nodes).value;
      Arena(p.nodes) && nodes <= p.nodes && IsExprData(p.nodes[p.idx].data)
    decreases |e.toks| - t, 1
  {
    FactorArena(e, t, nodes);
    var p := Factor(e, t, nodes).value;
    TermRestArena(e, p.t, p.idx, p.nodes);
  }

  lemma {:induction false} TermRestArena(e: Env, t: nat, left: nat, nodes: seq<Node>)
    requires t <= |e.toks| && 1 <= left < |nodes| && Arena(nodes) && IsExprData(nodes[left].data)
    requires TermRest(e, t, left, nodes).Ok?
    ensures var p := TermRest(e, t, left, nodes).value;
      Arena(p.nodes) && nodes <= p.nodes && IsExprData(p.nodes[p.idx].data)
    decreases |e.toks| - t, 0
  {
    if t < |e.toks| && IsMulOp(e.toks[t].ty) {
      FactorArena(e, t + 1, nodes);
      var p := Factor(e, t + 1, nodes).value;
      var data := if e.toks[t].ty == Asterisk then Multiply(left, p.idx) else Divide(left, p.idx);
      var n := p.nodes + [Node(data, t)];
      PrefixIndex(nodes, p.nodes, left);
      assert n[left] == p.nodes[left] && n[p.idx] == p.nodes[p.idx];
      AppendWell(p.nodes, Node(data, t));
      TermRestArena(e, p.t, |p.nodes|, n);
    }
  }

  lemma {:induction false} ExprArena(e: Env, t: nat, nodes: seq<Node>)
    requires t <= |e.toks| && Arena(nodes) && Expr(e, t, nodes).Ok?
    ensures var p := Expr(e, t, nodes).value;
      Arena(p.nodes) && nodes <= p.nodes && IsExprData(p.nodes[p.idx].data)
    decreases |e.toks| - t, 2
  {
    TermArena(e, t, nodes);
    var p := Term(e, t, nodes).value;
    ExprRestArena(e, p.t, p.idx, p.nodes);
  }

  lemma {:induction false} ExprRestArena(e: Env, t: nat, left: nat, nodes: seq<Node>)
    requires t <= |e.toks| && 1 <= left < |nodes| && Arena(nodes) && IsExprData(nodes[left].data)
    requires ExprRest(e, t, left, nodes).Ok?
    ensures var p := ExprRest(e, t, left, nodes).value;
      Arena(p.nodes) && nodes <= p.nodes && IsExprData(p.nodes[p.idx].data)
    decreases |e.toks| - t, 0
  {
    if t < |e.toks| && IsAddOp(e.toks[t].ty) {
      TermArena(e, t + 1, nodes);
      var p := Term(e, t + 1, nodes).value;
      var data := if e.toks[t].ty == Plus then Add(left, p.idx) else Subtract(left, p.idx);
      var n := p.nodes + [Node(data, t)];
      PrefixIndex(nodes, p.nodes, left);
      assert n[left] == p.nodes[left] && n[p.idx] == p.nodes[p.idx];
      AppendWell(p.nodes, Node(data, t));
      ExprRestArena(e, p.t, |p.nodes|, n);
    }
  }

  lemma {:induction false} ReturnStmtArena(e: Env, t: nat, nodes: seq<Node>)
    requires t <= |e.toks| && Arena(nodes) && ReturnStmt(e, t, nodes).Ok?
    ensures var p := ReturnStmt(e, t, nodes).value;
      Arena(p.nodes) && nodes <= p.nodes && p.nodes[p.idx].data.Return?
  {
    ExprArena(e, t + 1, nodes);
    var x := Expr(e, t + 1, nodes).value;
    var n := x.nodes + [Node(NodeData.Return(x.idx), t)];
    assert n[x.idx] == x.nodes[x.idx];
    AppendWell(x.nodes, Node(NodeData.Return(x.idx), t));
  }

  lemma StatementArena(e: Env, t: nat, nodes: seq<Node>)
    requires t <= |e.toks| && Arena(nodes) && Statement(e, t, nodes).Ok?
    ensures var p := Statement(e, t, nodes).value;
      Arena(p.nodes) && nodes <= p.nodes && IsStmtData(p.nodes[p.idx].data)
  {
    if t < |e.toks| && e.toks[t].ty == TokenType.Return {
      ReturnStmtArena(e, t, nodes);
    } else {
      ExprArena(e, t, nodes);
    }
  }

  lemma StmtsWellGrow(a: seq<Node>, b: seq<Node>, stmts: seq<nat>)
    requires StmtsWell(a, stmts) && a <= b
    ensures StmtsWell(b, stmts)
  {
    forall m | 0 <= m < |stmts|
      ensures b[stmts[m]] == a[stmts[m]]
    {
      PrefixIndex(a, b, stmts[m]);
    }
  }

  lemma {:induction false} BlockStmtsArena(e: Env, t: nat, nodes: seq<Node>, ind: nat, stmts: seq<nat>)
    requires t <= |e.toks| && TokensValid(e.toks) && Arena(nodes) && StmtsWell(nodes, stmts)
    requires BlockStmts(e, t, nodes, ind, stmts).Ok?
    ensures var r := BlockStmts(e, t, nodes, ind, stmts).value;
      Arena(r.2) && nodes <= r.2 && StmtsWell(r.2, r.0)
    decreases |e.toks| - t
  {
    StatementArena(e, t, nodes);
    var p := Statement(e, t, nodes).value;
    StmtsWellGrow(nodes, p.nodes, stmts);
    var stmts' := stmts + [p.idx];
    assert StmtsWell(p.nodes, stmts');
    var tok := e.toks[p.t];
    if tok.ty == Indentation && tok.span.Len() == ind {
      BlockStmtsArena(e, p.t + 1, p.nodes, ind, stmts');
    }
  }

  lemma BlockArena(e: Env, t: nat, nodes: seq<Node>)
    requires t <= |e.toks| && TokensValid(e.toks) && Arena(nodes) && BlockAt(e, t, nodes).Ok?
    ensures var p := BlockAt(e, t, nodes).value;
      Arena(p.nodes) && nodes <= p.nodes && p.nodes[p.idx].data.Block?
  {
    var base := ExpectAt(e.toks, t, Indentation).value;
    BlockStmtsArena(e, base.1, nodes, base.0.span.Len(), []);
    var b := BlockStmts(e, base.1, nodes, base.0.span.Len(), []).value;
    var x := Node(NodeData.Block(b.0), t);
    StmtsWellGrow(b.2, b.2 + [x], b.0);
    AppendWell(b.2, x);
  }

  /**
   * `b` grows `a`: no shorter, the same nodes past node 0, and node 0 still a
   * function definition if it was one.
   */
  predicate Grows(a: seq<Node>, b: seq<Node>) {
    && |a| > 0 && |a| <= |b|
    && (forall k :: 1 <= k < |a| ==> b[k] == a[k])
    && (a[0].data.FunctionDef? ==> b[0].data.FunctionDef?)
  }

  /** Overwriting node 0 with a definition whose body is a block keeps the list well formed. */
  lemma OverwriteWell(nodes: seq<Node>, def: Node)
    requires Arena(nodes) && def.data.FunctionDef? && 1 <= def.data.exec < |nodes| && nodes[def.data.exec].data.Block?
    ensures Arena(nodes[0 := def]) && Grows(nodes, nodes[0 := def])
  {
    var n := nodes[0 := def];
    forall k | 1 <= k < |n|
      ensures NodeWell(n, k)
    {
      assert NodeWell(nodes, k);
      var d := nodes[k].data;
      if d.Block? {
        forall m | 0 <= m < |d.stmts|
          ensures n[d.stmts[m]] == nodes[d.stmts[m]]
        {
        }
      }
    }
  }

  lemma FunctionDefArena(e: Env, t: nat, nodes: seq<Node>, name: Span, rt: ReturnType, start: nat)
    requires t <= |e.toks| && TokensValid(e.toks) && Arena(nodes)
    requires FunctionDefAt(e, t, nodes, name, rt, start).Ok?
    ensures Arena(FunctionDefAt(e, t, nodes, name, rt, start).value.nodes)
    ensures Grows(nodes, FunctionDefAt(e, t, nodes, name, rt, start).value.nodes)
  {
    BlockArena(e, t, nodes);
    var b := BlockAt(e, t, nodes).value;
    var def := Node(FunctionDef(name, b.idx, rt), start);
    if e.text(name) == "main" {
      OverwriteWell(b.nodes, def);
    } else {
      assert (b.nodes + [def])[b.idx] == b.nodes[b.idx];
      AppendWell(b.nodes, def);
    }
  }

  lemma FunctionArena(e: Env, t: nat, nodes: seq<Node>)
    requires t <= |e.toks| && TokensValid(e.toks) && Arena(nodes) && FunctionAt(e, t, nodes).Ok?
    ensures Arena(FunctionAt(e, t, nodes).value.nodes) && Grows(nodes, FunctionAt(e, t, nodes).value.nodes)
  {
    var defn := ExpectAt(e.toks, t, Defn).value;
    var name := ExpectAt(e.toks, defn.1, Identifier).value;
    var params := Params(e.toks, name.1).value;
    var header := Header(e.toks, params).value;
    FunctionDefArena(e, header.1, nodes, name.0.span, header.0, t);
  }

  /** Every recorded function index names a function definition. */
  predicate FuncsAreDefs(nodes: seq<Node>, funcs: seq<nat>) {
    forall i :: 0 <= i < |funcs| ==> funcs[i] < |nodes| && nodes[funcs[i]].data.FunctionDef?
  }

  lemma FuncsAreDefsGrow(a: seq<Node>, b: seq<Node>, funcs: seq<nat>, idx: nat)
    requires FuncsAreDefs(a, funcs) && Grows(a, b) && idx < |b| && b[idx].data.FunctionDef?
    ensures FuncsAreDefs(b, funcs + [idx])
  {
    var funcs' := funcs + [idx];
    forall i | 0 <= i < |funcs'|
      ensures funcs'[i] < |b| && b[funcs'[i]].data.FunctionDef?
    {
      if i < |funcs| {
        assert funcs'[i] == funcs[i];
      }
    }
  }

  lemma {:induction false} ToplevelArena(e: Env, t: nat, nodes: seq<Node>, funcs: seq<nat>)
    requires t < |e.toks| && TokensValid(e.toks) && Arena(nodes) && FuncsAreDefs(nodes, funcs)
    requires Toplevel(e, t, nodes, funcs).Ok?
    ensures var r := Toplevel(e, t, nodes, funcs).value;
      Arena(r.0) && FuncsAreDefs(r.0, r.1)
    decreases |e.toks| - t
  {
    var n := NextTokAt(e.toks, t);
    if n.0.ty == Indentation {
      FunctionArena(e, n.1, nodes);
      var f := FunctionAt(e, n.1, nodes).value;
      FuncsAreDefsGrow(nodes, f.nodes, funcs, f.idx);
      ToplevelArena(e, f.t, f.nodes, funcs + [f.idx]);
    } else {
      assert Toplevel(e, t, nodes, funcs).value == (nodes, funcs, n.1);
    }
  }

  /**
   * A successful parse yields a well-formed node list whose function indices
   * name definitions; with a `main` function, every child precedes its parent,
   * every body exists and no operand is a block.
   */
  lemma ParsedWellFormed(e: Env)
    requires TokensValid(e.toks) && ParsedAst(e).Ok?
    ensures var a := ParsedAst(e).value;
      Arena(a.nodes) && FuncsAreDefs(a.nodes, a.funcs)
    ensures var a := ParsedAst(e).value;
      a.nodes[0].data.FunctionDef? ==>
        ChildrenPrecede(a.nodes) && BodiesExist(a.nodes) && OperandsAreExpressions(a.nodes)
  {
    ToplevelArena(e, 0, [PLACEHOLDER], []);
    var a := ParsedAst(e).value;
    if a.nodes[0].data.FunctionDef? {
      ArenaShape(a.nodes);
    }
  }

  /** A well-formed list whose node 0 is a definition satisfies the tree predicates of the syntax tree. */
  lemma ArenaShape(nodes: seq<Node>)
    requires Arena(nodes) && nodes[0].data.FunctionDef?
    ensures ChildrenPrecede(nodes) && BodiesExist(nodes) && OperandsAreExpressions(nodes)
  {
    forall k, m | 0 <= k < |nodes| && 0 <= m < |nodes[k].data.Children()|
      ensures nodes[k].data.Children()[m] < k
      ensures !nodes[k].data.Block? ==> !nodes[nodes[k].data.Children()[m]].data.Block?
    {
      assert NodeWell(nodes, k);
      var d := nodes[k].data;
      if d.IsBinary() {
        assert d.Children() == [d.left, d.right];
      } else if d.Return? {
        assert d.Children() == [d.expr];
      }
    }
    forall k | 0 <= k < |nodes| && nodes[k].data.FunctionDef?
      ensures nodes[k].data.exec < |nodes|
    {
      assert NodeWell(nodes, k);
    }
  }

  /** No token from `t` up to (not including) `u` opens a parenthesis. */
  predicate NoParens(toks: seq<Token>, t: nat, u: nat) {
    forall k :: t <= k < u && k < |toks| ==> toks[k].ty != LeftParenthesis
  }

  /** A factor of the grammar: a number. */
  predicate IsFactorNode(nodes: seq<Node>, i: nat) {
    i < |nodes| && nodes[i].data.Floating?
  }

  /** A term: a factor, or a product or quotient of an earlier term by a factor. */
  predicate IsTermNode(nodes: seq<Node>, i: nat)
    decreases i
  {
    i < |nodes| &&
    var d := nodes[i].data;
    || d.Floating?
    || ((d.Multiply? || d.Divide?) && d.left < i && d.right < i
        && IsTermNode(nodes, d.left) && IsFactorNode(nodes, d.right))
  }

  /** A sum: a term, or a sum or difference of an earlier sum and a term. */
  predicate IsSumNode(nodes: seq<Node>, i: nat)
    decreases i
  {
    i < |nodes| &&
    var d := nodes[i].data;
    || IsTermNode(nodes, i)
    || ((d.Add? || d.Subtract?) && d.left < i && d.right < i
        && IsSumNode(nodes, d.left) && IsTermNode(nodes, d.right))
  }

  lemma {:induction false} TermNodeGrow(a: seq<Node>, b: seq<Node>, i: nat)
    requires a <= b && IsTermNode(a, i)
    ensures IsTermNode(b, i)
    decreases i
  {
    PrefixIndex(a, b, i);
    var d := a[i].data;
    if d.Multiply? || d.Divide? {
      if !d.Floating? {
        TermNodeGrow(a, b, d.left);
        PrefixIndex(a, b, d.right);
      }
    }
  }

  lemma {:induction false} SumNodeGrow(a: seq<Node>, b: seq<Node>, i: nat)
    requires a <= b && IsSumNode(a, i)
    ensures IsSumNode(b, i)
    decreases i
  {
    PrefixIndex(a, b, i);
    var d := a[i].data;
    if IsTermNode(a, i) {
      TermNodeGrow(a, b, i);
    } else {
      SumNodeGrow(a, b, d.left);
      TermNodeGrow(a, b, d.right);
    }
  }

  /** A factor read without a parenthesis is a single number node. */
  lemma FactorShape(e: Env, t: nat, nodes: seq<Node>)
    requires t <= |e.toks| && Factor(e, t, nodes).Ok? && NoParens(e.toks, t, Factor(e, t, nodes).value.t)
    ensures var p := Factor(e, t, nodes).value;
      IsFactorNode(p.nodes, p.idx) && p.idx == |nodes| && p.t == t + 1
  {
  }

  lemma {:induction false} TermRestShape(e: Env, t: nat, left: nat, nodes: seq<Node>)
    requires t <= |e.toks| && 1 <= left < |nodes| && Arena(nodes)
    requires IsExprData(nodes[left].data) && IsTermNode(nodes, left)
    requires TermRest(e, t, left, nodes).Ok? && NoParens(e.toks, t, TermRest(e, t, left, nodes).value.t)
    ensures var p := TermRest(e, t, left, nodes).value;
      IsTermNode(p.nodes, p.idx)
    decreases |e.toks| - t
  {
    if t < |e.toks| && IsMulOp(e.toks[t].ty) {
      FactorShape(e, t + 1, nodes);
      FactorArena(e, t + 1, nodes);
      var p := Factor(e, t + 1, nodes).value;
      var data := if e.toks[t].ty == Asterisk then Multiply(left, p.idx) else Divide(left, p.idx);
      var n := p.nodes + [Node(data, t)];
      PrefixIndex(nodes, p.nodes, left);
      assert n[left] == p.nodes[left] && n[p.idx] == p.nodes[p.idx];
      AppendWell(p.nodes, Node(data, t));
      TermNodeGrow(nodes, n, left);
      assert IsTermNode(n, |p.nodes|);
      TermRestShape(e, p.t, |p.nodes|, n);
    }
  }

  /**
   * Over tokens without a '(' `parse_term` builds a left-leaning chain of products
   * and quotients whose right operands are numbers: `a * b / c` is `(a * b) / c`.
   */
  lemma TermShape(e: Env, t: nat, nodes: seq<Node>)
    requires t <= |e.toks| && Arena(nodes) && Term(e, t, nodes).Ok? && NoParens(e.toks, t, Term(e, t, nodes).value.t)
    ensures var p := Term(e, t, nodes).value;
      IsTermNode(p.nodes, p.idx)
  {
    FactorShape(e, t, nodes);
    FactorArena(e, t, nodes);
    var p := Factor(e, t, nodes).value;
    TermRestShape(e, p.t, p.idx, p.nodes);
  }

  lemma {:induction false} ExprRestShape(e: Env, t: nat, left: nat, nodes: seq<Node>)
    requires t <= |e.toks| && 1 <= left < |nodes| && Arena(nodes)
    requires IsExprData(nodes[left].data) && IsSumNode(nodes, left)
    requires ExprRest(e, t, left, nodes).Ok? && NoParens(e.toks, t, ExprRest(e, t, left, nodes).value.t)
    ensures var p := ExprRest(e, t, left, nodes).value;
      IsSumNode(p.nodes, p.idx)
    decreases |e.toks| - t
  {
    if t < |e.toks| && IsAddOp(e.toks[t].ty) {
      TermShape(e, t + 1, nodes);
      TermArena(e, t + 1, nodes);
      var p := Term(e, t + 1, nodes).value;
      var data := if e.toks[t].ty == Plus then Add(left, p.idx) else Subtract(left, p.idx);
      var n := p.nodes + [Node(data, t)];
      PrefixIndex(nodes, p.nodes, left);
      assert n[left] == p.nodes[left] && n[p.idx] == p.nodes[p.idx];
      AppendWell(p.nodes, Node(data, t));
      SumNodeGrow(nodes, n, left);
      TermNodeGrow(p.nodes, n, p.idx);
      assert IsSumNode(n, |p.nodes|);
      ExprRestShape(e, p.t, |p.nodes|, n);
    }
  }

  /**
   * Over tokens without a '(' `parse_expr` respects precedence and groups to the
   * left: sums and differences only ever have sums on the left and terms on
   * the right, and products never contain sums, so `a - b * c - d` is
   * `(a - (b * c)) - d`.
   */
  lemma ExprShape(e: Env, t: nat, nodes: seq<Node>)
    requires t <= |e.toks| && Arena(nodes) && Expr(e, t, nodes).Ok? && NoParens(e.toks, t, Expr(e, t, nodes).value.t)
    ensures var p := Expr(e, t, nodes).value;
      IsSumNode(p.nodes, p.idx)
  {
    TermShape(e, t, nodes);
    TermArena(e, t, nodes);
    var p := Term(e, t, nodes).value;
    ExprRestShape(e, p.t, p.idx, p.nodes);
  }

  /** The operand of a `return` is a sum in the sense above. */
  lemma ReturnShape(e: Env, t: nat, nodes: seq<Node>)
    requires t <= |e.toks| && Arena(nodes) && ReturnStmt(e, t, nodes).Ok?
    requires NoParens(e.toks, t, ReturnStmt(e, t, nodes).value.t)
    ensures var p := ReturnStmt(e, t, nodes).value;
      p.nodes[p.idx].data.Return? && IsSumNode(p.nodes, p.nodes[p.idx].data.expr)
  {
    ExprShape(e, t + 1, nodes);
    var x := Expr(e, t + 1, nodes).value;
    SumNodeGrow(x.nodes, x.nodes + [Node(NodeData.Return(x.idx), t)], x.idx);
  }

  /** The tokens of `return 1 - 2 * 3`, as the lexer spans them, then EOF. */
  const RETURN_EXAMPLE: seq<Token> := [
    Token(TokenType.Return, Span(0, 6)), Token(Number, Span(7, 8)), Token(Minus, Span(9, 10)),
    Token(Number, Span(11, 12)), Token(Asterisk, Span(13, 14)), Token(Number, Span(15, 16)),
    Token(EOF, Span(16, 16))
  ]

  /** The number node the parser pushes for token `k` of an environment over `RETURN_EXAMPLE`. */
  function ExampleNumber(e: Env, k: nat): Node
    requires e.toks == RETURN_EXAMPLE && k < |RETURN_EXAMPLE| && forall s :: e.parseF64(s).Some?
  {
    Node(NodeData.Floating(e.parseF64(e.text(e.toks[k].span)).value), k + 1)
  }

  lemma ExampleFactors(e: Env)
    requires e.toks == RETURN_EXAMPLE && forall s :: e.parseF64(s).Some?
    ensures var n1 := [PLACEHOLDER, ExampleNumber(e, 1)];
      var n2 := n1 + [ExampleNumber(e, 3)];
      Factor(e, 1, [PLACEHOLDER]) == Ok(Parsed(1, 2, n1))
      && Factor(e, 3, n1) == Ok(Parsed(2, 4, n2))
      && Factor(e, 5, n2) == Ok(Parsed(3, 6, n2 + [ExampleNumber(e, 5)]))
  {
    assert e.toks[1].ty == Number && e.toks[3].ty == Number && e.toks[5].ty == Number;
    assert [PLACEHOLDER] + [ExampleNumber(e, 1)] == [PLACEHOLDER, ExampleNumber(e, 1)];
  }

  lemma ExampleTerms(e: Env)
    requires e.toks == RETURN_EXAMPLE && forall s :: e.parseF64(s).Some?
    ensures var n1 := [PLACEHOLDER, ExampleNumber(e, 1)];
      var n3 := n1 + [ExampleNumber(e, 3)] + [ExampleNumber(e, 5)];
      Term(e, 1, [PLACEHOLDER]) == Ok(Parsed(1, 2, n1))
      && Term(e, 3, n1) == Ok(Parsed(4, 6, n3 + [Node(Multiply(2, 3), 4)]))
  {
    ExampleFactors(e);
    var n1 := [PLACEHOLDER, ExampleNumber(e, 1)];
    var n3 := n1 + [ExampleNumber(e, 3)] + [ExampleNumber(e, 5)];
    assert e.toks[2].ty == Minus && e.toks[4].ty == Asterisk && e.toks[6].ty == EOF;
    assert TermRest(e, 2, 1, n1) == Ok(Parsed(1, 2, n1));
    assert TermRest(e, 6, 4, n3 + [Node(Multiply(2, 3), 4)]) == Ok(Parsed(4, 6, n3 + [Node(Multiply(2, 3), 4)]));
  }

  /** The nodes `return 1 - 2 * 3` builds, up to and including the difference. */
  function ExampleNodes(e: Env): seq<Node>
    requires e.toks == RETURN_EXAMPLE && forall s :: e.parseF64(s).Some?
  {
    [PLACEHOLDER, ExampleNumber(e, 1), ExampleNumber(e, 3), ExampleNumber(e, 5),
     Node(Multiply(2, 3), 4), Node(Subtract(1, 4), 2)]
  }

  lemma ExampleExpr(e: Env)
    requires e.toks == RETURN_EXAMPLE && forall s :: e.parseF64(s).Some?
    ensures Expr(e, 1, [PLACEHOLDER]) == Ok(Parsed(5, 6, ExampleNodes(e)))
  {
    ExampleTerms(e);
    var n1 := [PLACEHOLDER, ExampleNumber(e, 1)];
    var prod := n1 + [ExampleNumber(e, 3)] + [ExampleNumber(e, 5)] + [Node(Multiply(2, 3), 4)];
    var diff := prod + [Node(Subtract(1, 4), 2)];
    assert diff == ExampleNodes(e);
    assert e.toks[2].ty == Minus && e.toks[6].ty == EOF;
    assert ExprRest(e, 6, 5, diff) == Ok(Parsed(5, 6, diff));
    assert ExprRest(e, 2, 1, n1) == Ok(Parsed(5, 6, diff));
  }

  /**
   * `return 1 - 2 * 3` parses, reading every token but EOF, into
   * `Return(Subtract(1, Multiply(2, 3)))`: the product binds tighter than the
   * difference, as the shape lemmas above promise for any paren-free return.
   */
  lemma ReturnExample(e: Env)
    requires e.toks == RETURN_EXAMPLE && forall s :: e.parseF64(s).Some?
    ensures var r := ReturnStmt(e, 0, [PLACEHOLDER]);
      r.Ok? && r.value.t == 6 && r.value.idx == 6 && NoParens(e.toks, 0, r.value.t)
      && r.value.nodes[6].data == NodeData.Return(5)
      && r.value.nodes[5].data == Subtract(1, 4)
      && r.value.nodes[4].data == Multiply(2, 3)
      && IsSumNode(r.value.nodes, 5)
  {
    ExampleExpr(e);
    assert e.toks[0].ty == TokenType.Return;
    var r := ReturnStmt(e, 0, [PLACEHOLDER]);
    assert r == Ok(Parsed(6, 6, ExampleNodes(e) + [Node(NodeData.Return(5), 0)]));
    assert NoParens(e.toks, 0, 6);
    assert Arena([PLACEHOLDER]);
    ReturnShape(e, 0, [PLACEHOLDER]);
  }

  lemma {:induction false} BlockStmtsEnd(e: Env, t: nat, nodes: seq<Node>, ind: nat, stmts: seq<nat>)
    requires t <= |e.toks| && TokensValid(e.toks) && BlockStmts(e, t, nodes, ind, stmts).Ok?
    ensures var r := BlockStmts(e, t, nodes, ind, stmts).value;
      var tok := e.toks[r.1];
      tok.ty == EOF || (tok.ty == Indentation && tok.span.Len() < ind)
    decreases |e.toks| - t
  {
    var p := Statement(e, t, nodes).value;
    var tok := e.toks[p.t];
    if tok.ty == Indentation && tok.span.Len() == ind {
      BlockStmtsEnd(e, p.t + 1, p.nodes, ind, stmts + [p.idx]);
    }
  }

  /**
   * A block ends, unread, at EOF or at an indentation shorter than the one
   * that opened it; the block node records the statements in order.
   */
  lemma BlockEnd(e: Env, t: nat, nodes: seq<Node>)
    requires t <= |e.toks| && TokensValid(e.toks) && BlockAt(e, t, nodes).Ok?
    ensures var p := BlockAt(e, t, nodes).value;
      var tok := e.toks[p.t];
      var base := ExpectAt(e.toks, t, Indentation).value.0;
      tok.ty == EOF || (tok.ty == Indentation && tok.span.Len() < base.span.Len())
  {
    var base := ExpectAt(e.toks, t, Indentation).value;
    BlockStmtsEnd(e, base.1, nodes, base.0.span.Len(), []);
  }

  /** The tokens from `t` up to `u` are all comments. */
  predicate CommentsBetween(toks: seq<Token>, t: nat, u: nat) {
    t <= u <= |toks| && forall k :: t <= k < u ==> toks[k].ty == Comment
  }

  /**
   * `expect` succeeds exactly when, past a run of comments, the next token has
   * the expected type; that token is the one returned, and consumed.
   */
  lemma ExpectFinds(toks: seq<Token>, t: nat, ty: TokenType)
    requires t <= |toks| && ty != Comment
    ensures ExpectAt(toks, t, ty).Ok? <==> exists u: nat :: CommentsBetween(toks, t, u) && u < |toks| && toks[u].ty == ty
    ensures ExpectAt(toks, t, ty).Ok? ==>
      var u := ExpectAt(toks, t, ty).value.1 - 1;
      CommentsBetween(toks, t, u) && ExpectAt(toks, t, ty).value.0 == toks[u]
  {
    var v := SkipComments(toks, t);
    SkipCommentsAll(toks, t);
    assert CommentsBetween(toks, t, v);
    if u: nat :| CommentsBetween(toks, t, u) && u < |toks| && toks[u].ty == ty {
      assert !(v < u) && !(u < v);
    }
  }

  /** A function named "main" is stored at index 0; any other function is appended. */
  lemma MainAtZero(e: Env, t: nat, nodes: seq<Node>)
    requires t <= |e.toks| && TokensValid(e.toks) && |nodes| > 0 && FunctionAt(e, t, nodes).Ok?
    ensures var p := FunctionAt(e, t, nodes).value;
      (p.idx == 0 <==> e.text(p.nodes[p.idx].data.name) == "main")
      && (p.idx != 0 ==> p.idx >= |nodes|)
  {
    var defn := ExpectAt(e.toks, t, Defn).value;
    var name := ExpectAt(e.toks, defn.1, Identifier).value;
    var params := Params(e.toks, name.1).value;
    var header := Header(e.toks, params).value;
    assert FunctionAt(e, t, nodes) == FunctionDefAt(e, header.1, nodes, name.0.span, header.0, t);
  }
}
