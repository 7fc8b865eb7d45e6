/**
 * The recursive-descent parser: a token index `tokidx` advances over the
 * lexer's tokens while nodes are appended to one list, children before their
 * parents.  Node 0 is reserved for `main`, which overwrites it.
 *
 * The functions below give the result of each parsing routine from the token
 * index and node list it starts with; the class `Parser` performs them in place
 * and is proved to agree with them.
 */
module Parsing {

  import opened Wrappers
  import opened Tokens
  import opened Format
  import opened Ast
  import Context

  const NO_MORE_TO_EXPECT: string := "Ran out of characters to expect"
  const EXPECTED_TOKEN: string := "Expected token"
  const NO_FACTOR_TOKEN: string := "expected token while parsing factor"
  const BAD_NUMBER: string := "error while trying to parse a number"
  const NOTHING_AFTER_PAREN: string := "Expected more after a left-paranthesis"
  const UNKNOWN_SYMBOL: string := "unknown symbol in parse_factor"
  const NO_RETURN: string := "Expected a return token while parsing return."
  const NO_INDENTATION: string := "expected an indentation while parsing block"
  const DEEPER_INDENTATION: string := "somehow tried to parse a larger indentation while parsing a block"
  const BAD_RETURN_TYPE: string := "invalid token while trying to parse a return type"
  const NO_HEADER_END: string := "Expected either a return-type-arrow or a colon after a function header"
  const TOPLEVEL_INDENTED: string := "Expected an indentation of level 0 when parsing top level declarations"

  /** The node `parse` pushes first, to hold `main` later. */
  const PLACEHOLDER: Node := Node(Add(0, 0), 0)

  /**
   * What the parser works from: the tokens, the text of a span, and the
   * conversion of a number's text to a double (`parse::<f64>`).
   */
  datatype Env = Env(toks: seq<Token>, text: Span -> string, parseF64: string -> Option<Float>)

  /** The lexer's guarantees the parser relies on: tokens end with EOF and every span is ordered. */
  predicate TokensValid(toks: seq<Token>) {
    |toks| > 0 && toks[|toks| - 1].ty == EOF
    && forall k :: 0 <= k < |toks| ==> toks[k].span.start <= toks[k].span.end
  }

  /** A routine's result: the index of the node it stands for, the new token index and node list. */
  datatype Parsed = Parsed(idx: nat, t: nat, nodes: seq<Node>)

  function TokenAt(toks: seq<Token>, t: nat): (r: Option<Token>)
    ensures r.Some? <==> t < |toks|
  {
    if t < |toks| then Some(toks[t]) else None
  }

  /** The first token at or after `t` that is not a comment. */
  function SkipComments(toks: seq<Token>, t: nat): (u: nat)
    ensures t <= u
    ensures t <= |toks| ==> u <= |toks|
    ensures u < |toks| ==> toks[u].ty != Comment
    ensures t < |toks| && toks[|toks| - 1].ty != Comment ==> u < |toks|
    decreases |toks| - t
  {
    if t < |toks| && toks[t].ty == Comment then SkipComments(toks, t + 1) else t
  }

  lemma {:induction false} SkipCommentsAll(toks: seq<Token>, t: nat)
    ensures forall k :: t <= k < SkipComments(toks, t) ==> k < |toks| && toks[k].ty == Comment
    decreases |toks| - t
  {
    if t < |toks| && toks[t].ty == Comment {
      SkipCommentsAll(toks, t + 1);
    } else {
      assert SkipComments(toks, t) == t;
    }
  }

  /** `expect`: past any comments, the next token must have type `ty`; it is consumed. */
  function ExpectAt(toks: seq<Token>, t: nat, ty: TokenType): (r: Result<(Token, nat)>)
    requires t <= |toks|
    ensures r.Ok? ==> t < r.value.1 <= |toks| && r.value.0 == toks[r.value.1 - 1] && r.value.0.ty == ty
    ensures r.Ok? && ty != EOF && TokensValid(toks) ==> r.value.1 < |toks|
  {
    var u := SkipComments(toks, t);
    if u >= |toks| then Err(NO_MORE_TO_EXPECT)
    else if toks[u].ty == ty then Ok((toks[u], u + 1))
    else Err(EXPECTED_TOKEN)
  }

  /** `next_tok`: past any comments, the next token, consumed whatever it is. */
  function NextTokAt(toks: seq<Token>, t: nat): (r: (Token, nat))
    requires t < |toks| && TokensValid(toks)
    ensures t < r.1 <= |toks| && r.0 == toks[r.1 - 1] && r.0.ty != Comment
    ensures r.0.ty != EOF ==> r.1 < |toks|
  {
    var u := SkipComments(toks, t);
    (toks[u], u + 1)
  }

  predicate IsMulOp(ty: TokenType) {
    ty == Asterisk || ty == Solidus
  }

  predicate IsAddOp(ty: TokenType) {
    ty == Plus || ty == Minus
  }

  /** `parse_factor`: a number, a parenthesised expression, or "()" (which leaves the ')' unread). */
  function Factor(e: Env, t: nat, nodes: seq<Node>): (r: Result<Parsed>)
    requires t <= |e.toks|
    ensures r.Ok? ==> t < r.value.t <= |e.toks| && |nodes| <= r.value.idx < |r.value.nodes|
    ensures r.Ok? && TokensValid(e.toks) ==> r.value.t < |e.toks|
    decreases |e.toks| - t, 0
  {
    if t >= |e.toks| then Err(NO_FACTOR_TOKEN)
    else if e.toks[t].ty == Number then
      var v := e.parseF64(e.text(e.toks[t].span));
      if v.None? then Err(BAD_NUMBER)
      else Ok(Parsed(|nodes|, t + 1, nodes + [Node(NodeData.Floating(v.value), t + 1)]))
    else if e.toks[t].ty == LeftParenthesis then
      if t + 1 >= |e.toks| then Err(NOTHING_AFTER_PAREN)
      else if e.toks[t + 1].ty == RightParenthesis then
        Ok(Parsed(|nodes|, t + 1, nodes + [Node(NodeData.Moot, t + 1)]))
      else
        var inner := Expr(e, t + 1, nodes);
        if inner.Err? then inner
        else
          var close := ExpectAt(e.toks, inner.value.t, RightParenthesis);
          if close.Err? then Err(close.error)
          else Ok(Parsed(inner.value.idx, close.value.1, inner.value.nodes))
    else Err(UNKNOWN_SYMBOL)
  }

  /** `parse_term`: factors joined by '*' and '/', grouped to the left. */
  function Term(e: Env, t: nat, nodes: seq<Node>): (r: Result<Parsed>)
    requires t <= |e.toks|
    ensures r.Ok? ==> t < r.value.t <= |e.toks| && |nodes| <= r.value.idx < |r.value.nodes|
    ensures r.Ok? && TokensValid(e.toks) ==> r.value.t < |e.toks|
    decreases |e.toks| - t, 1
  {
    var first := Factor(e, t, nodes);
    if first.Err? then first
    else TermRest(e, first.value.t, first.value.idx, first.value.nodes)
  }

  /** The loop of `parse_term`, with `left` the node built so far. */
  function TermRest(e: Env, t: nat, left: nat, nodes: seq<Node>): (r: Result<Parsed>)
    requires t <= |e.toks| && left < |nodes|
    ensures r.Ok? ==> t <= r.value.t <= |e.toks| && |nodes| <= |r.value.nodes|
    ensures r.Ok? ==> r.value.idx == left || |nodes| <= r.value.idx < |r.value.nodes|
    ensures r.Ok? && TokensValid(e.toks) && t < |e.toks| ==> r.value.t < |e.toks|
    decreases |e.toks| - t, 0
  {
    if t < |e.toks| && IsMulOp(e.toks[t].ty) then
      var right := Factor(e, t + 1, nodes);
      if right.Err? then right
      else
        var p := right.value;
        var data := if e.toks[t].ty == Asterisk then Multiply(left, p.idx) else Divide(left, p.idx);
        TermRest(e, p.t, |p.nodes|, p.nodes + [Node(data, t)])
    else Ok(Parsed(left, t, nodes))
  }

  /** `parse_expr`: terms joined by '+' and '-', grouped to the left. */
  function Expr(e: Env, t: nat, nodes: seq<Node>): (r: Result<Parsed>)
    requires t <= |e.toks|
    ensures r.Ok? ==> t < r.value.t <= |e.toks| && |nodes| <= r.value.idx < |r.value.nodes|
    ensures r.Ok? && TokensValid(e.toks) ==> r.value.t < |e.toks|
    decreases |e.toks| - t, 2
  {
    var first := Term(e, t, nodes);
    if first.Err? then first
    else ExprRest(e, first.value.t, first.value.idx, first.value.nodes)
  }

  /** The loop of `parse_expr`, with `left` the node built so far. */
  function ExprRest(e: Env, t: nat, left: nat, nodes: seq<Node>): (r: Result<Parsed>)
    requires t <= |e.toks| && left < |nodes|
    ensures r.Ok? ==> t <= r.value.t <= |e.toks| && |nodes| <= |r.value.nodes|
    ensures r.Ok? ==> r.value.idx == left || |nodes| <= r.value.idx < |r.value.nodes|
    ensures r.Ok? && TokensValid(e.toks) && t < |e.toks| ==> r.value.t < |e.toks|
    decreases |e.toks| - t, 0
  {
    if t < |e.toks| && IsAddOp(e.toks[t].ty) then
      var right := Term(e, t + 1, nodes);
      if right.Err? then right
      else
        var p := right.value;
        var data := if e.toks[t].ty == Plus then Add(left, p.idx) else Subtract(left, p.idx);
        ExprRest(e, p.t, |p.nodes|, p.nodes + [Node(data, t)])
    else Ok(Parsed(left, t, nodes))
  }

  /** `parse_return`: the `return` keyword, then an expression, under a Return node. */
  function ReturnStmt(e: Env, t: nat, nodes: seq<Node>): (r: Result<Parsed>)
    requires t <= |e.toks|
    ensures r.Ok? ==> t < r.value.t <= |e.toks| && r.value.idx == |r.value.nodes| - 1
    ensures r.Ok? ==> |nodes| <= r.value.idx
    ensures r.Ok? && TokensValid(e.toks) ==> r.value.t < |e.toks|
  {
    if t < |e.toks| && e.toks[t].ty == TokenType.Return then
      var x := Expr(e, t + 1, nodes);
      if x.Err? then x
      else Ok(Parsed(|x.value.nodes|, x.value.t, x.value.nodes + [Node(NodeData.Return(x.value.idx), t)]))
    else Err(NO_RETURN)
  }

  /** `parse_expr_statement`: a `return` statement or a bare expression. */
  function Statement(e: Env, t: nat, nodes: seq<Node>): (r: Result<Parsed>)
    requires t <= |e.toks|
    ensures r.Ok? ==> t < r.value.t <= |e.toks| && |nodes| <= r.value.idx < |r.value.nodes|
    ensures r.Ok? && TokensValid(e.toks) ==> r.value.t < |e.toks|
  {
    if t < |e.toks| && e.toks[t].ty == TokenType.Return then ReturnStmt(e, t, nodes) else Expr(e, t, nodes)
  }

  /**
   * The loop of `parse_block`: statements, each followed by an indentation of
   * the block's length `ind` (consumed, and the loop goes on), a shorter one or
   * EOF (left unread, and the block ends).  Returns the statements, the token
   * index and the nodes.
   */
  function BlockStmts(e: Env, t: nat, nodes: seq<Node>, ind: nat, stmts: seq<nat>): (r: Result<(seq<nat>, nat, seq<Node>)>)
    requires t <= |e.toks| && TokensValid(e.toks)
    ensures r.Ok? ==> t < r.value.1 < |e.toks| && |nodes| <= |r.value.2| && |stmts| < |r.value.0|
    decreases |e.toks| - t
  {
    var s := Statement(e, t, nodes);
    if s.Err? then Err(s.error)
    else
      var p := s.value;
      var stmts' := stmts + [p.idx];
      var tok := e.toks[p.t];
      if tok.ty == Indentation then
        var n := tok.span.Len();
        if n < ind then Ok((stmts', p.t, p.nodes))
        else if n > ind then Err(DEEPER_INDENTATION)
        else BlockStmts(e, p.t + 1, p.nodes, ind, stmts')
      else if tok.ty == EOF then Ok((stmts', p.t, p.nodes))
      else Err(NO_INDENTATION)
  }

  /** `parse_block`: an indentation token, then statements at that indentation. */
  function BlockAt(e: Env, t: nat, nodes: seq<Node>): (r: Result<Parsed>)
    requires t <= |e.toks| && TokensValid(e.toks)
    ensures r.Ok? ==> t < r.value.t < |e.toks| && r.value.idx == |r.value.nodes| - 1
    ensures r.Ok? ==> |nodes| <= r.value.idx
  {
    var base := ExpectAt(e.toks, t, Indentation);
    if base.Err? then Err(base.error)
    else
      var b := BlockStmts(e, base.value.1, nodes, base.value.0.span.Len(), []);
      if b.Err? then Err(b.error)
      else Ok(Parsed(|b.value.2|, b.value.1, b.value.2 + [Node(NodeData.Block(b.value.0), t)]))
  }

  /** The return type named by the token after "->". */
  function ReturnTypeOf(ty: TokenType): (r: Option<ReturnType>)
    ensures r.Some? <==> ty == TokenType.Integer || ty == TokenType.Floating || ty == TokenType.Moot
  {
    match ty
    case Integer => Some(ReturnType.Integer)
    case Floating => Some(ReturnType.Floating)
    case Moot => Some(ReturnType.Moot)
    case _ => None
  }

  /**
   * The function header after the parameter list: "->" with a type and ":",
   * or a bare ":" meaning Moot.  Returns the return type and the token index.
   */
  function Header(toks: seq<Token>, t: nat): (r: Result<(ReturnType, nat)>)
    requires t < |toks| && TokensValid(toks)
    ensures r.Ok? ==> t < r.value.1 < |toks|
  {
    var n := NextTokAt(toks, t);
    if n.0.ty == ThinArrow then
      var m := NextTokAt(toks, n.1);
      var rt := ReturnTypeOf(m.0.ty);
      if rt.None? then Err(BAD_RETURN_TYPE)
      else
        var colon := ExpectAt(toks, m.1, Colon);
        if colon.Err? then Err(colon.error) else Ok((rt.value, colon.value.1))
    else if n.0.ty == Colon then Ok((ReturnType.Moot, n.1))
    else Err(NO_HEADER_END)
  }

  /** `parse_parameter_declaration`: "(" then ")"; returns the token index after them. */
  function Params(toks: seq<Token>, t: nat): (r: Result<nat>)
    requires t <= |toks| && TokensValid(toks)
    ensures r.Ok? ==> t < r.value < |toks|
  {
    var open := ExpectAt(toks, t, LeftParenthesis);
    if open.Err? then Err(open.error)
    else
      var close := ExpectAt(toks, open.value.1, RightParenthesis);
      if close.Err? then Err(close.error) else Ok(close.value.1)
  }

  /**
   * `parse_function`: "defn", a name, the parameters, the header and the body
   * block, the definition built by `FunctionDef`.
   */
  function FunctionAt(e: Env, t: nat, nodes: seq<Node>): (r: Result<Parsed>)
    requires t <= |e.toks| && TokensValid(e.toks) && |nodes| > 0
    ensures r.Ok? ==> t < r.value.t < |e.toks| && |nodes| <= |r.value.nodes|
    ensures r.Ok? ==> r.value.idx < |r.value.nodes| && r.value.nodes[r.value.idx].data.FunctionDef?
  {
    var defn := ExpectAt(e.toks, t, Defn);
    if defn.Err? then Err(defn.error)
    else
      var name := ExpectAt(e.toks, defn.value.1, Identifier);
      if name.Err? then Err(name.error)
      else
        var params := Params(e.toks, name.value.1);
        if params.Err? then Err(params.error)
        else
          var header := Header(e.toks, params.value);
          if header.Err? then Err(header.error)
          else FunctionDefAt(e, header.value.1, nodes, name.value.0.span, header.value.0, t)
  }

  /**
   * The body block of a function and its definition node: a function named
   * "main" overwrites node 0 and stands for index 0; any other is appended.
   */
  function FunctionDefAt(e: Env, t: nat, nodes: seq<Node>, name: Span, rt: ReturnType, start: nat): (r: Result<Parsed>)
    requires t <= |e.toks| && TokensValid(e.toks) && |nodes| > 0
    ensures r.Ok? ==> t < r.value.t < |e.toks| && |nodes| <= |r.value.nodes|
    ensures r.Ok? ==> r.value.idx < |r.value.nodes| && r.value.nodes[r.value.idx].data.FunctionDef?
  {
    var body := BlockAt(e, t, nodes);
    if body.Err? then body
    else
      var b := body.value;
      var def := Node(FunctionDef(name, b.idx, rt), start);
      if e.text(name) == "main" then Ok(Parsed(0, b.t, b.nodes[0 := def]))
      else Ok(Parsed(|b.nodes|, b.t, b.nodes + [def]))
  }

  /**
   * `parse_toplevel`: while the next token is an indentation (which must be
   * empty), parse a function and record its index.  The token that ends the
   * loop is consumed.  Returns the nodes, the function indices and the token index.
   */
  function Toplevel(e: Env, t: nat, nodes: seq<Node>, funcs: seq<nat>): (r: Result<(seq<Node>, seq<nat>, nat)>)
    requires t < |e.toks| && TokensValid(e.toks) && |nodes| > 0
    ensures r.Ok? ==> |nodes| <= |r.value.0| && |funcs| <= |r.value.1|
    decreases |e.toks| - t
  {
    var n := NextTokAt(e.toks, t);
    if n.0.ty == Indentation then
      if n.0.span.Len() != 0 then Err(TOPLEVEL_INDENTED)
      else
        var f := FunctionAt(e, n.1, nodes);
        if f.Err? then Err(f.error)
        else Toplevel(e, f.value.t, f.value.nodes, funcs + [f.value.idx])
    else Ok((nodes, funcs, n.1))
  }

  /** `parse`: reserve node 0, then parse the top-level declarations. */
  function ParsedAst(e: Env): (r: Result<Ast>)
    requires TokensValid(e.toks)
    ensures r.Ok? ==> r.value.toks == e.toks && |r.value.nodes| > 0
  {
    var top := Toplevel(e, 0, [PLACEHOLDER], []);
    if top.Err? then Err(top.error) else Ok(Ast(e.toks, top.value.0, top.value.1))
  }

  /** The parser's state: the tokens, the nodes built so far, the functions found and the token index. */
  class Parser {
    const toks: seq<Token>
    const text: Span -> string
    const parseF64: string -> Option<Float>
    var nodes: seq<Node>
    var funcs: seq<nat>
    var tokidx: nat

    /**
     * A parser over the tokens the lexer produced from the context's input;
     * the context supplies the text of a span.
     */
    constructor (ctx: Context.CompilerContext, toks: seq<Token>, parseF64: string -> Option<Float>)
      requires TokensValid(toks)
      ensures this.toks == toks && text == ctx.spanText && this.parseF64 == parseF64
      ensures nodes == [] && funcs == [] && tokidx == 0
    {
      this.toks := toks;
      text := ctx.spanText;
      this.parseF64 := parseF64;
      nodes := [];
      funcs := [];
      tokidx := 0;
    }

    function Environment(): Env {
      Env(toks, text, parseF64)
    }

    /** This state is the outcome `s` of a routine that reported `r`. */
    predicate Agrees(r: Result<nat>, s: Result<Parsed>)
      reads this
    {
      match s
      case Ok(p) => r == Ok(p.idx) && tokidx == p.t && nodes == p.nodes
      case Err(m) => r == Err(m)
    }

    function CurrentTok(): (r: Option<Token>)
      reads this
      ensures r == TokenAt(toks, tokidx)
    {
      if tokidx < |toks| then Some(toks[tokidx]) else None
    }

    /** `expect`: skip comments, then consume a token of type `ty` or fail. */
    method Expect(ty: TokenType) returns (r: Result<Token>)
      requires tokidx <= |toks|
      modifies this
      ensures var s := ExpectAt(toks, old(tokidx), ty);
        && (s.Ok? ==> r == Ok(s.value.0) && tokidx == s.value.1)
        && (s.Err? ==> r == Err(s.error))
      ensures nodes == old(nodes) && funcs == old(funcs)
    {
      while tokidx < |toks| && toks[tokidx].ty == Comment
        invariant tokidx <= |toks| && nodes == old(nodes) && funcs == old(funcs)
        invariant SkipComments(toks, tokidx) == SkipComments(toks, old(tokidx))
        decreases |toks| - tokidx
      {
        tokidx := tokidx + 1;
      }
      if tokidx >= |toks| {
        return Err(NO_MORE_TO_EXPECT);
      }
      var tok := toks[tokidx];
      if tok.ty == ty {
        tokidx := tokidx + 1;
        r := Ok(tok);
      } else {
        r := Err(EXPECTED_TOKEN);
      }
    }

    /** `next_tok`: skip comments, then consume whatever token follows. */
    method NextTok() returns (tok: Token)
      requires tokidx < |toks| && TokensValid(toks)
      modifies this
      ensures (tok, tokidx) == NextTokAt(toks, old(tokidx))
      ensures nodes == old(nodes) && funcs == old(funcs)
    {
      while toks[tokidx].ty == Comment
        invariant tokidx < |toks| && nodes == old(nodes) && funcs == old(funcs)
        invariant SkipComments(toks, tokidx) == SkipComments(toks, old(tokidx))
        decreases |toks| - tokidx
      {
        tokidx := tokidx + 1;
      }
      tok := toks[tokidx];
      tokidx := tokidx + 1;
    }

    /** `push_node`: append a node and return its index. */
    method PushNode(node: Node) returns (idx: nat)
      modifies this
      ensures nodes == old(nodes) + [node] && idx == |old(nodes)| && nodes[idx] == node
      ensures tokidx == old(tokidx) && funcs == old(funcs)
    {
      nodes := nodes + [node];
      idx := |nodes| - 1;
    }

    method ParseFactor() returns (r: Result<nat>)
      requires tokidx <= |toks|
      modifies this
      ensures Agrees(r, Factor(Environment(), old(tokidx), old(nodes)))
      ensures funcs == old(funcs)
      decreases |toks| - tokidx, 0
    {
      var cur := CurrentTok();
      if cur.None? {
        return Err(NO_FACTOR_TOKEN);
      }
      var tok := cur.value;
      if tok.ty == Number {
        tokidx := tokidx + 1;
        var v := parseF64(text(tok.span));
        if v.None? {
          return Err(BAD_NUMBER);
        }
        var idx := PushNode(Node(NodeData.Floating(v.value), tokidx));
        r := Ok(idx);
      } else if tok.ty == LeftParenthesis {
        tokidx := tokidx + 1;
        var next := CurrentTok();
        if next.None? {
          return Err(NOTHING_AFTER_PAREN);
        }
        if next.value.ty == RightParenthesis {
          var idx := PushNode(Node(NodeData.Moot, tokidx));
          return Ok(idx);
        }
        var out := ParseExpr();
        if out.Err? {
          return out;
        }
        var close := Expect(RightParenthesis);
        if close.Err? {
          return Err(close.error);
        }
        r := out;
      } else {
        r := Err(UNKNOWN_SYMBOL);
      }
    }

    method ParseTerm() returns (r: Result<nat>)
      requires tokidx <= |toks|
      modifies this
      ensures Agrees(r, Term(Environment(), old(tokidx), old(nodes)))
      ensures funcs == old(funcs)
      decreases |toks| - tokidx, 2
    {
      var first := ParseFactor();
      if first.Err? {
        return first;
      }
      r := ParseTermRest(first.value);
    }

    /** The loop of `parse_term`: factors after '*' or '/', with `left` the node built so far. */
    method ParseTermRest(first: nat) returns (r: Result<nat>)
      requires tokidx <= |toks| && first < |nodes|
      modifies this
      ensures Agrees(r, TermRest(Environment(), old(tokidx), first, old(nodes)))
      ensures funcs == old(funcs)
      decreases |toks| - tokidx, 1
    {
      var left: nat := first;
      while tokidx < |toks| && IsMulOp(toks[tokidx].ty)
        invariant old(tokidx) <= tokidx <= |toks| && left < |nodes| && funcs == old(funcs)
        invariant TermRest(Environment(), tokidx, left, nodes) == TermRest(Environment(), old(tokidx), first, old(nodes))
        decreases |toks| - tokidx
      {
        var op := tokidx;
        var ty := toks[tokidx].ty;
        tokidx := tokidx + 1;
        var right := ParseFactor();
        if right.Err? {
          return right;
        }
        var data := if ty == Asterisk then Multiply(left, right.value) else Divide(left, right.value);
        left := PushNode(Node(data, op));
      }
      r := Ok(left);
    }

    method ParseExpr() returns (r: Result<nat>)
      requires tokidx <= |toks|
      modifies this
      ensures Agrees(r, Expr(Environment(), old(tokidx), old(nodes)))
      ensures funcs == old(funcs)
      decreases |toks| - tokidx, 4
    {
      var first := ParseTerm();
      if first.Err? {
        return first;
      }
      r := ParseExprRest(first.value);
    }

    /** The loop of `parse_expr`: terms after '+' or '-', with `left` the node built so far. */
    method ParseExprRest(first: nat) returns (r: Result<nat>)
      requires tokidx <= |toks| && first < |nodes|
      modifies this
      ensures Agrees(r, ExprRest(Environment(), old(tokidx), first, old(nodes)))
      ensures funcs == old(funcs)
      decreases |toks| - tokidx, 3
    {
      var left: nat := first;
      while tokidx < |toks| && IsAddOp(toks[tokidx].ty)
        invariant old(tokidx) <= tokidx <= |toks| && left < |nodes| && funcs == old(funcs)
        invariant ExprRest(Environment(), tokidx, left, nodes) == ExprRest(Environment(), old(tokidx), first, old(nodes))
        decreases |toks| - tokidx
      {
        var op := tokidx;
        var ty := toks[tokidx].ty;
        tokidx := tokidx + 1;
        var right := ParseTerm();
        if right.Err? {
          return right;
        }
        var data := if ty == Plus then Add(left, right.value) else Subtract(left, right.value);
        left := PushNode(Node(data, op));
      }
      r := Ok(left);
    }

    method ParseReturn() returns (r: Result<nat>)
      requires tokidx <= |toks|
      modifies this
      ensures Agrees(r, ReturnStmt(Environment(), old(tokidx), old(nodes)))
      ensures funcs == old(funcs)
    {
      var root := tokidx;
      var cur := CurrentTok();
      if cur.None? || cur.value.ty != TokenType.Return {
        return Err(NO_RETURN);
      }
      tokidx := tokidx + 1;
      var value := ParseExpr();
      if value.Err? {
        return value;
      }
      var idx := PushNode(Node(NodeData.Return(value.value), root));
      r := Ok(idx);
    }

    method ParseExprStatement() returns (r: Result<nat>)
      requires tokidx <= |toks|
      modifies this
      ensures Agrees(r, Statement(Environment(), old(tokidx), old(nodes)))
      ensures funcs == old(funcs)
    {
      var cur := CurrentTok();
      if cur.Some? && cur.value.ty == TokenType.Return {
        r := ParseReturn();
      } else {
        r := ParseExpr();
      }
    }
  
    method ParseBlock() returns (r: Result<nat>)
      requires tokidx <= |toks| && TokensValid(toks)
      modifies this
      ensures Agrees(r, BlockAt(Environment(), old(tokidx), old(nodes)))
      ensures funcs == old(funcs)
    {
      var root := tokidx;
      var base := Expect(Indentation);
      if base.Err? {
        return Err(base.error);
      }
      var stmts := ParseStatements(base.value.span.Len());
      if stmts.Err? {
        return Err(stmts.error);
      }
      var idx := PushNode(Node(NodeData.Block(stmts.value), root));
      r := Ok(idx);
    }

    /** The loop of `parse_block`: statements at indentation `ind`, up to a shorter indentation or EOF. */
    method ParseStatements(ind: nat) returns (r: Result<seq<nat>>)
      requires tokidx <= |toks| && TokensValid(toks)
      modifies this
      ensures var s := BlockStmts(Environment(), old(tokidx), old(nodes), ind, []);
        && (s.Ok? ==> r == Ok(s.value.0) && tokidx == s.value.1 && nodes == s.value.2)
        && (s.Err? ==> r == Err(s.error))
      ensures funcs == old(funcs)
    {
      var stmts: seq<nat> := [];
      while true
        invariant tokidx <= |toks| && funcs == old(funcs)
        invariant BlockStmts(Environment(), tokidx, nodes, ind, stmts)
          == BlockStmts(Environment(), old(tokidx), old(nodes), ind, [])
        decreases |toks| - tokidx
      {
        ghost var before := (tokidx, nodes, stmts);
        var s := ParseExprStatement();
        if s.Err? {
          return Err(s.error);
        }
        stmts := stmts + [s.value];
        var cur := CurrentTok();
        if cur.Some? && cur.value.ty == Indentation {
          var n := cur.value.span.Len();
          if n < ind {
            assert BlockStmts(Environment(), before.0, before.1, ind, before.2) == Ok((stmts, tokidx, nodes));
            return Ok(stmts);
          } else if n > ind {
            return Err(DEEPER_INDENTATION);
          }
        } else if cur.Some? && cur.value.ty == EOF {
          assert BlockStmts(Environment(), before.0, before.1, ind, before.2) == Ok((stmts, tokidx, nodes));
          return Ok(stmts);
        } else {
          return Err(NO_INDENTATION);
        }
        tokidx := tokidx + 1;
      }
    }

    /** `parse_parameter_declaration`: the empty parameter list "()". */
    method ParseParameterDeclaration() returns (r: Result<()>)
      requires tokidx <= |toks| && TokensValid(toks)
      modifies this
      ensures var s := Params(toks, old(tokidx));
        && (s.Ok? ==> r == Ok(()) && tokidx == s.value)
        && (s.Err? ==> r == Err(s.error))
      ensures nodes == old(nodes) && funcs == old(funcs)
    {
      var open := Expect(LeftParenthesis);
      if open.Err? {
        return Err(open.error);
      }
      var close := Expect(RightParenthesis);
      if close.Err? {
        return Err(close.error);
      }
      r := Ok(());
    }

    method ParseFunction() returns (r: Result<nat>)
      requires tokidx <= |toks| && TokensValid(toks) && |nodes| > 0
      modifies this
      ensures Agrees(r, FunctionAt(Environment(), old(tokidx), old(nodes)))
      ensures funcs == old(funcs)
    {
      var start := tokidx;
      var defn := Expect(Defn);
      if defn.Err? {
        return Err(defn.error);
      }
      var name := Expect(Identifier);
      if name.Err? {
        return Err(name.error);
      }
      var params := ParseParameterDeclaration();
      if params.Err? {
        return Err(params.error);
      }
      var returnType := ParseHeader();
      if returnType.Err? {
        return Err(returnType.error);
      }
      assert FunctionAt(Environment(), start, old(nodes))
        == FunctionDefAt(Environment(), tokidx, nodes, name.value.span, returnType.value, start);
      r := ParseFunctionBody(name.value.span, returnType.value, start);
    }

    /** The header part of `parse_function`: "->", a type and ":", or a bare ":". */
    method ParseHeader() returns (r: Result<ReturnType>)
      requires tokidx < |toks| && TokensValid(toks)
      modifies this
      ensures var s := Header(toks, old(tokidx));
        && (s.Ok? ==> r == Ok(s.value.0) && tokidx == s.value.1)
        && (s.Err? ==> r == Err(s.error))
      ensures nodes == old(nodes) && funcs == old(funcs)
    {
      var arrow := NextTok();
      if arrow.ty == ThinArrow {
        var named := NextTok();
        var rt := ReturnTypeOf(named.ty);
        if rt.None? {
          return Err(BAD_RETURN_TYPE);
        }
        var colon := Expect(Colon);
        if colon.Err? {
          return Err(colon.error);
        }
        r := Ok(rt.value);
      } else if arrow.ty == Colon {
        r := Ok(ReturnType.Moot);
      } else {
        r := Err(NO_HEADER_END);
      }
    }

    /** The second half of `parse_function`: the body block, then the definition node. */
    method ParseFunctionBody(name: Span, returnType: ReturnType, start: nat) returns (r: Result<nat>)
      requires tokidx <= |toks| && TokensValid(toks) && |nodes| > 0
      modifies this
      ensures Agrees(r, FunctionDefAt(Environment(), old(tokidx), old(nodes), name, returnType, start))
      ensures funcs == old(funcs)
    {
      var exec := ParseBlock();
      if exec.Err? {
        return exec;
      }
      var def := Node(FunctionDef(name, exec.value, returnType), start);
      if text(name) == "main" {
        nodes := nodes[0 := def];
        r := Ok(0);
      } else {
        var idx := PushNode(def);
        r := Ok(idx);
      }
    }

    /** `parse_toplevel`: functions, each after an empty indentation, until another token. */
    method ParseToplevel() returns (r: Result<()>)
      requires tokidx < |toks| && TokensValid(toks) && |nodes| > 0
      modifies this
      ensures var s := Toplevel(Environment(), old(tokidx), old(nodes), old(funcs));
        && (s.Ok? ==> r == Ok(()) && (nodes, funcs, tokidx) == s.value)
        && (s.Err? ==> r == Err(s.error))
    {
      ghost var goal := Toplevel(Environment(), tokidx, nodes, funcs);
      while true
        invariant tokidx < |toks| && |nodes| > 0
        invariant Toplevel(Environment(), tokidx, nodes, funcs) == goal
        decreases |toks| - tokidx
      {
        var tok := NextTok();
        if tok.ty != Indentation {
          break;
        }
        if tok.span.Len() != 0 {
          return Err(TOPLEVEL_INDENTED);
        }
        var f := ParseFunction();
        if f.Err? {
          return Err(f.error);
        }
        funcs := funcs + [f.value];
      }
      r := Ok(());
    }

    /** `parse`: reserve node 0 for `main`, parse everything, and hand over the tree. */
    method Parse() returns (r: Result<Ast>)
      requires nodes == [] && funcs == [] && tokidx == 0 && TokensValid(toks)
      modifies this
      ensures r == ParsedAst(Environment())
    {
      var _ := PushNode(PLACEHOLDER);
      assert nodes == [PLACEHOLDER];
      var top := ParseToplevel();
      if top.Err? {
        return Err(top.error);
      }
      r := Ok(Ast(toks, nodes, funcs));
    }
  }
}
