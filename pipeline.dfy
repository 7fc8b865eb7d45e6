/**
 * Properties that span several passes: what one stage produces is what the
 * next stage requires.
 */
module Pipeline {

  import Tokens
  import FuncIr
  import Ast
  import Ast2Ir
  import TypePropagation
  import ConstantFolding
  import Wrappers
  import Format
  import Lexing
  import Parsing
  import ParsingFacts

  /**
   * The emitted function meets the preconditions of the passes after it: every
   * operand precedes its user, and, seen as one block of a flat arena, the
   * block can be type-propagated and folded.
   */
  lemma EmittedUnitWell(nodes: seq<Ast.Node>)
    requires |nodes| > 0 && Ast2Ir.WellFormed(nodes) && Ast.OperandsAreExpressions(nodes)
    requires Ast2Ir.EmittedUnit(nodes).Ok?
    ensures var f := Ast2Ir.EmittedUnit(nodes).value[0];
      var span := Tokens.Span(0, |f.instrs|);
      (forall k :: 0 <= k < |f.instrs| ==> Ast2Ir.EmittedKind(f.instrs[k])) &&
      FuncIr.OperandsPrecede(f.instrs) &&
      TypePropagation.SpanPropagatable(TypePropagation.Vals(f.instrs), span) &&
      ConstantFolding.SpanFoldable(f.instrs, span)
  {
    var d := nodes[0].data;
    Ast2Ir.EmitWell(nodes, d.exec, 0);
  }

  /** Every token the lexer classifies has an ordered span. */
  lemma ClassifiedOrdered(s: string, t: Tokens.Token)
    requires Lexing.Classified(s, t)
    ensures t.span.start <= t.span.end
  {
  }

  /**
   * The lexer's output meets the parser's precondition (it ends with EOF and
   * every span is ordered), and it holds no type keyword.
   */
  lemma LexedParsable(s: string)
    requires Lexing.Lexed(s).Ok?
    ensures Parsing.TokensValid(Lexing.Lexed(s).value)
    ensures forall k :: 0 <= k < |Lexing.Lexed(s).value| ==> !Lexing.IsTypeKeyword(Lexing.Lexed(s).value[k].ty)
  {
    var toks := Lexing.Lexed(s).value;
    Lexing.LexedShape(s);
    Lexing.LexedClassified(s);
    forall k | 0 <= k < |toks|
      ensures toks[k].span.start <= toks[k].span.end
    {
      ClassifiedOrdered(s, toks[k]);
    }
  }

  /**
   * Since the lexer never produces a type keyword, a function header in lexed
   * source can only be a bare ':' and every function's return type is Moot.
   */
  lemma LexedHeaderIsMoot(s: string, t: nat)
    requires Lexing.Lexed(s).Ok? && t < |Lexing.Lexed(s).value|
    ensures Parsing.TokensValid(Lexing.Lexed(s).value)
    ensures var h := Parsing.Header(Lexing.Lexed(s).value, t);
      h.Ok? ==> h.value.0 == Ast.ReturnType.Moot && Parsing.NextTokAt(Lexing.Lexed(s).value, t).0.ty == Tokens.Colon
  {
    LexedParsable(s);
    var toks := Lexing.Lexed(s).value;
    var n := Parsing.NextTokAt(toks, t);
    if n.0.ty == Tokens.ThinArrow {
      var m := Parsing.NextTokAt(toks, n.1);
      assert toks[m.1 - 1] == m.0;
      assert !Lexing.IsTypeKeyword(m.0.ty);
    }
  }

  /**
   * Lexing then parsing source with a `main` function yields a node list the
   * IR emitter accepts: children precede parents, bodies exist and no
   * operand is a block.
   */
  lemma LexedParseWellFormed(s: string, text: Tokens.Span -> string, parseF64: string -> Wrappers.Option<Format.Float>)
    requires Lexing.Lexed(s).Ok?
    ensures Parsing.TokensValid(Lexing.Lexed(s).value)
    ensures var r := Parsing.ParsedAst(Parsing.Env(Lexing.Lexed(s).value, text, parseF64));
      r.Ok? && r.value.nodes[0].data.FunctionDef? ==>
        Ast2Ir.WellFormed(r.value.nodes) && Ast.OperandsAreExpressions(r.value.nodes)
  {
    LexedParsable(s);
    var e := Parsing.Env(Lexing.Lexed(s).value, text, parseF64);
    if Parsing.ParsedAst(e).Ok? {
      ParsingFacts.ParsedWellFormed(e);
    }
  }

  /**
   * Every tree the parser builds from lexed source can be handed to the IR
   * emitter: without a `main`, node 0 is still the placeholder, which is not
   * well formed (its operand does not precede it), and the emitter answers
   * that no main function is defined.
   */
  lemma LexedParseLowers(s: string, text: Tokens.Span -> string, parseF64: string -> Wrappers.Option<Format.Float>)
    requires Lexing.Lexed(s).Ok?
    ensures Parsing.TokensValid(Lexing.Lexed(s).value)
    ensures var r := Parsing.ParsedAst(Parsing.Env(Lexing.Lexed(s).value, text, parseF64));
      r.Ok? ==> (|r.value.nodes| > 0 &&
                 (r.value.nodes[0].data.FunctionDef? ==> Ast2Ir.WellFormed(r.value.nodes)))
    ensures var r := Parsing.ParsedAst(Parsing.Env(Lexing.Lexed(s).value, text, parseF64));
      r.Ok? && !r.value.nodes[0].data.FunctionDef? ==>
        (r.value.nodes[0] == Parsing.PLACEHOLDER && !Ast2Ir.WellFormed(r.value.nodes) &&
         Ast2Ir.EmittedUnit(r.value.nodes) == Wrappers.Err(Ast2Ir.NO_MAIN))
  {
    LexedParsable(s);
    var e := Parsing.Env(Lexing.Lexed(s).value, text, parseF64);
    if Parsing.ParsedAst(e).Ok? {
      ParsingFacts.ParsedWellFormed(e);
      var nodes := Parsing.ParsedAst(e).value.nodes;
      if !nodes[0].data.FunctionDef? {
        assert nodes[0].data.Children()[0] == 0;
      }
    }
  }

  /**
   * In lexed source, a `return` whose expression holds no parenthesis parses
   * with the precedence and left grouping of the grammar: its operand is a
   * left-leaning sum of left-leaning products of numbers.
   */
  lemma LexedReturnShape(s: string, text: Tokens.Span -> string, parseF64: string -> Wrappers.Option<Format.Float>,
                         t: nat, nodes: seq<Ast.Node>)
    requires Lexing.Lexed(s).Ok? && t <= |Lexing.Lexed(s).value| && ParsingFacts.Arena(nodes)
    requires var e := Parsing.Env(Lexing.Lexed(s).value, text, parseF64);
      Parsing.ReturnStmt(e, t, nodes).Ok? && ParsingFacts.NoParens(e.toks, t, Parsing.ReturnStmt(e, t, nodes).value.t)
    ensures Parsing.TokensValid(Lexing.Lexed(s).value)
    ensures var p := Parsing.ReturnStmt(Parsing.Env(Lexing.Lexed(s).value, text, parseF64), t, nodes).value;
      p.t < |Lexing.Lexed(s).value| && p.nodes[p.idx].data.Return?
      && ParsingFacts.IsSumNode(p.nodes, p.nodes[p.idx].data.expr)
  {
    LexedParsable(s);
    ParsingFacts.ReturnShape(Parsing.Env(Lexing.Lexed(s).value, text, parseF64), t, nodes);
  }
}
