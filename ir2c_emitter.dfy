/**
 * The older C backend (src/emitters/ir2c_emitter.rs): each function of the
 * per-function IR becomes `int <name>() { ... }`, with one C statement per
 * instruction that declares the temporary `TEMP<k>` holding instruction k.
 */
module Ir2C {

  import opened Wrappers
  import opened Format
  import opened Types
  import Tokens
  import opened FlatIr
  import opened FuncIr

  const INVALID_TYPE_TEXT: string := "ran into invalid types in typechecker"

  /** `emit_type`: C's name for a decided type; the other two render an error text in its place. */
  function EmitType(ty: Type): string {
    match ty
    case Floating => "double"
    case Integer => "long long"
    case Undecided => INVALID_TYPE_TEXT
    case Invalid => INVALID_TYPE_TEXT
  }

  /** The two decided types get different C names, and neither is the error text. */
  lemma EmitTypeFaithful(a: Type, b: Type)
    requires Decided(a) && Decided(b)
    ensures EmitType(a) == EmitType(b) <==> a == b
    ensures EmitType(a) != INVALID_TYPE_TEXT
  {
    assert EmitType(Floating)[0] == 'd' && EmitType(Integer)[0] == 'l' && INVALID_TYPE_TEXT[0] == 'r';
  }

  /**
   * Instruction `k` is one `emit_instruction` handles (the others are
   * `unimplemented!()`), and an addition reads earlier instructions, which is
   * what makes the recursion of `emit_instruction` terminate.
   */
  predicate InstrEmittable(instrs: seq<Instruction>, k: nat) {
    k < |instrs| &&
    match instrs[k].val
    case ConstInteger(_) => true
    case ConstFloat(_) => true
    case Add(l, r) => l < k && r < k
    case Return(_) => true
    case _ => false
  }

  predicate Emittable(instrs: seq<Instruction>) {
    forall k :: 0 <= k < |instrs| ==> InstrEmittable(instrs, k)
  }

  /** A declaration of `TEMP<k>`: the text before the number, the number, and what follows it. */
  function Decl(head: string, k: nat, tail: string): string {
    head + (NatToString(k) + tail)
  }

  /** The C statement of instruction `k`, as `emit_instruction` formats it. */
  function Statement(sh: Show, instrs: seq<Instruction>, k: nat): string
    requires InstrEmittable(instrs, k)
  {
    match instrs[k].val
    case ConstInteger(i) => Decl("long long TEMP", k, " = (long long)" + IntToString(i) + ";")
    case ConstFloat(f) => Decl("double TEMP", k, " = (double)" + sh.float(f) + "f;")
    case Add(l, r) => Decl(EmitType(instrs[k].ty) + " TEMP", k, " = TEMP" + NatToString(l) + " + TEMP" + NatToString(r) + ";")
    case Return(x) => "return TEMP" + NatToString(x) + ";"
  }

  /** The line instruction `k` itself pushes: its statement and a newline. */
  function Line(sh: Show, instrs: seq<Instruction>, k: nat): string
    requires InstrEmittable(instrs, k)
  {
    Statement(sh, instrs, k) + "\n"
  }

  // ---------------------------------------------------------------- reading a line back

  /** The temporary declared after `prefix`: "<prefix><digits> ...". */
  function TempAfter(prefix: string, line: string): Option<nat> {
    match StripPrefix(prefix, line)
    case Some(rest) =>
      (match SplitAt(rest, ' ')
       case Some((ks, _)) => if ks != [] && AllDigits(ks) then Some(ParseNat(ks)) else None
       case None => None)
    case None => None
  }

  /** The temporary a line declares: "long long TEMP<k> ..." or "double TEMP<k> ...". */
  function DeclaredTemp(line: string): Option<nat> {
    var a := TempAfter("long long TEMP", line);
    if a.Some? then a else TempAfter("double TEMP", line)
  }

  /** Whether instruction `k`'s line declares a temporary: a constant, or an addition of a decided type. */
  predicate Declares(instrs: seq<Instruction>, k: nat)
    requires k < |instrs|
  {
    instrs[k].val.ConstInteger? || instrs[k].val.ConstFloat? || (instrs[k].val.Add? && Decided(instrs[k].ty))
  }

  /** A declaration ended by a newline is still a declaration of the same number. */
  lemma DeclLine(head: string, k: nat, tail: string)
    ensures Decl(head, k, tail) + "\n" == Decl(head, k, tail + "\n")
  {
  }

  /** Reading `TEMP<k>` back after the text that precedes it. */
  lemma TempAfterDecl(head: string, k: nat, tail: string)
    requires |tail| > 0 && tail[0] == ' '
    ensures TempAfter(head, Decl(head, k, tail)) == Some(k)
  {
    var rest := tail[1..];
    assert tail == [' '] + rest;
    assert NatToString(k) + tail == NatToString(k) + [' '] + rest;
    StripPrefixOf(head, NatToString(k) + tail);
    IntTextAvoids(k, ' ');
    SplitAtFirst(NatToString(k), ' ', rest);
    ParseNatToString(k);
  }

  /** A line whose first character is not the prefix's declares nothing after it. */
  lemma TempAfterNone(prefix: string, line: string)
    requires |prefix| > 0 && |line| > 0 && line[0] != prefix[0]
    ensures TempAfter(prefix, line) == None
  {
  }

  lemma ConstIntegerDeclares(sh: Show, instrs: seq<Instruction>, k: nat)
    requires InstrEmittable(instrs, k) && instrs[k].val.ConstInteger?
    ensures DeclaredTemp(Line(sh, instrs, k)) == Some(k)
  {
    var tail := " = (long long)" + IntToString(instrs[k].val.i) + ";";
    DeclLine("long long TEMP", k, tail);
    TempAfterDecl("long long TEMP", k, tail + "\n");
  }

  lemma ConstFloatDeclares(sh: Show, instrs: seq<Instruction>, k: nat)
    requires InstrEmittable(instrs, k) && instrs[k].val.ConstFloat?
    ensures DeclaredTemp(Line(sh, instrs, k)) == Some(k)
  {
    var tail := " = (double)" + sh.float(instrs[k].val.f) + "f;";
    DeclLine("double TEMP", k, tail);
    TempAfterNone("long long TEMP", Decl("double TEMP", k, tail + "\n"));
    TempAfterDecl("double TEMP", k, tail + "\n");
  }

  lemma AddDeclares(sh: Show, instrs: seq<Instruction>, k: nat)
    requires InstrEmittable(instrs, k) && instrs[k].val.Add?
    ensures DeclaredTemp(Line(sh, instrs, k)) == if Decided(instrs[k].ty) then Some(k) else None
  {
    var v := instrs[k].val;
    var head := EmitType(instrs[k].ty) + " TEMP";
    var tail := " = TEMP" + NatToString(v.l) + " + TEMP" + NatToString(v.r) + ";";
    DeclLine(head, k, tail);
    var line := Decl(head, k, tail + "\n");
    assert Line(sh, instrs, k) == line;
    if instrs[k].ty == Integer {
      assert head == "long long TEMP";
      TempAfterDecl(head, k, tail + "\n");
    } else if instrs[k].ty == Floating {
      assert head == "double TEMP";
      TempAfterNone("long long TEMP", line);
      TempAfterDecl(head, k, tail + "\n");
    } else {
      assert line[0] == head[0] == 'r';
      TempAfterNone("long long TEMP", line);
      TempAfterNone("double TEMP", line);
    }
  }

  lemma ReturnDeclaresNothing(sh: Show, instrs: seq<Instruction>, k: nat)
    requires InstrEmittable(instrs, k) && instrs[k].val.Return?
    ensures DeclaredTemp(Line(sh, instrs, k)) == None
  {
    var line := Line(sh, instrs, k);
    assert line[0] == 'r';
    TempAfterNone("long long TEMP", line);
    TempAfterNone("double TEMP", line);
  }

  /** The line of instruction `k` declares `TEMP<k>` and no other temporary, or declares nothing. */
  lemma LineDeclares(sh: Show, instrs: seq<Instruction>, k: nat)
    requires InstrEmittable(instrs, k)
    ensures DeclaredTemp(Line(sh, instrs, k)) == if Declares(instrs, k) then Some(k) else None
  {
    match instrs[k].val
    case ConstInteger(_) => ConstIntegerDeclares(sh, instrs, k);
    case ConstFloat(_) => ConstFloatDeclares(sh, instrs, k);
    case Add(_, _) => AddDeclares(sh, instrs, k);
    case Return(_) => ReturnDeclaresNothing(sh, instrs, k);
  }

  /** A declaration holds no line break when its head and tail hold none. */
  lemma DeclOneLine(head: string, k: nat, tail: string)
    requires '\n' !in head && '\n' !in tail
    ensures '\n' !in Decl(head, k, tail)
  {
    IntTextAvoids(k, '\n');
  }

  lemma EmitTypeOneLine(ty: Type)
    ensures '\n' !in EmitType(ty) + " TEMP"
  {
    match ty
    case Floating =>
    case Integer =>
    case Undecided => assert INVALID_TYPE_TEXT + " TEMP" == "ran into invalid types in typechecker TEMP";
    case Invalid => assert INVALID_TYPE_TEXT + " TEMP" == "ran into invalid types in typechecker TEMP";
  }

  /** No statement holds a line break. */
  lemma StatementOneLine(sh: Show, instrs: seq<Instruction>, k: nat)
    requires InstrEmittable(instrs, k) && ShowsOneLine(sh)
    ensures '\n' !in Statement(sh, instrs, k)
  {
    match instrs[k].val {
      case ConstInteger(i) =>
        IntTextAvoids(i, '\n');
        DeclOneLine("long long TEMP", k, " = (long long)" + IntToString(i) + ";");
      case ConstFloat(f) =>
        DeclOneLine("double TEMP", k, " = (double)" + sh.float(f) + "f;");
      case Add(l, r) =>
        IntTextAvoids(l, '\n');
        IntTextAvoids(r, '\n');
        EmitTypeOneLine(instrs[k].ty);
        DeclOneLine(EmitType(instrs[k].ty) + " TEMP", k, " = TEMP" + NatToString(l) + " + TEMP" + NatToString(r) + ";");
      case Return(x) => IntTextAvoids(x, '\n');
    }
  }

  /** Every line is one line of C. */
  lemma LineIsOneLine(sh: Show, instrs: seq<Instruction>, k: nat)
    requires InstrEmittable(instrs, k) && ShowsOneLine(sh)
    ensures Lines(Line(sh, instrs, k)) == 1
  {
    StatementOneLine(sh, instrs, k);
    ClosedLine(Statement(sh, instrs, k));
  }

  // ---------------------------------------------------------------- emit_instruction as written

  /**
   * The lines `emit_instruction` pushes for instruction `k`: an addition first
   * emits both of its operands again, recursively, and only then its own line.
   */
  function InstrLines(sh: Show, instrs: seq<Instruction>, k: nat): (r: seq<string>)
    requires Emittable(instrs) && k < |instrs|
    ensures |r| >= 1
    decreases k
  {
    assert InstrEmittable(instrs, k);
    match instrs[k].val
    case Add(l, r) => InstrLines(sh, instrs, l) + InstrLines(sh, instrs, r) + [Line(sh, instrs, k)]
    case _ => [Line(sh, instrs, k)]
  }

  /** `s` is the line of one of the first `n` instructions. */
  predicate IsLineOf(sh: Show, instrs: seq<Instruction>, s: string, n: nat)
    requires Emittable(instrs) && n <= |instrs|
  {
    exists j :: 0 <= j < n && s == Line(sh, instrs, j)
  }

  /** The text pushed for instruction `k`: its operands' text, then its own line. */
  lemma InstrText(sh: Show, instrs: seq<Instruction>, k: nat)
    requires Emittable(instrs) && k < |instrs|
    ensures InstrEmittable(instrs, k)
    ensures instrs[k].val.Add? ==>
      instrs[k].val.l < k && instrs[k].val.r < k &&
      Join(InstrLines(sh, instrs, k)) ==
        Join(InstrLines(sh, instrs, instrs[k].val.l)) + Join(InstrLines(sh, instrs, instrs[k].val.r)) + Line(sh, instrs, k)
    ensures !instrs[k].val.Add? ==> Join(InstrLines(sh, instrs, k)) == Line(sh, instrs, k)
  {
    assert InstrEmittable(instrs, k);
    if instrs[k].val.Add? {
      var a, b := InstrLines(sh, instrs, instrs[k].val.l), InstrLines(sh, instrs, instrs[k].val.r);
      JoinAppendSnoc(a, b, Line(sh, instrs, k));
    } else {
      JoinAppendSnoc([], [], Line(sh, instrs, k));
      assert [] + [] + [Line(sh, instrs, k)] == InstrLines(sh, instrs, k);
    }
  }

  /** Every line pushed for instruction `k` is the line of an instruction at or before `k`. */
  lemma {:induction false} InstrLinesAreLines(sh: Show, instrs: seq<Instruction>, k: nat)
    requires Emittable(instrs) && k < |instrs|
    ensures forall m :: 0 <= m < |InstrLines(sh, instrs, k)| ==> IsLineOf(sh, instrs, InstrLines(sh, instrs, k)[m], k + 1)
    decreases k
  {
    assert InstrEmittable(instrs, k);
    var ls := InstrLines(sh, instrs, k);
    if instrs[k].val.Add? {
      var l, r := instrs[k].val.l, instrs[k].val.r;
      InstrLinesAreLines(sh, instrs, l);
      InstrLinesAreLines(sh, instrs, r);
      var a, b := InstrLines(sh, instrs, l), InstrLines(sh, instrs, r);
      forall m | 0 <= m < |ls|
        ensures IsLineOf(sh, instrs, ls[m], k + 1)
      {
        if m < |a| {
          assert ls[m] == a[m];
        } else if m < |a| + |b| {
          assert ls[m] == b[m - |a|];
        } else {
          assert ls[m] == Line(sh, instrs, k);
        }
      }
    } else {
      assert ls == [Line(sh, instrs, k)];
      assert forall m :: 0 <= m < |ls| ==> ls[m] == Line(sh, instrs, k);
    }
  }

  /** The lines of the first `j` turns of `emit_function`'s loop. */
  function BodyLines(sh: Show, instrs: seq<Instruction>, j: nat): seq<string>
    requires Emittable(instrs) && j <= |instrs|
  {
    if j == 0 then [] else BodyLines(sh, instrs, j - 1) + InstrLines(sh, instrs, j - 1)
  }

  /**
   * The body as written has at least one line per instruction, each of them the
   * line of an instruction; the line of instruction `j - 1` comes last.
   */
  lemma {:induction false} BodyLinesAreLines(sh: Show, instrs: seq<Instruction>, j: nat)
    requires Emittable(instrs) && j <= |instrs|
    ensures |BodyLines(sh, instrs, j)| >= j
    ensures forall m :: 0 <= m < |BodyLines(sh, instrs, j)| ==> IsLineOf(sh, instrs, BodyLines(sh, instrs, j)[m], j)
    ensures j > 0 ==> BodyLines(sh, instrs, j)[|BodyLines(sh, instrs, j)| - 1] == Line(sh, instrs, j - 1)
  {
    if j > 0 {
      BodyLinesAreLines(sh, instrs, j - 1);
      InstrLinesAreLines(sh, instrs, j - 1);
      var a, b := BodyLines(sh, instrs, j - 1), InstrLines(sh, instrs, j - 1);
      var ls := a + b;
      forall m | 0 <= m < |ls|
        ensures IsLineOf(sh, instrs, ls[m], j)
      {
        if m < |a| {
          assert ls[m] == a[m];
          var i :| 0 <= i < j - 1 && a[m] == Line(sh, instrs, i);
        } else {
          assert ls[m] == b[m - |a|];
          var i :| 0 <= i < j && b[m - |a|] == Line(sh, instrs, i);
        }
      }
    }
  }

  /** `emit_function`: the header, the lines its loop pushes, and the closing brace. */
  function FunctionText(sh: Show, f: IrFunction): string
    requires Emittable(f.instrs)
  {
    "int " + sh.name(f.name) + "() {\n" + Join(BodyLines(sh, f.instrs, |f.instrs|)) + "}"
  }

  /** Every line of the body holds exactly one line break. */
  lemma BodyIsLines(sh: Show, instrs: seq<Instruction>, j: nat)
    requires Emittable(instrs) && ShowsOneLine(sh) && j <= |instrs|
    ensures Lines(Join(BodyLines(sh, instrs, j))) == |BodyLines(sh, instrs, j)|
  {
    var lines := BodyLines(sh, instrs, j);
    BodyLinesAreLines(sh, instrs, j);
    forall i | 0 <= i < |lines|
      ensures Lines(lines[i]) == 1
    {
      var k :| 0 <= k < j && lines[i] == Line(sh, instrs, k);
      LineIsOneLine(sh, instrs, k);
    }
    ConcatLines(lines, |lines|);
  }

  /**
   * A function's text is its header line, then one line per line its loop
   * pushed (at least one per instruction), then the closing brace.
   */
  lemma FunctionLines(sh: Show, f: IrFunction)
    requires Emittable(f.instrs) && ShowsOneLine(sh)
    ensures Lines(FunctionText(sh, f)) == 1 + |BodyLines(sh, f.instrs, |f.instrs|)|
    ensures Lines(FunctionText(sh, f)) >= 1 + |f.instrs|
  {
    var head := "int " + sh.name(f.name) + "()";
    var body := Join(BodyLines(sh, f.instrs, |f.instrs|));
    assert "int " + sh.name(f.name) + "() {\n" == head + " {" + "\n";
    ClosedLine(head + " {");
    BodyIsLines(sh, f.instrs, |f.instrs|);
    BodyLinesAreLines(sh, f.instrs, |f.instrs|);
    LinesAppend(head + " {" + "\n", body);
    LinesAppend(head + " {" + "\n" + body, "}");
    NoBreaks("}", 1);
  }

  predicate AllEmittable(funcs: seq<IrFunction>) {
    forall j :: 0 <= j < |funcs| ==> Emittable(funcs[j].instrs)
  }

  /** `emit_function` as a value, for the functions it accepts. */
  function Render(sh: Show): IrFunction --> string {
    (f: IrFunction) requires Emittable(f.instrs) => FunctionText(sh, f)
  }

  /** The text of every function, in order; each ends with the closing brace. */
  function FunctionTexts(sh: Show, funcs: seq<IrFunction>): (r: seq<string>)
    requires AllEmittable(funcs)
    ensures |r| == |funcs|
    ensures forall j :: 0 <= j < |r| ==> |r[j]| > 0 && r[j][|r[j]| - 1] == '}'
  {
    var r := MapSeq(Render(sh), funcs);
    assert forall j :: 0 <= j < |r| ==> |r[j]| > 0 && r[j][|r[j]| - 1] == '}' by {
      forall j | 0 <= j < |r|
        ensures |r[j]| > 0 && r[j][|r[j]| - 1] == '}'
      {
        MapSeqAt(Render(sh), funcs, j);
      }
    }
    r
  }

  /** Text `j` is the text of function `j`. */
  lemma FunctionTextsAt(sh: Show, funcs: seq<IrFunction>, j: nat)
    requires AllEmittable(funcs) && j < |funcs|
    ensures Emittable(funcs[j].instrs) && FunctionTexts(sh, funcs)[j] == FunctionText(sh, funcs[j])
  {
    MapSeqAt(Render(sh), funcs, j);
  }

  /** `inner_emit`: the texts of the functions, in order, with nothing between them. */
  function UnitText(sh: Show, funcs: seq<IrFunction>): string
    requires AllEmittable(funcs)
  {
    Concat(FunctionTexts(sh, funcs), |funcs|)
  }

  /** The lines of the first `j` functions: a header and the lines of its loop each. */
  function LinesOfFunctions(sh: Show, funcs: seq<IrFunction>, j: nat): nat
    requires AllEmittable(funcs) && j <= |funcs|
  {
    if j == 0 then 0 else LinesOfFunctions(sh, funcs, j - 1) + 1 + |BodyLines(sh, funcs[j - 1].instrs, |funcs[j - 1].instrs|)|
  }

  /**
   * Functions are joined with no line break between them (the closing brace
   * of one and the header of the next share a line), so the unit has exactly
   * the line breaks of its functions.
   */
  lemma {:induction false} UnitLines(sh: Show, funcs: seq<IrFunction>, j: nat)
    requires AllEmittable(funcs) && ShowsOneLine(sh) && j <= |funcs|
    ensures Lines(Concat(FunctionTexts(sh, funcs), j)) == LinesOfFunctions(sh, funcs, j)
  {
    if j > 0 {
      var texts := FunctionTexts(sh, funcs);
      UnitLines(sh, funcs, j - 1);
      FunctionTextsAt(sh, funcs, j - 1);
      FunctionLines(sh, funcs[j - 1]);
      LinesAppend(Concat(texts, j - 1), texts[j - 1]);
    }
  }

  // ---------------------------------------------------------------- the emitter

  /** `emit_instruction`: appends the lines of instruction `instridx`, its operands' first. */
  method EmitInstruction(sh: Show, buffer: string, func: IrFunction, instridx: nat) returns (out: string)
    requires Emittable(func.instrs) && instridx < |func.instrs|
    ensures out == buffer + Join(InstrLines(sh, func.instrs, instridx))
    decreases instridx
  {
    InstrText(sh, func.instrs, instridx);
    var instr := func.instrs[instridx];
    out := buffer;
    var expr: string;
    match instr.val {
      case ConstInteger(i) =>
        expr := "long long TEMP" + (NatToString(instridx) + (" = (long long)" + IntToString(i) + ";"));
      case ConstFloat(f) =>
        expr := "double TEMP" + (NatToString(instridx) + (" = (double)" + sh.float(f) + "f;"));
      case Add(l, r) =>
        out := EmitInstruction(sh, out, func, l);
        out := EmitInstruction(sh, out, func, r);
        expr := EmitType(instr.ty) + " TEMP" + (NatToString(instridx) + (" = TEMP" + NatToString(l) + " + TEMP" + NatToString(r) + ";"));
        Glue4(buffer, Join(InstrLines(sh, func.instrs, l)), Join(InstrLines(sh, func.instrs, r)), expr, "\n");
      case Return(i) =>
        expr := "return TEMP" + NatToString(i) + ";";
    }
    assert expr == Statement(sh, func.instrs, instridx);
    Glue2(out, expr, "\n");
    Glue2(buffer, expr, "\n");
    out := out + expr;
    out := out + "\n";
  }

  /** After `idx` turns of `emit_function`'s loop, the buffer holds the header and the lines of those turns. */
  predicate LinesUpTo(sh: Show, func: IrFunction, idx: nat, header: string, buf: string) {
    Emittable(func.instrs) && idx <= |func.instrs| && buf == header + Join(BodyLines(sh, func.instrs, idx))
  }

  /** One turn of `emit_function`'s loop: the lines of instruction `idx` follow the ones before. */
  method EmitLine(sh: Show, buf: string, func: IrFunction, idx: nat, ghost header: string) returns (out: string)
    requires idx < |func.instrs| && LinesUpTo(sh, func, idx, header, buf)
    ensures LinesUpTo(sh, func, idx + 1, header, out)
  {
    var a, b := BodyLines(sh, func.instrs, idx), InstrLines(sh, func.instrs, idx);
    JoinAppend(a, b);
    Glue2(header, Join(a), Join(b));
    out := EmitInstruction(sh, buf, func, idx);
  }

  /** `emit_function` */
  method EmitFunction(sh: Show, func: IrFunction) returns (buf: string)
    requires Emittable(func.instrs)
    ensures buf == FunctionText(sh, func)
  {
    var header := "int " + sh.name(func.name) + "() {\n";
    buf := header;
    var idx := 0;
    while idx < |func.instrs|
      invariant LinesUpTo(sh, func, idx, header, buf)
    {
      buf := EmitLine(sh, buf, func, idx, header);
      idx := idx + 1;
    }
    buf := buf + "}";
  }

  /** After `j` turns of `inner_emit`'s loop, the buffer holds the texts of the first `j` functions. */
  predicate EmittedUpTo(sh: Show, funcs: seq<IrFunction>, j: nat, fileBuf: string) {
    j <= |funcs| && AllEmittable(funcs) && fileBuf == Concat(FunctionTexts(sh, funcs), j)
  }

  /** One turn of `inner_emit`'s loop: function `j`'s text follows the ones before it. */
  method EmitNext(sh: Show, funcs: seq<IrFunction>, j: nat, fileBuf: string) returns (out: string)
    requires j < |funcs| && EmittedUpTo(sh, funcs, j, fileBuf)
    ensures EmittedUpTo(sh, funcs, j + 1, out)
  {
    FunctionTextsAt(sh, funcs, j);
    var text := EmitFunction(sh, funcs[j]);
    out := fileBuf + text;
  }

  /** `inner_emit` */
  method InnerEmit(sh: Show, funcs: seq<IrFunction>) returns (fileBuf: string)
    requires AllEmittable(funcs)
    ensures fileBuf == UnitText(sh, funcs)
  {
    fileBuf := "";
    var j := 0;
    while j < |funcs|
      invariant EmittedUpTo(sh, funcs, j, fileBuf)
    {
      fileBuf := EmitNext(sh, funcs, j, fileBuf);
      j := j + 1;
    }
  }

  // ---------------------------------------------------------------- the redeclaration, and the body intended

  /** Two integer constants and their sum: `1 + 2`. */
  const SUM_EXAMPLE: seq<Instruction> := [
    Instruction(ConstInteger(1), Integer, 0),
    Instruction(ConstInteger(2), Integer, 0),
    Instruction(Add(0, 1), Integer, 0)
  ]

  /**
   * The body of `1 + 2` has five lines, and its first and third both declare
   * `TEMP0`: a redefinition C rejects.
   */
  lemma TempRedeclared(sh: Show)
    ensures Emittable(SUM_EXAMPLE)
    ensures var ls := BodyLines(sh, SUM_EXAMPLE, 3);
      |ls| == 5 && DeclaredTemp(ls[0]) == Some(0) && DeclaredTemp(ls[2]) == Some(0)
  {
    var ex := SUM_EXAMPLE;
    assert ex[0].val == ConstInteger(1) && ex[1].val == ConstInteger(2) && ex[2].val == Add(0, 1);
    assert InstrEmittable(ex, 0) && InstrEmittable(ex, 1) && InstrEmittable(ex, 2);
    var l0, l1, l2 := Line(sh, ex, 0), Line(sh, ex, 1), Line(sh, ex, 2);
    var w0, w1 := InstrLines(sh, ex, 0), InstrLines(sh, ex, 1);
    assert w0 == [l0];
    assert w1 == [l1];
    assert InstrLines(sh, ex, 2) == w0 + w1 + [l2];
    assert BodyLines(sh, ex, 1) == [l0];
    assert BodyLines(sh, ex, 2) == [l0, l1];
    assert BodyLines(sh, ex, 3) == [l0, l1] + ([l0] + [l1] + [l2]);
    ConstIntegerDeclares(sh, ex, 0);
  }

  /** Instruction `k`'s line, as a value, for the instructions `emit_instruction` handles. */
  function LineOf(sh: Show, instrs: seq<Instruction>): nat --> string {
    (k: nat) requires InstrEmittable(instrs, k) => Line(sh, instrs, k)
  }

  /** The body as evidently intended: the line of every instruction, in index order, each once. */
  function BodyLinesIntended(sh: Show, instrs: seq<Instruction>): (r: seq<string>)
    requires Emittable(instrs)
    ensures |r| == |instrs|
  {
    Indexed(LineOf(sh, instrs), |instrs|)
  }

  /** Line `k` of the intended body is the line of instruction `k`. */
  lemma BodyLineIntendedAt(sh: Show, instrs: seq<Instruction>, k: nat)
    requires Emittable(instrs) && k < |instrs|
    ensures InstrEmittable(instrs, k) && BodyLinesIntended(sh, instrs)[k] == Line(sh, instrs, k)
  {
    IndexedAt(LineOf(sh, instrs), |instrs|, k);
  }

  /** No two lines of the intended body declare the same temporary: `TEMP<k>` is declared by line k alone. */
  lemma DeclaredOnce(sh: Show, instrs: seq<Instruction>, j: nat, k: nat)
    requires Emittable(instrs) && j < |instrs| && k < |instrs|
    ensures var body := BodyLinesIntended(sh, instrs);
      && (DeclaredTemp(body[j]).Some? ==> DeclaredTemp(body[j]) == Some(j))
      && (DeclaredTemp(body[j]).Some? && DeclaredTemp(body[j]) == DeclaredTemp(body[k]) ==> j == k)
  {
    BodyLineIntendedAt(sh, instrs, j);
    BodyLineIntendedAt(sh, instrs, k);
    LineDeclares(sh, instrs, j);
    LineDeclares(sh, instrs, k);
  }

  /** Without additions, the body as written is the intended one. */
  lemma {:induction false} BodyWithoutAdds(sh: Show, instrs: seq<Instruction>, j: nat)
    requires Emittable(instrs) && j <= |instrs|
    requires forall k :: 0 <= k < |instrs| ==> !instrs[k].val.Add?
    ensures BodyLines(sh, instrs, j) == Indexed(LineOf(sh, instrs), j)
  {
    if j > 0 {
      BodyWithoutAdds(sh, instrs, j - 1);
      assert InstrEmittable(instrs, j - 1);
      assert InstrLines(sh, instrs, j - 1) == [Line(sh, instrs, j - 1)];
    }
  }

  /** The intended function text: the header, the intended body, and the closing brace. */
  function FunctionTextIntended(sh: Show, f: IrFunction): string
    requires Emittable(f.instrs)
  {
    "int " + sh.name(f.name) + "() {\n" + Join(BodyLinesIntended(sh, f.instrs)) + "}"
  }

  /** Without additions, the text as written is the intended one. */
  lemma IntendedWithoutAdds(sh: Show, f: IrFunction)
    requires Emittable(f.instrs) && forall k :: 0 <= k < |f.instrs| ==> !f.instrs[k].val.Add?
    ensures FunctionTextIntended(sh, f) == FunctionText(sh, f)
  {
    BodyWithoutAdds(sh, f.instrs, |f.instrs|);
  }

  /** The intended text has a header line, one line per instruction, and the closing brace. */
  lemma FunctionLinesIntended(sh: Show, f: IrFunction)
    requires Emittable(f.instrs) && ShowsOneLine(sh)
    ensures Lines(FunctionTextIntended(sh, f)) == 1 + |f.instrs|
  {
    var lines := BodyLinesIntended(sh, f.instrs);
    forall i | 0 <= i < |lines|
      ensures Lines(lines[i]) == 1
    {
      BodyLineIntendedAt(sh, f.instrs, i);
      LineIsOneLine(sh, f.instrs, i);
    }
    ConcatLines(lines, |lines|);
    var head := "int " + sh.name(f.name) + "()";
    var body := Join(lines);
    assert "int " + sh.name(f.name) + "() {\n" == head + " {" + "\n";
    ClosedLine(head + " {");
    LinesAppend(head + " {" + "\n", body);
    LinesAppend(head + " {" + "\n" + body, "}");
    NoBreaks("}", 1);
  }
}
