/**
 * The x86 backend (src/emitters/x86_emitter.rs): every function becomes a
 * global label followed by one `movq` of each of its constants into %rbx,
 * the register this backend reserves for constants.
 */
module X86 {

  import opened Wrappers
  import opened Format
  import opened FlatIr
  import opened FuncIr

  const MOVE_HEAD: string := "  movq $"
  const MOVE_TAIL: string := ", %rbx"

  /** `emit_const`: the move of a constant, given as its text, into %rbx. */
  function ConstMove(text: string): string {
    MOVE_HEAD + text + MOVE_TAIL
  }

  /** The instructions `emit_instr` handles; every other kind is `unimplemented!()`. */
  predicate InstrEmittable(v: InstructionValue) {
    v.ConstInteger? || v.ConstFloat?
  }

  predicate FunctionEmittable(f: IrFunction) {
    forall i :: 0 <= i < |f.instrs| ==> InstrEmittable(f.instrs[i].val)
  }

  predicate AllEmittable(funcs: seq<IrFunction>) {
    forall j :: 0 <= j < |funcs| ==> FunctionEmittable(funcs[j])
  }

  /** The move `emit_instr` produces for a constant. */
  function InstrMove(sh: Show, v: InstructionValue): string
    requires InstrEmittable(v)
  {
    match v
    case ConstInteger(i) => ConstMove(IntToString(i))
    case ConstFloat(f) => ConstMove(sh.float(f))
  }

  function MoveOf(sh: Show): Instruction --> string {
    (ins: Instruction) requires InstrEmittable(ins.val) => InstrMove(sh, ins.val)
  }

  /** The moves of a function's instructions, in order. */
  function Moves(sh: Show, f: IrFunction): (r: seq<string>)
    requires FunctionEmittable(f)
    ensures |r| == |f.instrs|
  {
    MapSeq(MoveOf(sh), f.instrs)
  }

  lemma MovesAt(sh: Show, f: IrFunction, i: nat)
    requires FunctionEmittable(f) && i < |f.instrs|
    ensures InstrEmittable(f.instrs[i].val) && Moves(sh, f)[i] == InstrMove(sh, f.instrs[i].val)
  {
    MapSeqAt(MoveOf(sh), f.instrs, i);
  }

  /** The label that opens a function: `.globl <name>` and `<name>:`, each on its own line. */
  function Prelude(sh: Show, f: IrFunction): string {
    ".globl " + sh.name(f.name) + "\n" + sh.name(f.name) + ":\n"
  }

  // ---------------------------------------------------------------- lines

  /** Each text on a line of its own. */
  function JoinLines(lines: seq<string>): string {
    if lines == [] then "" else lines[0] + "\n" + JoinLines(lines[1..])
  }

  lemma {:induction false} JoinLinesSnoc(lines: seq<string>, i: nat)
    requires i < |lines|
    ensures JoinLines(lines[..i + 1]) == JoinLines(lines[..i]) + lines[i] + "\n"
  {
    if i == 0 {
      assert lines[..1] == [lines[0]];
      assert lines[..1][1..] == [];
    } else {
      var tail := lines[1..];
      JoinLinesSnoc(tail, i - 1);
      assert lines[..i + 1][1..] == tail[..i];
      assert lines[..i][1..] == tail[..i - 1];
      assert tail[i - 1] == lines[i];
    }
  }

  /** Cutting a text into the lines each '\n' ends; a text whose last line is not ended has none. */
  function ReadLines(s: string): Option<seq<string>>
    decreases |s|
  {
    if s == "" then Some([])
    else
      match SplitAt(s, '\n')
      case None => None
      case Some((line, rest)) =>
        match ReadLines(rest)
        case None => None
        case Some(ls) => Some([line] + ls)
  }

  /** Lines without line breaks, joined, read back as themselves. */
  lemma {:induction false} ReadJoinedLines(lines: seq<string>)
    requires forall i :: 0 <= i < |lines| ==> '\n' !in lines[i]
    ensures ReadLines(JoinLines(lines)) == Some(lines)
  {
    if lines != [] {
      ReadJoinedLines(lines[1..]);
      SplitAtFirst(lines[0], '\n', JoinLines(lines[1..]));
      assert [lines[0]] + lines[1..] == lines;
    }
  }

  /** Joined lines without line breaks have one line each. */
  lemma {:induction false} JoinedLinesCount(lines: seq<string>)
    requires forall i :: 0 <= i < |lines| ==> '\n' !in lines[i]
    ensures Lines(JoinLines(lines)) == |lines|
  {
    if lines != [] {
      JoinedLinesCount(lines[1..]);
      ClosedLine(lines[0]);
      LinesAppend(lines[0] + "\n", JoinLines(lines[1..]));
    }
  }

  // ---------------------------------------------------------------- reading a move back

  /** The operand text of a move into %rbx. */
  function MovedOperand(line: string): Option<string> {
    match StripPrefix(MOVE_HEAD, line)
    case None => None
    case Some(rest) =>
      if |rest| >= |MOVE_TAIL| && rest[|rest| - |MOVE_TAIL|..] == MOVE_TAIL then Some(rest[..|rest| - |MOVE_TAIL|])
      else None
  }

  /** The integer a move into %rbx loads. */
  function MovedInteger(line: string): Option<int> {
    match MovedOperand(line)
    case None => None
    case Some(text) => ParseInt(text)
  }

  /** A move gives back the text it was made from. */
  lemma MoveRoundTrip(text: string)
    ensures MovedOperand(ConstMove(text)) == Some(text)
  {
    var line := ConstMove(text);
    assert line == MOVE_HEAD + (text + MOVE_TAIL);
    StripPrefixOf(MOVE_HEAD, text + MOVE_TAIL);
    var rest := text + MOVE_TAIL;
    assert rest[|rest| - |MOVE_TAIL|..] == MOVE_TAIL;
    assert rest[..|rest| - |MOVE_TAIL|] == text;
  }

  /** The move of an integer constant loads that integer. */
  lemma IntegerMoveRoundTrip(i: int)
    ensures MovedInteger(ConstMove(IntToString(i))) == Some(i)
  {
    MoveRoundTrip(IntToString(i));
    IntToStringRoundTrip(i);
  }

  /** The integers loaded by a sequence of moves, or None when one of them is not an integer move. */
  function MovedIntegers(lines: seq<string>): Option<seq<int>>
    decreases |lines|
  {
    if lines == [] then Some([])
    else
      match (MovedIntegers(lines[..|lines| - 1]), MovedInteger(lines[|lines| - 1]))
      case (Some(ns), Some(i)) => Some(ns + [i])
      case _ => None
  }

  /** A function all of whose instructions are integer constants. */
  predicate IntegersOnly(f: IrFunction) {
    forall i :: 0 <= i < |f.instrs| ==> f.instrs[i].val.ConstInteger?
  }

  /** The integer constants of such a function, in order. */
  function Constants(instrs: seq<Instruction>): seq<int>
    requires forall i :: 0 <= i < |instrs| ==> instrs[i].val.ConstInteger?
    decreases |instrs|
  {
    if instrs == [] then [] else Constants(instrs[..|instrs| - 1]) + [instrs[|instrs| - 1].val.i as int]
  }

  /** The moves of an integer-only function load its constants, in order. */
  lemma {:induction false} MovesLoadConstants(sh: Show, f: IrFunction)
    requires IntegersOnly(f)
    ensures FunctionEmittable(f) && MovedIntegers(Moves(sh, f)) == Some(Constants(f.instrs))
    decreases |f.instrs|
  {
    if f.instrs != [] {
      var n := |f.instrs| - 1;
      var g := IrFunction(f.name, f.instrs[..n]);
      MovesLoadConstants(sh, g);
      assert Moves(sh, f) == Moves(sh, g) + [InstrMove(sh, f.instrs[n].val)];
      assert Moves(sh, f)[..n] == Moves(sh, g);
      IntegerMoveRoundTrip(f.instrs[n].val.i);
    }
  }

  /** No move holds a line break. */
  lemma MoveOneLine(sh: Show, v: InstructionValue)
    requires InstrEmittable(v) && ShowsOneLine(sh)
    ensures '\n' !in InstrMove(sh, v)
  {
    if v.ConstInteger? {
      IntTextAvoids(v.i, '\n');
    }
  }

  lemma MovesOneLine(sh: Show, f: IrFunction)
    requires FunctionEmittable(f) && ShowsOneLine(sh)
    ensures forall i :: 0 <= i < |f.instrs| ==> '\n' !in Moves(sh, f)[i]
  {
    forall i | 0 <= i < |f.instrs|
      ensures '\n' !in Moves(sh, f)[i]
    {
      MovesAt(sh, f, i);
      MoveOneLine(sh, f.instrs[i].val);
    }
  }

  // ---------------------------------------------------------------- reading run-together moves back

  /** The integers loaded by moves into %rbx pushed one straight after another, or None when the text is not made of such moves. */
  function ReadMovedIntegers(s: string): Option<seq<int>>
    decreases |s|
  {
    if s == "" then Some([])
    else
      match StripPrefix(MOVE_HEAD, s)
      case None => None
      case Some(rest) =>
        match SplitAt(rest, ',')
        case None => None
        case Some((text, after)) =>
          match StripPrefix(" %rbx", after)
          case None => None
          case Some(more) =>
            match (ParseInt(text), ReadMovedIntegers(more))
            case (Some(i), Some(ns)) => Some([i] + ns)
            case _ => None
  }

  /** The moves of some integers pushed one straight after another. */
  function IntegerMoves(cs: seq<int>): string {
    if cs == [] then "" else ConstMove(IntToString(cs[0])) + IntegerMoves(cs[1..])
  }

  lemma {:induction false} IntegerMovesSnoc(cs: seq<int>, c: int)
    ensures IntegerMoves(cs + [c]) == IntegerMoves(cs) + ConstMove(IntToString(c))
  {
    if cs != [] {
      assert (cs + [c])[1..] == cs[1..] + [c];
      IntegerMovesSnoc(cs[1..], c);
      Glue2(ConstMove(IntToString(cs[0])), IntegerMoves(cs[1..]), ConstMove(IntToString(c)));
    } else {
      assert [c][1..] == [];
    }
  }

  /** Run-together integer moves still read back as their integers: the ',' before "%rbx" ends each operand. */
  lemma {:induction false} IntegerMovesRoundTrip(cs: seq<int>)
    ensures ReadMovedIntegers(IntegerMoves(cs)) == Some(cs)
  {
    if cs != [] {
      var t := IntToString(cs[0]);
      var r := IntegerMoves(cs[1..]);
      var s := IntegerMoves(cs);
      assert s == MOVE_HEAD + (t + [','] + (" %rbx" + r));
      StripPrefixOf(MOVE_HEAD, t + [','] + (" %rbx" + r));
      IntTextAvoids(cs[0], ',');
      SplitAtFirst(t, ',', " %rbx" + r);
      StripPrefixOf(" %rbx", r);
      IntToStringRoundTrip(cs[0]);
      IntegerMovesRoundTrip(cs[1..]);
      assert [cs[0]] + cs[1..] == cs;
    }
  }

  /** The body of an integer-only function, as written, is the run-together moves of its constants. */
  lemma {:induction false} MovesAreIntegerMoves(sh: Show, f: IrFunction)
    requires IntegersOnly(f)
    ensures FunctionEmittable(f) && Concat(Moves(sh, f), |f.instrs|) == IntegerMoves(Constants(f.instrs))
    decreases |f.instrs|
  {
    if f.instrs != [] {
      var n := |f.instrs| - 1;
      var g := IrFunction(f.name, f.instrs[..n]);
      MovesAreIntegerMoves(sh, g);
      assert Moves(sh, f) == Moves(sh, g) + [InstrMove(sh, f.instrs[n].val)];
      ConcatPrefix(Moves(sh, g), [InstrMove(sh, f.instrs[n].val)], n);
      IntegerMovesSnoc(Constants(g.instrs), f.instrs[n].val.i);
    }
  }

  // ---------------------------------------------------------------- functions and the unit

  /** `emit_function` as written: the label, then the moves with no line break between them. */
  function FunctionText(sh: Show, f: IrFunction): string
    requires FunctionEmittable(f)
  {
    Prelude(sh, f) + Concat(Moves(sh, f), |f.instrs|)
  }

  lemma {:induction false} RunTogether(parts: seq<string>, j: nat)
    requires j <= |parts| && forall i :: 0 <= i < |parts| ==> '\n' !in parts[i]
    ensures '\n' !in Concat(parts, j)
  {
    if j > 0 {
      RunTogether(parts, j - 1);
    }
  }

  /**
   * As written, every move of a function lands on the line after its label,
   * whatever the number of instructions: the text has two lines in all, and
   * its body reads back as no lines at all.
   */
  lemma MovesShareOneLine(sh: Show, f: IrFunction)
    requires FunctionEmittable(f) && ShowsOneLine(sh)
    ensures Lines(FunctionText(sh, f)) == 2
    ensures |f.instrs| > 0 ==> ReadLines(Concat(Moves(sh, f), |f.instrs|)) == None
  {
    var body := Concat(Moves(sh, f), |f.instrs|);
    MovesOneLine(sh, f);
    RunTogether(Moves(sh, f), |f.instrs|);
    var name := sh.name(f.name);
    assert Prelude(sh, f) == (".globl " + name) + "\n" + ((name + ":") + "\n");
    ClosedLine(".globl " + name);
    ClosedLine(name + ":");
    LinesAppend((".globl " + name) + "\n", (name + ":") + "\n");
    NoBreaks(body, |body|);
    LinesAppend(Prelude(sh, f), body);
    if |f.instrs| > 0 {
      assert body == Concat(Moves(sh, f), |f.instrs| - 1) + Moves(sh, f)[|f.instrs| - 1];
      MovesAt(sh, f, |f.instrs| - 1);
      assert body != "";
    }
  }

  /** As written, the text after the label of an integer-only function still loads its constants, in order. */
  lemma FunctionRoundTrip(sh: Show, f: IrFunction)
    requires IntegersOnly(f)
    ensures FunctionEmittable(f)
    ensures StripPrefix(Prelude(sh, f), FunctionText(sh, f)) == Some(Concat(Moves(sh, f), |f.instrs|))
    ensures ReadMovedIntegers(Concat(Moves(sh, f), |f.instrs|)) == Some(Constants(f.instrs))
  {
    MovesAreIntegerMoves(sh, f);
    IntegerMovesRoundTrip(Constants(f.instrs));
    StripPrefixOf(Prelude(sh, f), Concat(Moves(sh, f), |f.instrs|));
  }

  /** Two integer constants: `1` and `2`. */
  const TWO_CONSTANTS: seq<Instruction> := [
    Instruction(ConstInteger(1), Types.Integer, 0),
    Instruction(ConstInteger(2), Types.Integer, 0)
  ]

  /** As written, the two moves of `1` and `2` are one line: "  movq $1, %rbx  movq $2, %rbx". */
  lemma TwoMovesOneLine(sh: Show, name: Tokens.Span)
    ensures FunctionEmittable(IrFunction(name, TWO_CONSTANTS))
    ensures Concat(Moves(sh, IrFunction(name, TWO_CONSTANTS)), 2) == "  movq $1, %rbx  movq $2, %rbx"
  {
    var f := IrFunction(name, TWO_CONSTANTS);
    assert f.instrs[0].val == ConstInteger(1) && f.instrs[1].val == ConstInteger(2);
    var m := Moves(sh, f);
    MovesAt(sh, f, 0);
    MovesAt(sh, f, 1);
    assert IntToString(1) == "1" && IntToString(2) == "2";
    assert m[0] == "  movq $1, %rbx";
    assert m[1] == "  movq $2, %rbx";
    assert Concat(m, 1) == m[0];
  }

  function Render(sh: Show): IrFunction --> string {
    (f: IrFunction) requires FunctionEmittable(f) => FunctionText(sh, f)
  }

  /** The text of every function, in order; each begins with that function's label. */
  function FunctionTexts(sh: Show, funcs: seq<IrFunction>): (r: seq<string>)
    requires AllEmittable(funcs)
    ensures |r| == |funcs|
    ensures forall j :: 0 <= j < |r| ==> Prelude(sh, funcs[j]) <= r[j]
  {
    var r := MapSeq(Render(sh), funcs);
    assert forall j :: 0 <= j < |r| ==> Prelude(sh, funcs[j]) <= r[j] by {
      forall j | 0 <= j < |r|
        ensures Prelude(sh, funcs[j]) <= r[j]
      {
        MapSeqAt(Render(sh), funcs, j);
      }
    }
    r
  }

  lemma FunctionTextsAt(sh: Show, funcs: seq<IrFunction>, j: nat)
    requires AllEmittable(funcs) && j < |funcs|
    ensures FunctionEmittable(funcs[j]) && FunctionTexts(sh, funcs)[j] == FunctionText(sh, funcs[j])
  {
    MapSeqAt(Render(sh), funcs, j);
  }

  /** `inner_start_emit`: the texts of the functions, in order, with nothing between them. */
  function UnitText(sh: Show, funcs: seq<IrFunction>): string
    requires AllEmittable(funcs)
  {
    Concat(FunctionTexts(sh, funcs), |funcs|)
  }

  // ---------------------------------------------------------------- emit_function as intended

  /** `emit_function` as evidently intended: the label, then each move on a line of its own. */
  function FunctionTextIntended(sh: Show, f: IrFunction): string
    requires FunctionEmittable(f)
  {
    Prelude(sh, f) + JoinLines(Moves(sh, f))
  }

  /** As intended, a function is its two label lines and one line per instruction. */
  lemma FunctionLinesIntended(sh: Show, f: IrFunction)
    requires FunctionEmittable(f) && ShowsOneLine(sh)
    ensures Lines(FunctionTextIntended(sh, f)) == 2 + |f.instrs|
  {
    var name := sh.name(f.name);
    assert Prelude(sh, f) == (".globl " + name) + "\n" + ((name + ":") + "\n");
    ClosedLine(".globl " + name);
    ClosedLine(name + ":");
    LinesAppend((".globl " + name) + "\n", (name + ":") + "\n");
    MovesOneLine(sh, f);
    JoinedLinesCount(Moves(sh, f));
    LinesAppend(Prelude(sh, f), JoinLines(Moves(sh, f)));
  }

  /** As intended, the lines after the label of an integer-only function are its moves, which load its constants. */
  lemma FunctionRoundTripIntended(sh: Show, f: IrFunction)
    requires IntegersOnly(f) && ShowsOneLine(sh)
    ensures FunctionEmittable(f)
    ensures StripPrefix(Prelude(sh, f), FunctionTextIntended(sh, f)) == Some(JoinLines(Moves(sh, f)))
    ensures ReadLines(JoinLines(Moves(sh, f))) == Some(Moves(sh, f))
    ensures MovedIntegers(Moves(sh, f)) == Some(Constants(f.instrs))
  {
    MovesLoadConstants(sh, f);
    MovesOneLine(sh, f);
    ReadJoinedLines(Moves(sh, f));
    StripPrefixOf(Prelude(sh, f), JoinLines(Moves(sh, f)));
  }

  // ---------------------------------------------------------------- the emitter

  /** After `i` turns of `emit_function`'s loop, `buffer` holds what it held, the label and the first `i` moves. */
  predicate MovesUpTo(sh: Show, f: IrFunction, i: nat, start: string, buffer: string) {
    FunctionEmittable(f) && i <= |f.instrs| && buffer == start + Prelude(sh, f) + Concat(Moves(sh, f), i)
  }

  /** After `j` turns of `inner_start_emit`'s loop, `buffer` holds what it held and the first `j` functions. */
  predicate FunctionsUpTo(sh: Show, funcs: seq<IrFunction>, j: nat, start: string, buffer: string) {
    AllEmittable(funcs) && j <= |funcs| && buffer == start + Concat(FunctionTexts(sh, funcs), j)
  }

  /** `X86Emitter`: how it prints names and doubles, the functions of the unit, and the text so far. */
  class X86Emitter {
    const sh: Show
    const funcs: seq<IrFunction>
    var buffer: string

    constructor (sh: Show, funcs: seq<IrFunction>)
      ensures this.sh == sh && this.funcs == funcs && buffer == ""
    {
      this.sh := sh;
      this.funcs := funcs;
      buffer := "";
    }

    /** `emit_const` */
    method EmitConst(text: string) returns (out: string)
      ensures out == ConstMove(text)
    {
      out := "  movq $" + text + ", %rbx";
    }

    /** `emit_instr`: the move of a constant, pushed as it is, with no line break after it. */
    method EmitInstr(v: InstructionValue)
      requires InstrEmittable(v)
      modifies this
      ensures buffer == old(buffer) + InstrMove(sh, v)
    {
      var out: string;
      match v {
        case ConstInteger(i) => out := EmitConst(IntToString(i));
        case ConstFloat(f) => out := EmitConst(sh.float(f));
      }
      buffer := buffer + out;
    }

    /** One turn of `emit_function`'s loop. */
    method EmitMove(f: IrFunction, i: nat, ghost start: string)
      requires i < |f.instrs| && MovesUpTo(sh, f, i, start, buffer)
      modifies this
      ensures MovesUpTo(sh, f, i + 1, start, buffer)
    {
      ghost var moves := Moves(sh, f);
      MovesAt(sh, f, i);
      Glue2(start + Prelude(sh, f), Concat(moves, i), moves[i]);
      EmitInstr(f.instrs[i].val);
    }

    /** `emit_function` */
    method EmitFunction(f: IrFunction)
      requires FunctionEmittable(f)
      modifies this
      ensures buffer == old(buffer) + FunctionText(sh, f)
    {
      ghost var start := buffer;
      var prelude := ".globl " + sh.name(f.name) + "\n" + sh.name(f.name) + ":\n";
      buffer := buffer + prelude;
      var i := 0;
      while i < |f.instrs|
        invariant MovesUpTo(sh, f, i, start, buffer)
      {
        EmitMove(f, i, start);
        i := i + 1;
      }
      Glue2(start, Prelude(sh, f), Concat(Moves(sh, f), i));
    }

    /** One turn of `inner_start_emit`'s loop. */
    method EmitNext(j: nat, ghost start: string)
      requires j < |funcs| && FunctionsUpTo(sh, funcs, j, start, buffer)
      modifies this
      ensures FunctionsUpTo(sh, funcs, j + 1, start, buffer)
    {
      ghost var texts := FunctionTexts(sh, funcs);
      FunctionTextsAt(sh, funcs, j);
      EmitFunction(funcs[j]);
      Glue2(start, Concat(texts, j), texts[j]);
    }

    /** `inner_start_emit` */
    method InnerStartEmit() returns (out: string)
      requires AllEmittable(funcs)
      modifies this
      ensures out == old(buffer) + UnitText(sh, funcs)
    {
      ghost var start := buffer;
      assert start + Concat(FunctionTexts(sh, funcs), 0) == start;
      var j := 0;
      while j < |funcs|
        invariant FunctionsUpTo(sh, funcs, j, start, buffer)
      {
        EmitNext(j, start);
        j := j + 1;
      }
      assert buffer == start + UnitText(sh, funcs);
      out := buffer;
    }
  }

  /** `X86Emitter::emit`: a fresh emitter over the unit, run to the end. */
  method Emit(sh: Show, funcs: seq<IrFunction>) returns (out: string)
    requires AllEmittable(funcs)
    ensures out == UnitText(sh, funcs)
  {
    var e := new X86Emitter(sh, funcs);
    out := e.InnerStartEmit();
  }
}
