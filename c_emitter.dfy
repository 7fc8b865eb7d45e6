/**
 * The C backend (src/emitters/c/emitter.rs): renders a flat-arena unit as C
 * source text, appending to one string buffer.  Its IR snapshot carries
 * C-level types (a primitive and a pointer depth) and functions with a return
 * type and parameters.
 */
module CEmitting {

  import opened Wrappers
  import opened Tokens
  import opened Format
  import FlatIr

  /** The backend's primitive types; widths are in bits. */
  datatype PrimType =
    | ComptimeInt
    | ComptimeUnsigned
    | ComptimeFloat
    | Undecided
    | Invalid
    | Floating(bitwidth: nat)
    | Integer(bitwidth: nat)
    | Unsigned(bitwidth: nat)
    | Moot
    | UserDef

  /** A primitive behind `ptr` levels of pointer. */
  datatype CType = CType(prim: PrimType, ptr: nat)

  /** A function: its name (a span of the source), entry block, return type and parameter types. */
  datatype CFunction = CFunction(name: Span, block: nat, retType: CType, params: seq<CType>)

  datatype CUnit = CUnit(instructions: seq<FlatIr.Instruction>, blocks: seq<Span>, funcs: seq<CFunction>)

  // ---------------------------------------------------------------- types

  /** The types `render_type` can print; every other one panics. */
  predicate Renderable(t: CType) {
    match t.prim
    case Floating(b) => b == 32 || b == 64
    case Integer(b) => 1 <= b <= 64
    case Unsigned(b) => 1 <= b <= 64
    case Moot => true
    case _ => false
  }

  /** The C storage width an integer width rounds up to. */
  function StorageBits(b: nat): nat
    requires 1 <= b <= 64
  {
    if b <= 8 then 8 else if b <= 16 then 16 else if b <= 32 then 32 else 64
  }

  function SizedName(b: nat): string
    requires 1 <= b <= 64
  {
    if b <= 8 then "int8_t" else if b <= 16 then "int16_t" else if b <= 32 then "int32_t" else "int64_t"
  }

  /** The base name of a renderable primitive. */
  function BaseName(t: CType): string
    requires Renderable(t)
  {
    match t.prim
    case Floating(b) => if b == 32 then "float" else "double"
    case Integer(b) => SizedName(b)
    case Unsigned(b) => "u" + SizedName(b)
    case Moot => "void"
  }

  function Stars(n: nat): (s: string)
    ensures |s| == n && forall k :: 0 <= k < n ==> s[k] == '*'
  {
    if n == 0 then "" else Stars(n - 1) + "*"
  }

  /** `render_type`: the base name, then one '*' per pointer level, no trailing space. */
  function TypeText(t: CType): string
    requires Renderable(t)
  {
    BaseName(t) + Stars(t.ptr)
  }

  /** What a rendered type determines: its kind, its C storage width and its pointer depth. */
  function TypeClass(t: CType): (nat, nat, nat)
    requires Renderable(t)
  {
    match t.prim
    case Floating(b) => (0, b, t.ptr)
    case Integer(b) => (1, StorageBits(b), t.ptr)
    case Unsigned(b) => (2, StorageBits(b), t.ptr)
    case Moot => (3, 0, t.ptr)
  }

  /** The number of '*' characters that end `s`. */
  function TrailingStars(s: string): nat {
    if s != [] && s[|s| - 1] == '*' then 1 + TrailingStars(s[..|s| - 1]) else 0
  }

  lemma {:induction false} TrailingStarsOf(x: string, n: nat)
    requires |x| > 0 && x[|x| - 1] != '*'
    ensures TrailingStars(x + Stars(n)) == n
  {
    if n > 0 {
      assert (x + Stars(n))[..|x| + n - 1] == x + Stars(n - 1);
      TrailingStarsOf(x, n - 1);
    } else {
      assert x + Stars(n) == x;
    }
  }

  lemma StarsSplit(x: string, n: nat, y: string, m: nat)
    requires |x| > 0 && |y| > 0 && x[|x| - 1] != '*' && y[|y| - 1] != '*'
    requires x + Stars(n) == y + Stars(m)
    ensures n == m && x == y
  {
    TrailingStarsOf(x, n);
    TrailingStarsOf(y, m);
    var s := x + Stars(n);
    assert x == s[..|x|];
  }

  /**
   * Two renderable types print the same exactly when they have the same kind,
   * storage width and pointer depth: `i32` and `i17` both print "int32_t",
   * and the number of trailing '*' is the pointer depth.
   */
  lemma TypeTextFaithful(a: CType, b: CType)
    requires Renderable(a) && Renderable(b)
    ensures TypeText(a) == TypeText(b) <==> TypeClass(a) == TypeClass(b)
    ensures TypeText(a)[|TypeText(a)| - 1] != ' '
  {
    var x, y := BaseName(a), BaseName(b);
    assert x[|x| - 1] != '*' && y[|y| - 1] != '*';
    if TypeText(a) == TypeText(b) {
      StarsSplit(x, a.ptr, y, b.ptr);
      BaseNameClass(a, b);
    }
    assert x[|x| - 1] != ' ';
  }

  /** Reads a base name back as a kind and storage width. */
  function NameClass(name: string): (nat, nat) {
    if name == "float" then (0, 32) else if name == "double" then (0, 64)
    else if name == "int8_t" then (1, 8) else if name == "int16_t" then (1, 16)
    else if name == "int32_t" then (1, 32) else if name == "int64_t" then (1, 64)
    else if name == "uint8_t" then (2, 8) else if name == "uint16_t" then (2, 16)
    else if name == "uint32_t" then (2, 32) else if name == "uint64_t" then (2, 64)
    else (3, 0)
  }

  lemma BaseNameClass(a: CType, b: CType)
    requires Renderable(a) && Renderable(b) && BaseName(a) == BaseName(b)
    ensures TypeClass(a).0 == TypeClass(b).0 && TypeClass(a).1 == TypeClass(b).1
  {
    NameClassOfBase(a);
    NameClassOfBase(b);
  }

  lemma NameClassOfBase(t: CType)
    requires Renderable(t)
    ensures NameClass(BaseName(t)) == (TypeClass(t).0, TypeClass(t).1)
  {
    match t.prim
    case Floating(b) =>
    case Integer(b) =>
    case Unsigned(b) =>
      var n := SizedName(b);
      assert BaseName(t) == "u" + n;
      if b <= 8 {
        assert "u" + n == "uint8_t";
      } else if b <= 16 {
        assert "u" + n == "uint16_t";
      } else if b <= 32 {
        assert "u" + n == "uint32_t";
      } else {
        assert "u" + n == "uint64_t";
      }
    case Moot =>
  }

  // ---------------------------------------------------------------- comments

  /** The end of the run of non-white-space characters starting at `i`. */
  function WordEnd(s: string, i: nat): (k: nat)
    requires i <= |s|
    ensures i <= k <= |s| && (k < |s| ==> IsWhitespace(s[k]))
    ensures forall j :: i <= j < k ==> !IsWhitespace(s[j])
    decreases |s| - i
  {
    if i == |s| || IsWhitespace(s[i]) then i else WordEnd(s, i + 1)
  }

  /** `split_whitespace` from index `i`: the maximal runs of non-white-space characters. */
  function WordsFrom(s: string, i: nat): (words: seq<string>)
    requires i <= |s|
    decreases |s| - i
  {
    if i == |s| then []
    else if IsWhitespace(s[i]) then WordsFrom(s, i + 1)
    else
      var k := WordEnd(s, i);
      [s[i..k]] + WordsFrom(s, k)
  }

  function Words(s: string): seq<string> {
    WordsFrom(s, 0)
  }

  /** The offsets `render_comment` advances by: each word's length plus one. */
  function Advance(words: seq<string>, k: nat): nat
    requires k <= |words|
    decreases |words| - k
  {
    if k == |words| then 0 else |words[k]| + 1 + Advance(words, k + 1)
  }

  lemma {:induction false} AdvanceCons(w: string, words: seq<string>, k: nat)
    requires k <= |words|
    ensures Advance([w] + words, k + 1) == Advance(words, k)
    decreases |words| - k
  {
    if k < |words| {
      assert ([w] + words)[k + 1] == words[k];
      AdvanceCons(w, words, k + 1);
    } else {
      assert Advance([w] + words, k + 1) == 0;
    }
  }

  /** The words of `s` from `i` on, with one separator each, fit in what is left of `s` plus one. */
  lemma {:induction false} WordsFit(s: string, i: nat)
    requires i <= |s|
    ensures Advance(WordsFrom(s, i), 0) <= |s| - i + 1
    decreases |s| - i
  {
    if i < |s| {
      if IsWhitespace(s[i]) {
        WordsFit(s, i + 1);
      } else {
        var k := WordEnd(s, i);
        AdvanceCons(s[i..k], WordsFrom(s, k), 0);
        WordsFit(s, k);
        if k < |s| {
          WordsFit(s, k + 1);
          assert WordsFrom(s, k) == WordsFrom(s, k + 1);
        }
      }
    }
  }

  /** Every line span is non-empty and ends within `bound`. */
  predicate LinesWithin(lines: seq<Span>, bound: nat) {
    forall j :: 0 <= j < |lines| ==> lines[j].start < lines[j].end <= bound
  }

  /**
   * The loop of `render_comment` from word `k`: `span` is the current line
   * (start) and the running offset (end); a line is flushed, word that
   * overflowed included, once it spans more than 80 characters.  Returns the
   * flushed lines and the final span.
   */
  function CommentScan(words: seq<string>, k: nat, lines: seq<Span>, span: Span): (r: (seq<Span>, Span))
    requires k <= |words| && span.start <= span.end
    ensures r.1.start <= r.1.end == span.end + Advance(words, k)
    ensures LinesWithin(lines, span.end) ==> LinesWithin(r.0, r.1.end)
    decreases |words| - k
  {
    if k == |words| then (lines, span)
    else
      var end := span.end + |words[k]| + 1;
      if end - span.start > 80 then CommentScan(words, k + 1, lines + [Span(span.start, end)], Span(end, end))
      else CommentScan(words, k + 1, lines, Span(span.start, end))
  }

  /** One emitted comment line: "// ", the text of the span less its last character, a newline. */
  function LineText(c: string, sp: Span): string
    requires sp.start < sp.end <= |c| + 1
  {
    "// " + c[sp.start..sp.end - 1] + "\n"
  }

  function LinesText(c: string, lines: seq<Span>): string
    requires LinesWithin(lines, |c| + 1)
  {
    if lines == [] then "" else LinesText(c, lines[..|lines| - 1]) + LineText(c, lines[|lines| - 1])
  }

  /** The flushed lines and final span of a whole comment. */
  function CommentSpans(c: string): (r: (seq<Span>, Span))
    ensures LinesWithin(r.0, |c| + 1) && r.1.start <= r.1.end <= |c| + 1
  {
    WordsFit(c, 0);
    CommentScan(Words(c), 0, [], Span(0, 0))
  }

  /**
   * `render_comment` as written: the final line is sliced up to `span.end - 1`
   * even when the last word was just flushed (`span.start == span.end`), or
   * when there were no words (`span.end == 0`), and both panic (None).
   */
  function CommentAsWritten(c: string): Option<string> {
    var (lines, last) := CommentSpans(c);
    if last.start < last.end then Some(LinesText(c, lines + [last])) else None
  }

  /** `render_comment` with the final line emitted only when words remain in it. */
  function CommentText(c: string): (r: string)
    ensures CommentAsWritten(c).Some? ==> CommentAsWritten(c).value == r
  {
    var (lines, last) := CommentSpans(c);
    if last.start < last.end then LinesText(c, lines + [last]) else LinesText(c, lines)
  }

  lemma {:induction false} WordEndAll(s: string, i: nat)
    requires i <= |s| && forall j :: i <= j < |s| ==> !IsWhitespace(s[j])
    ensures WordEnd(s, i) == |s|
    decreases |s| - i
  {
    if i < |s| {
      WordEndAll(s, i + 1);
    }
  }

  /**
   * A comment that is one word of 80 characters or more is flushed as soon as
   * it is read, and the final slice then panics; corrected, it is one line.
   */
  lemma LongWordPanics(w: string)
    requires |w| >= 80 && forall j :: 0 <= j < |w| ==> !IsWhitespace(w[j])
    ensures CommentAsWritten(w).None?
    ensures CommentText(w) == "// " + w + "\n"
  {
    WordEndAll(w, 0);
    assert w[0..|w|] == w;
    assert WordsFrom(w, |w|) == [];
    assert Words(w) == [w[0..|w|]] + WordsFrom(w, |w|);
    assert Words(w) == [w];
    var r := CommentScan([w], 1, [Span(0, |w| + 1)], Span(|w| + 1, |w| + 1));
    assert r == ([Span(0, |w| + 1)], Span(|w| + 1, |w| + 1));
    assert [w][0] == w && [] + [Span(0, |w| + 1)] == [Span(0, |w| + 1)];
    assert CommentScan([w], 0, [], Span(0, 0)) == r;
    assert CommentSpans(w) == r;
    assert LinesText(w, [Span(0, |w| + 1)]) == LineText(w, Span(0, |w| + 1));
  }

  /** The empty comment has no words and, as written, underflows `span.end - 1`. */
  lemma EmptyCommentPanics()
    ensures CommentAsWritten("").None? && CommentText("") == ""
  {
    assert CommentSpans("") == ([], Span(0, 0));
  }

  /** No leading or trailing white space, and never two white-space characters in a row. */
  predicate SingleSpaced(c: string) {
    && |c| > 0 && !IsWhitespace(c[0]) && !IsWhitespace(c[|c| - 1])
    && forall j :: 0 <= j < |c| - 1 && IsWhitespace(c[j]) ==> !IsWhitespace(c[j + 1])
  }

  /** In a single-spaced comment the offsets add up to its length plus one. */
  lemma {:induction false} SingleSpacedAdvance(c: string, i: nat)
    requires SingleSpaced(c) && i < |c| && !IsWhitespace(c[i])
    ensures Advance(WordsFrom(c, i), 0) == |c| - i + 1
    decreases |c| - i
  {
    var k := WordEnd(c, i);
    AdvanceCons(c[i..k], WordsFrom(c, k), 0);
    if k < |c| {
      assert !IsWhitespace(c[k + 1]);
      SingleSpacedAdvance(c, k + 1);
      assert WordsFrom(c, k) == WordsFrom(c, k + 1);
    } else {
      assert WordsFrom(c, k) == [];
    }
  }

  lemma {:induction false} NoFlush(words: seq<string>, k: nat, end: nat)
    requires k <= |words| && end + Advance(words, k) <= 80
    ensures CommentScan(words, k, [], Span(0, end)) == ([], Span(0, end + Advance(words, k)))
    decreases |words| - k
  {
    if k < |words| {
      NoFlush(words, k + 1, end + |words[k]| + 1);
    }
  }

  /** A single-spaced comment shorter than 80 characters comes out as one unchanged line. */
  lemma ShortCommentOneLine(c: string)
    requires SingleSpaced(c) && |c| < 80
    ensures CommentAsWritten(c) == Some("// " + c + "\n")
    ensures CommentText(c) == "// " + c + "\n"
  {
    SingleSpacedAdvance(c, 0);
    NoFlush(Words(c), 0, 0);
    assert CommentSpans(c) == ([], Span(0, |c| + 1));
    assert c[0..|c|] == c;
    assert LinesText(c, [Span(0, |c| + 1)]) == LineText(c, Span(0, |c| + 1));
  }

  /** The closing comment of the prelude: its trailing line breaks are white space, so it is one line. */
  lemma PreludeEndComment()
    ensures CommentAsWritten("prelude end\n\n") == Some("// prelude end\n")
  {
    var c := "prelude end\n\n";
    assert WordEnd(c, 8) == 11 && WordEnd(c, 0) == 7;
    assert WordsFrom(c, 11) == [];
    assert WordsFrom(c, 8) == [c[8..11]];
    var words := [c[0..7], c[8..11]];
    assert Words(c) == words;
    assert CommentScan(words, 2, [], Span(0, 12)) == ([], Span(0, 12));
    assert CommentScan(words, 1, [], Span(0, 8)) == ([], Span(0, 12));
    assert CommentScan(words, 0, [], Span(0, 0)) == ([], Span(0, 12));
    assert CommentSpans(c) == ([], Span(0, 12));
    assert [] + [Span(0, 12)] == [Span(0, 12)];
    assert LinesText(c, [Span(0, 12)]) == LineText(c, Span(0, 12));
    assert c[0..11] == "prelude end";
    assert LineText(c, Span(0, 12)) == "// prelude end\n";
    assert CommentAsWritten(c) == Some(LinesText(c, [Span(0, 12)]));
  }

  /** A word: no white space at all. */
  predicate NoWhitespace(w: string) {
    forall c :: c in w ==> !IsWhitespace(c)
  }

  /** Two words with one space between them are single-spaced. */
  lemma TwoWordsSingleSpaced(a: string, b: string)
    requires a != [] && b != [] && NoWhitespace(a) && NoWhitespace(b)
    ensures SingleSpaced(a + " " + b)
  {
    var c := a + " " + b;
    assert forall j :: 0 <= j < |a| ==> c[j] == a[j] && a[j] in a;
    assert forall j :: |a| < j < |c| ==> c[j] == b[j - |a| - 1] && b[j - |a| - 1] in b;
  }

  lemma StartComment(w: string)
    requires w == "prelude start"
    ensures CommentAsWritten(w) == Some("// prelude start\n")
  {
    assert NoWhitespace("prelude") && NoWhitespace("start");
    TwoWordsSingleSpaced("prelude", "start");
    assert w == "prelude" + " " + "start";
    ShortCommentOneLine(w);
    assert "// " + w + "\n" == "// prelude start\n";
  }

  lemma WordComment(w: string)
    requires 0 < |w| < 80 && NoWhitespace(w)
    ensures CommentAsWritten(w) == Some("// " + w + "\n")
  {
    assert forall j :: 0 <= j < |w| ==> w[j] in w;
    ShortCommentOneLine(w);
  }

  /** The two one-word section headings of the prelude each render as one line. */
  lemma SectionComment(w: string)
    requires w == "includes" || w == "prototypes"
    ensures w == "includes" ==> CommentAsWritten(w) == Some("// includes\n")
    ensures w == "prototypes" ==> CommentAsWritten(w) == Some("// prototypes\n")
  {
    if w == "includes" {
      assert NoWhitespace("includes");
      WordComment(w);
      assert "// " + "includes" + "\n" == "// includes\n";
    } else {
      assert NoWhitespace("prototypes");
      WordComment(w);
      assert "// " + "prototypes" + "\n" == "// prototypes\n";
    }
  }

  /** The comments `render_prelude` writes are each one line, and none of them panics. */
  lemma PreludeComments()
    ensures CommentAsWritten("prelude start") == Some("// prelude start\n")
    ensures CommentAsWritten("includes") == Some("// includes\n")
    ensures CommentAsWritten("prototypes") == Some("// prototypes\n")
    ensures CommentAsWritten("prelude end\n\n") == Some("// prelude end\n")
  {
    StartComment("prelude start");
    SectionComment("includes");
    SectionComment("prototypes");
    PreludeEndComment();
  }

  // ---------------------------------------------------------------- instructions, blocks, functions

  /**
   * What the backend renders from: the unit, the source text of a span
   * (`get_str_from_span`) and Rust's `{:?}` text of a double.
   */
  datatype Input = Input(unit: CUnit, text: Span -> string, showFloat: Float -> string)

  const INT64: CType := CType(PrimType.Integer(64), 0)
  const DOUBLE: CType := CType(PrimType.Floating(64), 0)
  const MAIN_PROTOTYPE: string := "extern int main(int argc, char** argv)"

  /** The instruction kinds `render_instr` handles; the others are `todo!()`. */
  predicate InstrRenderable(v: FlatIr.InstructionValue) {
    v.ConstInteger? || v.ConstFloat? || v.Return?
  }

  /** Instruction `k` exists and can be rendered. */
  predicate InstrOk(u: CUnit, k: nat) {
    k < |u.instructions| && InstrRenderable(u.instructions[k].val)
  }

  /** `render_instr`: a tab, then a declaration of `_k` or a return of `_x`. */
  function InstrText(inp: Input, k: nat): string
    requires InstrOk(inp.unit, k)
  {
    match inp.unit.instructions[k].val
    case ConstInteger(i) => "\t" + TypeText(INT64) + (" _" + NatToString(k) + " = " + IntToString(i) + ";\n")
    case ConstFloat(f) => "\t" + TypeText(DOUBLE) + (" _" + NatToString(k) + " = " + inp.showFloat(f) + "f;\n")
    case Return(x) => "\t" + ("return _" + NatToString(x) + ";\n")
  }

  /** Instructions `lo..hi` exist and can be rendered. */
  predicate RangeRenderable(u: CUnit, lo: nat, hi: nat) {
    forall k :: lo <= k < hi ==> InstrOk(u, k)
  }

  /** The number of instructions in `lo..hi`. */
  function RangeSize(lo: nat, hi: nat): nat {
    if hi <= lo then 0 else hi - lo
  }

  /** The text of instruction `lo + j`. */
  function InstrOf(inp: Input, lo: nat): nat --> string {
    (j: nat) requires InstrOk(inp.unit, lo + j) => InstrText(inp, lo + j)
  }

  /** The text of each instruction of `lo..hi`, in order. */
  function InstrLines(inp: Input, lo: nat, hi: nat): (r: seq<string>)
    requires RangeRenderable(inp.unit, lo, hi)
    ensures |r| == RangeSize(lo, hi)
  {
    Indexed(InstrOf(inp, lo), RangeSize(lo, hi))
  }

  /** The instructions `lo..hi`, in order. */
  function InstrsText(inp: Input, lo: nat, hi: nat): string
    requires RangeRenderable(inp.unit, lo, hi)
  {
    Concat(InstrLines(inp, lo, hi), RangeSize(lo, hi))
  }

  /** `parts` are the texts of the instructions from `lo` on, in order. */
  predicate InstrParts(inp: Input, lo: nat, parts: seq<string>) {
    forall j :: 0 <= j < |parts| ==> InstrAt(inp, lo, parts, j)
  }

  /** Part `j` is the text of instruction `lo + j`. */
  predicate InstrAt(inp: Input, lo: nat, parts: seq<string>, j: nat) {
    j < |parts| && InstrOk(inp.unit, lo + j) && parts[j] == InstrText(inp, lo + j)
  }

  lemma InstrLinesAre(inp: Input, lo: nat, hi: nat)
    requires RangeRenderable(inp.unit, lo, hi)
    ensures InstrParts(inp, lo, InstrLines(inp, lo, hi))
  {
    forall j | 0 <= j < RangeSize(lo, hi)
      ensures InstrAt(inp, lo, InstrLines(inp, lo, hi), j)
    {
      assert InstrOk(inp.unit, lo + j);
      IndexedAt(InstrOf(inp, lo), RangeSize(lo, hi), j);
    }
  }

  predicate BlockRenderable(u: CUnit, b: nat) {
    b < |u.blocks| && RangeRenderable(u, u.blocks[b].start, u.blocks[b].end)
  }

  /** `render_block`: the label "BLOCK<b>:;", then the block's instructions. */
  function BlockText(inp: Input, b: nat): string
    requires BlockRenderable(inp.unit, b)
  {
    ("BLOCK" + NatToString(b) + ":;\n") + InstrsText(inp, inp.unit.blocks[b].start, inp.unit.blocks[b].end)
  }

  predicate ParamsRenderable(params: seq<CType>) {
    forall j :: 0 <= j < |params| ==> Renderable(params[j])
  }

  /** Parameter `j`'s declaration. */
  function ParamDecl(params: seq<CType>, j: nat): string
    requires j < |params| && Renderable(params[j])
  {
    TypeText(params[j]) + (" PARAM" + NatToString(j))
  }

  /** The loop of `render_prototype` over the first `j` parameters: each declaration, then ',' unless it is the last. */
  function ParamsText(params: seq<CType>, j: nat): string
    requires j <= |params| && ParamsRenderable(params)
  {
    if j == 0 then ""
    else ParamsText(params, j - 1) + ParamDecl(params, j - 1) + (if j - 1 != |params| - 1 then "," else "")
  }

  predicate PrototypeRenderable(u: CUnit, fi: nat) {
    fi < |u.funcs| && (fi == 0 || (Renderable(u.funcs[fi].retType) && ParamsRenderable(u.funcs[fi].params)))
  }

  /** `render_prototype`: function 0 is always C's `main`; any other prints its own signature. */
  function PrototypeText(inp: Input, fi: nat): string
    requires PrototypeRenderable(inp.unit, fi)
  {
    var f := inp.unit.funcs[fi];
    if fi == 0 then MAIN_PROTOTYPE
    else TypeText(f.retType) + (" " + inp.text(f.name) + "(") + ParamsText(f.params, |f.params|) + ")"
  }

  predicate FunctionRenderable(u: CUnit, fi: nat) {
    PrototypeRenderable(u, fi) && BlockRenderable(u, u.funcs[fi].block)
  }

  /** `render_function`: the prototype, then the entry block in braces. */
  function FunctionText(inp: Input, fi: nat): string
    requires FunctionRenderable(inp.unit, fi)
  {
    PrototypeText(inp, fi) + "{\n" + BlockText(inp, inp.unit.funcs[fi].block) + "}\n\n"
  }

  /** Every function of the unit can be rendered. */
  predicate UnitRenderable(u: CUnit) {
    forall fi :: 0 <= fi < |u.funcs| ==> FunctionRenderable(u, fi)
  }

  /** Each function's forward declaration, "<prototype>;\n", in index order. */
  function PrototypeLines(inp: Input): (r: seq<string>)
    requires UnitRenderable(inp.unit)
    ensures |r| == |inp.unit.funcs|
  {
    Indexed(DeclarationOf(inp), |inp.unit.funcs|)
  }

  /** The forward declaration of function `fi`, "<prototype>;\n". */
  function DeclarationOf(inp: Input): nat --> string {
    (fi: nat) requires fi < |inp.unit.funcs| && UnitRenderable(inp.unit) =>
      assert FunctionRenderable(inp.unit, fi); PrototypeText(inp, fi) + ";\n"
  }

  /** The forward declarations of the first `j` functions. */
  function PrototypesText(inp: Input, j: nat): string
    requires j <= |inp.unit.funcs| && UnitRenderable(inp.unit)
  {
    Concat(PrototypeLines(inp), j)
  }

  const INCLUDES: string := "#include<stdio.h>\n#include<stdlib.h>\n\n"

  /** `render_prelude` up to the forward declarations. */
  function PreludeHead(): string {
    CommentText("prelude start") + CommentText("includes") + INCLUDES + CommentText("prototypes")
  }

  /** `render_prelude`: comments, the includes, and a forward declaration of every function. */
  function PreludeText(inp: Input): string
    requires UnitRenderable(inp.unit)
  {
    PreludeHead() + PrototypesText(inp, |inp.unit.funcs|) + "\n" + CommentText("prelude end\n\n")
  }

  /** Each function's definition, in index order. */
  function FunctionTexts(inp: Input): (r: seq<string>)
    requires UnitRenderable(inp.unit)
    ensures |r| == |inp.unit.funcs|
  {
    Indexed(DefinitionOf(inp), |inp.unit.funcs|)
  }

  /** The definition of function `fi`. */
  function DefinitionOf(inp: Input): nat --> string {
    (fi: nat) requires fi < |inp.unit.funcs| && UnitRenderable(inp.unit) =>
      assert FunctionRenderable(inp.unit, fi); FunctionText(inp, fi)
  }

  /** The definitions of the first `j` functions. */
  function FunctionsText(inp: Input, j: nat): string
    requires j <= |inp.unit.funcs| && UnitRenderable(inp.unit)
  {
    Concat(FunctionTexts(inp), j)
  }

  /** `emit`: the prelude, then every function in index order. */
  function EmittedC(inp: Input): string
    requires UnitRenderable(inp.unit)
  {
    PreludeText(inp) + FunctionsText(inp, |inp.unit.funcs|)
  }

  // ---------------------------------------------------------------- what the text says

  /** A rendered instruction line read back: a declared integer temporary or a return. */
  datatype CLine = Declare(k: nat, value: int) | Ret(x: nat)

  /** Reads a line "\tint64_t _<k> = <value>;\n" or "\treturn _<x>;\n". */
  function DecodeLine(line: string): Option<CLine> {
    match StripPrefix("\tint64_t _", line)
    case Some(rest) =>
      (match SplitAt(rest, ' ')
       case Some((ks, tail)) =>
         (match StripPrefix("= ", tail)
          case Some(vtail) =>
            (match SplitAt(vtail, ';')
             case Some((vs, nl)) =>
               if ks != [] && AllDigits(ks) && nl == "\n" && ParseInt(vs).Some? then Some(Declare(ParseNat(ks), ParseInt(vs).value))
               else None
             case None => None)
          case None => None)
       case None => None)
    case None =>
      match StripPrefix("\treturn _", line)
      case Some(rest) =>
        (match SplitAt(rest, ';')
         case Some((xs, nl)) => if xs != [] && AllDigits(xs) && nl == "\n" then Some(Ret(ParseNat(xs))) else None
         case None => None)
      case None => None
  }

  /** The line of an integer constant declares `_k` with exactly that value. */
  lemma ConstLineDecodes(inp: Input, k: nat)
    requires k < |inp.unit.instructions| && inp.unit.instructions[k].val.ConstInteger?
    ensures DecodeLine(InstrText(inp, k)) == Some(Declare(k, inp.unit.instructions[k].val.i))
  {
    var i := inp.unit.instructions[k].val.i;
    var ks, vs := NatToString(k), IntToString(i);
    var rest := ks + [' '] + ("= " + vs + ";\n");
    assert TypeText(INT64) == "int64_t";
    assert InstrText(inp, k) == "\tint64_t _" + rest;
    StripPrefixOf("\tint64_t _", rest);
    IntTextAvoids(k, ' ');
    SplitAtFirst(ks, ' ', "= " + vs + ";\n");
    var vtail := vs + [';'] + "\n";
    assert "= " + vs + ";\n" == "= " + vtail;
    StripPrefixOf("= ", vtail);
    IntTextAvoids(i, ';');
    SplitAtFirst(vs, ';', "\n");
    IntToStringRoundTrip(i);
    ParseNatToString(k);
  }

  /** The line of a return names the returned instruction. */
  lemma ReturnLineDecodes(inp: Input, k: nat)
    requires k < |inp.unit.instructions| && inp.unit.instructions[k].val.Return?
    ensures DecodeLine(InstrText(inp, k)) == Some(Ret(inp.unit.instructions[k].val.x))
  {
    var x := inp.unit.instructions[k].val.x;
    var xs := NatToString(x);
    var line := InstrText(inp, k);
    assert line == "\treturn _" + (xs + [';'] + "\n");
    assert line[1] == 'r';
    assert StripPrefix("\tint64_t _", line) == None;
    StripPrefixOf("\treturn _", xs + [';'] + "\n");
    IntTextAvoids(x, ';');
    SplitAtFirst(xs, ';', "\n");
    ParseNatToString(x);
  }

  /** The list of parameter declarations joined by ','. */
  function JoinDecls(params: seq<CType>, j: nat): string
    requires 0 < j <= |params| && ParamsRenderable(params)
  {
    if j == 1 then ParamDecl(params, 0) else JoinDecls(params, j - 1) + "," + ParamDecl(params, j - 1)
  }

  lemma {:induction false} ParamsTextPrefix(params: seq<CType>, j: nat)
    requires 0 < j <= |params| && ParamsRenderable(params)
    ensures ParamsText(params, j) == JoinDecls(params, j) + (if j < |params| then "," else "")
  {
    if j > 1 {
      ParamsTextPrefix(params, j - 1);
    } else {
      assert ParamsText(params, 0) == "";
    }
  }

  /**
   * The parameter list is the declarations "<type> PARAM<j>" separated by
   * commas: a comma between two parameters and none after the last.
   */
  lemma ParamsJoined(params: seq<CType>)
    requires ParamsRenderable(params)
    ensures ParamsText(params, |params|) == if params == [] then "" else JoinDecls(params, |params|)
  {
    if params != [] {
      ParamsTextPrefix(params, |params|);
    }
  }

  /** A rendered type never breaks a line. */
  lemma TypeTextOneLine(t: CType)
    requires Renderable(t)
    ensures '\n' !in TypeText(t)
  {
    assert '\n' !in BaseName(t);
  }

  /** The text of a double never holds a line break. */
  ghost predicate FloatTextOneLine(inp: Input) {
    forall f: Float :: '\n' !in inp.showFloat(f)
  }

  /** A declaration "<head> _<n> = <v><close>;\n" is one line when its parts hold no break. */
  lemma DeclarationLine(head: string, n: string, v: string, close: string)
    requires '\n' !in head && '\n' !in n && '\n' !in v && '\n' !in close
    ensures Lines(head + (" _" + n + " = " + v + close + ";\n")) == 1
  {
    var x := head + " _" + n + " = " + v + close + ";";
    assert head + (" _" + n + " = " + v + close + ";\n") == x + "\n";
    ClosedLine(x);
  }

  lemma InstrOneLine(inp: Input, k: nat)
    requires InstrOk(inp.unit, k) && FloatTextOneLine(inp)
    ensures Lines(InstrText(inp, k)) == 1
  {
    match inp.unit.instructions[k].val
    case ConstInteger(i) =>
      IntTextAvoids(k, '\n');
      IntTextAvoids(i, '\n');
      TypeTextOneLine(INT64);
      DeclarationLine("\t" + TypeText(INT64), NatToString(k), IntToString(i), "");
      assert " _" + NatToString(k) + " = " + IntToString(i) + "" + ";\n" == " _" + NatToString(k) + " = " + IntToString(i) + ";\n";
    case ConstFloat(f) =>
      IntTextAvoids(k, '\n');
      TypeTextOneLine(DOUBLE);
      DeclarationLine("\t" + TypeText(DOUBLE), NatToString(k), inp.showFloat(f), "f");
      assert " _" + NatToString(k) + " = " + inp.showFloat(f) + "f" + ";\n" == " _" + NatToString(k) + " = " + inp.showFloat(f) + "f;\n";
    case Return(r) =>
      IntTextAvoids(r, '\n');
      ClosedLine("\treturn _" + NatToString(r) + ";");
      assert "\t" + ("return _" + NatToString(r) + ";\n") == "\treturn _" + NatToString(r) + ";" + "\n";
  }

  lemma InstrsLines(inp: Input, lo: nat, hi: nat)
    requires RangeRenderable(inp.unit, lo, hi) && FloatTextOneLine(inp)
    ensures Lines(InstrsText(inp, lo, hi)) == RangeSize(lo, hi)
  {
    var parts := InstrLines(inp, lo, hi);
    InstrLinesAre(inp, lo, hi);
    forall j | 0 <= j < |parts|
      ensures Lines(parts[j]) == 1
    {
      assert InstrAt(inp, lo, parts, j);
      InstrOneLine(inp, lo + j);
    }
    ConcatLines(parts, |parts|);
  }

  lemma LabelLine(n: string)
    requires '\n' !in n
    ensures Lines("BLOCK" + n + ":;\n") == 1
  {
    ClosedLine("BLOCK" + n + ":;");
    assert "BLOCK" + n + ":;\n" == ("BLOCK" + n + ":;") + "\n";
  }

  /** A block is its label line followed by exactly one line per instruction of its span. */
  lemma BlockLines(inp: Input, b: nat)
    requires BlockRenderable(inp.unit, b) && FloatTextOneLine(inp)
    ensures var sp := inp.unit.blocks[b];
      Lines(BlockText(inp, b)) == 1 + RangeSize(sp.start, sp.end)
  {
    var sp := inp.unit.blocks[b];
    InstrsLines(inp, sp.start, sp.end);
    IntTextAvoids(b, '\n');
    LabelLine(NatToString(b));
    LinesAppend("BLOCK" + NatToString(b) + ":;\n", InstrsText(inp, sp.start, sp.end));
  }

  // ---------------------------------------------------------------- the emitter

  /** After `k` turns of `render_comment`'s loop: the current line `start`..`end`, the flushed `lines` written after `head`. */
  predicate CommentUpTo(c: string, k: nat, lines: seq<Span>, start: nat, end: nat, head: string, buffer: string) {
    var words := Words(c);
    k <= |words| && start <= end && end + Advance(words, k) == Advance(words, 0) <= |c| + 1 &&
    LinesWithin(lines, start) && CommentScan(words, k, lines, Span(start, end)) == CommentSpans(c) &&
    LinesWithin(lines, |c| + 1) && buffer == head + LinesText(c, lines)
  }

  lemma LinesWithinWeaken(lines: seq<Span>, bound: nat, bound': nat)
    requires LinesWithin(lines, bound) && bound <= bound'
    ensures LinesWithin(lines, bound')
  {
  }

  /** Flushing span `sp` after `lines` appends its line to the text of `lines`. */
  lemma FlushLine(b: string, c: string, lines: seq<Span>, sp: Span)
    requires LinesWithin(lines, sp.start) && sp.start < sp.end <= |c| + 1
    ensures LinesWithin(lines + [sp], sp.end)
    ensures b + LinesText(c, lines + [sp]) == b + LinesText(c, lines) + LineText(c, sp)
  {
    assert (lines + [sp])[..|lines|] == lines;
  }

  /** After `j` turns of `render_prelude`'s loop, `buffer` holds `head` and the first `j` forward declarations. */
  predicate PrototypesUpTo(inp: Input, j: nat, head: string, buffer: string) {
    UnitRenderable(inp.unit) && j <= |inp.unit.funcs| && buffer == head + PrototypesText(inp, j)
  }

  lemma PrototypesNext(inp: Input, j: nat)
    requires j < |inp.unit.funcs| && UnitRenderable(inp.unit)
    ensures FunctionRenderable(inp.unit, j)
    ensures PrototypesText(inp, j + 1) == PrototypesText(inp, j) + PrototypeText(inp, j) + ";\n"
  {
    assert FunctionRenderable(inp.unit, j);
    IndexedAt(DeclarationOf(inp), |inp.unit.funcs|, j);
  }

  /** `parts` are the definitions of the unit's functions, in index order. */
  predicate Definitions(inp: Input, parts: seq<string>) {
    UnitRenderable(inp.unit) && |parts| == |inp.unit.funcs| &&
    forall j :: 0 <= j < |parts| ==> DefinedAt(inp, parts, j)
  }

  /** Part `j` is the definition of function `j`. */
  predicate DefinedAt(inp: Input, parts: seq<string>, j: nat) {
    j < |parts| && FunctionRenderable(inp.unit, j) && parts[j] == FunctionText(inp, j)
  }

  lemma FunctionTextsAre(inp: Input)
    requires UnitRenderable(inp.unit)
    ensures Definitions(inp, FunctionTexts(inp))
  {
    forall j | 0 <= j < |inp.unit.funcs|
      ensures DefinedAt(inp, FunctionTexts(inp), j)
    {
      assert FunctionRenderable(inp.unit, j);
      IndexedAt(DefinitionOf(inp), |inp.unit.funcs|, j);
    }
  }

  /** `IR2CEmitter`: the unit and context it reads, and the buffer it appends to. */
  class IR2CEmitter {
    const inp: Input
    var buffer: string

    constructor (inp: Input)
      ensures this.inp == inp && buffer == ""
    {
      this.inp := inp;
      buffer := "";
    }

    /** `render_type` */
    method RenderType(ty: CType)
      requires Renderable(ty)
      modifies this
      ensures buffer == old(buffer) + TypeText(ty)
    {
      var name: string;
      match ty.prim {
        case Floating(b) =>
          name := if b == 32 then "float" else "double";
        case Integer(b) =>
          name := if b <= 8 then "int8_t" else if b <= 16 then "int16_t" else if b <= 32 then "int32_t" else "int64_t";
        case Unsigned(b) =>
          name := if b <= 8 then "uint8_t" else if b <= 16 then "uint16_t" else if b <= 32 then "uint32_t" else "uint64_t";
        case Moot =>
          name := "void";
      }
      assert name == BaseName(ty);
      buffer := buffer + name;
      buffer := buffer + Stars(ty.ptr);
      Glue2(old(buffer), name, Stars(ty.ptr));
    }

    /** One "// ..." line of `render_comment`. */
    method WriteCommentLine(comment: string, sp: Span)
      requires sp.start < sp.end <= |comment| + 1
      modifies this
      ensures buffer == old(buffer) + LineText(comment, sp)
    {
      buffer := buffer + ("// " + comment[sp.start..sp.end - 1] + "\n");
    }

    /** One turn of `render_comment`'s loop: word `k` advances the line, which is flushed once too long. */
    method CommentWord(comment: string, words: seq<string>, k: nat, start: nat, end: nat, ghost lines: seq<Span>, ghost head: string)
        returns (start': nat, end': nat, ghost lines': seq<Span>)
      requires words == Words(comment) && k < |words| && CommentUpTo(comment, k, lines, start, end, head, buffer)
      modifies this
      ensures CommentUpTo(comment, k + 1, lines', start', end', head, buffer)
    {
      start', end', lines' := start, end + |words[k]| + 1, lines;
      assert Advance(words, k) == |words[k]| + 1 + Advance(words, k + 1);
      assert end' + Advance(words, k + 1) == Advance(words, 0) <= |comment| + 1;
      if end' - start' > 80 {
        assert CommentScan(words, k, lines, Span(start, end)) == CommentScan(words, k + 1, lines + [Span(start, end')], Span(end', end'));
        FlushLine(head, comment, lines', Span(start', end'));
        WriteCommentLine(comment, Span(start', end'));
        lines' := lines' + [Span(start', end')];
        start' := end';
        LinesWithinWeaken(lines', end', |comment| + 1);
      } else {
        assert CommentScan(words, k, lines, Span(start, end)) == CommentScan(words, k + 1, lines, Span(start, end'));
        LinesWithinWeaken(lines', start, start');
      }
    }

    /** `render_comment`, on a comment whose final slice does not panic. */
    method RenderComment(comment: string)
      requires CommentAsWritten(comment).Some?
      modifies this
      ensures buffer == old(buffer) + CommentAsWritten(comment).value
    {
      var words := Words(comment);
      WordsFit(comment, 0);
      ghost var head := buffer;
      var start: nat, end: nat := 0, 0;
      ghost var lines: seq<Span> := [];
      assert head + LinesText(comment, lines) == head;
      for k := 0 to |words|
        invariant CommentUpTo(comment, k, lines, start, end, head, buffer)
      {
        start, end, lines := CommentWord(comment, words, k, start, end, lines, head);
      }
      FlushLine(head, comment, lines, Span(start, end));
      WriteCommentLine(comment, Span(start, end));
    }

    /** `render_instr` */
    method RenderInstr(k: nat)
      requires InstrOk(inp.unit, k)
      modifies this
      ensures buffer == old(buffer) + InstrText(inp, k)
    {
      buffer := buffer + "\t";
      match inp.unit.instructions[k].val {
        case ConstInteger(i) =>
          RenderType(INT64);
          var rest := " _" + NatToString(k) + " = " + IntToString(i) + ";\n";
          buffer := buffer + rest;
          Glue(old(buffer), "\t", TypeText(INT64), rest);
        case ConstFloat(f) =>
          RenderType(DOUBLE);
          var rest := " _" + NatToString(k) + " = " + inp.showFloat(f) + "f;\n";
          buffer := buffer + rest;
          Glue(old(buffer), "\t", TypeText(DOUBLE), rest);
        case Return(x) =>
          var rest := "return _" + NatToString(x) + ";\n";
          buffer := buffer + rest;
      }
    }

    /** One turn of `render_block`'s loop: instruction `lo + j`. */
    method RenderNext(ghost head: string, ghost parts: seq<string>, lo: nat, j: nat)
      requires InstrParts(inp, lo, parts) && j < |parts| && ConcatUpTo(parts, j, head, buffer)
      modifies this
      ensures ConcatUpTo(parts, j + 1, head, buffer)
    {
      assert InstrAt(inp, lo, parts, j);
      RenderInstr(lo + j);
      Glue2(head, Concat(parts, j), parts[j]);
    }

    /** `render_block` */
    method RenderBlock(b: nat)
      requires BlockRenderable(inp.unit, b)
      modifies this
      ensures buffer == old(buffer) + BlockText(inp, b)
    {
      var block := inp.unit.blocks[b];
      var blockLabel := "BLOCK" + NatToString(b) + ":;\n";
      buffer := buffer + blockLabel;
      ghost var head := buffer;
      ghost var parts := InstrLines(inp, block.start, block.end);
      InstrLinesAre(inp, block.start, block.end);
      assert head + Concat(parts, 0) == head;
      var idx := block.start;
      while idx < block.end
        invariant block.start <= idx && (idx <= block.end || idx == block.start)
        invariant ConcatUpTo(parts, idx - block.start, head, buffer)
        decreases block.end - idx
      {
        RenderNext(head, parts, block.start, idx - block.start);
        idx := idx + 1;
      }
      assert idx - block.start == |parts|;
      Glue2(old(buffer), blockLabel, InstrsText(inp, block.start, block.end));
      assert blockLabel + InstrsText(inp, block.start, block.end) == BlockText(inp, b);
    }

    /** `render_prototype`, without the closing ';' */
    method RenderPrototype(fi: nat)
      requires PrototypeRenderable(inp.unit, fi)
      modifies this
      ensures buffer == old(buffer) + PrototypeText(inp, fi)
    {
      var f := inp.unit.funcs[fi];
      if fi == 0 {
        buffer := buffer + MAIN_PROTOTYPE;
      } else {
        RenderType(f.retType);
        var opening := " " + inp.text(f.name) + "(";
        buffer := buffer + opening;
        ghost var head := buffer;
        var params := f.params;
        for pidx := 0 to |params|
          invariant buffer == head + ParamsText(params, pidx)
        {
          var sep := if pidx != |params| - 1 then "," else "";
          ghost var before := buffer;
          RenderType(params[pidx]);
          var name := " PARAM" + NatToString(pidx);
          buffer := buffer + name;
          if pidx != |params| - 1 {
            buffer := buffer + ",";
          }
          assert buffer == before + TypeText(params[pidx]) + name + sep;
          Glue2(before, TypeText(params[pidx]), name);
          Glue(head, ParamsText(params, pidx), ParamDecl(params, pidx), sep);
        }
        buffer := buffer + ")";
        Glue(old(buffer), TypeText(f.retType), opening, ParamsText(params, |params|));
        Glue2(old(buffer), TypeText(f.retType) + opening + ParamsText(params, |params|), ")");
      }
    }

    /** `render_function` */
    method RenderFunction(fi: nat)
      requires FunctionRenderable(inp.unit, fi)
      modifies this
      ensures buffer == old(buffer) + FunctionText(inp, fi)
    {
      RenderPrototype(fi);
      buffer := buffer + "{\n";
      ghost var mid := buffer;
      RenderBlock(inp.unit.funcs[fi].block);
      buffer := buffer + "}\n\n";
      ghost var p, blk := PrototypeText(inp, fi), BlockText(inp, inp.unit.funcs[fi].block);
      assert buffer == old(buffer) + p + "{\n" + blk + "}\n\n";
      Glue(old(buffer), p, "{\n", blk);
      Glue2(old(buffer), p + "{\n" + blk, "}\n\n");
    }

    /** One step of the loop of `render_prelude`: the forward declaration of function `func`. */
    method RenderDeclaration(ghost head: string, func: nat)
      requires func < |inp.unit.funcs| && PrototypesUpTo(inp, func, head, buffer)
      modifies this
      ensures PrototypesUpTo(inp, func + 1, head, buffer)
    {
      PrototypesNext(inp, func);
      RenderPrototype(func);
      buffer := buffer + ";\n";
      Glue(head, PrototypesText(inp, func), PrototypeText(inp, func), ";\n");
    }

    /** The loop of `render_prelude` over the functions: one forward declaration each. */
    method RenderPrototypes()
      requires UnitRenderable(inp.unit)
      modifies this
      ensures buffer == old(buffer) + PrototypesText(inp, |inp.unit.funcs|)
    {
      ghost var head := buffer;
      assert head + PrototypesText(inp, 0) == head;
      for func := 0 to |inp.unit.funcs|
        invariant PrototypesUpTo(inp, func, head, buffer)
      {
        RenderDeclaration(head, func);
      }
    }

    /** `render_prelude` */
    method RenderPrelude()
      requires UnitRenderable(inp.unit)
      modifies this
      ensures buffer == old(buffer) + PreludeText(inp)
    {
      PreludeComments();
      RenderComment("prelude start");
      RenderComment("includes");
      buffer := buffer + INCLUDES;
      RenderComment("prototypes");
      RenderPrototypes();
      buffer := buffer + "\n";
      RenderComment("prelude end\n\n");
      Glue7(old(buffer), CommentText("prelude start"), CommentText("includes"), INCLUDES, CommentText("prototypes"),
        PrototypesText(inp, |inp.unit.funcs|), "\n", CommentText("prelude end\n\n"));
    }

    /** One step of the loop of `emit`: the definition of function `func`. */
    method RenderDefinition(ghost head: string, ghost parts: seq<string>, func: nat)
      requires Definitions(inp, parts) && func < |parts| && ConcatUpTo(parts, func, head, buffer)
      modifies this
      ensures ConcatUpTo(parts, func + 1, head, buffer)
    {
      assert DefinedAt(inp, parts, func);
      RenderFunction(func);
      Glue2(head, Concat(parts, func), parts[func]);
    }

    /** The loop of `emit` over the functions: one definition each. */
    method RenderDefinitions(ghost parts: seq<string>)
      requires Definitions(inp, parts)
      modifies this
      ensures ConcatUpTo(parts, |parts|, old(buffer), buffer)
    {
      ghost var head := buffer;
      assert head + Concat(parts, 0) == head;
      var func := 0;
      while func < |inp.unit.funcs|
        invariant ConcatUpTo(parts, func, head, buffer)
      {
        RenderDefinition(head, parts, func);
        func := func + 1;
      }
    }

    /** `emit`: the prelude, then every function; the buffer is the result. */
    method Emit() returns (out: string)
      requires UnitRenderable(inp.unit)
      modifies this
      ensures out == old(buffer) + EmittedC(inp)
    {
      RenderPrelude();
      ghost var parts := FunctionTexts(inp);
      FunctionTextsAre(inp);
      RenderDefinitions(parts);
      Glue2(old(buffer), PreludeText(inp), Concat(parts, |parts|));
      out := buffer;
    }
  }

  /** `emit`: renders the whole unit with a fresh emitter. */
  method Emit(inp: Input) returns (out: string)
    requires UnitRenderable(inp.unit)
    ensures out == EmittedC(inp)
  {
    var emitter := new IR2CEmitter(inp);
    out := emitter.Emit();
  }
}
