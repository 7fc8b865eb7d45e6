/** Diagnostics and their display text (src/diagnostic.rs). */
module Diagnostics {

  import opened Wrappers

  datatype DiagnosticLevel = Info | Warning | Error

  /** `tokidx` anchors the diagnostic at a token; `info` is its message. */
  datatype Diagnostic = Diagnostic(tokidx: nat, level: DiagnosticLevel, info: string)

  /** `Display for DiagnosticLevel`. */
  function LevelText(level: DiagnosticLevel): (s: string)
    ensures |s| > 0 && ':' !in s
  {
    match level
    case Info => "Info"
    case Warning => "Warning"
    case Error => "Error"
  }

  /** `Display for Diagnostic`: the level, a colon and a space, then the message. */
  function Render(d: Diagnostic): (s: string)
    ensures |s| >= |LevelText(d.level)| + 2
    ensures s[..|LevelText(d.level)|] == LevelText(d.level)
    ensures s[|LevelText(d.level)|..] == ": " + d.info
  {
    LevelText(d.level) + ": " + d.info
  }

  /** Index of the first ':' in `s`, or |s| when there is none. */
  function FirstColon(s: string): (i: nat)
    ensures i <= |s|
    ensures ':' !in s[..i]
    ensures i < |s| ==> s[i] == ':'
  {
    if s == [] then 0
    else if s[0] == ':' then 0
    else
      var j := FirstColon(s[1..]);
      assert s[..j + 1] == [s[0]] + s[1..][..j];
      j + 1
  }

  /** The level named by a display text, read from the text before its first ':'. */
  function LevelFromText(s: string): Option<DiagnosticLevel> {
    var p := s[..FirstColon(s)];
    if p == "Info" then Some(Info)
    else if p == "Warning" then Some(Warning)
    else if p == "Error" then Some(Error)
    else None
  }

  /** The first ':' of `a + b` is that of `b` when `a` has none. */
  lemma {:induction false} FirstColonAfterPrefix(a: string, b: string)
    requires ':' !in a
    ensures FirstColon(a + b) == |a| + FirstColon(b)
    decreases |a|
  {
    if a != [] {
      assert (a + b)[1..] == a[1..] + b;
      assert a[0] in a;
      FirstColonAfterPrefix(a[1..], b);
    } else {
      assert a + b == b;
    }
  }

  /** The three level texts are pairwise different. */
  lemma LevelTextInjective(l1: DiagnosticLevel, l2: DiagnosticLevel)
    requires LevelText(l1) == LevelText(l2)
    ensures l1 == l2
  {
  }

  /** The level of a diagnostic is recovered from its display text. */
  lemma RenderedLevelRecoverable(d: Diagnostic)
    ensures LevelFromText(Render(d)) == Some(d.level)
  {
    var lt := LevelText(d.level);
    FirstColonAfterPrefix(lt, ": " + d.info);
    assert FirstColon(": " + d.info) == 0;
    assert Render(d)[..FirstColon(Render(d))] == lt;
  }

  /** The anchoring token does not appear in the display text. */
  lemma RenderIgnoresToken(d: Diagnostic, tokidx: nat)
    ensures Render(d.(tokidx := tokidx)) == Render(d)
  {
  }

  /** Diagnostics pushed in two batches read as one batch. */
  lemma AppendAssoc(a: seq<Diagnostic>, b: seq<Diagnostic>, c: seq<Diagnostic>)
    ensures (a + b) + c == a + (b + c)
  {
  }
}
