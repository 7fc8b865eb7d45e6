/**
 * The services of the compiler context that the core calls: the diagnostic
 * sink, kept as an append-only sequence, and the text of a source span, kept
 * as an abstract function supplied by whoever holds the input file.
 */
module Context {

  import opened Tokens
  import opened Diagnostics

  class CompilerContext {
    var diagnostics: seq<Diagnostic>
    const spanText: Span -> string

    constructor (spanText: Span -> string)
      ensures diagnostics == [] && this.spanText == spanText
    {
      diagnostics := [];
      this.spanText := spanText;
    }

    /** Appends one diagnostic; earlier ones are kept in order. */
    method PushDiagnostic(d: Diagnostic)
      modifies this
      ensures diagnostics == old(diagnostics) + [d]
    {
      diagnostics := diagnostics + [d];
    }
  }
}
