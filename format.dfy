/**
 * Numeric ranges and the decimal text that Rust's `{}` formatting produces for
 * integers, with its inverse; the string helpers the emitters share (prefixes,
 * splitting, concatenation, counting lines).  Float payloads are kept opaque.
 */
module Format {

  import opened Wrappers

  const I64_MIN: int := -0x8000_0000_0000_0000
  const I64_MAX: int := 0x7fff_ffff_ffff_ffff

  /** Rust's `i64`. */
  type I64 = x: int | I64_MIN <= x <= I64_MAX

  /** An IEEE-754 double, kept as its bit pattern; no float arithmetic is modelled. */
  datatype Float = Float(bits: bv64)

  predicate IsDigit(c: char) {
    '0' <= c <= '9'
  }

  predicate AllDigits(s: string) {
    forall i :: 0 <= i < |s| ==> IsDigit(s[i])
  }

  function DigitChar(d: nat): (c: char)
    requires d < 10
    ensures IsDigit(c) && c as int - '0' as int == d
  {
    ('0' as int + d) as char
  }

  function DigitValue(c: char): (d: nat)
    requires IsDigit(c)
    ensures d < 10
  {
    c as int - '0' as int
  }

  /** Decimal digits of `n`, most significant first, no leading zeros. */
  function NatToString(n: nat): (s: string)
    ensures |s| >= 1 && AllDigits(s)
    ensures s[0] == '0' ==> n == 0
    decreases n
  {
    if n < 10 then [DigitChar(n)] else NatToString(n / 10) + [DigitChar(n % 10)]
  }

  /** Rust's `{}` for a signed integer: a '-' sign before the digits of a negative value. */
  function IntToString(i: int): (s: string)
    ensures |s| >= 1
    ensures s[0] == '-' <==> i < 0
  {
    if i < 0 then "-" + NatToString(-i) else NatToString(i)
  }

  /** Value of a string of decimal digits. */
  function ParseNat(s: string): nat
    requires AllDigits(s)
  {
    if s == [] then 0 else ParseNat(s[..|s| - 1]) * 10 + DigitValue(s[|s| - 1])
  }

  /** Value of an optionally '-'-signed string of decimal digits. */
  function ParseInt(s: string): Option<int> {
    if |s| > 0 && s[0] == '-' && AllDigits(s[1..]) then Option<int>.Some(-(ParseNat(s[1..]) as int))
    else if AllDigits(s) then Option<int>.Some(ParseNat(s))
    else None
  }

  lemma {:induction false} ParseNatToString(n: nat)
    ensures ParseNat(NatToString(n)) == n
    decreases n
  {
    if n >= 10 {
      var s := NatToString(n);
      assert s[..|s| - 1] == NatToString(n / 10);
      ParseNatToString(n / 10);
    }
  }

  /** Reading back the decimal text of any integer gives that integer. */
  lemma IntToStringRoundTrip(i: int)
    ensures ParseInt(IntToString(i)) == Some(i)
  {
    var s := IntToString(i);
    if i < 0 {
      assert s[1..] == NatToString(-i);
      ParseNatToString(-i);
    } else {
      ParseNatToString(i);
    }
  }

  /** Different integers have different decimal text. */
  lemma IntToStringInjective(i: int, j: int)
    requires IntToString(i) == IntToString(j)
    ensures i == j
  {
    IntToStringRoundTrip(i);
    IntToStringRoundTrip(j);
  }

  /** ASCII white space as Rust's `char::is_whitespace` sees it: space, and tab through carriage return. */
  predicate IsWhitespace(c: char) {
    c == ' ' || '\t' <= c <= '\r'
  }

  /** The rest of `s` after the prefix `p`, if `s` starts with it. */
  function StripPrefix(p: string, s: string): (r: Option<string>)
    ensures r.Some? ==> s == p + r.value
  {
    if p <= s then Some(s[|p|..]) else None
  }

  lemma StripPrefixOf(p: string, s: string)
    ensures StripPrefix(p, p + s) == Some(s)
  {
    assert (p + s)[|p|..] == s;
  }

  /** `s` cut at the first occurrence of `c`, which is dropped. */
  function SplitAt(s: string, c: char): (r: Option<(string, string)>)
    ensures r.Some? ==> s == r.value.0 + [c] + r.value.1 && c !in r.value.0
    ensures r.None? ==> c !in s
  {
    if |s| == 0 then None
    else if s[0] == c then Some(([], s[1..]))
    else
      match SplitAt(s[1..], c)
      case None => None
      case Some(p) => Some(([s[0]] + p.0, p.1))
  }

  /** Cutting at the first `c` finds the text before it, when that text has no `c`. */
  lemma {:induction false} SplitAtFirst(a: string, c: char, b: string)
    requires c !in a
    ensures SplitAt(a + [c] + b, c) == Some((a, b))
  {
    if a != [] {
      assert (a + [c] + b)[0] == a[0] != c;
      assert (a + [c] + b)[1..] == a[1..] + [c] + b;
      SplitAtFirst(a[1..], c, b);
      assert [a[0]] + a[1..] == a;
    } else {
      assert a + [c] + b == [c] + b;
    }
  }

  /** Only digits and '-' occur in the decimal text of an integer. */
  lemma IntTextAvoids(i: int, c: char)
    requires !IsDigit(c) && c != '-'
    ensures c !in IntToString(i) && c !in NatToString(if i < 0 then -i else i)
  {
  }

  /** Regrouping the appends after a common prefix `b`. */
  lemma Glue(b: string, x: string, y: string, z: string)
    ensures b + x + y + z == b + (x + y + z)
  {
  }

  lemma Glue2(b: string, x: string, y: string)
    ensures b + x + y == b + (x + y)
  {
  }

  lemma Glue4(b: string, x: string, y: string, z: string, w: string)
    ensures b + x + y + z + w == b + (x + y + (z + w))
  {
  }

  lemma Glue7(b: string, x1: string, x2: string, x3: string, x4: string, y: string, z: string, w: string)
    ensures b + x1 + x2 + x3 + x4 + y + z + w == b + (x1 + x2 + x3 + x4 + y + z + w)
  {
  }

  /** The concatenation of the first `j` parts. */
  function Concat(parts: seq<string>, j: nat): string
    requires j <= |parts|
  {
    if j == 0 then "" else Concat(parts, j - 1) + parts[j - 1]
  }

  /** Concatenating more parts does not change the text of the first `j`. */
  lemma {:induction false} ConcatPrefix(a: seq<string>, b: seq<string>, j: nat)
    requires j <= |a|
    ensures Concat(a + b, j) == Concat(a, j)
  {
    if j > 0 {
      ConcatPrefix(a, b, j - 1);
      assert (a + b)[j - 1] == a[j - 1];
    }
  }

  /** The text of two lists of parts, one after the other, is the text of the first and then of the second. */
  lemma {:induction false} ConcatAppend(a: seq<string>, b: seq<string>, j: nat)
    requires j <= |b|
    ensures Concat(a + b, |a| + j) == Concat(a, |a|) + Concat(b, j)
  {
    if j == 0 {
      ConcatPrefix(a, b, |a|);
    } else {
      ConcatAppend(a, b, j - 1);
      assert (a + b)[|a| + j - 1] == b[j - 1];
    }
  }

  /** All of `parts`, in order. */
  function Join(parts: seq<string>): string {
    Concat(parts, |parts|)
  }

  /** The text of two lists of parts, one after the other. */
  lemma JoinAppend(a: seq<string>, b: seq<string>)
    ensures Join(a + b) == Join(a) + Join(b)
  {
    ConcatAppend(a, b, |b|);
  }

  /** The text of two lists of parts and one more part, in that order. */
  lemma JoinAppendSnoc(a: seq<string>, b: seq<string>, x: string)
    ensures Join(a + b + [x]) == Join(a) + Join(b) + x
  {
    ConcatAppend(a, b, |b|);
    ConcatAppend(a + b, [x], 1);
  }

  /** `buffer` holds `head`, then the first `j` of `parts`: what a loop appending `parts` has written after `j` turns. */
  predicate ConcatUpTo(parts: seq<string>, j: nat, head: string, buffer: string) {
    j <= |parts| && buffer == head + Concat(parts, j)
  }

  /** The number of line breaks among the first `n` characters of `s`. */
  function BreaksBefore(s: string, n: nat): nat
    requires n <= |s|
  {
    if n == 0 then 0 else BreaksBefore(s, n - 1) + (if s[n - 1] == '\n' then 1 else 0)
  }

  /** The number of line breaks in `s`. */
  function Lines(s: string): nat {
    BreaksBefore(s, |s|)
  }

  /** Appending text does not change the breaks counted in front of it. */
  lemma {:induction false} BreaksPrefix(a: string, b: string, n: nat)
    requires n <= |a|
    ensures BreaksBefore(a + b, n) == BreaksBefore(a, n)
  {
    if n > 0 {
      BreaksPrefix(a, b, n - 1);
    }
  }

  /** Breaks counted into the appended part add to those of the first. */
  lemma {:induction false} BreaksSuffix(a: string, b: string, n: nat)
    requires n <= |b|
    ensures BreaksBefore(a + b, |a| + n) == Lines(a) + BreaksBefore(b, n)
  {
    if n > 0 {
      BreaksSuffix(a, b, n - 1);
    } else {
      BreaksPrefix(a, b, |a|);
    }
  }

  lemma LinesAppend(a: string, b: string)
    ensures Lines(a + b) == Lines(a) + Lines(b)
  {
    BreaksSuffix(a, b, |b|);
  }

  /** Text without '\n' has no breaks. */
  lemma {:induction false} NoBreaks(x: string, n: nat)
    requires '\n' !in x && n <= |x|
    ensures BreaksBefore(x, n) == 0
  {
    if n > 0 {
      NoBreaks(x, n - 1);
    }
  }

  /** Text without a line break, closed by one: exactly one line. */
  lemma ClosedLine(x: string)
    requires '\n' !in x
    ensures Lines(x + "\n") == 1
  {
    NoBreaks(x, |x|);
    LinesAppend(x, "\n");
  }

  /** Parts of one line each concatenate to as many lines as there are parts. */
  lemma {:induction false} ConcatLines(parts: seq<string>, j: nat)
    requires j <= |parts| && forall i :: 0 <= i < j ==> Lines(parts[i]) == 1
    ensures Lines(Concat(parts, j)) == j
  {
    if j > 0 {
      ConcatLines(parts, j - 1);
      LinesAppend(Concat(parts, j - 1), parts[j - 1]);
    }
  }

  /** `f` applied to every element of `xs`, in order. */
  function MapSeq<A, B>(f: A --> B, xs: seq<A>): (r: seq<B>)
    requires forall i :: 0 <= i < |xs| ==> f.requires(xs[i])
    ensures |r| == |xs|
    decreases |xs|
  {
    if xs == [] then [] else MapSeq(f, xs[..|xs| - 1]) + [f(xs[|xs| - 1])]
  }

  lemma {:induction false} MapSeqAt<A, B>(f: A --> B, xs: seq<A>, j: nat)
    requires forall i :: 0 <= i < |xs| ==> f.requires(xs[i])
    requires j < |xs|
    ensures MapSeq(f, xs)[j] == f(xs[j])
    decreases |xs|
  {
    var n := |xs| - 1;
    if j < n {
      MapSeqAt(f, xs[..n], j);
      assert xs[..n][j] == xs[j];
    }
  }

  /** `f` applied to the indices below `n`, in order. */
  function Indexed<B>(f: nat --> B, n: nat): (r: seq<B>)
    requires forall k :: 0 <= k < n ==> f.requires(k)
    ensures |r| == n
  {
    if n == 0 then [] else Indexed(f, n - 1) + [f(n - 1)]
  }

  lemma {:induction false} IndexedAt<B>(f: nat --> B, n: nat, j: nat)
    requires forall k :: 0 <= k < n ==> f.requires(k)
    requires j < n
    ensures Indexed(f, n)[j] == f(j)
  {
    if j < n - 1 {
      IndexedAt(f, n - 1, j);
    }
  }
}
