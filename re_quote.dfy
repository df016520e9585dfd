/*
 * Quoting a string for use inside a regular expression: every
 * metacharacter gets a backslash in front of it, so that the pattern built
 * from the quoted text matches that text literally.
 */
module ReQuote {

  /** The characters `re-quote` escapes: `. ^ $ * + ? ( ) [ { \ | - ]` */
  predicate Special(c: char)
  {
    c in ".^$*+?()[{\\|-]"
  }

  /** One character as the replacement `'\\$&'` writes it. */
  function QuoteChar(c: char): string
  {
    if Special(c) then ['\\', c] else [c]
  }

  /** `str.replace(/[.\^$*+?()[{\\|\-\]]/g, '\\$&')`: one backslash more for each metacharacter. */
  function Quote(s: string): (q: string)
    ensures |q| == |s| + SpecialCount(s)
  {
    if s == [] then [] else QuoteChar(s[0]) + Quote(s[1..])
  }

  function SpecialCount(s: string): nat
  {
    if s == [] then 0 else (if Special(s[0]) then 1 else 0) + SpecialCount(s[1..])
  }

  /** Removing the backslash in front of each metacharacter. */
  function Unquote(q: string): string
  {
    if q == [] then []
    else if |q| >= 2 && q[0] == '\\' && Special(q[1]) then [q[1]] + Unquote(q[2..])
    else [q[0]] + Unquote(q[1..])
  }

  /** Quoting works character by character. */
  lemma {:induction false} QuoteAppend(a: string, b: string)
    ensures Quote(a + b) == Quote(a) + Quote(b)
  {
    if a == [] {
      assert a + b == b;
    } else {
      assert (a + b)[1..] == a[1..] + b;
      QuoteAppend(a[1..], b);
    }
  }

  /** Text with none of these metacharacters is left unchanged; `}` and `/` are not among them. */
  lemma {:induction false} QuotePlain(s: string)
    requires forall i :: 0 <= i < |s| ==> !Special(s[i])
    ensures Quote(s) == s
  {
    if s != [] {
      QuotePlain(s[1..]);
    }
  }

  /** Unquoting recovers the text that was quoted. */
  lemma {:induction false} UnquoteQuote(s: string)
    ensures Unquote(Quote(s)) == s
  {
    if s != [] {
      UnquoteQuote(s[1..]);
      var rest := Quote(s[1..]);
      if Special(s[0]) {
        assert Quote(s) == ['\\', s[0]] + rest;
        assert (['\\', s[0]] + rest)[2..] == rest;
      } else {
        assert Quote(s) == [s[0]] + rest;
        assert ([s[0]] + rest)[1..] == rest;
      }
    }
  }

  /** Every metacharacter of the quoted text is escaped, so none of them acts as an operator. */
  lemma {:induction false} QuoteEscapesAll(s: string)
    ensures forall i :: 0 <= i < |Quote(s)| && Special(Quote(s)[i]) && Quote(s)[i] != '\\' ==> i > 0 && Quote(s)[i - 1] == '\\'
  {
    if s != [] {
      QuoteEscapesAll(s[1..]);
      var head := QuoteChar(s[0]);
      var rest := Quote(s[1..]);
      assert Quote(s) == head + rest;
      forall i | 0 <= i < |Quote(s)| && Special(Quote(s)[i]) && Quote(s)[i] != '\\'
        ensures i > 0 && Quote(s)[i - 1] == '\\'
      {
        if i >= |head| {
          assert Quote(s)[i] == rest[i - |head|];
          if i - |head| > 0 {
            assert Quote(s)[i - 1] == rest[i - |head| - 1];
          }
        }
      }
    }
  }
}
