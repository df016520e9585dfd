/**
 * The tokenizer of Shiny Server's configuration language
 * (lib/config/lexer.js): words, quoted strings, braces, `;`, white space and
 * `#` comments, each token tagged with the line and column it starts at.
 *
 * The `Lexer` class keeps the source's cursor fields and loops; every method
 * is proved against the pure scanner `TokenAt` below.
 */
module ConfigLexer {
  import opened Common

  // ---------------------------------------------------------------------
  // Tokens, positions and errors
  // ---------------------------------------------------------------------

  /** `TT` */
  datatype TokenType = WordT | OpenBraceT | CloseBraceT | TermT | WsT | CommentT | EodT

  /** `Position`: 1-based line and column, offset into the data, and the file hint ("" when none). */
  datatype Position = Position(line: nat, col: nat, offset: nat, file: string)

  datatype Token = Token(kind: TokenType, content: string, position: Position)

  /** A thrown Error: its message and, when set, its `position` property. */
  datatype ConfigError = ConfigError(message: string, position: Option<Position>)

  /** A computation of the configuration pipeline that returns a value or throws. */
  datatype Try<+T> = Return(value: T) | Throw(error: ConfigError)

  /** `Position.prototype.toString` */
  function PositionString(p: Position): string
  {
    if p.file != "" then p.file + ":" + NatToDecimal(p.line) + ":" + NatToDecimal(p.col)
    else "at line " + NatToDecimal(p.line) + ", column " + NatToDecimal(p.col)
  }

  // ---------------------------------------------------------------------
  // Character classes (`$classify`)
  // ---------------------------------------------------------------------

  datatype CharClass =
    | Alpha | Digit | OpenBrace | CloseBrace | Semicolon | Hash | SQuote | DQuote
    | Backslash | Eol | Space | Control | Other

  /** `$classify` of a character (end of data is handled by the callers). */
  function Classify(c: char): CharClass
  {
    if IsAsciiLetter(c) then Alpha
    else if IsDigit(c) then Digit
    else if c == '{' then OpenBrace
    else if c == '}' then CloseBrace
    else if c == ';' then Semicolon
    else if c == '#' then Hash
    else if c == '\'' then SQuote
    else if c == '"' then DQuote
    else if c == '\\' then Backslash
    else if c == '\n' then Eol
    else if c == ' ' || c == '\t' || c == '\r' then Space
    else if c <= '\U{0008}' || c == '\U{000B}' || c == '\U{000C}' || ('\U{000E}' <= c <= '\U{001F}') then Control
    else Other
  }

  /** The characters `$matchWord` takes. */
  predicate InWord(c: char)
  {
    Classify(c) in {Alpha, Digit, Other, Backslash}
  }

  /** The three runs `$consumeRegex` eats: `[ \t\r]`, `[^\n]` and `[^'"\\]`. */
  datatype Run = Blanks | NotNewline | Unquoted

  predicate InRun(r: Run, c: char)
  {
    match r
    case Blanks => c == ' ' || c == '\t' || c == '\r'
    case NotNewline => c != '\n'
    case Unquoted => c != '\'' && c != '"' && c != '\\'
  }

  // ---------------------------------------------------------------------
  // Line and column (`$line`, `$col`)
  // ---------------------------------------------------------------------

  /**
   * The line and column `$nextChar` has counted once the cursor is at `p`:
   * past a newline the line grows and the column restarts at 1, past any
   * other character the column grows.
   */
  function LineCol(data: string, p: nat): (lc: (nat, nat))
    requires p <= |data|
    ensures lc.0 >= 1 && lc.1 >= 1
    decreases p
  {
    if p == 0 then (1, 1)
    else
      var lc := LineCol(data, p - 1);
      if data[p - 1] == '\n' then (lc.0 + 1, 1) else (lc.0, lc.1 + 1)
  }

  function CountNewlines(s: string): nat
  {
    if s == [] then 0 else CountNewlines(s[..|s| - 1]) + (if s[|s| - 1] == '\n' then 1 else 0)
  }

  /** The line is one more than the number of newlines before the cursor. */
  lemma {:induction false} LineCounts(data: string, p: nat)
    requires p <= |data|
    ensures LineCol(data, p).0 == 1 + CountNewlines(data[..p])
    decreases p
  {
    if p > 0 {
      LineCounts(data, p - 1);
      assert data[..p][..p - 1] == data[..p - 1];
    }
  }

  /** On the first line the column is one more than the offset. */
  lemma {:induction false} FirstLine(data: string, p: nat)
    requires p <= |data|
    requires forall j :: 0 <= j < p ==> data[j] != '\n'
    ensures LineCol(data, p) == (1, p + 1)
    decreases p
  {
    if p > 0 {
      FirstLine(data, p - 1);
    }
  }

  /**
   * Past the newline at `k`, the line is one more than the newline's and the
   * column counts the characters since it, from 1.
   */
  lemma {:induction false} AfterNewline(data: string, k: nat, p: nat)
    requires k < p <= |data| && data[k] == '\n'
    requires forall j :: k < j < p ==> data[j] != '\n'
    ensures LineCol(data, p) == (LineCol(data, k).0 + 1, p - k)
    decreases p
  {
    if p > k + 1 {
      AfterNewline(data, k, p - 1);
    }
  }

  // ---------------------------------------------------------------------
  // The pure scanner
  // ---------------------------------------------------------------------

  /** Where the maximal run of word characters from `i` ends. */
  function WordEnd(data: string, i: nat): (e: nat)
    requires i <= |data|
    ensures i <= e <= |data|
    ensures forall k :: i <= k < e ==> InWord(data[k])
    ensures e == |data| || !InWord(data[e])
    decreases |data| - i
  {
    if i < |data| && InWord(data[i]) then WordEnd(data, i + 1) else i
  }

  /** Where the match of the run's regular expression at `i` ends. */
  function RunEnd(data: string, i: nat, r: Run): (e: nat)
    requires i <= |data|
    ensures i <= e <= |data|
    ensures forall k :: i <= k < e ==> InRun(r, data[k])
    ensures e == |data| || !InRun(r, data[e])
    decreases |data| - i
  {
    if i < |data| && InRun(r, data[i]) then RunEnd(data, i + 1, r) else i
  }

  /** The end of a word is the first index past `i` that is not a word character. */
  lemma {:induction false} WordEndAt(data: string, i: nat, e: nat)
    requires i <= e <= |data|
    requires forall k :: i <= k < e ==> InWord(data[k])
    requires e == |data| || !InWord(data[e])
    ensures WordEnd(data, i) == e
    decreases e - i
  {
    if i < e {
      WordEndAt(data, i + 1, e);
    }
  }

  /** The end of a run is the first index past `i` outside the run's class. */
  lemma {:induction false} RunEndAt(data: string, i: nat, e: nat, r: Run)
    requires i <= e <= |data|
    requires forall k :: i <= k < e ==> InRun(r, data[k])
    requires e == |data| || !InRun(r, data[e])
    ensures RunEnd(data, i, r) == e
    decreases e - i
  {
    if i < e {
      RunEndAt(data, i + 1, e, r);
    }
  }

  function Prefix(v: string, r: Option<(string, nat)>): Option<(string, nat)>
  {
    if r.Some? then Some((v + r.value.0, r.value.1)) else None
  }

  /**
   * The body of a string quoted with `q` from `i`: its content and the index
   * past the closing quote, or None when the closing quote is missing. A
   * backslash takes the next character literally; the other quote character
   * is ordinary content.
   */
  function QuotedFrom(data: string, i: nat, q: char): (r: Option<(string, nat)>)
    requires i <= |data|
    ensures r.Some? ==> i < r.value.1 <= |data|
    decreases |data| - i
  {
    if i == |data| then None
    else if data[i] == q then Some(("", i + 1))
    else if data[i] == '\\' then
      if i + 1 == |data| then None else Prefix([data[i + 1]], QuotedFrom(data, i + 2, q))
    else Prefix([data[i]], QuotedFrom(data, i + 1, q))
  }

  /** The token at `p` (`nextToken`), and where the cursor is after it. */
  function TokenAt(data: string, file: string, p: nat): (r: (Try<Token>, nat))
    requires p <= |data|
    ensures p <= r.1 <= |data|
    ensures r.0.Return? ==> r.0.value.position == Position(LineCol(data, p).0, LineCol(data, p).1, p, file)
    ensures r.0.Return? && r.0.value.kind == EodT <==> p == |data|
    ensures r.0.Return? && r.0.value.kind != EodT ==> p < r.1
    ensures r.0.Throw? ==> r.0.error.position == Some(Position(LineCol(data, p).0, LineCol(data, p).1, p, file))
  {
    var lc := LineCol(data, p);
    var start := Position(lc.0, lc.1, p, file);
    if p == |data| then (Return(Token(EodT, "", start)), p)
    else
      var ch := data[p];
      match Classify(ch)
      case Alpha => WordToken(data, start, p)
      case Digit => WordToken(data, start, p)
      case Other => WordToken(data, start, p)
      case Backslash => WordToken(data, start, p)
      case Semicolon => (Return(Token(TermT, [ch], start)), p + 1)
      case OpenBrace => (Return(Token(OpenBraceT, [ch], start)), p + 1)
      case CloseBrace => (Return(Token(CloseBraceT, [ch], start)), p + 1)
      case Eol => (Return(Token(WsT, [ch], start)), p + 1)
      case Space =>
        var e := RunEnd(data, p, Blanks);
        (Return(Token(WsT, data[p..e], start)), e)
      case Hash =>
        var e := RunEnd(data, p + 1, NotNewline);
        (Return(Token(CommentT, data[p + 1..e], start)), e)
      case SQuote => QuotedToken(data, start, p)
      case DQuote => QuotedToken(data, start, p)
      case Control => (Throw(ConfigError("Invalid character detected", Some(start))), p)
  }

  function WordToken(data: string, start: Position, p: nat): (r: (Try<Token>, nat))
    requires p < |data| && InWord(data[p])
    ensures p < r.1 <= |data| && r.0 == Return(Token(WordT, data[p..r.1], start))
  {
    var e := WordEnd(data, p);
    (Return(Token(WordT, data[p..e], start)), e)
  }

  function QuotedToken(data: string, start: Position, p: nat): (r: (Try<Token>, nat))
    requires p < |data|
    ensures p < r.1 <= |data|
    ensures r.0.Return? ==> r.0.value.kind == WordT && r.0.value.position == start
    ensures r.0.Throw? ==> r.0.error.position == Some(start)
  {
    var q := data[p];
    var body := QuotedFrom(data, p + 1, q);
    if body.Some? then (Return(Token(WordT, body.value.0, start)), body.value.1)
    else (Throw(ConfigError(UnclosedMessage(q), Some(start))), |data|)
  }

  function UnclosedMessage(q: char): string
  {
    "Closing " + [q] + " character was not found"
  }

  /** The constructor's `data.replace(/\r/, '')`, as written: only the first carriage return goes. */
  function StripFirstCarriageReturn(raw: string): (s: string)
    ensures '\r' !in raw ==> s == raw
    ensures |s| == if '\r' in raw then |raw| - 1 else |raw|
  {
    if raw == [] then []
    else
      assert raw == [raw[0]] + raw[1..];
      if raw[0] == '\r' then raw[1..]
      else [raw[0]] + StripFirstCarriageReturn(raw[1..])
  }

  /**
   * The written constructor drops exactly one character: the first
   * carriage return, keeping everything before and after it in order.
   */
  lemma {:induction false} StripFirstDropsFirst(raw: string)
    requires '\r' in raw
    ensures exists k :: DropsAt(raw, k)
  {
    assert raw == [raw[0]] + raw[1..];
    if raw[0] == '\r' {
      assert raw[..0] == [] && raw[1..] == raw[0 + 1..];
      assert DropsAt(raw, 0);
    } else {
      StripFirstDropsFirst(raw[1..]);
      var k :| DropsAt(raw[1..], k);
      assert raw[..k + 1] == [raw[0]] + raw[1..][..k];
      assert raw[k + 2..] == raw[1..][k + 1..];
      assert DropsAt(raw, k + 1);
    }
  }

  /** `raw[k]` is the first carriage return, and the written strip drops it alone. */
  predicate DropsAt(raw: string, k: int)
  {
    0 <= k < |raw| && raw[k] == '\r' && '\r' !in raw[..k]
    && StripFirstCarriageReturn(raw) == raw[..k] + raw[k + 1..]
  }

  /**
   * What the constructor's comment says it does: every carriage return
   * goes, and every other character stays, in order.
   */
  function StripCarriageReturns(raw: string): (s: string)
    ensures '\r' !in s
    ensures forall c :: c != '\r' ==> multiset(s)[c] == multiset(raw)[c]
    ensures '\r' !in raw ==> s == raw
  {
    if raw == [] then []
    else
      var rest := StripCarriageReturns(raw[1..]);
      assert raw == [raw[0]] + raw[1..];
      if raw[0] == '\r' then rest else [raw[0]] + rest
  }

  /**
   * The first carriage return is the only one the written constructor
   * drops: `"a\r\n\r\nb"` keeps its second one, so the lexer then reads a
   * white-space token where the blank line's carriage return stands.
   */
  lemma CarriageReturnKept()
    ensures StripFirstCarriageReturn("a\r\n\r\nb") == "a\n\r\nb"
    ensures '\r' in StripFirstCarriageReturn("a\r\n\r\nb")
    ensures StripCarriageReturns("a\r\n\r\nb") == "a\n\nb"
  {
    assert StripFirstCarriageReturn("a\r\n\r\nb")[2] == '\r';
  }

  // ---------------------------------------------------------------------
  // The lexer object
  // ---------------------------------------------------------------------

  class Lexer {
    /** `$data` */
    const data: string
    /** `$pathHint` ("" when none) */
    const pathHint: string
    var pos: nat
    var line: nat
    var col: nat

    /** `$line` and `$col` always count what lies before `$pos`. */
    predicate Valid()
      reads this
    {
      pos <= |data| && (line, col) == LineCol(data, pos)
    }

    constructor (raw: string, pathHint: string)
      ensures Valid() && data == StripCarriageReturns(raw) && this.pathHint == pathHint
      ensures pos == 0 && line == 1 && col == 1
    {
      data := StripCarriageReturns(raw);
      this.pathHint := pathHint;
      pos := 0;
      line := 1;
      col := 1;
    }

    /** `$eod` */
    method Eod() returns (b: bool)
      requires Valid()
      ensures b <==> pos == |data|
    {
      b := pos >= |data|;
    }

    /** `$peekChar`: the next character, or None (`null`) at the end. */
    method PeekChar() returns (c: Option<char>)
      requires Valid()
      ensures pos < |data| ==> c == Some(data[pos])
      ensures pos == |data| ==> c == None
    {
      if pos >= |data| {
        return None;
      }
      c := Some(data[pos]);
    }

    /** `$nextChar`: the next character, with the cursor one step on; None (`null`) at the end. */
    method NextChar() returns (c: Option<char>)
      requires Valid()
      modifies this
      ensures Valid()
      ensures old(pos) < |data| ==> c == Some(data[old(pos)]) && pos == old(pos) + 1
      ensures old(pos) == |data| ==> c == None && pos == old(pos)
    {
      if pos >= |data| {
        return None;
      }
      c := Some(data[pos]);
      pos := pos + 1;
      if c.value == '\n' {
        line := line + 1;
        col := 1;
      } else {
        col := col + 1;
      }
    }

    /** `$advanceBy(n)` */
    method AdvanceBy(n: nat)
      requires Valid() && pos + n <= |data|
      modifies this
      ensures Valid() && pos == old(pos) + n
    {
      var i := 0;
      while i < n
        invariant 0 <= i <= n && Valid() && pos == old(pos) + i
      {
        var c := NextChar();
        i := i + 1;
      }
    }

    /** `$consumeRegex` for one of the three runs: the match at the cursor, consumed. */
    method ConsumeRun(r: Run) returns (s: string)
      requires Valid()
      modifies this
      ensures Valid() && pos == RunEnd(data, old(pos), r) && s == data[old(pos)..pos]
    {
      var e := pos;
      while e < |data| && InRun(r, data[e])
        invariant pos <= e <= |data|
        invariant RunEnd(data, e, r) == RunEnd(data, pos, r)
      {
        e := e + 1;
      }
      s := data[pos..e];
      AdvanceBy(e - pos);
    }

    /** `$matchWord`: the maximal run of word characters. */
    method MatchWord() returns (s: string)
      requires Valid()
      modifies this
      ensures Valid() && pos == WordEnd(data, old(pos)) && s == data[old(pos)..pos]
    {
      s := "";
      var p := PeekChar();
      while p.Some? && InWord(p.value)
        invariant Valid() && old(pos) <= pos && s == data[old(pos)..pos]
        invariant p == if pos < |data| then Some(data[pos]) else None
        invariant WordEnd(data, pos) == WordEnd(data, old(pos))
        decreases |data| - pos
      {
        var c := NextChar();
        SliceExtend(data, old(pos), pos - 1);
        s := s + [c.value];
        p := PeekChar();
      }
    }

    /**
     * One turn of `$matchQuoted`'s loop: the run of plain characters, then
     * the special character after it, as `QuotedPiece` says.
     */
    method QuotedStep(q: char) returns (piece: string, st: PieceEnd)
      requires Valid() && (q == '"' || q == '\'')
      modifies this
      ensures Valid() && (piece, pos, st) == QuotedPiece(data, old(pos), q)
    {
      piece := ConsumeRun(Unquoted);
      var p := PeekChar();
      if p == Some('"') || p == Some('\'') {
        var c := NextChar();
        if c.value != q {
          piece := piece + [c.value];
          st := More;
        } else {
          st := Closed;
        }
      } else if p == Some('\\') {
        var _ := NextChar();
        var end := Eod();
        if end {
          st := Unclosed;
        } else {
          var c := NextChar();
          piece := piece + [c.value];
          st := More;
        }
      } else {
        st := Unclosed;
      }
    }

    /** `$matchQuoted`: the body of the quoted string at the cursor, or None when it is not closed. */
    method MatchQuoted() returns (r: Option<string>)
      requires Valid() && pos < |data| && (data[pos] == '"' || data[pos] == '\'')
      modifies this
      ensures Valid()
      ensures var body := QuotedFrom(data, old(pos) + 1, data[old(pos)]);
        (body.Some? ==> r == Some(body.value.0) && pos == body.value.1)
        && (body.None? ==> r == None && pos == |data|)
    {
      var quot := NextChar();
      var q := quot.value;
      var value := "";
      PrefixEmpty(QuotedFrom(data, pos, q));
      var st := More;
      while st == More
        invariant Valid() && old(pos) < pos && q == data[old(pos)]
        invariant st == More ==> QuotedFrom(data, old(pos) + 1, q) == Prefix(value, QuotedFrom(data, pos, q))
        invariant st == Closed ==> QuotedFrom(data, old(pos) + 1, q) == Some((value, pos))
        invariant st == Unclosed ==> QuotedFrom(data, old(pos) + 1, q) == None && pos == |data|
        decreases |data| - pos, if st == More then 1 else 0
      {
        ghost var before := pos;
        var piece, st' := QuotedStep(q);
        QuotedPieceSpec(data, before, q);
        PrefixAppend(value, piece, QuotedFrom(data, pos, q));
        value := value + piece;
        st := st';
      }
      r := if st == Closed then Some(value) else None;
    }

    /**
     * `nextToken`: the token at the cursor, read as `TokenAt` says, with the
     * cursor moved past it; the thrown Error carries the token's start.
     */
    method NextToken() returns (t: Try<Token>)
      requires Valid()
      modifies this
      ensures Valid() && (t, pos) == TokenAt(data, pathHint, old(pos))
    {
      var start := Position(line, col, pos, pathHint);
      var p := PeekChar();
      if p.None? {
        return Return(Token(EodT, "", start));
      }
      var ch := p.value;
      match Classify(ch)
      case Alpha => var s := MatchWord(); t := Return(Token(WordT, s, start));
      case Digit => var s := MatchWord(); t := Return(Token(WordT, s, start));
      case Other => var s := MatchWord(); t := Return(Token(WordT, s, start));
      case Backslash => var s := MatchWord(); t := Return(Token(WordT, s, start));
      case Semicolon => var c := NextChar(); t := Return(Token(TermT, [c.value], start));
      case OpenBrace => var c := NextChar(); t := Return(Token(OpenBraceT, [c.value], start));
      case CloseBrace => var c := NextChar(); t := Return(Token(CloseBraceT, [c.value], start));
      case Eol => var c := NextChar(); t := Return(Token(WsT, [c.value], start));
      case Space => var s := ConsumeRun(Blanks); t := Return(Token(WsT, s, start));
      case Hash =>
        var hash := NextChar();
        var s := ConsumeRun(NotNewline);
        t := Return(Token(CommentT, s, start));
      case SQuote =>
        var r := MatchQuoted();
        t := if r.Some? then Return(Token(WordT, r.value, start))
             else Throw(ConfigError(UnclosedMessage(ch), Some(start)));
      case DQuote =>
        var r := MatchQuoted();
        t := if r.Some? then Return(Token(WordT, r.value, start))
             else Throw(ConfigError(UnclosedMessage(ch), Some(start)));
      case Control =>
        t := Throw(ConfigError("Invalid character detected", Some(start)));
    }
  }

  // Concrete tokens of small inputs, as the lexer's tests check them.

  lemma WordAt(data: string, file: string, p: nat, e: nat)
    requires p < e <= |data| && InWord(data[p]) && WordEnd(data, p) == e
    ensures TokenAt(data, file, p) == (Return(Token(WordT, data[p..e], Position(LineCol(data, p).0, LineCol(data, p).1, p, file))), e)
  {
  }

  lemma BlanksAt(data: string, file: string, p: nat, e: nat)
    requires p < e <= |data| && Classify(data[p]) == Space && RunEnd(data, p, Blanks) == e
    ensures TokenAt(data, file, p) == (Return(Token(WsT, data[p..e], Position(LineCol(data, p).0, LineCol(data, p).1, p, file))), e)
  {
  }

  lemma QuotedAt(data: string, file: string, p: nat, s: string)
    requires p < |data| && (data[p] == '"' || data[p] == '\'')
    requires p + 1 + |Escape(s, data[p])| < |data|
    requires data[p + 1..p + |Escape(s, data[p])| + 2] == Escape(s, data[p]) + [data[p]]
    ensures TokenAt(data, file, p) == (Return(Token(WordT, s, Position(LineCol(data, p).0, LineCol(data, p).1, p, file))), p + |Escape(s, data[p])| + 2)
  {
    var q := data[p];
    QuotedBodyAt(data, p, s);
    assert Classify(q) == SQuote || Classify(q) == DQuote;
  }

  lemma QuotedBodyAt(data: string, p: nat, s: string)
    requires p < |data| && (data[p] == '"' || data[p] == '\'')
    requires p + 1 + |Escape(s, data[p])| < |data|
    requires data[p + 1..p + |Escape(s, data[p])| + 2] == Escape(s, data[p]) + [data[p]]
    ensures QuotedFrom(data, p + 1, data[p]) == Some((s, p + |Escape(s, data[p])| + 2))
  {
    QuotedEscape(data, p + 1, s, data[p]);
  }

  /** `foo  \t    b12?ar` starts with the word `foo`. */
  lemma SampleFirstWord(d: string)
    requires d == "foo  \t    b12?ar"
    ensures TokenAt(d, "", 0) == (Return(Token(WordT, "foo", Position(1, 1, 0, ""))), 3)
  {
    assert d[0] == 'f' && d[1] == 'o' && d[2] == 'o' && d[3] == ' ' && InWord('f') && InWord('o');
    WordEndAt(d, 0, 3);
    WordAt(d, "", 0, 3);
    assert d[0..3] == "foo";
  }

  /** Then the blanks, tab included, at column 4. */
  lemma SampleBlanks(d: string)
    requires d == "foo  \t    b12?ar"
    ensures TokenAt(d, "", 3) == (Return(Token(WsT, "  \t    ", Position(1, 4, 3, ""))), 10)
  {
    assert d[..3] == "foo" && d[3..10] == "  \t    " && d[10] == 'b';
    FirstLine(d, 3);
    RunEndAt(d, 3, 10, Blanks);
    BlanksAt(d, "", 3, 10);
  }

  /** Then `b12?ar` at column 11. */
  lemma SampleLastWord(d: string)
    requires d == "foo  \t    b12?ar"
    ensures TokenAt(d, "", 10) == (Return(Token(WordT, "b12?ar", Position(1, 11, 10, ""))), 16)
  {
    assert d[..10] == "foo  \t    " && |d| == 16;
    assert d[10] == 'b' && d[11] == '1' && d[12] == '2' && d[13] == '?' && d[14] == 'a' && d[15] == 'r';
    assert InWord('b') && InWord('1') && InWord('2') && InWord('?') && InWord('a') && InWord('r');
    FirstLine(d, 10);
    WordEndAt(d, 10, 16);
    WordAt(d, "", 10, 16);
    assert d[10..16] == "b12?ar";
  }

  /** And the end of the data, at column 17. */
  lemma SampleEnd(d: string)
    requires d == "foo  \t    b12?ar"
    ensures TokenAt(d, "", 16) == (Return(Token(EodT, "", Position(1, 17, 16, ""))), 16)
  {
    assert d == "foo  \t    " + "b12?ar";
    FirstLine(d, 16);
  }

  /** `foo"\nbar"baz`: a quoted string over a newline keeps the newline. */
  lemma SampleQuoted(d: string)
    requires d == "foo\"\nbar\"baz"
    ensures TokenAt(d, "", 3) == (Return(Token(WordT, "\nbar", Position(1, 4, 3, ""))), 9)
  {
    assert d[..3] == "foo" && d[3] == '"';
    FirstLine(d, 3);
    assert Escape("\nbar", '"') == "\nbar";
    assert d[4..9] == "\nbar" + ['"'];
    QuotedAt(d, "", 3, "\nbar");
  }

  /** The word after it starts on line 2. */
  lemma SampleAfterQuoted(d: string)
    requires d == "foo\"\nbar\"baz"
    ensures TokenAt(d, "", 9) == (Return(Token(WordT, "baz", Position(2, 5, 9, ""))), 12)
  {
    assert d[..4] == "foo\"" && d[4] == '\n' && d[5..9] == "bar\"" && |d| == 12;
    assert d[9] == 'b' && d[10] == 'a' && d[11] == 'z' && InWord('b') && InWord('a') && InWord('z');
    FirstLine(d, 4);
    AfterNewline(d, 4, 9);
    WordEndAt(d, 9, 12);
    WordAt(d, "", 9, 12);
    assert d[9..12] == "baz";
  }

  /** An unclosed quote throws with the quote's position; a control character throws where it stands. */
  lemma SampleErrors()
    ensures TokenAt("\"\\\"", "f", 0) == (Throw(ConfigError("Closing \" character was not found", Some(Position(1, 1, 0, "f")))), 3)
    ensures TokenAt("a\U{0001}", "", 1).0 == Throw(ConfigError("Invalid character detected", Some(Position(1, 2, 1, ""))))
  {
    var d := "\"\\\"";
    assert d[0] == '"' && d[1] == '\\' && d[2] == '"' && |d| == 3;
    assert QuotedFrom(d, 3, '"') == None;
    assert QuotedFrom(d, 1, '"') == None;
    assert UnclosedMessage('"') == "Closing \" character was not found";
    FirstLine("a\U{0001}", 1);
    assert Classify('\U{0001}') == Control;
  }

  lemma SliceExtend(s: string, i: nat, j: nat)
    requires i <= j < |s|
    ensures s[i..j + 1] == s[i..j] + [s[j]]
  {
  }

  /** How one turn of `$matchQuoted`'s loop ends. */
  datatype PieceEnd = More | Closed | Unclosed

  /**
   * One turn of `$matchQuoted`'s loop from `i`: the plain run, then a
   * closing quote, the other quote character, an escaped character, or the
   * end of the data; the text it adds and where it stops.
   */
  function QuotedPiece(data: string, i: nat, q: char): (string, nat, PieceEnd)
    requires i <= |data|
  {
    var e := RunEnd(data, i, Unquoted);
    if e == |data| then (data[i..e], e, Unclosed)
    else if data[e] == q then (data[i..e], e + 1, Closed)
    else if data[e] != '\\' then (data[i..e] + [data[e]], e + 1, More)
    else if e + 1 == |data| then (data[i..e], e + 1, Unclosed)
    else (data[i..e] + [data[e + 1]], e + 2, More)
  }

  lemma QuotedPieceSpec(data: string, i: nat, q: char)
    requires i <= |data| && (q == '"' || q == '\'')
    ensures var (piece, next, st) := QuotedPiece(data, i, q);
      i <= next <= |data|
      && (st == More ==> i < next && QuotedFrom(data, i, q) == Prefix(piece, QuotedFrom(data, next, q)))
      && (st == Closed ==> QuotedFrom(data, i, q) == Some((piece, next)))
      && (st == Unclosed ==> QuotedFrom(data, i, q) == None && next == |data|)
  {
    var e := RunEnd(data, i, Unquoted);
    PlainRun(data, i, e, q);
    if e < |data| && data[e] != q {
      if data[e] != '\\' {
        PrefixAppend(data[i..e], [data[e]], QuotedFrom(data, e + 1, q));
      } else if e + 1 < |data| {
        PrefixAppend(data[i..e], [data[e + 1]], QuotedFrom(data, e + 2, q));
      }
    } else if e < |data| {
      assert Prefix(data[i..e], Some(("", e + 1))) == Some((data[i..e] + "", e + 1));
      assert data[i..e] + "" == data[i..e];
    }
  }

  /** Writing `s` inside `q` quotes: a backslash goes before each backslash and each `q`. */
  function Escape(s: string, q: char): (e: string)
    ensures |s| <= |e|
  {
    if s == [] then []
    else if s[0] == '\\' || s[0] == q then ['\\', s[0]] + Escape(s[1..], q)
    else [s[0]] + Escape(s[1..], q)
  }

  /**
   * The quoted-string reader inverts `Escape`: any text escaped and closed
   * with `q` reads back as itself, and the reader stops right after the
   * closing quote.
   */
  lemma {:induction false} QuotedEscape(data: string, i: nat, s: string, q: char)
    requires q == '"' || q == '\''
    requires i + |Escape(s, q)| < |data|
    requires data[i..i + |Escape(s, q)| + 1] == Escape(s, q) + [q]
    ensures QuotedFrom(data, i, q) == Some((s, i + |Escape(s, q)| + 1))
    decreases |s|
  {
    var e := Escape(s, q);
    if s == [] {
      assert data[i] == data[i..i + 1][0];
    } else {
      var w := if s[0] == '\\' || s[0] == q then 2 else 1;
      assert e == e[..w] + Escape(s[1..], q);
      assert data[i..i + |e| + 1][w..] == data[i + w..i + w + |Escape(s[1..], q)| + 1];
      QuotedEscape(data, i + w, s[1..], q);
      assert data[i] == e[0];
      if w == 2 {
    assert data[i + 1] == e[1];
      }
      assert [s[0]] + s[1..] == s;
    }
  }

  lemma PrefixEmpty(r: Option<(string, nat)>)
    ensures Prefix("", r) == r
  {
    if r.Some? {
      assert "" + r.value.0 == r.value.0;
    }
  }

  lemma PrefixAppend(a: string, b: string, r: Option<(string, nat)>)
    ensures Prefix(a, Prefix(b, r)) == Prefix(a + b, r)
  {
    if r.Some? {
      assert a + (b + r.value.0) == (a + b) + r.value.0;
    }
  }

  /** A run without quotes or backslashes is quoted content as it stands. */
  lemma {:induction false} PlainRun(data: string, i: nat, e: nat, q: char)
    requires i <= e <= |data| && (q == '"' || q == '\'')
    requires forall k :: i <= k < e ==> InRun(Unquoted, data[k])
    ensures QuotedFrom(data, i, q) == Prefix(data[i..e], QuotedFrom(data, e, q))
    decreases e - i
  {
    if i == e {
      assert data[i..e] == "";
      if QuotedFrom(data, e, q).Some? {
        assert "" + QuotedFrom(data, e, q).value.0 == QuotedFrom(data, e, q).value.0;
      }
    } else {
      PlainRun(data, i + 1, e, q);
      PrefixAppend([data[i]], data[i + 1..e], QuotedFrom(data, e, q));
      assert [data[i]] + data[i + 1..e] == data[i..e];
    }
  }
}
