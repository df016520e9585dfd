/**
 * The recursive-descent parser of the configuration language
 * (lib/config/parser.js). A directive is a word naming it, words as its
 * arguments, then `;` or a `{ ... }` block of child directives; white space
 * and comments never reach the grammar.
 *
 * The pure functions below say what the parser reads from the token stream
 * at a given offset; the `ConfigParser` class keeps the source's loops over
 * its lexer and is proved against them.
 */
module Parser {
  import opened Common
  import opened ConfigLexer

  /**
   * `Directive`: the name token (None for the root), the argument tokens
   * and the child directives in source order.
   */
  datatype Directive = Directive(nameToken: Option<Token>, args: seq<Token>, children: seq<Directive>)
  {
    /** `getName` */
    function Name(): (n: Option<string>)
      ensures n.Some? <==> nameToken.Some?
    {
      if nameToken.Some? then Some(nameToken.value.content) else None
    }

    /** `getArgs` */
    function ArgValues(): (vs: seq<string>)
      ensures |vs| == |args| && forall i :: 0 <= i < |args| ==> vs[i] == args[i].content
    {
      seq(|args|, i requires 0 <= i < |args| => args[i].content)
    }
  }

  /** A named directive made only of word tokens, all the way down. */
  predicate WellFormed(d: Directive)
  {
    && d.nameToken.Some? && d.nameToken.value.kind == WordT
    && (forall a :: a in d.args ==> a.kind == WordT)
    && (forall c :: c in d.children ==> WellFormed(c))
  }

  /** Where a named directive's name starts in the data (-1 for the root). */
  function NameOffset(d: Directive): int
  {
    if d.nameToken.Some? then d.nameToken.value.position.offset else -1
  }

  /** Directives in the order their names appear in the data. */
  predicate InSourceOrder(ds: seq<Directive>)
  {
    forall i, j :: 0 <= i < j < |ds| ==> NameOffset(ds[i]) < NameOffset(ds[j])
  }

  /** The parser's messages. */
  const NeverClosedMessage := "The scope was never closed"
  const StrayCloseMessage := "Unexpected } character encountered"
  const MissingSemicolonMessage := "Unexpected } character (did you leave a semicolon off the previous directive?)"
  const UnterminatedMessage := "Unterminated directive; did you leave off a semicolon?"

  /** What one call of `$parseOne` yields: the end of the data, a `}`, or a directive. */
  datatype Parsed = EndOfData(at: Position) | ScopeClosed(at: Position) | Parsed(directive: Directive)

  /** Every error the parser throws carries a position. */
  predicate Located<T>(t: Try<T>)
  {
    t.Throw? ==> t.error.position.Some?
  }

  // ---------------------------------------------------------------------
  // The token source
  // ---------------------------------------------------------------------

  /**
   * What the parser reads from: the token at each offset of the data and
   * the offset after it, as its lexer's `nextToken` returns them.
   */
  type Scanner = nat -> (Try<Token>, nat)

  /**
   * The lexer's promises that the grammar relies on, for data of length `n`:
   * the scanner moves forward within the data, only the end-of-data token
   * leaves the cursor in place, a token is positioned where it was read,
   * and every error carries its position.
   */
  ghost predicate Scans(scan: Scanner, n: nat)
  {
    forall p: nat :: p <= n ==>
      && p <= scan(p).1 <= n
      && (scan(p).0.Return? ==> scan(p).0.value.position.offset == p)
      && (scan(p).0.Return? && scan(p).0.value.kind != EodT ==> p < scan(p).1)
      && (scan(p).0.Return? && scan(p).0.value.kind == EodT <==> p == n)
      && Located(scan(p).0)
  }

  /** The lexer of `data` as a scanner. */
  function Lexing(data: string, file: string): Scanner
  {
    (p: nat) => if p <= |data| then TokenAt(data, file, p) else (Return(Token(EodT, "", Position(1, 1, p, file))), p)
  }

  lemma LexingScans(data: string, file: string)
    ensures Scans(Lexing(data, file), |data|)
  {
    forall p: nat | p <= |data|
      ensures p <= Lexing(data, file)(p).1 <= |data|
      ensures Lexing(data, file)(p).0.Return? && Lexing(data, file)(p).0.value.kind != EodT ==> p < Lexing(data, file)(p).1
      ensures Lexing(data, file)(p).0.Return? && Lexing(data, file)(p).0.value.kind == EodT <==> p == |data|
      ensures Lexing(data, file)(p).0.Return? ==> Lexing(data, file)(p).0.value.position.offset == p
      ensures Located(Lexing(data, file)(p).0)
    {
      assert Lexing(data, file)(p) == TokenAt(data, file, p);
    }
  }

  // ---------------------------------------------------------------------
  // The grammar, on the token stream at an offset
  // ---------------------------------------------------------------------

  /** `$nextToken`: the next token that is neither white space nor a comment. */
  function Significant(scan: Scanner, n: nat, p: nat): (r: (Try<Token>, nat))
    requires Scans(scan, n) && p <= n
    ensures p <= r.1 <= n
    ensures r.0.Return? ==> r.0.value.kind != WsT && r.0.value.kind != CommentT
    ensures r.0.Return? && r.0.value.kind != EodT ==> p < r.1
    ensures r.0.Return? && r.0.value.kind == EodT ==> r.1 == n
    ensures r.0.Return? ==> p <= r.0.value.position.offset
    ensures r.0.Return? && r.0.value.kind != EodT ==> r.0.value.position.offset < r.1
    ensures Located(r.0)
    decreases n - p
  {
    var (t, q) := scan(p);
    if t.Return? && (t.value.kind == WsT || t.value.kind == CommentT) then Significant(scan, n, q)
    else (t, q)
  }

  /** `$parseChildDirectives`: the directives up to the end of the data (at the root) or the closing `}`. */
  function Children(scan: Scanner, n: nat, p: nat, parent: Option<Position>, atRoot: bool): (r: (Try<seq<Directive>>, nat))
    requires Scans(scan, n) && p <= n
    ensures p <= r.1 <= n
    ensures Located(r.0)
    ensures r.0.Return? ==> forall c :: c in r.0.value ==> WellFormed(c)
    ensures r.0.Return? && atRoot ==> r.1 == n
    ensures r.0.Return? && !atRoot ==> p < r.1
    ensures One(scan, n, p).0.Return? && One(scan, n, p).0.value.EndOfData? ==>
      r.0 == if atRoot then Return([])
             else Throw(ConfigError(NeverClosedMessage, if parent.Some? then parent else Some(One(scan, n, p).0.value.at)))
    ensures One(scan, n, p).0.Return? && One(scan, n, p).0.value.ScopeClosed? ==>
      r.0 == if atRoot then Throw(ConfigError(StrayCloseMessage, Some(One(scan, n, p).0.value.at)))
             else Return([])
    decreases n - p, 2
  {
    var (one, q) := One(scan, n, p);
    match one
    case Throw(e) => (Throw(e), q)
    case Return(EndOfData(at)) =>
      if atRoot then (Return([]), q)
      else (Throw(ConfigError(NeverClosedMessage, if parent.Some? then parent else Some(at))), q)
    case Return(ScopeClosed(at)) =>
      if atRoot then (Throw(ConfigError(StrayCloseMessage, Some(at))), q)
      else (Return([]), q)
    case Return(Parsed(d)) =>
      Prepend([d], Children(scan, n, q, parent, atRoot))
  }

  /** `$parseOne`: empty statements are skipped, then a directive, the end of the data, or a `}`. */
  function One(scan: Scanner, n: nat, p: nat): (r: (Try<Parsed>, nat))
    requires Scans(scan, n) && p <= n
    ensures p <= r.1 <= n
    ensures Located(r.0)
    ensures r.0.Return? && r.0.value.Parsed? ==> p < r.1 && WellFormed(r.0.value.directive)
    ensures r.0.Return? && r.0.value.EndOfData? ==> r.1 == n
    ensures r.0.Return? && r.0.value.ScopeClosed? ==> p < r.1
    ensures r.0.Return? && r.0.value.Parsed? ==> p <= NameOffset(r.0.value.directive) < r.1
    ensures Significant(scan, n, p).0.Return? && Significant(scan, n, p).0.value.kind == TermT ==>
      r == One(scan, n, Significant(scan, n, p).1)
    decreases n - p, 1
  {
    var (t, q) := Significant(scan, n, p);
    if t.Throw? then (Throw(t.error), q)
    else
      var tok := t.value;
      match tok.kind
      case EodT => (Return(EndOfData(tok.position)), q)
      case CloseBraceT => (Return(ScopeClosed(tok.position)), q)
      case TermT => One(scan, n, q)
      case WordT => Rest(scan, n, q, tok, [])
      case _ => (Throw(ConfigError("Unexpected token encountered: " + tok.content, Some(tok.position))), q)
  }

  /** The inner loop of `$parseOne`: argument words, then what ends the directive. */
  function Rest(scan: Scanner, n: nat, p: nat, name: Token, args: seq<Token>): (r: (Try<Parsed>, nat))
    requires Scans(scan, n) && p <= n
    requires name.kind == WordT && forall a :: a in args ==> a.kind == WordT
    ensures p <= r.1 <= n
    ensures Located(r.0)
    ensures r.0.Return? ==> (r.0.value.Parsed? && WellFormed(r.0.value.directive)
      && r.0.value.directive.nameToken == Some(name)
      && args <= r.0.value.directive.args)
    decreases n - p, 0
  {
    var (t, q) := Significant(scan, n, p);
    if t.Return? && t.value.kind == WordT then Rest(scan, n, q, name, args + [t.value])
    else if t.Return? && t.value.kind == OpenBraceT then Block(scan, n, q, name, args)
    else (Ending(name, args, t), q)
  }

  /** What ends a directive other than a block: `;`, or an error. */
  function Ending(name: Token, args: seq<Token>, t: Try<Token>): (r: Try<Parsed>)
    requires Located(t) && name.kind == WordT && forall a :: a in args ==> a.kind == WordT
    requires t.Return? ==> t.value.kind == CloseBraceT || t.value.kind == TermT || t.value.kind == EodT
    ensures Located(r)
    ensures r.Return? ==> r.value == Parsed(Directive(Some(name), args, [])) && WellFormed(r.value.directive)
    ensures t.Throw? ==> r == Throw(t.error)
    ensures t.Return? && t.value.kind == TermT ==> r.Return?
    ensures t.Return? && t.value.kind == CloseBraceT ==>
      r == Throw(ConfigError(MissingSemicolonMessage, Some(t.value.position)))
    ensures t.Return? && t.value.kind == EodT ==>
      r == Throw(ConfigError(UnterminatedMessage, Some(name.position)))
  {
    if t.Throw? then Throw(t.error)
    else
      var tok := t.value;
      match tok.kind
      case CloseBraceT =>
        Throw(ConfigError(MissingSemicolonMessage, Some(tok.position)))
      case TermT => Return(Parsed(Directive(Some(name), args, [])))
      case EodT => Throw(ConfigError(UnterminatedMessage, Some(name.position)))
  }

  /** After `{`: the directive's children up to the closing `}`. */
  function Block(scan: Scanner, n: nat, p: nat, name: Token, args: seq<Token>): (r: (Try<Parsed>, nat))
    requires Scans(scan, n) && p <= n
    requires name.kind == WordT && forall a :: a in args ==> a.kind == WordT
    ensures p <= r.1 <= n
    ensures Located(r.0)
    ensures r.0.Return? ==> (r.0.value.Parsed? && WellFormed(r.0.value.directive)
      && r.0.value.directive.nameToken == Some(name) && r.0.value.directive.args == args)
    decreases n - p, 3
  {
    var (children, q) := Children(scan, n, p, Some(name.position), false);
    (if children.Return? then Return(Parsed(Directive(Some(name), args, children.value)))
     else Throw(children.error), q)
  }

  /** `parse`'s message for an error: the position is appended in parentheses. */
  function WithPosition(e: ConfigError): (r: ConfigError)
    requires e.position.Some?
    ensures r.position == e.position
    ensures r.message == e.message + " (" + PositionString(e.position.value) + ")"
  {
    ConfigError(e.message + " (" + PositionString(e.position.value) + ")", e.position)
  }

  /** `parse` once the children of the root are read. */
  function Root(children: Try<seq<Directive>>): (r: Try<Directive>)
    requires Located(children)
    ensures r.Throw? ==> r.error.position.Some?
  {
    if children.Return? then Return(Directive(None, [], children.value))
    else Throw(WithPosition(children.error))
  }

  /**
   * `parse` of `new ConfigParser(raw, file)`: the root directive (no name,
   * no arguments) holding the top-level directives.
   */
  function Parse(raw: string, file: string): (r: Try<Directive>)
    ensures r.Return? ==> (r.value.nameToken.None? && r.value.args == []
      && forall c :: c in r.value.children ==> WellFormed(c))
    ensures r.Throw? ==> r.error.position.Some?
  {
    var data := StripCarriageReturns(raw);
    LexingScans(data, file);
    Root(Children(Lexing(data, file), |data|, 0, None, true).0)
  }

  /** The children read so far in front of those still to come. */
  function Prepend(children: seq<Directive>, r: (Try<seq<Directive>>, nat)): (Try<seq<Directive>>, nat)
  {
    (if r.0.Return? then Return(children + r.0.value) else r.0, r.1)
  }

  lemma PrependNone(r: (Try<seq<Directive>>, nat))
    ensures Prepend([], r) == r
  {
    if r.0.Return? {
      assert [] + r.0.value == r.0.value;
    }
  }

  lemma PrependOne(children: seq<Directive>, d: Directive, r: (Try<seq<Directive>>, nat))
    ensures Prepend(children, Prepend([d], r)) == Prepend(children + [d], r)
  {
    if r.0.Return? {
      assert children + ([d] + r.0.value) == (children + [d]) + r.0.value;
    }
  }

  // ---------------------------------------------------------------------
  // The parser's error cases on small inputs
  // ---------------------------------------------------------------------

  lemma ScanAt(data: string, file: string, p: nat)
    requires p <= |data|
    ensures Lexing(data, file)(p) == TokenAt(data, file, p)
  {
  }

  /** The tokens of `a {`. */
  lemma TokensOfOpenBlock()
    ensures TokenAt("a {", "", 0) == (Return(Token(WordT, "a", Position(1, 1, 0, ""))), 1)
    ensures TokenAt("a {", "", 1) == (Return(Token(WsT, " ", Position(1, 2, 1, ""))), 2)
    ensures TokenAt("a {", "", 2) == (Return(Token(OpenBraceT, "{", Position(1, 3, 2, ""))), 3)
    ensures TokenAt("a {", "", 3) == (Return(Token(EodT, "", Position(1, 4, 3, ""))), 3)
  {
    var d := "a {";
    assert d[0] == 'a' && d[1] == ' ' && d[2] == '{' && |d| == 3 && InWord('a') && !InWord(' ');
    FirstLine(d, 3);
    FirstLine(d, 2);
    FirstLine(d, 1);
    FirstLine(d, 0);
    WordEndAt(d, 0, 1);
    WordAt(d, "", 0, 1);
    RunEndAt(d, 1, 2, Blanks);
    BlanksAt(d, "", 1, 2);
    assert d[0..1] == "a" && d[1..2] == " ";
  }

  /** `a {`: the block is never closed; the error points at the directive's name. */
  lemma UnclosedScope(d: string)
    requires d == "a {"
    ensures Parse(d, "") == Throw(WithPosition(ConfigError(NeverClosedMessage, Some(Position(1, 1, 0, "")))))
  {
    assert StripCarriageReturns(d) == d;
    LexingScans(d, "");
    TokensOfOpenBlock();
    ScanAt(d, "", 0);
    ScanAt(d, "", 1);
    ScanAt(d, "", 2);
    ScanAt(d, "", 3);
    var name := Token(WordT, "a", Position(1, 1, 0, ""));
    OpenBlockGrammar(Lexing(d, ""), name);
  }

  /** The grammar's steps over the tokens of `a {`. */
  lemma OpenBlockGrammar(scan: Scanner, name: Token)
    requires Scans(scan, 3) && name == Token(WordT, "a", Position(1, 1, 0, ""))
    requires scan(0) == (Return(name), 1)
    requires scan(1) == (Return(Token(WsT, " ", Position(1, 2, 1, ""))), 2)
    requires scan(2) == (Return(Token(OpenBraceT, "{", Position(1, 3, 2, ""))), 3)
    requires scan(3) == (Return(Token(EodT, "", Position(1, 4, 3, ""))), 3)
    ensures Children(scan, 3, 0, None, true).0 == Throw(ConfigError(NeverClosedMessage, Some(name.position)))
  {
    var e := ConfigError(NeverClosedMessage, Some(name.position));
    SignificantHere(scan, 3, 3);
    EndAfterBlock(scan, name);
    SignificantAfterBlank(scan, 3, 1);
    SignificantHere(scan, 3, 2);
    RestAfterBlock(scan, name, e);
    SignificantHere(scan, 3, 0);
    RootAfterName(scan, name, e);
  }

  lemma SignificantHere(scan: Scanner, n: nat, p: nat)
    requires Scans(scan, n) && p <= n
    requires scan(p).0.Throw? || (scan(p).0.value.kind != WsT && scan(p).0.value.kind != CommentT)
    ensures Significant(scan, n, p) == scan(p)
  {
  }

  lemma SignificantAfterBlank(scan: Scanner, n: nat, p: nat)
    requires Scans(scan, n) && p <= n
    requires scan(p).0.Return? && (scan(p).0.value.kind == WsT || scan(p).0.value.kind == CommentT)
    ensures Significant(scan, n, p) == Significant(scan, n, scan(p).1)
  {
  }

  lemma EndAfterBlock(scan: Scanner, name: Token)
    requires Scans(scan, 3) && Significant(scan, 3, 3) == (Return(Token(EodT, "", Position(1, 4, 3, ""))), 3)
    ensures Children(scan, 3, 3, Some(name.position), false).0 == Throw(ConfigError(NeverClosedMessage, Some(name.position)))
  {
    assert One(scan, 3, 3) == (Return(EndOfData(Position(1, 4, 3, ""))), 3);
  }

  lemma RestAfterBlock(scan: Scanner, name: Token, e: ConfigError)
    requires Scans(scan, 3) && name.kind == WordT
    requires Significant(scan, 3, 1) == (Return(Token(OpenBraceT, "{", Position(1, 3, 2, ""))), 3)
    requires Children(scan, 3, 3, Some(name.position), false).0 == Throw(e)
    ensures Rest(scan, 3, 1, name, []).0 == Throw(e)
  {
  }

  lemma RootAfterName(scan: Scanner, name: Token, e: ConfigError)
    requires Scans(scan, 3) && name.kind == WordT
    requires Significant(scan, 3, 0) == (Return(name), 1)
    requires Rest(scan, 3, 1, name, []).0 == Throw(e)
    ensures Children(scan, 3, 0, None, true).0 == Throw(e)
  {
  }

  /**
   * `$parseChildDirectives` pushes each directive as it is read, so the
   * directives of one scope are in the order of their names in the data,
   * between where the scope starts and where it ends.
   */
  lemma {:induction false} ChildrenInSourceOrder(scan: Scanner, n: nat, p: nat, parent: Option<Position>, atRoot: bool)
    requires Scans(scan, n) && p <= n
    ensures var r := Children(scan, n, p, parent, atRoot);
      r.0.Return? ==> InSourceOrder(r.0.value) && forall c :: c in r.0.value ==> p <= NameOffset(c) < r.1
    decreases n - p
  {
    var (one, q) := One(scan, n, p);
    if one.Return? && one.value.Parsed? {
      var rest := Children(scan, n, q, parent, atRoot);
      ChildrenInSourceOrder(scan, n, q, parent, atRoot);
      assert Children(scan, n, p, parent, atRoot) == Prepend([one.value.directive], rest);
      if rest.0.Return? {
        InSourceOrderCons(one.value.directive, rest.0.value, p, q, rest.1);
      }
    }
  }

  /** A directive read before a scope's remaining directives comes first. */
  lemma InSourceOrderCons(d: Directive, ds: seq<Directive>, p: int, q: int, e: int)
    requires p <= NameOffset(d) < q <= e
    requires InSourceOrder(ds) && forall c :: c in ds ==> q <= NameOffset(c) < e
    ensures InSourceOrder([d] + ds) && forall c :: c in [d] + ds ==> p <= NameOffset(c) < e
  {
    var all := [d] + ds;
    forall i, j | 0 <= i < j < |all|
      ensures NameOffset(all[i]) < NameOffset(all[j])
    {
      assert all[j] == ds[j - 1] && ds[j - 1] in ds;
      if i > 0 {
        assert all[i] == ds[i - 1];
      }
    }
  }

  /** The top-level directives of a parsed file are in source order. */
  lemma ParseInSourceOrder(raw: string, file: string)
    ensures Parse(raw, file).Return? ==> InSourceOrder(Parse(raw, file).value.children)
  {
    var data := StripCarriageReturns(raw);
    LexingScans(data, file);
    ChildrenInSourceOrder(Lexing(data, file), |data|, 0, None, true);
  }

  /** `;` and `}` on the first line are one-character tokens. */
  lemma PunctuationAt(data: string, p: nat, kind: TokenType)
    requires p < |data| && forall j :: 0 <= j < p ==> data[j] != '\n'
    requires (data[p] == ';' && kind == TermT) || (data[p] == '}' && kind == CloseBraceT)
    ensures Lexing(data, "")(p) == (Return(Token(kind, [data[p]], Position(1, p + 1, p, ""))), p + 1)
  {
    FirstLine(data, p);
  }

  /** The end of data on the first line. */
  lemma EndAt(data: string)
    requires forall j :: 0 <= j < |data| ==> data[j] != '\n'
    ensures Lexing(data, "")(|data|) == (Return(Token(EodT, "", Position(1, |data| + 1, |data|, ""))), |data|)
  {
    FirstLine(data, |data|);
  }

  /** The one-letter word `a` at `p` on the first line. */
  lemma LetterAt(data: string, p: nat)
    requires p < |data| && data[p] == 'a' && (p + 1 == |data| || !InWord(data[p + 1]))
    requires forall j :: 0 <= j < p ==> data[j] != '\n'
    ensures Lexing(data, "")(p) == (Return(Token(WordT, "a", Position(1, p + 1, p, ""))), p + 1)
  {
    assert InWord('a');
    FirstLine(data, p);
    WordEndAt(data, p, p + 1);
    WordAt(data, "", p, p + 1);
    assert data[p..p + 1] == "a";
  }

  /** `}`: a close brace at the top level is an error at the brace. */
  lemma UnexpectedCloseAtRoot(d: string)
    requires d == "}"
    ensures Parse(d, "") == Throw(WithPosition(ConfigError(StrayCloseMessage, Some(Position(1, 1, 0, "")))))
  {
    assert StripCarriageReturns(d) == d;
    LexingScans(d, "");
    PunctuationAt(d, 0, CloseBraceT);
    StrayCloseGrammar(Lexing(d, ""), 1, Position(1, 1, 0, ""));
  }

  lemma StrayCloseGrammar(scan: Scanner, n: nat, at: Position)
    requires Scans(scan, n) && scan(0).0 == Return(Token(CloseBraceT, "}", at))
    ensures Children(scan, n, 0, None, true).0 == Throw(ConfigError(StrayCloseMessage, Some(at)))
  {
    SignificantHere(scan, n, 0);
  }

  /** `a }`: a close brace where a `;` was due is an error at the brace. */
  lemma MissingSemicolonBeforeClose(d: string)
    requires d == "a }"
    ensures Parse(d, "") == Throw(WithPosition(ConfigError(MissingSemicolonMessage, Some(Position(1, 3, 2, "")))))
  {
    assert StripCarriageReturns(d) == d;
    LexingScans(d, "");
    assert d[0] == 'a' && d[1] == ' ' && d[2] == '}' && |d| == 3 && !InWord(' ');
    LetterAt(d, 0);
    FirstLine(d, 1);
    RunEndAt(d, 1, 2, Blanks);
    BlanksAt(d, "", 1, 2);
    PunctuationAt(d, 2, CloseBraceT);
    CloseAfterNameGrammar(Lexing(d, ""), Token(WordT, "a", Position(1, 1, 0, "")), Position(1, 3, 2, ""));
  }

  lemma CloseAfterNameGrammar(scan: Scanner, name: Token, at: Position)
    requires Scans(scan, 3) && name.kind == WordT
    requires scan(0) == (Return(name), 1)
    requires scan(1).0.Return? && scan(1).0.value.kind == WsT && scan(1).1 == 2
    requires scan(2).0 == Return(Token(CloseBraceT, "}", at))
    ensures Children(scan, 3, 0, None, true).0 == Throw(ConfigError(MissingSemicolonMessage, Some(at)))
  {
    SignificantAfterBlank(scan, 3, 1);
    SignificantHere(scan, 3, 2);
    SignificantHere(scan, 3, 0);
    assert Rest(scan, 3, 1, name, []).0 == Throw(ConfigError(MissingSemicolonMessage, Some(at)));
  }

  /** `a`: the data ends before the directive's `;`; the error points at its name. */
  lemma UnterminatedDirective(d: string)
    requires d == "a"
    ensures Parse(d, "") == Throw(WithPosition(ConfigError(UnterminatedMessage, Some(Position(1, 1, 0, "")))))
  {
    assert StripCarriageReturns(d) == d;
    LexingScans(d, "");
    LetterAt(d, 0);
    EndAt(d);
    EndAfterNameGrammar(Lexing(d, ""), Token(WordT, "a", Position(1, 1, 0, "")));
  }

  lemma EndAfterNameGrammar(scan: Scanner, name: Token)
    requires Scans(scan, 1) && name.kind == WordT
    requires scan(0) == (Return(name), 1)
    ensures Children(scan, 1, 0, None, true).0 == Throw(ConfigError(UnterminatedMessage, Some(name.position)))
  {
    SignificantHere(scan, 1, 1);
    SignificantHere(scan, 1, 0);
    assert Rest(scan, 1, 1, name, []).0 == Throw(ConfigError(UnterminatedMessage, Some(name.position)));
  }

  /** `;;a;`: empty statements are skipped; the one directive is `a`. */
  lemma EmptyStatementsSkipped(d: string)
    requires d == ";;a;"
    ensures Parse(d, "") == Return(Directive(None, [], [Directive(Some(Token(WordT, "a", Position(1, 3, 2, ""))), [], [])]))
  {
    assert StripCarriageReturns(d) == d;
    LexingScans(d, "");
    assert d[0] == ';' && d[1] == ';' && d[2] == 'a' && d[3] == ';' && |d| == 4 && !InWord(';');
    PunctuationAt(d, 0, TermT);
    PunctuationAt(d, 1, TermT);
    LetterAt(d, 2);
    PunctuationAt(d, 3, TermT);
    EndAt(d);
    SkippedStatementsGrammar(Lexing(d, ""), Token(WordT, "a", Position(1, 3, 2, "")));
  }

  lemma SkippedStatementsGrammar(scan: Scanner, name: Token)
    requires Scans(scan, 4) && name.kind == WordT
    requires scan(0).0.Return? && scan(0).0.value.kind == TermT && scan(0).1 == 1
    requires scan(1).0.Return? && scan(1).0.value.kind == TermT && scan(1).1 == 2
    requires scan(2) == (Return(name), 3)
    requires scan(3).0.Return? && scan(3).0.value.kind == TermT && scan(3).1 == 4
    ensures Children(scan, 4, 0, None, true).0 == Return([Directive(Some(name), [], [])])
  {
    var a := Directive(Some(name), [], []);
    SignificantHere(scan, 4, 3);
    assert Rest(scan, 4, 3, name, []) == (Return(Parsed(a)), 4);
    SignificantHere(scan, 4, 2);
    assert One(scan, 4, 2) == (Return(Parsed(a)), 4);
    SignificantHere(scan, 4, 1);
    assert One(scan, 4, 1) == One(scan, 4, 2);
    SignificantHere(scan, 4, 0);
    assert One(scan, 4, 0) == One(scan, 4, 1);
    SignificantHere(scan, 4, 4);
    assert Children(scan, 4, 4, None, true).0 == Return([]);
    assert [a] + [] == [a];
  }

  // ---------------------------------------------------------------------
  // The parser object
  // ---------------------------------------------------------------------

  class ConfigParser {
    /** `$tokens` */
    const tokens: Lexer

    predicate Valid()
      reads this, tokens
    {
      tokens.Valid()
    }

    /** The scanner over this parser's data, and that data's length. */
    function Scan(): Scanner
    {
      Lexing(tokens.data, tokens.pathHint)
    }

    function Size(): nat
    {
      |tokens.data|
    }

    constructor (data: string, pathHint: string)
      ensures Valid() && fresh(tokens)
      ensures tokens.data == StripCarriageReturns(data) && tokens.pathHint == pathHint && tokens.pos == 0
    {
      tokens := new Lexer(data, pathHint);
    }

    /** `$nextToken`: white space and comments are read and dropped. */
    method NextToken() returns (t: Try<Token>)
      requires Valid()
      modifies tokens
      ensures Valid() && (t, tokens.pos) == Significant(Scan(), Size(), old(tokens.pos))
    {
      LexingScans(tokens.data, tokens.pathHint);
      ghost var prev := tokens.pos;
      t := tokens.NextToken();
      while t.Return? && (t.value.kind == WsT || t.value.kind == CommentT)
        invariant Valid() && prev <= tokens.pos && (t, tokens.pos) == Scan()(prev)
        invariant Significant(Scan(), Size(), old(tokens.pos)) == Significant(Scan(), Size(), prev)
        decreases Size() - prev
      {
        prev := tokens.pos;
        t := tokens.NextToken();
      }
    }

    /** `$parseOne` */
    method ParseOne() returns (r: Try<Parsed>)
      requires Valid()
      modifies tokens
      ensures Valid() && (r, tokens.pos) == One(Scan(), Size(), old(tokens.pos))
      decreases Size() - tokens.pos, 1
    {
      LexingScans(tokens.data, tokens.pathHint);
      while true
        invariant Valid() && old(tokens.pos) <= tokens.pos
        invariant One(Scan(), Size(), old(tokens.pos)) == One(Scan(), Size(), tokens.pos)
        decreases Size() - tokens.pos
      {
        var nameToken := NextToken();
        if nameToken.Throw? {
          return Throw(nameToken.error);
        }
        var tok := nameToken.value;
        if tok.kind == EodT {
          return Return(EndOfData(tok.position));
        } else if tok.kind == CloseBraceT {
          return Return(ScopeClosed(tok.position));
        } else if tok.kind == TermT {
          continue;
        } else if tok.kind != WordT {
          return Throw(ConfigError("Unexpected token encountered: " + tok.content, Some(tok.position)));
        }
        r := ParseDirective(tok);
        return;
      }
    }

    /** The inner loop of `$parseOne`, once the name is read: arguments, then `;` or a block. */
    method ParseDirective(name: Token) returns (r: Try<Parsed>)
      requires Valid() && name.kind == WordT
      modifies tokens
      ensures Valid() && (r, tokens.pos) == Rest(Scan(), Size(), old(tokens.pos), name, [])
      decreases Size() - tokens.pos, 0
    {
      LexingScans(tokens.data, tokens.pathHint);
      var args: seq<Token> := [];
      while true
        invariant Valid() && old(tokens.pos) <= tokens.pos && forall a :: a in args ==> a.kind == WordT
        invariant Rest(Scan(), Size(), old(tokens.pos), name, []) == Rest(Scan(), Size(), tokens.pos, name, args)
        decreases Size() - tokens.pos
      {
        ghost var before := tokens.pos;
        var token := NextToken();
        if token.Return? && token.value.kind == WordT {
          args := args + [token.value];
        } else if token.Return? && token.value.kind == OpenBraceT {
          var children := ParseChildDirectives(Some(name.position), false);
          r := if children.Return? then Return(Parsed(Directive(Some(name), args, children.value)))
               else Throw(children.error);
          return;
        } else {
          r := Ending(name, args, token);
          return;
        }
      }
    }

    /** `$parseChildDirectives`: each directive read is pushed onto the children. */
    method ParseChildDirectives(parent: Option<Position>, atRoot: bool) returns (r: Try<seq<Directive>>)
      requires Valid()
      modifies tokens
      ensures Valid() && (r, tokens.pos) == Children(Scan(), Size(), old(tokens.pos), parent, atRoot)
      decreases Size() - tokens.pos, 2
    {
      LexingScans(tokens.data, tokens.pathHint);
      var children: seq<Directive> := [];
      PrependNone(Children(Scan(), Size(), tokens.pos, parent, atRoot));
      while true
        invariant Valid() && old(tokens.pos) <= tokens.pos
        invariant Children(Scan(), Size(), old(tokens.pos), parent, atRoot)
          == Prepend(children, Children(Scan(), Size(), tokens.pos, parent, atRoot))
        decreases Size() - tokens.pos
      {
        ghost var before := tokens.pos;
        var next := ParseOne();
        if next.Throw? {
          return Throw(next.error);
        }
        match next.value
        case EndOfData(at) =>
          if atRoot {
            assert children + [] == children;
            return Return(children);
          }
          return Throw(ConfigError(NeverClosedMessage, if parent.Some? then parent else Some(at)));
        case ScopeClosed(at) =>
          if atRoot {
            return Throw(ConfigError(StrayCloseMessage, Some(at)));
          }
          assert children + [] == children;
          return Return(children);
        case Parsed(d) =>
          PrependOne(children, d, Children(Scan(), Size(), tokens.pos, parent, atRoot));
          children := children + [d];
      }
    }

    /** `parse`: the root directive, or the error with its position appended to the message. */
    method Parse() returns (r: Try<Directive>)
      requires Valid()
      modifies tokens
      ensures Valid()
      ensures r == Root(Children(Scan(), Size(), old(tokens.pos), None, true).0)
    {
      LexingScans(tokens.data, tokens.pathHint);
      var children := ParseChildDirectives(None, true);
      r := Root(children);
    }
  }
}
