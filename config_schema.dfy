/**
 * The schema of the configuration language (lib/config/schema.js): a schema
 * is itself a configuration tree whose top-level directives are rules, one
 * per directive name, saying where the directive may appear (`at`), which
 * directives it excludes (`precludes`), how often it may repeat among its
 * siblings (`maxcount`) and what typed parameters it takes (`param`).
 * Applying the schema checks every node of a configuration tree against its
 * rule and stores the converted arguments as the node's values.
 */
module ConfigSchema {
  import opened Common
  import opened ConfigLexer
  import opened ConfigTree

  // ---------------------------------------------------------------------
  // Lines, as `^` and `$` see them under the `m` flag
  // ---------------------------------------------------------------------

  /** The text between line terminators, in order. */
  function Lines(s: string): (ls: seq<string>)
    ensures |ls| >= 1
    ensures forall i :: 0 <= i < |ls| ==> NoLineTerminator(ls[i])
  {
    if s == [] then [""]
    else if IsLineTerminator(s[0]) then [""] + Lines(s[1..])
    else
      var rest := Lines(s[1..]);
      [[s[0]] + rest[0]] + rest[1..]
  }

  /** A string without line terminators is a single line. */
  lemma {:induction false} OneLine(s: string)
    requires NoLineTerminator(s)
    ensures Lines(s) == [s]
  {
    if s != [] {
      OneLine(s[1..]);
      assert [s[0]] + s[1..] == s;
    }
  }

  /** A line terminator ends the first line. */
  lemma {:induction false} LinesSplit(a: string, c: char, b: string)
    requires NoLineTerminator(a) && IsLineTerminator(c)
    ensures Lines(a + [c] + b) == [a] + Lines(b)
  {
    if a == [] {
      assert a + [c] + b == [c] + b;
    } else {
      assert (a + [c] + b)[1..] == a[1..] + [c] + b;
      LinesSplit(a[1..], c, b);
      assert [a[0]] + a[1..] == a;
    }
  }

  /** A second line that satisfies `p` is found. */
  lemma LaterLine(a: string, b: string, p: string -> bool)
    requires NoLineTerminator(a) && NoLineTerminator(b) && p(b)
    ensures SomeLine(a + "\n" + b, p)
  {
    OneLine(b);
    LinesSplit(a, '\n', b);
    assert a + "\n" + b == a + ['\n'] + b;
    assert Lines(a + "\n" + b)[1] == b;
  }

  /** Some line of `s` satisfies `p`: what a pattern anchored by `^` and `$` under the `m` flag tests. */
  predicate SomeLine(s: string, p: string -> bool)
  {
    exists i :: 0 <= i < |Lines(s)| && p(Lines(s)[i])
  }

  // ---------------------------------------------------------------------
  // Converters (`ConfigTypes`)
  // ---------------------------------------------------------------------

  predicate IsTrueWord(line: string)
  {
    var w := ToLowerAscii(line);
    w == "true" || w == "yes" || w == "on"
  }

  predicate IsFalseWord(line: string)
  {
    var w := ToLowerAscii(line);
    w == "false" || w == "no" || w == "off"
  }

  function NotValid(s: string, typeName: string): string
  {
    "\"" + s + "\" is not a valid " + typeName + " value"
  }

  /**
   * `ToBoolean` as written: its patterns carry the `m` flag, so a value is
   * taken as true (or false) when any one of its lines is such a word.
   */
  function ToBooleanAsWritten(s: string): (r: Result<Value>)
    ensures r.Ok? ==> r.value.BoolV?
    ensures r == Ok(BoolV(true)) <==> SomeLine(s, IsTrueWord)
    ensures r == Ok(BoolV(false)) <==> !SomeLine(s, IsTrueWord) && SomeLine(s, IsFalseWord)
  {
    if SomeLine(s, IsTrueWord) then Ok(BoolV(true))
    else if SomeLine(s, IsFalseWord) then Ok(BoolV(false))
    else Err(NotValid(s, "Boolean"))
  }

  /** `ToBoolean` on the whole value: true, yes or on, false, no or off, in any letter case. */
  function ToBoolean(s: string): (r: Result<Value>)
    ensures r == Ok(BoolV(true)) <==> IsTrueWord(s)
    ensures r == Ok(BoolV(false)) <==> IsFalseWord(s)
    ensures r.Err? <==> !IsTrueWord(s) && !IsFalseWord(s)
    ensures r.Err? ==> r.error == NotValid(s, "Boolean")
  {
    if IsTrueWord(s) then Ok(BoolV(true))
    else if IsFalseWord(s) then Ok(BoolV(false))
    else Err(NotValid(s, "Boolean"))
  }

  /** On a value of one line both read the same. */
  lemma ToBooleanOneLine(s: string)
    requires NoLineTerminator(s)
    ensures ToBooleanAsWritten(s) == ToBoolean(s)
  {
    OneLine(s);
    assert Lines(s)[0] == s;
  }

  /** A second line saying yes makes a value that is no Boolean at all read as true. */
  lemma ToBooleanSecondLine()
    ensures ToBooleanAsWritten("maybe\nyes") == Ok(BoolV(true))
    ensures ToBoolean("maybe\nyes").Err?
  {
    YesOnSecondLine();
    LongIsNoBoolean("maybe\nyes");
  }

  lemma YesOnSecondLine()
    ensures ToBooleanAsWritten("maybe\nyes") == Ok(BoolV(true))
  {
    assert ToLowerAscii("yes") == "yes";
    LaterLine("maybe", "yes", IsTrueWord);
    assert "maybe" + "\n" + "yes" == "maybe\nyes";
  }

  /** No word ToBoolean accepts is longer than five characters. */
  lemma LongIsNoBoolean(s: string)
    requires |s| > 5
    ensures ToBoolean(s).Err?
  {
    assert |ToLowerAscii(s)| == |s|;
  }

  predicate IsHexDigit(c: char)
  {
    IsDigit(c) || ('a' <= c <= 'f') || ('A' <= c <= 'F')
  }

  predicate AllHexDigits(s: string)
  {
    forall i :: 0 <= i < |s| ==> IsHexDigit(s[i])
  }

  function HexDigitValue(c: char): (v: nat)
    requires IsHexDigit(c)
    ensures v < 16
  {
    if IsDigit(c) then c as int - '0' as int
    else if 'a' <= c <= 'f' then c as int - 'a' as int + 10
    else c as int - 'A' as int + 10
  }

  function HexValue(s: string): nat
    requires AllHexDigits(s)
  {
    if s == [] then 0 else 16 * HexValue(s[..|s| - 1]) + HexDigitValue(s[|s| - 1])
  }

  /** `/^(0[x])[0-9a-f]+$/i` on one line. */
  predicate IsHexLine(line: string)
  {
    |line| >= 3 && line[0] == '0' && (line[1] == 'x' || line[1] == 'X') && AllHexDigits(line[2..])
  }

  /** `/^-?\d+$/` on one line. */
  predicate IsDecimalLine(line: string)
  {
    (|line| >= 1 && AllDigits(line)) || (|line| >= 2 && line[0] == '-' && AllDigits(line[1..]))
  }

  /** The length of the longest prefix of `s` whose characters satisfy `ok`. */
  function PrefixWhile(s: string, ok: char -> bool): (n: nat)
    ensures n <= |s|
    ensures forall i :: 0 <= i < n ==> ok(s[i])
    ensures n < |s| ==> !ok(s[n])
  {
    if s == [] || !ok(s[0]) then 0 else 1 + PrefixWhile(s[1..], ok)
  }

  lemma {:induction false} PrefixWhileAll(s: string, ok: char -> bool)
    requires forall i :: 0 <= i < |s| ==> ok(s[i])
    ensures PrefixWhile(s, ok) == |s|
  {
    if s != [] {
      PrefixWhileAll(s[1..], ok);
    }
  }

  /**
   * `parseInt(s)` without a radix: leading white space, an optional sign,
   * then hexadecimal digits after `0x` or `0X`, else decimal digits; NaN
   * when no digit follows.
   */
  function ParseInt(s: string): (r: Value)
    ensures r.NaN? || r.IntV?
    ensures |s| > 0 && '1' <= s[0] <= '9' ==> r.IntV? && r.i >= 0
  {
    var t := s[PrefixWhile(s, IsJsSpace)..];
    var negative := |t| > 0 && t[0] == '-';
    var magnitude := ParseMagnitude(if |t| > 0 && (t[0] == '-' || t[0] == '+') then t[1..] else t);
    if magnitude.None? then NaN
    else
      var v: int := magnitude.value;
      IntV(if negative then -v else v)
  }

  /** The digits `parseInt` reads after the sign, hexadecimal after `0x` or `0X`; None when there is none. */
  function ParseMagnitude(u: string): Option<nat>
  {
    if |u| >= 2 && u[0] == '0' && (u[1] == 'x' || u[1] == 'X') then
      var k := PrefixWhile(u[2..], IsHexDigit);
      if k == 0 then None else Some(HexValue(u[2..][..k]))
    else
      var k := PrefixWhile(u, IsDigit);
      if k == 0 then None else Some(DecimalValue(u[..k]))
  }

  /**
   * `ToInteger` as written: its patterns carry the `m` flag, so one line of
   * hexadecimal or decimal digits admits the whole value to `parseInt`.
   */
  function ToIntegerAsWritten(s: string): (r: Result<Value>)
    ensures r.Ok? <==> SomeLine(s, IsHexLine) || SomeLine(s, IsDecimalLine)
    ensures r.Ok? ==> r.value == ParseInt(s)
  {
    if SomeLine(s, IsHexLine) then Ok(ParseInt(s))
    else if SomeLine(s, IsDecimalLine) then Ok(ParseInt(s))
    else Err(NotValid(s, "Integer"))
  }

  /** `ToInteger` on the whole value: `0x` and hexadecimal digits, or an optional `-` and decimal digits. */
  function ToInteger(s: string): (r: Result<Value>)
    ensures r.Ok? <==> IsHexLine(s) || IsDecimalLine(s)
    ensures r.Ok? ==> r.value.IntV?
    ensures r.Err? ==> r.error == NotValid(s, "Integer")
  {
    if IsHexLine(s) then Ok(IntV(HexValue(s[2..])))
    else if IsDecimalLine(s) then Ok(IntV(if s[0] == '-' then 0 - DecimalValue(s[1..]) else DecimalValue(s)))
    else Err(NotValid(s, "Integer"))
  }

  /** On a value of one line both read the same: `parseInt` takes every digit the pattern admitted. */
  lemma ToIntegerOneLine(s: string)
    requires NoLineTerminator(s)
    ensures ToIntegerAsWritten(s) == ToInteger(s)
  {
    OneLine(s);
    assert SomeLine(s, IsHexLine) <==> IsHexLine(s) by { assert Lines(s)[0] == s; }
    assert SomeLine(s, IsDecimalLine) <==> IsDecimalLine(s) by { assert Lines(s)[0] == s; }
    if IsHexLine(s) {
      ParseIntHex(s);
    } else if IsDecimalLine(s) {
      ParseIntDecimal(s);
    }
  }

  /** `parseInt` of a whole hexadecimal value. */
  lemma ParseIntHex(s: string)
    requires IsHexLine(s)
    ensures ParseInt(s) == IntV(HexValue(s[2..]))
  {
    assert PrefixWhile(s, IsJsSpace) == 0;
    assert s[0..] == s;
    PrefixWhileAll(s[2..], IsHexDigit);
    assert s[2..][..|s| - 2] == s[2..];
    assert ParseMagnitude(s) == Some(HexValue(s[2..]));
  }

  /** `parseInt` of a whole decimal value. */
  lemma ParseIntDecimal(s: string)
    requires IsDecimalLine(s)
    ensures ParseInt(s) == IntV(if s[0] == '-' then 0 - DecimalValue(s[1..]) else DecimalValue(s))
  {
    assert PrefixWhile(s, IsJsSpace) == 0;
    assert s[0..] == s;
    if s[0] == '-' {
      DecimalMagnitude(s[1..]);
    } else {
      DecimalMagnitude(s);
    }
  }

  lemma DecimalMagnitude(digits: string)
    requires |digits| >= 1 && AllDigits(digits)
    ensures ParseMagnitude(digits) == Some(DecimalValue(digits))
  {
    assert |digits| >= 2 ==> digits[1] != 'x' && digits[1] != 'X';
    PrefixWhileAll(digits, IsDigit);
    assert digits[..|digits|] == digits;
  }

  /** Formatted numbers read back: `ToInteger(String(n)) == n` and `ToInteger("-" + String(n)) == -n`. */
  lemma ToIntegerDecimal(n: nat)
    ensures ToInteger(NatToDecimal(n)) == Ok(IntV(n))
    ensures ToInteger("-" + NatToDecimal(n)) == Ok(IntV(0 - n))
  {
    DecimalRoundTrip(n);
    var s := NatToDecimal(n);
    assert IsDecimalLine(s);
    assert ("-" + s)[1..] == s;
    assert IsDecimalLine("-" + s);
    assert !IsHexLine("-" + s);
  }

  /** A value whose first line is not a number is admitted by its second line, and `parseInt` gives NaN. */
  lemma ToIntegerSecondLine()
    ensures ToIntegerAsWritten("abc\n12") == Ok(NaN)
    ensures ToInteger("abc\n12").Err?
  {
    LaterLine("abc", "12", IsDecimalLine);
    assert "abc" + "\n" + "12" == "abc\n12";
    ParseIntNoDigit("abc\n12");
    assert !IsDigit('a');
  }

  /** `parseInt` of a value that starts with no space, sign or digit is NaN. */
  lemma ParseIntNoDigit(s: string)
    requires |s| > 0 && !IsJsSpace(s[0]) && !IsDigit(s[0]) && s[0] != '-' && s[0] != '+'
    ensures ParseInt(s) == NaN
  {
    assert PrefixWhile(s, IsJsSpace) == 0;
    assert s[0..] == s;
  }

  /**
   * The pattern of `ToFloat`, `/^(\d*\.\d+)|(\d+\.?\d*)$/`: its alternation
   * anchors the first branch at the start and the second at the end only.
   */
  predicate FloatAccepts(s: string)
  {
    var k := PrefixWhile(s, IsDigit);
    (k + 1 < |s| && s[k] == '.' && IsDigit(s[k + 1]))
    || (|s| >= 1 && IsDigit(s[|s| - 1]))
    || (|s| >= 2 && s[|s| - 1] == '.' && IsDigit(s[|s| - 2]))
  }

  datatype ParamType = BooleanT | IntegerT | FloatT | StringT

  /** `ConfigTypes[name]` */
  function TypeNamed(name: string): (t: Option<ParamType>)
    ensures t.Some? <==> name in {"Boolean", "Integer", "Float", "String"}
  {
    if name == "Boolean" then Some(BooleanT)
    else if name == "Integer" then Some(IntegerT)
    else if name == "Float" then Some(FloatT)
    else if name == "String" then Some(StringT)
    else None
  }

  const AvailableTypes := "Boolean, Integer, Float, String"

  /** `param.convert(arg)`; a Float keeps its text. */
  function Convert(t: ParamType, s: string): (r: Result<Value>)
    ensures t == StringT ==> r == Ok(StringV(s))
    ensures t == BooleanT ==> r == ToBoolean(s)
    ensures t == IntegerT ==> r == ToInteger(s)
    ensures t == FloatT ==> (r.Ok? <==> FloatAccepts(s)) && (r.Ok? ==> r.value == FloatV(s))
  {
    match t
    case BooleanT => ToBoolean(s)
    case IntegerT => ToInteger(s)
    case FloatT => if FloatAccepts(s) then Ok(FloatV(s)) else Err(NotValid(s, "Float"))
    case StringT => Ok(StringV(s))
  }

  // ---------------------------------------------------------------------
  // Parameters (`ConfigSchemaParam`)
  // ---------------------------------------------------------------------

  /** What `throwForNode` makes of a message: the node's position appended when it has one. */
  function ThrowFor(position: Option<Position>, message: string): (m: string)
    ensures position.None? ==> m == message
    ensures position.Some? ==> m == message + " (" + PositionString(position.value) + ")"
  {
    if position.Some? then message + " (" + PositionString(position.value) + ")" else message
  }

  /** A parameter: its type, name, description, whether `[optional]` or `vararg...`, and its default. */
  datatype Param = Param(ptype: ParamType, name: string, desc: string, optional: bool, vararg: bool,
                         defaultValue: Option<Value>)
  {
    predicate Required() { !optional && !vararg }
  }

  predicate IsNameDelimiter(c: char)
  {
    c == '[' || c == ']' || c == '.'
  }

  predicate NotNameDelimiter(c: char)
  {
    !IsNameDelimiter(c)
  }

  /**
   * The name in a parameter's spelling, `s.replace(/^\[?([^[\].]+)\]?(...)?$/, '$1')`:
   * the run of characters after an optional `[` up to `[`, `]` or `.`, when
   * at most a `]` and any three characters other than line terminators
   * follow it; otherwise the spelling unchanged. The pattern's `(...)` takes
   * any three characters, so a shorter run can match too when exactly three
   * characters follow it.
   */
  function ParamName(spelling: string): (r: string)
    ensures |r| <= |spelling|
    ensures r != spelling ==> r != [] && forall i :: 0 <= i < |r| ==> NotNameDelimiter(r[i])
  {
    var b := if |spelling| > 0 && spelling[0] == '[' then 1 else 0;
    var run := PrefixWhile(spelling[b..], NotNameDelimiter);
    var rest := spelling[b + run..];
    if run == 0 then spelling
    else if rest == "" || rest == "]" || (|rest| == 3 && NoLineTerminator(rest))
         || (|rest| == 4 && rest[0] == ']' && NoLineTerminator(rest[1..])) then spelling[b..b + run]
    else if |spelling| >= b + 4 && |spelling| - 3 < b + run && NoLineTerminator(spelling[|spelling| - 3..]) then
      spelling[b..|spelling| - 3]
    else spelling
  }

  /** `/^\[/` */
  predicate IsOptionalSpelling(spelling: string)
  {
    |spelling| > 0 && spelling[0] == '['
  }

  /** `/\.{3}$/` */
  predicate IsVarargSpelling(spelling: string)
  {
    |spelling| >= 3 && spelling[|spelling| - 3..] == "..."
  }

  /** The four spellings of a parameter named `w`: `w`, `[w]`, `w...` and `[w]...`. */
  lemma ParamSpellings(w: string)
    requires w != [] && forall i :: 0 <= i < |w| ==> NotNameDelimiter(w[i])
    ensures ParamName(w) == w && !IsOptionalSpelling(w) && !IsVarargSpelling(w)
    ensures ParamName("[" + w + "]") == w && IsOptionalSpelling("[" + w + "]") && !IsVarargSpelling("[" + w + "]")
    ensures ParamName(w + "...") == w && !IsOptionalSpelling(w + "...") && IsVarargSpelling(w + "...")
    ensures ParamName("[" + w + "]...") == w && IsOptionalSpelling("[" + w + "]...") && IsVarargSpelling("[" + w + "]...")
  {
    PlainSpelling(w);
    OptionalSpelling(w);
    VarargSpelling(w);
    OptionalVarargSpelling(w);
  }

  lemma PlainSpelling(w: string)
    requires w != [] && forall i :: 0 <= i < |w| ==> NotNameDelimiter(w[i])
    ensures ParamName(w) == w && !IsOptionalSpelling(w) && !IsVarargSpelling(w)
  {
    NameRun(w, "");
    assert w + "" == w;
    assert !IsNameDelimiter(w[|w| - 1]);
  }

  lemma OptionalSpelling(w: string)
    requires w != [] && forall i :: 0 <= i < |w| ==> NotNameDelimiter(w[i])
    ensures ParamName("[" + w + "]") == w && IsOptionalSpelling("[" + w + "]") && !IsVarargSpelling("[" + w + "]")
  {
    var s := "[" + w + "]";
    NameRun(w, "]");
    assert s[1..] == w + "]";
    assert s[|s| - 1] == ']';
  }

  lemma VarargSpelling(w: string)
    requires w != [] && forall i :: 0 <= i < |w| ==> NotNameDelimiter(w[i])
    ensures ParamName(w + "...") == w && !IsOptionalSpelling(w + "...") && IsVarargSpelling(w + "...")
  {
    var s := w + "...";
    NameRun(w, "...");
    assert s[0] == w[0];
    assert s[|s| - 3..] == "...";
  }

  lemma OptionalVarargSpelling(w: string)
    requires w != [] && forall i :: 0 <= i < |w| ==> NotNameDelimiter(w[i])
    ensures ParamName("[" + w + "]...") == w && IsOptionalSpelling("[" + w + "]...") && IsVarargSpelling("[" + w + "]...")
  {
    var s := "[" + w + "]...";
    NameRun(w, "]...");
    assert s[1..] == w + "]...";
    assert s[1 + |w|..] == "]..." && s[1..1 + |w|] == w;
    assert s[|s| - 3..] == "...";
  }

  lemma NameRun(w: string, tail: string)
    requires forall i :: 0 <= i < |w| ==> NotNameDelimiter(w[i])
    requires tail == "" || IsNameDelimiter(tail[0])
    ensures PrefixWhile(w + tail, NotNameDelimiter) == |w|
    ensures (w + tail)[|w|..] == tail && (w + tail)[..|w|] == w
  {
  }

  /** The parameter a `param` node defines, or the error its constructor throws. */
  function MakeParam(node: Node): (r: Result<Param>)
    requires node.name == Some("param")
    ensures |node.args| < 3 ==> r == Err(ThrowFor(node.position, "Invalid schema specification"))
    ensures r.Ok? ==> (|node.args| >= 3 && TypeNamed(node.args[0]) == Some(r.value.ptype)
      && r.value.name == ParamName(node.args[1]) && r.value.desc == node.args[2]
      && r.value.optional == IsOptionalSpelling(node.args[1]) && r.value.vararg == IsVarargSpelling(node.args[1]))
    ensures r.Ok? ==> (r.value.defaultValue.Some? <==> |node.args| > 3)
    ensures r.Ok? && |node.args| > 3 ==> r.value.optional && Convert(r.value.ptype, node.args[3]) == Ok(r.value.defaultValue.value)
  {
    if |node.args| < 3 then Err(ThrowFor(node.position, "Invalid schema specification"))
    else
      var spelling := node.args[1];
      var optional := IsOptionalSpelling(spelling);
      var t := TypeNamed(node.args[0]);
      if t.None? then
        Err(ThrowFor(node.position, "Unknown type \"" + node.args[0] + "\". Available types are " + AvailableTypes))
      else if |node.args| > 3 && !optional then
        Err(ThrowFor(node.position, "Only optional parameters can have default values"))
      else
        var dflt := if |node.args| > 3 then Some(Convert(t.value, node.args[3])) else None;
        if dflt.Some? && dflt.value.Err? then Err(ThrowFor(node.position, dflt.value.error))
        else
          Ok(Param(t.value, ParamName(spelling), node.args[2], optional, IsVarargSpelling(spelling),
                   if dflt.Some? then Some(dflt.value.value) else None))
  }
}
