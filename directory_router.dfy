/*
 * The directory router: which requests it refuses outright (hidden path
 * elements, `.` and `..`, and the configured blacklist), and how it turns
 * the rest of a URL path into the candidate directories an application
 * may live in (`extractUnescapedDirs`).
 */
module DirectoryRouter {
  import opened Common
  import opened ReQuote

  // ---------------------------------------------------------------------
  // unescape
  // ---------------------------------------------------------------------

  predicate IsHexDigit(c: char)
  {
    IsDigit(c) || ('a' <= c <= 'f') || ('A' <= c <= 'F')
  }

  function HexDigitValue(c: char): (v: nat)
    requires IsHexDigit(c)
    ensures v < 16
  {
    if IsDigit(c) then c as int - '0' as int
    else if 'a' <= c <= 'f' then c as int - 'a' as int + 10
    else c as int - 'A' as int + 10
  }

  /** The value of two hexadecimal digits, the high one first. */
  function Hex2(hi: char, lo: char): (v: nat)
    requires IsHexDigit(hi) && IsHexDigit(lo)
    ensures v < 0x100
  {
    HexDigitValue(hi) * 16 + HexDigitValue(lo)
  }

  /**
   * The character of a `%uXXXX` escape. A code unit in the surrogate range
   * has no character of its own; it becomes U+FFFD here.
   */
  function CodeUnit(v: nat): char
    requires v < 0x1_0000
  {
    if 0xD800 <= v <= 0xDFFF then '\U{FFFD}' else v as char
  }

  /**
   * The escape at the start of `s`, if there is one: the character it
   * stands for and how many characters it takes.
   */
  function EscapeAt(s: string): (e: Option<(char, nat)>)
    ensures e.Some? ==> s != [] && s[0] == '%' && 3 <= e.value.1 <= |s|
  {
    if |s| >= 6 && s[0] == '%' && s[1] == 'u'
       && IsHexDigit(s[2]) && IsHexDigit(s[3]) && IsHexDigit(s[4]) && IsHexDigit(s[5]) then
      Some((CodeUnit(Hex2(s[2], s[3]) * 0x100 + Hex2(s[4], s[5])), 6))
    else if |s| >= 3 && s[0] == '%' && IsHexDigit(s[1]) && IsHexDigit(s[2]) then
      Some((Hex2(s[1], s[2]) as char, 3))
    else None
  }

  /** The global `unescape`: `%uXXXX` and `%XX` are decoded, anything else is kept. */
  function Unescape(s: string): (r: string)
    ensures |r| <= |s|
  {
    if s == [] then []
    else
      var e := EscapeAt(s);
      if e.Some? then [e.value.0] + Unescape(s[e.value.1..]) else [s[0]] + Unescape(s[1..])
  }

  /** A first character other than `%` is kept as it is. */
  lemma UnescapeKeepsHead(s: string)
    requires s != [] && s[0] != '%'
    ensures Unescape(s) == [s[0]] + Unescape(s[1..])
  {
    assert EscapeAt(s) == None;
  }

  /** Text without a `%` is its own unescaping. */
  lemma {:induction false} UnescapePlain(s: string)
    requires '%' !in s
    ensures Unescape(s) == s
  {
    if s != [] {
      UnescapeKeepsHead(s);
      UnescapePlain(s[1..]);
    }
  }

  /** `%XX` followed by text: the escaped character, then the rest unescaped. */
  lemma UnescapeByteEscape(a: char, b: char, rest: string)
    requires IsHexDigit(a) && IsHexDigit(b)
    ensures Unescape(['%', a, b] + rest) == [Hex2(a, b) as char] + Unescape(rest)
  {
    var s := ['%', a, b] + rest;
    assert s[3..] == rest;
    assert s[1] == a && a != 'u';
  }

  /** Escaped separators and dots come back as themselves. */
  lemma UnescapeSeparators()
    ensures Unescape("%2F") == "/" && Unescape("%2f") == "/"
    ensures Unescape("%5C") == "\\" && Unescape("%5c") == "\\"
    ensures Unescape("%2E%2e") == ".."
  {
    UnescapeByteEscape('2', 'F', "");
    UnescapeByteEscape('2', 'f', "");
    UnescapeByteEscape('5', 'C', "");
    UnescapeByteEscape('5', 'c', "");
    UnescapeByteEscape('2', 'e', "");
    UnescapeByteEscape('2', 'E', "%2e");
    assert "%2F" == ['%', '2', 'F'] + "";
    assert "%2f" == ['%', '2', 'f'] + "";
    assert "%5C" == ['%', '5', 'C'] + "";
    assert "%5c" == ['%', '5', 'c'] + "";
    assert "%2e" == ['%', '2', 'e'] + "";
    assert "%2E%2e" == ['%', '2', 'E'] + "%2e";
  }

  // ---------------------------------------------------------------------
  // Refused requests
  // ---------------------------------------------------------------------

  /** The index of the slash `/\/$/m` finds: one at the end or before a line terminator. */
  function TrailingSlashAt(s: string, from: nat): (k: int)
    requires from <= |s|
    ensures k == -1 || (from <= k < |s| && s[k] == '/' && (k + 1 == |s| || IsLineTerminator(s[k + 1])))
    decreases |s| - from
  {
    if from == |s| then -1
    else if s[from] == '/' && (from + 1 == |s| || IsLineTerminator(s[from + 1])) then from
    else TrailingSlashAt(s, from + 1)
  }

  /** `prefix.replace(/\/$/m, '')`: at most one slash goes, and nothing else. */
  function StripPrefix(prefix: string): (r: string)
    ensures r == prefix || exists k :: 0 <= k < |prefix| && prefix[k] == '/' && r == prefix[..k] + prefix[k + 1..]
  {
    var k := TrailingSlashAt(prefix, 0);
    if k == -1 then prefix else prefix[..k] + prefix[k + 1..]
  }

  /** Without line terminators, the only slash `/\/$/m` can find is a last one. */
  lemma {:induction false} TrailingSlashAtEnd(s: string, from: nat)
    requires from <= |s| && NoLineTerminator(s)
    ensures TrailingSlashAt(s, from) == if from < |s| && s[|s| - 1] == '/' then |s| - 1 else -1
    decreases |s| - from
  {
    if from < |s| && !(s[from] == '/' && from + 1 == |s|) {
      TrailingSlashAtEnd(s, from + 1);
    }
  }

  /** So for a prefix on one line, the router strips one trailing slash, if there is one. */
  lemma StripPrefixPlain(prefix: string)
    requires NoLineTerminator(prefix)
    ensures StripPrefix(prefix) ==
      if |prefix| > 0 && prefix[|prefix| - 1] == '/' then prefix[..|prefix| - 1] else prefix
  {
    TrailingSlashAtEnd(prefix, 0);
    if |prefix| > 0 && prefix[|prefix| - 1] == '/' {
      assert prefix[|prefix|..] == [];
    }
  }

  /**
   * Whether `new RegExp('^' + quote(prefix) + '(?=/|$)')` matches the path:
   * since every metacharacter of the prefix is quoted, the pattern matches
   * the prefix literally, followed by a slash or the end of the path.
   */
  predicate MatchesPrefix(prefix: string, pathname: string)
  {
    |prefix| <= |pathname| && pathname[..|prefix|] == prefix
    && (|pathname| == |prefix| || pathname[|prefix|] == '/')
  }

  /** `/\/\./.test(s)`: somewhere a slash is followed by a dot. */
  predicate HasHiddenStep(s: string)
  {
    |s| >= 2 && ((s[0] == '/' && s[1] == '.') || HasHiddenStep(s[1..]))
  }

  lemma {:induction false} HiddenStepAt(s: string, i: nat)
    requires i + 1 < |s| && s[i] == '/' && s[i + 1] == '.'
    ensures HasHiddenStep(s)
  {
    if i > 0 {
      HiddenStepAt(s[1..], i - 1);
    }
  }

  lemma {:induction false} HiddenStepWhere(s: string)
    requires HasHiddenStep(s)
    ensures exists i :: 0 <= i < |s| - 1 && s[i] == '/' && s[i + 1] == '.'
  {
    if !(s[0] == '/' && s[1] == '.') {
      HiddenStepWhere(s[1..]);
      var i :| 0 <= i < |s[1..]| - 1 && s[1..][i] == '/' && s[1..][i + 1] == '.';
      assert s[i + 1] == '/' && s[i + 2] == '.';
    }
  }

  /** What `getAppSpec_p` does before it looks for an application directory. */
  datatype Route =
    | Declined                  // the path is not under the prefix: resolved with null
    | Forbidden                 // answered 403
    | Search(suffix: string)    // the directories of `suffix` are searched

  /**
   * The decision of `getAppSpec_p`, the router created with `prefix` and an
   * optional `blacklist` test applied to the part of the path after it.
   */
  function Dispatch(prefix: string, pathname: string, blacklist: Option<string -> bool>): (r: Route)
    ensures r.Declined? <==> !MatchesPrefix(StripPrefix(prefix), pathname)
    ensures r.Forbidden? ==> MatchesPrefix(StripPrefix(prefix), pathname)
    ensures r.Search? ==> (MatchesPrefix(StripPrefix(prefix), pathname)
      && r.suffix == pathname[|StripPrefix(prefix)|..]
      && !HasHiddenStep(Unescape(pathname))
      && !Blacklisted(blacklist, r.suffix))
  {
    var p := StripPrefix(prefix);
    if !MatchesPrefix(p, pathname) then Declined
    else DispatchUnder(pathname[|p|..], HasHiddenStep(Unescape(pathname)), blacklist)
  }

  /** Whether the `blacklist` test, when configured, refuses `suffix`. */
  predicate Blacklisted(blacklist: Option<string -> bool>, suffix: string)
  {
    blacklist.Some? && blacklist.value(suffix)
  }

  /** The decision once the path is known to be under the prefix. */
  function DispatchUnder(suffix: string, hidden: bool, blacklist: Option<string -> bool>): (r: Route)
    ensures !r.Declined?
    ensures r.Search? ==> r.suffix == suffix && !hidden && !Blacklisted(blacklist, suffix)
  {
    if hidden || Blacklisted(blacklist, suffix) then Forbidden else Search(suffix)
  }

  /** A path under the prefix whose unescaping holds "/." is answered 403, never searched. */
  lemma HiddenIsForbidden(prefix: string, pathname: string, blacklist: Option<string -> bool>)
    requires MatchesPrefix(StripPrefix(prefix), pathname)
    requires HasHiddenStep(Unescape(pathname))
    ensures Dispatch(prefix, pathname, blacklist) == Forbidden
  {
  }

  /** A dot written as `%2e` or `%2E` right after a slash still makes a hidden step. */
  lemma EscapedDotIsHidden(before: string, e: char, after: string)
    requires '%' !in before && (e == 'e' || e == 'E')
    ensures HasHiddenStep(Unescape(before + ['/', '%', '2', e] + after))
  {
    UnescapeByteEscape('2', e, after);
    var head := before + ['/'];
    assert '%' !in head by {
      assert forall i :: 0 <= i < |head| ==> head[i] == (if i < |before| then before[i] else '/');
    }
    UnescapeConcatPlain(head, ['%', '2', e] + after);
    assert before + ['/', '%', '2', e] + after == head + (['%', '2', e] + after);
    assert Hex2('2', e) == 46;
    var u := head + (['.'] + Unescape(after));
    assert Unescape(before + ['/', '%', '2', e] + after) == u;
    assert u[|before|] == '/' && u[|before| + 1] == '.';
    HiddenStepAt(u, |before|);
  }

  /** So a path under the prefix with an escaped hidden step is answered 403 as well. */
  lemma EscapedDotIsForbidden(prefix: string, before: string, e: char, after: string, blacklist: Option<string -> bool>)
    requires '%' !in before && (e == 'e' || e == 'E')
    requires MatchesPrefix(StripPrefix(prefix), before + ['/', '%', '2', e] + after)
    ensures Dispatch(prefix, before + ['/', '%', '2', e] + after, blacklist) == Forbidden
  {
    EscapedDotIsHidden(before, e, after);
  }

  /** Unescaping distributes over a prefix without `%`. */
  lemma {:induction false} UnescapeConcatPlain(a: string, b: string)
    requires '%' !in a
    ensures Unescape(a + b) == a + Unescape(b)
  {
    if a != [] {
      var ab := a + b;
      assert ab[0] == a[0] && ab[1..] == a[1..] + b;
      UnescapeKeepsHead(ab);
      UnescapeConcatPlain(a[1..], b);
      assert a == [a[0]] + a[1..];
    } else {
      assert a + b == b;
    }
  }

  // ---------------------------------------------------------------------
  // extractUnescapedDirs
  // ---------------------------------------------------------------------

  /** A candidate directory: its path relative to the root, and the part of the URL it comes from. */
  datatype PathEntry = PathEntry(path: string, rawPath: string)

  /** `/^\s*$/` */
  predicate Blank(e: string)
  {
    e == [] || (IsJsSpace(e[0]) && Blank(e[1..]))
  }

  /** `/[\/\\]/`: the element holds a separator. */
  predicate HasSeparator(e: string)
  {
    e != [] && (e[0] == '/' || e[0] == '\\' || HasSeparator(e[1..]))
  }

  /** An element that makes the whole path unusable. */
  predicate Unsafe(e: string)
  {
    e != "" && (Blank(e) || e == ".." || HasSeparator(e))
  }

  /** An element that names a directory. */
  predicate Usable(e: string)
  {
    e != "" && e != "." && !Unsafe(e)
  }

  /** Where the next `/` or the end of the path is, `/\/|$/g` searched from `from`. */
  function NextSlash(p: string, from: nat): (m: nat)
    requires from <= |p|
    ensures from <= m <= |p|
    ensures m == |p| || p[m] == '/'
    decreases |p| - from
  {
    if from == |p| || p[from] == '/' then from else NextSlash(p, from + 1)
  }

  /** `pathAccum` extended by one element, a separator between them. */
  function Extend(accum: string, element: string): string
  {
    if accum != "" then accum + "/" + element else element
  }

  /** What the loop does with one unescaped element. */
  datatype Verdict = Skip | Refuse | Keep

  /** The tests of the loop body, in their order. */
  function Judge(element: string): Verdict
  {
    if element == "" then Skip
    else if Blank(element) || element == ".." then Refuse
    else if element == "." then Skip
    else if HasSeparator(element) then Refuse
    else Keep
  }

  /** The loop refuses exactly the unsafe elements and keeps exactly the usable ones. */
  lemma JudgeMeaning(element: string)
    ensures Judge(element) == Refuse <==> Unsafe(element)
    ensures Judge(element) == Keep <==> Usable(element)
    ensures Judge(element) == Skip <==> (element == "" || element == ".")
  {
    assert !Blank(".") && !HasSeparator(".") by {
      assert "."[1..] == "";
    }
  }

  /** The loop of `extractUnescapedDirs` from position `lastpos`, as a function. */
  function ExtractFrom(unescape: string -> string, p: string, lastpos: nat, accum: string, entries: seq<PathEntry>): (r: Option<seq<PathEntry>>)
    ensures r.Some? ==> entries <= r.value
    decreases |p| + 1 - lastpos
  {
    if lastpos > |p| then Some(entries)
    else
      var m := NextSlash(p, lastpos);
      var element := unescape(p[lastpos..m]);
      match Judge(element)
      case Skip => ExtractFrom(unescape, p, m + 1, accum, entries)
      case Refuse => None
      case Keep =>
        var accum' := Extend(accum, element);
        ExtractFrom(unescape, p, m + 1, accum', entries + [PathEntry(accum', p[..m])])
  }

  /** What `extractUnescapedDirs(p)` returns; None is its `null`. */
  function Extract(p: string): (r: Option<seq<PathEntry>>)
    ensures r.Some? ==> |r.value| >= 1 && r.value[0] == PathEntry("", "")
  {
    ExtractFrom(Unescape, p, 0, "", [PathEntry("", "")])
  }

  /** An element that is empty, or `.`, is skipped. */
  lemma ExtractSkips(unescape: string -> string, p: string, lastpos: nat, accum: string, entries: seq<PathEntry>, m: nat, element: string)
    requires lastpos <= |p| && m == NextSlash(p, lastpos) && element == unescape(p[lastpos..m])
    requires Judge(element) == Skip
    ensures ExtractFrom(unescape, p, lastpos, accum, entries) == ExtractFrom(unescape, p, m + 1, accum, entries)
  {
  }

  /** A blank element, `..`, or an element holding a separator ends the extraction with nothing. */
  lemma ExtractRefuses(unescape: string -> string, p: string, lastpos: nat, accum: string, entries: seq<PathEntry>, m: nat, element: string)
    requires lastpos <= |p| && m == NextSlash(p, lastpos) && element == unescape(p[lastpos..m])
    requires Judge(element) == Refuse
    ensures ExtractFrom(unescape, p, lastpos, accum, entries) == None
  {
  }

  /** Any other element extends the path and adds an entry. */
  lemma ExtractAdds(unescape: string -> string, p: string, lastpos: nat, accum: string, entries: seq<PathEntry>, m: nat, element: string)
    requires lastpos <= |p| && m == NextSlash(p, lastpos) && element == unescape(p[lastpos..m])
    requires Judge(element) == Keep
    ensures ExtractFrom(unescape, p, lastpos, accum, entries) ==
      ExtractFrom(unescape, p, m + 1, Extend(accum, element), entries + [PathEntry(Extend(accum, element), p[..m])])
  {
  }

  // The meaning of the extraction, in terms of the `/`-separated segments of the path.

  /** No `/` lies between `from` and the next slash. */
  lemma {:induction false} NextSlashClear(p: string, from: nat)
    requires from <= |p|
    ensures forall k :: from <= k < NextSlash(p, from) ==> p[k] != '/'
    decreases |p| - from
  {
    if from < |p| && p[from] != '/' {
      NextSlashClear(p, from + 1);
    }
  }

  /** The segments the scan visits from `from` on, up to each next slash; none once it is past the end. */
  function Segments(p: string, from: nat): seq<string>
    decreases |p| + 1 - from
  {
    if from > |p| then [] else [p[from..NextSlash(p, from)]] + Segments(p, NextSlash(p, from) + 1)
  }

  lemma SegmentHasNoSlash(p: string, from: nat)
    requires from <= |p|
    ensures '/' !in p[from..NextSlash(p, from)]
  {
    var m := NextSlash(p, from);
    NextSlashClear(p, from);
    assert forall k :: 0 <= k < m - from ==> p[from..m][k] == p[from + k];
  }

  lemma SplitAtSlash(p: string, from: nat, m: nat)
    requires from <= m < |p| && p[m] == '/' && '/' !in p[from..m]
    ensures Split(p[from..], '/') == [p[from..m]] + Split(p[m + 1..], '/')
  {
    assert p[from..] == p[from..m] + ['/'] + p[m + 1..];
    SplitConcat(p[from..m], p[m + 1..], '/');
    SplitNoSeparator(p[from..m], '/');
  }

  /** They are the `/`-separated parts of the rest of the path, as `split('/')` gives them. */
  lemma {:induction false} SegmentsAreSplit(p: string, from: nat)
    requires from <= |p|
    ensures Segments(p, from) == Split(p[from..], '/')
    decreases |p| - from
  {
    var m := NextSlash(p, from);
    SegmentHasNoSlash(p, from);
    if m < |p| {
      SegmentsAreSplit(p, m + 1);
      SplitAtSlash(p, from, m);
    } else {
      assert p[from..] == p[from..m];
      SplitNoSeparator(p[from..m], '/');
    }
  }

  /** Whether some segment unescapes to an element that makes the path unusable. */
  predicate SomeUnsafe(unescape: string -> string, segments: seq<string>)
  {
    segments != [] && (Unsafe(unescape(segments[0])) || SomeUnsafe(unescape, segments[1..]))
  }

  /** The elements that name directories: the unescaped segments, without empty ones and `.`. */
  function Usables(unescape: string -> string, segments: seq<string>): seq<string>
  {
    if segments == [] then []
    else
      var e := unescape(segments[0]);
      (if e == "" || e == "." then [] else [e]) + Usables(unescape, segments[1..])
  }

  /** The paths of the directories `elements` lead to, one level deeper each time, from `accum`. */
  function PathsFrom(accum: string, elements: seq<string>): (r: seq<string>)
    ensures |r| == |elements|
    decreases elements
  {
    if elements == [] then []
    else
      var next := Extend(accum, elements[0]);
      [next] + PathsFrom(next, elements[1..])
  }

  function Paths(entries: seq<PathEntry>): (r: seq<string>)
    ensures |r| == |entries|
  {
    if entries == [] then [] else Paths(entries[..|entries| - 1]) + [entries[|entries| - 1].path]
  }

  lemma {:induction false} PathAt(entries: seq<PathEntry>, k: nat)
    requires k < |entries|
    ensures Paths(entries)[k] == entries[k].path
    decreases |entries|
  {
    if k < |entries| - 1 {
      PathAt(entries[..|entries| - 1], k);
    }
  }

  lemma PathsPush(entries: seq<PathEntry>, e: PathEntry)
    ensures Paths(entries + [e]) == Paths(entries) + [e.path]
  {
    assert (entries + [e])[..|entries|] == entries;
  }

  lemma AppendAssociative<T>(a: seq<T>, b: seq<T>, c: seq<T>)
    ensures (a + b) + c == a + (b + c)
  {
  }

  /** What the loop yields from some position on, as the segments from there say. */
  predicate Explains(unescape: string -> string, r: Option<seq<PathEntry>>, entries: seq<PathEntry>, accum: string, segments: seq<string>)
  {
    (r.None? <==> SomeUnsafe(unescape, segments))
    && (r.Some? ==> Paths(r.value) == Paths(entries) + PathsFrom(accum, Usables(unescape, segments)))
  }

  /** A segment that unescapes to nothing or to `.` leaves no trace. */
  lemma SkippedSegment(unescape: string -> string, r: Option<seq<PathEntry>>, entries: seq<PathEntry>, accum: string, segment: string, rest: seq<string>)
    requires Judge(unescape(segment)) == Skip
    requires Explains(unescape, r, entries, accum, rest)
    ensures Explains(unescape, r, entries, accum, [segment] + rest)
  {
    var s := [segment] + rest;
    assert s[0] == segment && s[1..] == rest;
    JudgeMeaning(unescape(segment));
    assert !SomeUnsafe(unescape, s) <==> !SomeUnsafe(unescape, rest);
    var u := Usables(unescape, rest);
    assert Usables(unescape, s) == [] + u;
    assert [] + u == u;
  }

  /** A segment that unescapes to an unusable element spoils the whole path. */
  lemma RefusedSegment(unescape: string -> string, entries: seq<PathEntry>, accum: string, segment: string, rest: seq<string>)
    requires Judge(unescape(segment)) == Refuse
    ensures Explains(unescape, None, entries, accum, [segment] + rest)
  {
    JudgeMeaning(unescape(segment));
    assert ([segment] + rest)[0] == segment;
  }

  /** A segment that unescapes to a usable element adds one directory level. */
  lemma AddedSegment(unescape: string -> string, r: Option<seq<PathEntry>>, entries: seq<PathEntry>, accum: string, segment: string, raw: string, rest: seq<string>)
    requires Judge(unescape(segment)) == Keep
    requires Explains(unescape, r, entries + [PathEntry(Extend(accum, unescape(segment)), raw)], Extend(accum, unescape(segment)), rest)
    ensures Explains(unescape, r, entries, accum, [segment] + rest)
  {
    var s := [segment] + rest;
    assert s[0] == segment && s[1..] == rest;
    var e := unescape(segment);
    JudgeMeaning(e);
    var next := Extend(accum, e);
    var u := [e] + Usables(unescape, rest);
    assert Usables(unescape, s) == u;
    assert u[0] == e && u[1..] == Usables(unescape, rest);
    PathsPush(entries, PathEntry(next, raw));
    AppendAssociative(Paths(entries), [next], PathsFrom(next, Usables(unescape, rest)));
  }

  /** The segments from `lastpos` on: the one up to the next slash, then the rest. */
  lemma SegmentsStep(p: string, lastpos: nat)
    requires lastpos <= |p|
    ensures Segments(p, lastpos) == [p[lastpos..NextSlash(p, lastpos)]] + Segments(p, NextSlash(p, lastpos) + 1)
  {
  }

  lemma ExplainsSame(unescape: string -> string, r: Option<seq<PathEntry>>, r': Option<seq<PathEntry>>, entries: seq<PathEntry>, accum: string,
                     segments: seq<string>, segments': seq<string>)
    requires r == r' && segments == segments' && Explains(unescape, r', entries, accum, segments')
    ensures Explains(unescape, r, entries, accum, segments)
  {
  }

  lemma ExtendsSame(p: string, r: Option<seq<PathEntry>>, r': Option<seq<PathEntry>>, entries: seq<PathEntry>)
    requires r == r' && Extends(p, r', entries)
    ensures Extends(p, r, entries)
  {
  }

  /** A skipped element: the loop goes on from the next segment, unchanged. */
  lemma SkipStep(unescape: string -> string, p: string, lastpos: nat, accum: string, entries: seq<PathEntry>)
    requires lastpos <= |p| && Judge(unescape(p[lastpos..NextSlash(p, lastpos)])) == Skip
    ensures ExtractFrom(unescape, p, lastpos, accum, entries) == ExtractFrom(unescape, p, NextSlash(p, lastpos) + 1, accum, entries)
    ensures Segments(p, lastpos) == [p[lastpos..NextSlash(p, lastpos)]] + Segments(p, NextSlash(p, lastpos) + 1)
  {
    var m := NextSlash(p, lastpos);
    ExtractSkips(unescape, p, lastpos, accum, entries, m, unescape(p[lastpos..m]));
    SegmentsStep(p, lastpos);
  }

  /** A kept element: the loop goes on from the next segment with one more entry. */
  lemma KeepStep(unescape: string -> string, p: string, lastpos: nat, accum: string, entries: seq<PathEntry>)
    requires lastpos <= |p| && Judge(unescape(p[lastpos..NextSlash(p, lastpos)])) == Keep
    ensures var m := NextSlash(p, lastpos);
      var next := Extend(accum, unescape(p[lastpos..m]));
      ExtractFrom(unescape, p, lastpos, accum, entries) == ExtractFrom(unescape, p, m + 1, next, entries + [PathEntry(next, p[..m])])
    ensures Segments(p, lastpos) == [p[lastpos..NextSlash(p, lastpos)]] + Segments(p, NextSlash(p, lastpos) + 1)
  {
    var m := NextSlash(p, lastpos);
    ExtractAdds(unescape, p, lastpos, accum, entries, m, unescape(p[lastpos..m]));
    SegmentsStep(p, lastpos);
  }

  lemma {:induction false} MeaningSkip(unescape: string -> string, p: string, lastpos: nat, accum: string, entries: seq<PathEntry>)
    requires lastpos <= |p| && Judge(unescape(p[lastpos..NextSlash(p, lastpos)])) == Skip
    ensures Explains(unescape, ExtractFrom(unescape, p, lastpos, accum, entries), entries, accum, Segments(p, lastpos))
    decreases |p| + 1 - lastpos, 0
  {
    var m := NextSlash(p, lastpos);
    ExtractFromMeaning(unescape, p, m + 1, accum, entries);
    SkippedSegment(unescape, ExtractFrom(unescape, p, m + 1, accum, entries), entries, accum, p[lastpos..m], Segments(p, m + 1));
    SkipStep(unescape, p, lastpos, accum, entries);
    ExplainsSame(unescape, ExtractFrom(unescape, p, lastpos, accum, entries), ExtractFrom(unescape, p, m + 1, accum, entries), entries, accum,
                 Segments(p, lastpos), [p[lastpos..m]] + Segments(p, m + 1));
  }

  lemma MeaningRefuse(unescape: string -> string, p: string, lastpos: nat, accum: string, entries: seq<PathEntry>)
    requires lastpos <= |p| && Judge(unescape(p[lastpos..NextSlash(p, lastpos)])) == Refuse
    ensures Explains(unescape, ExtractFrom(unescape, p, lastpos, accum, entries), entries, accum, Segments(p, lastpos))
  {
    var m := NextSlash(p, lastpos);
    var segment := p[lastpos..m];
    ExtractRefuses(unescape, p, lastpos, accum, entries, m, unescape(segment));
    SegmentsStep(p, lastpos);
    RefusedSegment(unescape, entries, accum, segment, Segments(p, m + 1));
  }

  lemma {:induction false} MeaningKeep(unescape: string -> string, p: string, lastpos: nat, accum: string, entries: seq<PathEntry>)
    requires lastpos <= |p| && Judge(unescape(p[lastpos..NextSlash(p, lastpos)])) == Keep
    ensures Explains(unescape, ExtractFrom(unescape, p, lastpos, accum, entries), entries, accum, Segments(p, lastpos))
    decreases |p| + 1 - lastpos, 0
  {
    var m := NextSlash(p, lastpos);
    var next := Extend(accum, unescape(p[lastpos..m]));
    var more := entries + [PathEntry(next, p[..m])];
    ExtractFromMeaning(unescape, p, m + 1, next, more);
    AddedSegment(unescape, ExtractFrom(unescape, p, m + 1, next, more), entries, accum, p[lastpos..m], p[..m], Segments(p, m + 1));
    KeepStep(unescape, p, lastpos, accum, entries);
    ExplainsSame(unescape, ExtractFrom(unescape, p, lastpos, accum, entries), ExtractFrom(unescape, p, m + 1, next, more), entries, accum,
                 Segments(p, lastpos), [p[lastpos..m]] + Segments(p, m + 1));
  }

  /** The loop from `lastpos` on refuses or adds exactly as the remaining segments say. */
  lemma {:induction false} ExtractFromMeaning(unescape: string -> string, p: string, lastpos: nat, accum: string, entries: seq<PathEntry>)
    requires lastpos <= |p| + 1
    ensures Explains(unescape, ExtractFrom(unescape, p, lastpos, accum, entries), entries, accum, Segments(p, lastpos))
    decreases |p| + 1 - lastpos, 1
  {
    if lastpos > |p| {
      assert Paths(entries) + PathsFrom(accum, Usables(unescape, [])) == Paths(entries);
    } else {
      var verdict := Judge(unescape(p[lastpos..NextSlash(p, lastpos)]));
      if verdict == Skip {
        MeaningSkip(unescape, p, lastpos, accum, entries);
      } else if verdict == Refuse {
        MeaningRefuse(unescape, p, lastpos, accum, entries);
      } else {
        MeaningKeep(unescape, p, lastpos, accum, entries);
      }
    }
  }

  /** When no segment is unsafe, every element kept names a directory. */
  lemma {:induction false} UsablesAreUsable(unescape: string -> string, segments: seq<string>)
    requires !SomeUnsafe(unescape, segments)
    ensures forall i :: 0 <= i < |Usables(unescape, segments)| ==> Usable(Usables(unescape, segments)[i])
  {
    if segments != [] {
      UsablesAreUsable(unescape, segments[1..]);
      var e := unescape(segments[0]);
      var head: seq<string> := if e == "" || e == "." then [] else [e];
      var u := Usables(unescape, segments[1..]);
      assert Usables(unescape, segments) == head + u;
      forall i | 0 <= i < |head + u|
        ensures Usable((head + u)[i])
      {
        if i >= |head| {
          assert (head + u)[i] == u[i - |head|];
        }
      }
    }
  }

  /** Extending step by step is joining with the separator. */
  lemma {:induction false} PathsFromJoin(accum: string, done: seq<string>, elements: seq<string>)
    requires accum == Join(done, '/') && (done == [] <==> accum == "")
    requires forall i :: 0 <= i < |elements| ==> elements[i] != ""
    ensures forall k :: 0 <= k < |elements| ==> PathsFrom(accum, elements)[k] == Join(done + elements[..k + 1], '/')
    decreases elements
  {
    if elements != [] {
      var e := elements[0];
      var next := Extend(accum, e);
      var done' := done + [e];
      if done == [] {
        assert done' == [e];
      } else {
        JoinAppend(done, [e], '/');
      }
      assert next == Join(done', '/');
      PathsFromJoin(next, done', elements[1..]);
      forall k | 0 <= k < |elements|
        ensures PathsFrom(accum, elements)[k] == Join(done + elements[..k + 1], '/')
      {
        if k == 0 {
          assert done + elements[..1] == done';
        } else {
          assert PathsFrom(accum, elements)[k] == PathsFrom(next, elements[1..])[k - 1];
          assert done' + elements[1..][..k] == done + elements[..k + 1];
        }
      }
    }
  }

  /**
   * `extractUnescapedDirs(p)` is null exactly when some `/`-separated
   * segment of `p` unescapes to a blank element, `..`, or one holding `/`
   * or `\`; otherwise it lists the root, then one directory per remaining
   * element other than `.`, each one level below the one before.
   */
  lemma ExtractMeaning(p: string)
    ensures Extract(p).None? <==> SomeUnsafe(Unescape, Split(p, '/'))
    ensures Extract(p).Some? ==> Paths(Extract(p).value) == [""] + PathsFrom("", Usables(Unescape, Split(p, '/')))
    ensures Extract(p).Some? ==>
      var elements := Usables(Unescape, Split(p, '/'));
      (forall i :: 0 <= i < |elements| ==> Usable(elements[i]))
      && forall k :: 1 <= k < |Extract(p).value| ==> Extract(p).value[k].path == Join(elements[..k], '/')
  {
    assert p[0..] == p;
    SegmentsAreSplit(p, 0);
    ExtractFromMeaning(Unescape, p, 0, "", [PathEntry("", "")]);
    assert Paths([PathEntry("", "")]) == [""] by {
      assert [PathEntry("", "")][..0] == [];
    }
    if Extract(p).Some? {
      var r := Extract(p).value;
      var elements := Usables(Unescape, Split(p, '/'));
      UsablesAreUsable(Unescape, Split(p, '/'));
      PathsFromJoin("", [], elements);
      forall k | 1 <= k < |r|
        ensures r[k].path == Join(elements[..k], '/')
      {
        PathAt(r, k);
        assert ([""] + PathsFrom("", elements))[k] == PathsFrom("", elements)[k - 1];
        assert [] + elements[..k] == elements[..k];
      }
    }
  }

  /** `raw` is the path up to a slash or up to its end. */
  predicate CutOf(p: string, raw: string)
  {
    |raw| <= |p| && raw == p[..|raw|] && (|raw| == |p| || p[|raw|] == '/')
  }

  /** The entries after the root come from cuts of the path before `bound`, each longer than the one before. */
  predicate RawPathsBefore(p: string, entries: seq<PathEntry>, bound: nat)
  {
    (forall k :: 1 <= k < |entries| ==> CutOf(p, entries[k].rawPath) && |entries[k].rawPath| < bound)
    && (forall k :: 1 <= k < |entries| - 1 ==> |entries[k].rawPath| < |entries[k + 1].rawPath|)
  }

  lemma RawPathsPush(p: string, entries: seq<PathEntry>, lastpos: nat, m: nat, path: string)
    requires lastpos <= m <= |p| && (m == |p| || p[m] == '/')
    requires RawPathsBefore(p, entries, lastpos)
    ensures RawPathsBefore(p, entries + [PathEntry(path, p[..m])], m + 1)
  {
    var more := entries + [PathEntry(path, p[..m])];
    assert more[|entries|].rawPath == p[..m];
    assert CutOf(p, p[..m]);
    forall k | 1 <= k < |more| - 1
      ensures |more[k].rawPath| < |more[k + 1].rawPath|
    {
      assert more[k] == entries[k];
    }
  }

  /** What the loop yields extends `entries` with ever longer cuts of the path. */
  predicate Extends(p: string, r: Option<seq<PathEntry>>, entries: seq<PathEntry>)
  {
    r.Some? ==> entries <= r.value && RawPathsBefore(p, r.value, |p| + 1)
  }

  lemma ExtendsTrans(p: string, r: Option<seq<PathEntry>>, entries: seq<PathEntry>, more: seq<PathEntry>)
    requires entries <= more && Extends(p, r, more)
    ensures Extends(p, r, entries)
  {
  }

  lemma {:induction false} RawPathsSkip(unescape: string -> string, p: string, lastpos: nat, accum: string, entries: seq<PathEntry>)
    requires lastpos <= |p| && Judge(unescape(p[lastpos..NextSlash(p, lastpos)])) == Skip
    requires RawPathsBefore(p, entries, lastpos)
    ensures Extends(p, ExtractFrom(unescape, p, lastpos, accum, entries), entries)
    decreases |p| + 1 - lastpos, 0
  {
    assert RawPathsBefore(p, entries, NextSlash(p, lastpos) + 1);
    ExtractFromRawPaths(unescape, p, NextSlash(p, lastpos) + 1, accum, entries);
    SkipStep(unescape, p, lastpos, accum, entries);
    ExtendsSame(p, ExtractFrom(unescape, p, lastpos, accum, entries), ExtractFrom(unescape, p, NextSlash(p, lastpos) + 1, accum, entries), entries);
  }

  lemma RawPathsRefuse(unescape: string -> string, p: string, lastpos: nat, accum: string, entries: seq<PathEntry>)
    requires lastpos <= |p| && Judge(unescape(p[lastpos..NextSlash(p, lastpos)])) == Refuse
    ensures Extends(p, ExtractFrom(unescape, p, lastpos, accum, entries), entries)
  {
    var m := NextSlash(p, lastpos);
    ExtractRefuses(unescape, p, lastpos, accum, entries, m, unescape(p[lastpos..m]));
  }

  lemma {:induction false} RawPathsKeep(unescape: string -> string, p: string, lastpos: nat, accum: string, entries: seq<PathEntry>)
    requires lastpos <= |p| && Judge(unescape(p[lastpos..NextSlash(p, lastpos)])) == Keep
    requires RawPathsBefore(p, entries, lastpos)
    ensures Extends(p, ExtractFrom(unescape, p, lastpos, accum, entries), entries)
    decreases |p| + 1 - lastpos, 0
  {
    var m := NextSlash(p, lastpos);
    var next := Extend(accum, unescape(p[lastpos..m]));
    var more := entries + [PathEntry(next, p[..m])];
    RawPathsPush(p, entries, lastpos, m, next);
    ExtractFromRawPaths(unescape, p, m + 1, next, more);
    ExtendsTrans(p, ExtractFrom(unescape, p, m + 1, next, more), entries, more);
    KeepStep(unescape, p, lastpos, accum, entries);
    ExtendsSame(p, ExtractFrom(unescape, p, lastpos, accum, entries), ExtractFrom(unescape, p, m + 1, next, more), entries);
  }

  /** The loop only appends, and what it appends are ever longer cuts of the path. */
  lemma {:induction false} ExtractFromRawPaths(unescape: string -> string, p: string, lastpos: nat, accum: string, entries: seq<PathEntry>)
    requires lastpos <= |p| + 1
    requires RawPathsBefore(p, entries, lastpos)
    ensures Extends(p, ExtractFrom(unescape, p, lastpos, accum, entries), entries)
    decreases |p| + 1 - lastpos, 1
  {
    if lastpos > |p| {
      assert RawPathsBefore(p, entries, |p| + 1);
    } else {
      var verdict := Judge(unescape(p[lastpos..NextSlash(p, lastpos)]));
      if verdict == Skip {
        RawPathsSkip(unescape, p, lastpos, accum, entries);
      } else if verdict == Refuse {
        RawPathsRefuse(unescape, p, lastpos, accum, entries);
      } else {
        RawPathsKeep(unescape, p, lastpos, accum, entries);
      }
    }
  }

  /**
   * The first candidate is always the root; the others carry the part of
   * the URL up to the slash (or the end) after their element, in order.
   */
  lemma ExtractRawPaths(p: string)
    ensures Extract(p).Some? ==>
      var r := Extract(p).value;
      |r| >= 1 && r[0] == PathEntry("", "") && RawPathsBefore(p, r, |p| + 1)
  {
    ExtractFromRawPaths(Unescape, p, 0, "", [PathEntry("", "")]);
    if Extract(p).Some? {
      assert [PathEntry("", "")] <= Extract(p).value;
    }
  }

  /** `extractUnescapedDirs(p)`: the loop below, unescaping with the global `unescape`. */
  method ExtractUnescapedDirs(p: string) returns (r: Option<seq<PathEntry>>)
    ensures r == Extract(p)
  {
    r := ExtractDirsWith(Unescape, p);
  }

  /** The loop of `extractUnescapedDirs`, each element decoded by `unescape`. */
  method ExtractDirsWith(unescape: string -> string, p: string) returns (r: Option<seq<PathEntry>>)
    ensures r == ExtractFrom(unescape, p, 0, "", [PathEntry("", "")])
  {
    var pathAccum := "";
    var pathElements := [PathEntry("", "")];
    var lastpos := 0;
    ghost var result := ExtractFrom(unescape, p, 0, pathAccum, pathElements);
    while lastpos <= |p|
      invariant result == ExtractFrom(unescape, p, lastpos, pathAccum, pathElements)
      decreases |p| + 1 - lastpos
    {
      var bail, m;
      bail, m, pathAccum, pathElements := ExtractElement(unescape, p, lastpos, pathAccum, pathElements);
      if bail {
        return None;
      }
      lastpos := m + 1;
    }
    return Some(pathElements);
  }

  /**
   * One pass of that loop: the element up to the next slash is unescaped,
   * then skipped, refused (`bail`, the loop returns null) or added.
   */
  method ExtractElement(unescape: string -> string, p: string, lastpos: nat, pathAccum: string, pathElements: seq<PathEntry>)
    returns (bail: bool, m: nat, accum: string, entries: seq<PathEntry>)
    requires lastpos <= |p|
    ensures m == NextSlash(p, lastpos)
    ensures bail ==> ExtractFrom(unescape, p, lastpos, pathAccum, pathElements) == None
    ensures !bail ==> ExtractFrom(unescape, p, lastpos, pathAccum, pathElements) == ExtractFrom(unescape, p, m + 1, accum, entries)
  {
    m := NextSlash(p, lastpos);
    var element := unescape(p[lastpos..m]);
    accum, entries := pathAccum, pathElements;
    if element == "" {
      ExtractSkips(unescape, p, lastpos, pathAccum, pathElements, m, element);
      return false, m, accum, entries;
    }
    if Blank(element) {
      ExtractRefuses(unescape, p, lastpos, pathAccum, pathElements, m, element);
      return true, m, accum, entries;
    }
    if element == ".." {
      ExtractRefuses(unescape, p, lastpos, pathAccum, pathElements, m, element);
      return true, m, accum, entries;
    }
    if element == "." {
      ExtractSkips(unescape, p, lastpos, pathAccum, pathElements, m, element);
      return false, m, accum, entries;
    }
    if HasSeparator(element) {
      ExtractRefuses(unescape, p, lastpos, pathAccum, pathElements, m, element);
      return true, m, accum, entries;
    }
    ExtractAdds(unescape, p, lastpos, pathAccum, pathElements, m, element);
    if accum != "" {
      accum := accum + "/";
    }
    accum := accum + element;
    assert accum == Extend(pathAccum, element);
    entries := entries + [PathEntry(accum, p[..m])];
    bail := false;
  }
}
