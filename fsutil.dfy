/**
 * `safeTail_p`: the last `maxlen` bytes of a file, starting at a character
 * boundary and, when the file was cut, at the start of a whole line. Every
 * failure (no path, no file, an empty file, a failed read) gives "".
 *
 * The file system is an input: what `open`, `fstat` and `read` would report
 * for the path. The result is kept as bytes; decoding them is not modelled,
 * which loses nothing for the line trimming because in UTF-8 the byte 0x0A
 * only ever encodes "\n".
 */
module FsUtil {
  import opened Common

  type byte = b: int | 0 <= b < 256

  const LineFeed: byte := 0x0A

  /** What the file system reports for the path. */
  datatype FileAccess =
    | CannotOpen                                   // `fs.open` fails
    | CannotStat                                   // `fs.fstat` fails
    | Opened(content: seq<byte>, readFails: bool)  // the file, and whether `fs.read` fails

  /** A JavaScript falsy path: undefined, null or "". */
  predicate FalsyPath(path: Option<string>)
  {
    path.None? || path.value == []
  }

  /** `Math.max(0, len - maxlen)`: where the read starts, so that at most `maxlen` bytes are read. */
  function ReadStart(len: nat, maxlen: nat): (index: nat)
    ensures index <= len
    ensures len - index == (if len <= maxlen then len else maxlen)
    ensures index == 0 <==> len <= maxlen
  {
    if len <= maxlen then 0 else len - maxlen
  }

  /** A UTF-8 continuation byte, `10xxxxxx`: it never starts a character. */
  predicate IsContinuation(b: byte)
  {
    0x80 <= b < 0xC0
  }

  /** The loop's test as written: any byte with the top bit set, lead bytes included. */
  predicate IsHigh(b: byte)
  {
    b >= 0x80
  }

  /** The number of continuation bytes the data starts with. */
  function LeadingContinuations(s: seq<byte>): (n: nat)
    ensures n <= |s|
    ensures forall k :: 0 <= k < n ==> IsContinuation(s[k])
    ensures n == |s| || !IsContinuation(s[n])
  {
    if s == [] || !IsContinuation(s[0]) then 0
    else 1 + LeadingContinuations(s[1..])
  }

  /** The number of bytes at or above 0x80 the data starts with. */
  function LeadingHigh(s: seq<byte>): (n: nat)
    ensures n <= |s|
    ensures forall k :: 0 <= k < n ==> IsHigh(s[k])
    ensures n == |s| || !IsHigh(s[n])
  {
    if s == [] || !IsHigh(s[0]) then 0
    else 1 + LeadingHigh(s[1..])
  }

  /** `s.indexOf('\n')` on the bytes. */
  function FirstLineFeed(s: seq<byte>): (i: int)
    ensures -1 <= i < |s|
    ensures i >= 0 ==> s[i] == LineFeed
    ensures forall k :: 0 <= k < |s| && (i < 0 || k < i) ==> s[k] != LineFeed
  {
    if s == [] then -1
    else if s[0] == LineFeed then 0
    else
      var j := FirstLineFeed(s[1..]);
      if j < 0 then -1 else j + 1
  }

  /** `str.substring(str.indexOf('\n') + 1)`: everything through the first "\n" removed, or nothing if there is none. */
  function DropFirstLine(s: seq<byte>): (r: seq<byte>)
  {
    s[FirstLineFeed(s) + 1..]
  }

  /** The bytes read, from the first one that is not a continuation byte on. */
  function Decoded(content: seq<byte>, maxlen: nat): seq<byte>
  {
    var window := content[ReadStart(|content|, maxlen)..];
    window[LeadingContinuations(window)..]
  }

  /** What is decoded is the end of the file and holds at most `maxlen` bytes. */
  lemma DecodedIsSuffix(content: seq<byte>, maxlen: nat)
    ensures var str := Decoded(content, maxlen);
      |str| <= maxlen && |str| <= |content| && str == content[|content| - |str|..]
  {
    var index := ReadStart(|content|, maxlen);
    var window := content[index..];
    var str := window[LeadingContinuations(window)..];
    assert |str| == |content| - index - LeadingContinuations(window);
    assert str == content[index + LeadingContinuations(window)..];
  }

  /** What `safeTail_p` resolves to, with the skipping of continuation bytes only. */
  function Tail(path: Option<string>, maxlen: nat, file: FileAccess): (r: seq<byte>)
    ensures r != [] ==> !FalsyPath(path) && file.Opened? && !file.readFails
    ensures |r| <= maxlen
  {
    if FalsyPath(path) || !file.Opened? || |file.content| == 0 || file.readFails then []
    else
      var str := Decoded(file.content, maxlen);
      DecodedIsSuffix(file.content, maxlen);
      DropFirstLineSuffix(str);
      if ReadStart(|file.content|, maxlen) != 0 then DropFirstLine(str) else str
  }

  /** The same as written: every leading byte at or above 0x80 is skipped, lead bytes of whole characters too. */
  function TailAsWritten(path: Option<string>, maxlen: nat, file: FileAccess): (r: seq<byte>)
    ensures r != [] ==> !FalsyPath(path) && file.Opened? && !file.readFails
    ensures |r| <= maxlen
  {
    if FalsyPath(path) || !file.Opened? || |file.content| == 0 || file.readFails then []
    else
      var index := ReadStart(|file.content|, maxlen);
      var window := file.content[index..];
      var str := window[LeadingHigh(window)..];
      DropFirstLineSuffix(str);
      if index != 0 then DropFirstLine(str) else str
  }

  /** Every failure resolves to "". */
  lemma TailFailures(path: Option<string>, maxlen: nat, file: FileAccess)
    requires FalsyPath(path) || file == CannotOpen || file == CannotStat
      || (file.Opened? && (file.content == [] || file.readFails))
    ensures Tail(path, maxlen, file) == []
    ensures TailAsWritten(path, maxlen, file) == []
  {
  }

  /** What `DropFirstLine` keeps is the end of its input, just after its first "\n" if it has one. */
  lemma DropFirstLineShape(s: seq<byte>)
    ensures var r := DropFirstLine(s);
      |r| <= |s| && r == s[|s| - |r|..]
      && (FirstLineFeed(s) < 0 ==> r == s)
      && (FirstLineFeed(s) >= 0 ==>
            |r| < |s| && s[|s| - |r| - 1] == LineFeed
            && forall k :: 0 <= k < |s| - |r| - 1 ==> s[k] != LineFeed)
  {
    var i := FirstLineFeed(s);
    assert |s[i + 1..]| == |s| - i - 1;
    if i < 0 {
      assert s[0..] == s;
    }
  }

  /** The result is the end of the file and holds at most `maxlen` bytes. */
  lemma TailIsBoundedSuffix(path: Option<string>, maxlen: nat, file: FileAccess)
    requires file.Opened?
    ensures var r := Tail(path, maxlen, file);
      |r| <= maxlen && |r| <= |file.content| && r == file.content[|file.content| - |r|..]
  {
    if !(FalsyPath(path) || |file.content| == 0 || file.readFails) {
      var c := file.content;
      var str := Decoded(c, maxlen);
      var r := Tail(path, maxlen, file);
      DecodedIsSuffix(c, maxlen);
      if ReadStart(|c|, maxlen) != 0 {
        assert r == DropFirstLine(str);
        DropFirstLineSuffix(str);
        SuffixOfSuffix(c, str, r);
      } else {
        assert r == str;
      }
    }
  }

  lemma DropFirstLineSuffix(s: seq<byte>)
    ensures var r := DropFirstLine(s); |r| <= |s| && r == s[|s| - |r|..]
  {
    var i := FirstLineFeed(s);
    assert |s[i + 1..]| == |s| - i - 1;
  }

  lemma SuffixOfSuffix(a: seq<byte>, b: seq<byte>, c: seq<byte>)
    requires |b| <= |a| && b == a[|a| - |b|..]
    requires |c| <= |b| && c == b[|b| - |c|..]
    ensures c == a[|a| - |c|..]
  {
    assert a[|a| - |b|..][|b| - |c|..] == a[|a| - |c|..];
  }

  /** A file that fits, and starts on a character boundary, comes back whole. */
  lemma TailWholeFile(path: Option<string>, maxlen: nat, content: seq<byte>)
    requires !FalsyPath(path) && |content| <= maxlen
    requires content == [] || !IsContinuation(content[0])
    ensures Tail(path, maxlen, Opened(content, false)) == content
  {
    if content != [] {
      assert ReadStart(|content|, maxlen) == 0;
      assert content[0..] == content;
      assert LeadingContinuations(content) == 0;
      assert Decoded(content, maxlen) == content;
    }
  }

  /** A cut file starts after the first "\n" of what was read, or where the read started if it has none. */
  lemma TailCutFile(path: Option<string>, maxlen: nat, content: seq<byte>)
    requires !FalsyPath(path) && |content| > maxlen
    ensures var str := Decoded(content, maxlen);
      var r := Tail(path, maxlen, Opened(content, false));
      (FirstLineFeed(str) < 0 ==> r == str)
      && (FirstLineFeed(str) >= 0 ==>
            |r| < |str| && str[|str| - |r| - 1] == LineFeed && r == str[|str| - |r|..]
            && forall k :: 0 <= k < |str| - |r| - 1 ==> str[k] != LineFeed)
  {
    var str := Decoded(content, maxlen);
    assert Tail(path, maxlen, Opened(content, false)) == DropFirstLine(str);
    DropFirstLineShape(str);
  }

  /** The two agree unless the data read starts with a lead byte of a whole character. */
  lemma TailAgreement(path: Option<string>, maxlen: nat, content: seq<byte>)
    requires content != [] && !FalsyPath(path)
    requires var w := content[ReadStart(|content|, maxlen)..];
      LeadingContinuations(w) == |w| || !IsHigh(w[LeadingContinuations(w)])
    ensures TailAsWritten(path, maxlen, Opened(content, false)) == Tail(path, maxlen, Opened(content, false))
  {
    var w := content[ReadStart(|content|, maxlen)..];
    ContinuationsThenLow(w, LeadingContinuations(w));
  }

  lemma {:induction false} ContinuationsThenLow(w: seq<byte>, n: nat)
    requires n <= |w| && (forall k :: 0 <= k < n ==> IsContinuation(w[k]))
    requires n == |w| || !IsHigh(w[n])
    ensures LeadingHigh(w) == n
    decreases n
  {
    if n > 0 {
      assert IsContinuation(w[0]);
      ContinuationsThenLow(w[1..], n - 1);
    }
  }

  /** A whole file starting with "é" (0xC3 0xA9): as written the character is dropped. */
  lemma WholeFileAsWritten()
    ensures TailAsWritten(Some("f"), 10, Opened([0xC3, 0xA9, 0x61], false)) == [0x61]
  {
    var c: seq<byte> := [0xC3, 0xA9, 0x61];
    assert c[0..] == c;
    assert LeadingHigh(c[2..]) == 0;
    assert LeadingHigh(c[1..]) == 1;
    assert LeadingHigh(c) == 2;
  }

  /** The same file with only continuation bytes skipped: the character is kept. */
  lemma WholeFileCorrected()
    ensures Tail(Some("f"), 10, Opened([0xC3, 0xA9, 0x61], false)) == [0xC3, 0xA9, 0x61]
  {
    TailWholeFile(Some("f"), 10, [0xC3, 0xA9, 0x61]);
  }

  /**
   * `safeTail_p` with the file system's answers as inputs: the read fills a
   * buffer of `bytesToRead` bytes, the loop steps `pos` over the leading
   * continuation bytes, and a cut file loses its first, partial, line.
   */
  method SafeTail(path: Option<string>, maxlen: nat, file: FileAccess) returns (r: seq<byte>)
    ensures r == Tail(path, maxlen, file)
  {
    if FalsyPath(path) {
      return [];
    }
    if !file.Opened? {
      return [];
    }
    var len := |file.content|;
    if len == 0 {
      return [];
    }
    var index := ReadStart(len, maxlen);
    var bytesToRead := len - index;
    var buffer := new byte[bytesToRead];
    if file.readFails {
      return [];
    }
    forall i | 0 <= i < bytesToRead {
      buffer[i] := file.content[index + i];
    }
    assert buffer[..] == file.content[index..];
    var pos := 0;
    while pos < bytesToRead && IsContinuation(buffer[pos])
      invariant pos <= bytesToRead
      invariant forall k :: 0 <= k < pos ==> IsContinuation(buffer[k])
    {
      pos := pos + 1;
    }
    SkippedContinuations(buffer[..], pos);
    var str := buffer[pos..];
    if index != 0 {
      str := str[FirstLineFeed(str) + 1..];
    }
    return str;
  }

  /** A loop that stops at the first byte that is not a continuation byte has counted them. */
  lemma {:induction false} SkippedContinuations(w: seq<byte>, n: nat)
    requires n <= |w| && (forall k :: 0 <= k < n ==> IsContinuation(w[k]))
    requires n == |w| || !IsContinuation(w[n])
    ensures LeadingContinuations(w) == n
    decreases n
  {
    if n > 0 {
      SkippedContinuations(w[1..], n - 1);
    }
  }
}
