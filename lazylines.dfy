/**
 * The line splitter the passwd-file reader uses: text arrives in chunks,
 * complete lines (with their "\n") are emitted as soon as they are seen, the
 * unfinished tail of a chunk waits for the next one, and whatever waits at
 * the end of the input is emitted last. Also the helpers that strip a line
 * break and guess a text's line-break convention.
 */
module LazyLines {
  import opened Common

  /** A complete line: it ends in "\n" and has no other "\n". */
  predicate IsLine(l: string)
  {
    |l| > 0 && l[|l| - 1] == '\n' && forall i :: 0 <= i < |l| - 1 ==> l[i] != '\n'
  }

  predicate NoNewline(s: string)
  {
    forall i :: 0 <= i < |s| ==> s[i] != '\n'
  }

  /** Ends in "\n" (and so is not empty). */
  predicate EndsInNewline(l: string)
  {
    |l| > 0 && l[|l| - 1] == '\n'
  }

  /** `data.indexOf("\n")`: the index of the first "\n", or -1. */
  function FirstNewline(s: string): (i: int)
    ensures -1 <= i < |s|
    ensures i >= 0 ==> s[i] == '\n' && forall k :: 0 <= k < i ==> s[k] != '\n'
    ensures i < 0 ==> NoNewline(s)
  {
    if s == [] then -1
    else if s[0] == '\n' then 0
    else
      var k := FirstNewline(s[1..]);
      assert forall j :: 1 <= j < |s| ==> s[j] == s[1..][j - 1];
      if k < 0 then -1 else k + 1
  }

  /** The lines put back together. */
  function Concat(lines: seq<string>): string
  {
    if lines == [] then [] else lines[0] + Concat(lines[1..])
  }

  lemma {:induction false} ConcatAppend(a: seq<string>, b: seq<string>)
    ensures Concat(a + b) == Concat(a) + Concat(b)
  {
    if a == [] {
      assert a + b == b;
    } else {
      assert (a + b)[1..] == a[1..] + b;
      ConcatAppend(a[1..], b);
    }
  }

  /**
   * The `data` handler on one chunk, with the text waiting from earlier
   * chunks in `prev` ("" stands for `previousText === null`, which is never
   * set to an empty string): the lines it emits and the text left waiting.
   * A chunk without "\n" is appended to what waits.
   */
  function Step(prev: string, data: string): (r: (seq<string>, string))
    ensures forall k :: 0 <= k < |r.0| ==> EndsInNewline(r.0[k])
    ensures r.0 == [] <==> NoNewline(data)
    ensures NoNewline(data) ==> r.1 == prev + data
    decreases |data|
  {
    if data == [] then ([], prev)
    else
      var i := FirstNewline(data);
      if i < 0 then ([], prev + data)
      else
        var rest := Step([], data[i + 1..]);
        ([prev + data[..i + 1]] + rest.0, rest.1)
  }

  /** The same, as the handler is written: a chunk without "\n" replaces what waits. */
  function StepAsWritten(prev: string, data: string): (r: (seq<string>, string))
    ensures forall k :: 0 <= k < |r.0| ==> EndsInNewline(r.0[k])
    ensures r.0 == [] <==> NoNewline(data)
    ensures NoNewline(data) && data != [] ==> r.1 == data
    decreases |data|
  {
    if data == [] then ([], prev)
    else
      var i := FirstNewline(data);
      if i < 0 then ([], data)
      else
        var rest := StepAsWritten([], data[i + 1..]);
        ([prev + data[..i + 1]] + rest.0, rest.1)
  }

  /** A chunk is its text up to the first "\n", the "\n", and the rest. */
  lemma SplitAtNewline(data: string)
    requires FirstNewline(data) >= 0
    ensures var i := FirstNewline(data);
      NoNewline(data[..i]) && data == data[..i] + "\n" + data[i + 1..]
  {
    var i := FirstNewline(data);
    assert data[..i] + "\n" + data[i + 1..] == data[..i + 1] + data[i + 1..];
  }

  /** The handler on a chunk with a "\n" after `a`: one line, then the rest of the chunk on its own. */
  lemma StepNewline(prev: string, a: string, b: string)
    requires NoNewline(a)
    ensures Step(prev, a + "\n" + b) == ([prev + (a + "\n")] + Step([], b).0, Step([], b).1)
    ensures StepAsWritten(prev, a + "\n" + b) == ([prev + (a + "\n")] + StepAsWritten([], b).0, StepAsWritten([], b).1)
  {
    var d := a + "\n" + b;
    assert d[|a|] == '\n';
    assert forall k :: 0 <= k < |a| ==> d[k] == a[k];
    assert FirstNewline(d) == |a|;
    assert d[..|a| + 1] == a + "\n";
    assert d[|a| + 1..] == b;
  }

  /** The handler on a non-empty chunk without "\n". */
  lemma StepPlain(prev: string, data: string)
    requires data != [] && NoNewline(data)
    ensures Step(prev, data) == ([], prev + data)
    ensures StepAsWritten(prev, data) == ([], data)
  {
  }

  lemma Assoc<T>(x: seq<T>, y: seq<T>, z: seq<T>)
    ensures x + y + z == x + (y + z)
  {
  }

  /** Every line a chunk completes is a whole line, and what is left waiting has no "\n". */
  lemma {:induction false} StepLines(prev: string, data: string)
    requires NoNewline(prev)
    ensures forall k :: 0 <= k < |Step(prev, data).0| ==> IsLine(Step(prev, data).0[k])
    ensures NoNewline(Step(prev, data).1)
    decreases |data|
  {
    if data != [] {
      var i := FirstNewline(data);
      if i < 0 {
        StepPlain(prev, data);
      } else {
        SplitAtNewline(data);
        var a, b := data[..i], data[i + 1..];
        StepNewline(prev, a, b);
        StepLines([], b);
        var line := prev + (a + "\n");
        assert IsLine(line) by {
          forall k | 0 <= k < |line| - 1
            ensures line[k] != '\n'
          {
            if k >= |prev| {
              assert line[k] == a[k - |prev|];
            }
          }
        }
      }
    }
  }

  /** Nothing is lost or reordered: the lines and what waits spell out what waited before and the chunk. */
  lemma {:induction false} StepLossless(prev: string, data: string)
    ensures Concat(Step(prev, data).0) + Step(prev, data).1 == prev + data
    decreases |data|
  {
    if data != [] {
      var i := FirstNewline(data);
      if i >= 0 {
        SplitAtNewline(data);
        var a, b := data[..i], data[i + 1..];
        StepNewline(prev, a, b);
        StepLossless([], b);
        var rest := Step([], b);
        var line := prev + (a + "\n");
        assert Concat([line] + rest.0) == line + Concat(rest.0) by {
          assert ([line] + rest.0)[1..] == rest.0;
        }
        assert Concat(rest.0) + rest.1 == b by {
          assert [] + b == b;
        }
        Assoc(line, Concat(rest.0), rest.1);
        Assoc(prev, a + "\n", b);
        Assoc(a, "\n", b);
      }
    }
  }

  /** The code as written agrees whenever nothing waits, or the chunk completes a line. */
  lemma StepAgreement(prev: string, data: string)
    requires prev == [] || FirstNewline(data) >= 0 || data == []
    ensures StepAsWritten(prev, data) == Step(prev, data)
  {
    if data != [] && FirstNewline(data) >= 0 {
      SplitAtNewline(data);
      var i := FirstNewline(data);
      StepNewline(prev, data[..i], data[i + 1..]);
      StepAgreementEmpty(data[i + 1..]);
    } else {
      StepAgreementEmpty(data);
    }
  }

  lemma {:induction false} StepAgreementEmpty(data: string)
    ensures StepAsWritten([], data) == Step([], data)
    decreases |data|
  {
    if data != [] {
      var i := FirstNewline(data);
      if i >= 0 {
        SplitAtNewline(data);
        StepNewline([], data[..i], data[i + 1..]);
        StepAgreementEmpty(data[i + 1..]);
      } else {
        StepPlain([], data);
        assert [] + data == data;
      }
    }
  }

  /** The whole input in chunks: the lines of every `data` event, then the waiting text at `end`. */
  function Stream(chunks: seq<string>): (r: seq<string>)
    ensures forall k :: 0 <= k < |r| ==> r[k] != []
    ensures forall k :: 0 <= k < |r| - 1 ==> EndsInNewline(r[k])
  {
    var r := Feed([], chunks);
    r.0 + (if r.1 == [] then [] else [r.1])
  }

  function Feed(prev: string, chunks: seq<string>): (r: (seq<string>, string))
    ensures forall k :: 0 <= k < |r.0| ==> EndsInNewline(r.0[k])
    decreases |chunks|
  {
    if chunks == [] then ([], prev)
    else
      var first := Step(prev, chunks[0]);
      var rest := Feed(first.1, chunks[1..]);
      (first.0 + rest.0, rest.1)
  }

  function StreamAsWritten(chunks: seq<string>): seq<string>
  {
    var r := FeedAsWritten([], chunks);
    r.0 + (if r.1 == [] then [] else [r.1])
  }

  function FeedAsWritten(prev: string, chunks: seq<string>): (seq<string>, string)
    decreases |chunks|
  {
    if chunks == [] then ([], prev)
    else
      var first := StepAsWritten(prev, chunks[0]);
      var rest := FeedAsWritten(first.1, chunks[1..]);
      (first.0 + rest.0, rest.1)
  }

  /** The emitted lines spell out the whole input, however it was cut into chunks. */
  lemma {:induction false} FeedLossless(prev: string, chunks: seq<string>)
    ensures Concat(Feed(prev, chunks).0) + Feed(prev, chunks).1 == prev + Concat(chunks)
    decreases |chunks|
  {
    if chunks != [] {
      var first := Step(prev, chunks[0]);
      StepLossless(prev, chunks[0]);
      FeedLossless(first.1, chunks[1..]);
      var rest := Feed(first.1, chunks[1..]);
      ConcatAppend(first.0, rest.0);
      assert Concat(chunks) == chunks[0] + Concat(chunks[1..]);
      Assoc(Concat(first.0), Concat(rest.0), rest.1);
      Assoc(Concat(first.0), first.1, Concat(chunks[1..]));
      Assoc(prev, chunks[0], Concat(chunks[1..]));
    }
  }

  lemma StreamLossless(chunks: seq<string>)
    ensures Concat(Stream(chunks)) == Concat(chunks)
  {
    var r := Feed([], chunks);
    FeedLossless([], chunks);
    ConcatAppend(r.0, if r.1 == [] then [] else [r.1]);
    assert [] + Concat(chunks) == Concat(chunks);
    if r.1 != [] {
      assert Concat([r.1]) == r.1 + Concat([]);
    }
  }

  /** The splitter's unit test: the text cut into five-character chunks. */
  lemma StreamSample(c0: string, c1: string, c2: string, c3: string, c4: string)
    requires c0 == "first" && c1 == "\nseco" && c2 == "nd\nth" && c3 == "ird\n\n" && c4 == "last"
    ensures Stream([c0, c1, c2, c3, c4]) == ["first\n", "second\n", "third\n", "\n", "last"]
  {
    SamplePartial(c0);
    SampleSecond(c0, c1);
    SampleThird("seco", c2);
    SampleFourth("th", c3);
    SamplePartial(c4);
    FeedFive(c0, c1, c2, c3, c4, "seco", "th", "first\n", "second\n", "third\n", "\n");
  }

  /**
   * Five chunks whose steps are known: a partial line, two chunks that each
   * finish one line, one that finishes two, and a last partial line.
   */
  lemma {:induction false} FeedFive(c0: string, c1: string, c2: string, c3: string, c4: string,
                                    p2: string, p3: string, l1: string, l2: string, l3: string, l4: string)
    requires Step([], c0) == ([], c0) && Step(c0, c1) == ([l1], p2) && Step(p2, c2) == ([l2], p3)
    requires Step(p3, c3) == ([l3, l4], []) && Step([], c4) == ([], c4) && c4 != []
    ensures Stream([c0, c1, c2, c3, c4]) == [l1, l2, l3, l4, c4]
  {
    var none: seq<string> := [];
    var r4 := [c4] + none;
    var r3 := [c3] + r4;
    var r2 := [c2] + r3;
    var r1 := [c1] + r2;
    assert Feed([], r4) == (none, c4) by {
      assert Feed(c4, none) == (none, c4);
      FeedCons([], c4, none);
    }
    assert Feed(p3, r3) == ([l3, l4], c4) by {
      FeedCons(p3, c3, r4);
      assert [l3, l4] + none == [l3, l4];
    }
    assert Feed(p2, r2) == ([l2, l3, l4], c4) by {
      FeedCons(p2, c2, r3);
      assert [l2] + [l3, l4] == [l2, l3, l4];
    }
    assert Feed(c0, r1) == ([l1, l2, l3, l4], c4) by {
      FeedCons(c0, c1, r2);
      assert [l1] + [l2, l3, l4] == [l1, l2, l3, l4];
    }
    assert Feed([], [c0] + r1) == ([l1, l2, l3, l4], c4) by {
      FeedCons([], c0, r1);
      assert none + [l1, l2, l3, l4] == [l1, l2, l3, l4];
    }
    assert [c0] + r1 == [c0, c1, c2, c3, c4];
    assert [l1, l2, l3, l4] + [c4] == [l1, l2, l3, l4, c4];
  }

  /** A chunk that completes one line and leaves `b` waiting. */
  lemma StepLastLine(prev: string, a: string, b: string)
    requires NoNewline(a) && NoNewline(b)
    ensures Step(prev, a + "\n" + b) == ([prev + a + "\n"], b)
    ensures StepAsWritten(prev, a + "\n" + b) == ([prev + a + "\n"], b)
  {
    StepNewline(prev, a, b);
    var line := prev + (a + "\n");
    if b != [] {
      StepPlain([], b);
      assert [] + b == b;
    }
    assert Step([], b) == ([], b) && StepAsWritten([], b) == ([], b);
    assert [line] + [] == [line];
    Assoc(prev, a, "\n");
  }

  /** `Feed` on a first chunk and the chunks after it. */
  lemma FeedCons(prev: string, chunk: string, rest: seq<string>)
    ensures var s := Step(prev, chunk); var f := Feed(s.1, rest);
      Feed(prev, [chunk] + rest) == (s.0 + f.0, f.1)
    ensures var s := StepAsWritten(prev, chunk); var f := FeedAsWritten(s.1, rest);
      FeedAsWritten(prev, [chunk] + rest) == (s.0 + f.0, f.1)
  {
    assert ([chunk] + rest)[0] == chunk;
    assert ([chunk] + rest)[1..] == rest;
  }

  lemma SamplePartial(data: string)
    requires data == "first" || data == "last"
    ensures Step([], data) == ([], data)
  {
    assert forall i | 0 <= i < |data| :: data[i] != '\n';
    StepPlain([], data);
    assert [] + data == data;
  }

  lemma SampleSecond(prev: string, data: string)
    requires prev == "first" && data == "\nseco"
    ensures Step(prev, data) == (["first\n"], "seco")
  {
    assert data == [] + "\n" + "seco";
    StepLastLine(prev, [], "seco");
    assert prev + [] + "\n" == "first\n";
  }

  lemma SampleThird(prev: string, data: string)
    requires prev == "seco" && data == "nd\nth"
    ensures Step(prev, data) == (["second\n"], "th")
  {
    assert data == "nd" + "\n" + "th";
    StepLastLine(prev, "nd", "th");
    assert prev + "nd" + "\n" == "second\n";
  }

  lemma SampleFourth(prev: string, data: string)
    requires prev == "th" && data == "ird\n\n"
    ensures Step(prev, data) == (["third\n", "\n"], [])
  {
    assert data == "ird" + "\n" + "\n";
    StepNewline(prev, "ird", "\n");
    assert "\n" == [] + "\n" + [];
    StepLastLine([], [], []);
    var line := prev + ("ird" + "\n");
    assert line == "third\n";
    var last: string := [] + [] + "\n";
    assert last == "\n";
    assert [line] + [last] == ["third\n", "\n"];
  }

  /** Two chunks in a row without "\n": as written the first one is lost. */
  lemma OverwriteAsWritten()
    ensures StreamAsWritten(["ab", "cd", "e\n"]) == ["cde\n"]
  {
    StepPlain([], "ab");
    assert [] + "ab" == "ab";
    StepPlain("ab", "cd");
    assert "e\n" == "e" + "\n" + [];
    StepLastLine("cd", "e", []);
    assert "cd" + "e" + "\n" == "cde\n";
    FeedCons([], "ab", ["cd", "e\n"]);
    FeedCons("ab", "cd", ["e\n"]);
    FeedCons("cd", "e\n", []);
    assert ["ab"] + ["cd", "e\n"] == ["ab", "cd", "e\n"];
    assert ["cd"] + ["e\n"] == ["cd", "e\n"];
    assert ["e\n"] + [] == ["e\n"];
    var line := "cde\n";
    var none: seq<string> := [];
    assert FeedAsWritten([], none) == (none, []);
    assert [line] + none == [line];
    assert none + (none + ([line] + none)) == [line];
    assert FeedAsWritten([], ["ab", "cd", "e\n"]) == ([line], []);
  }

  /** The same chunks with the waiting text kept: one whole line. */
  lemma OverwriteCorrected()
    ensures Stream(["ab", "cd", "e\n"]) == ["abcde\n"]
  {
    StepPlain([], "ab");
    assert [] + "ab" == "ab";
    StepPlain("ab", "cd");
    assert "ab" + "cd" == "abcd";
    assert "e\n" == "e" + "\n" + [];
    StepLastLine("abcd", "e", []);
    assert "abcd" + "e" + "\n" == "abcde\n";
    FeedCons([], "ab", ["cd", "e\n"]);
    FeedCons("ab", "cd", ["e\n"]);
    FeedCons("abcd", "e\n", []);
    assert ["ab"] + ["cd", "e\n"] == ["ab", "cd", "e\n"];
    assert ["cd"] + ["e\n"] == ["cd", "e\n"];
    assert ["e\n"] + [] == ["e\n"];
    var line := "abcde\n";
    var none: seq<string> := [];
    assert Feed([], none) == (none, []);
    assert [line] + none == [line];
    assert none + (none + ([line] + none)) == [line];
    assert Feed([], ["ab", "cd", "e\n"]) == ([line], []);
  }

  /** One turn of the handler's loop on a chunk with a "\n". */
  lemma StepUnfold(prev: string, data: string)
    requires FirstNewline(data) >= 0
    ensures var i := FirstNewline(data); var rest := Step([], data[i + 1..]);
      Step(prev, data) == ([prev + data[..i + 1]] + rest.0, rest.1)
  {
  }

  /** The text spelled out by the lines so far and what waits grows by exactly the chunk. */
  lemma StepKeepsText(done: seq<string>, prev: string, chunk: string)
    ensures var r := Step(prev, chunk); Concat(done + r.0) + r.1 == Concat(done) + prev + chunk
  {
    var r := Step(prev, chunk);
    StepLossless(prev, chunk);
    ConcatAppend(done, r.0);
    Assoc(Concat(done), Concat(r.0), r.1);
    Assoc(Concat(done), prev, chunk);
  }

  /**
   * `LineReadStream` over a reader: `previousText` ("" for null) and the
   * lines emitted so far; `input` is everything the reader has delivered.
   */
  class LineReadStream {
    var previousText: string
    var lines: seq<string>
    var ended: bool
    ghost var input: string

    /** Nothing is lost: the emitted lines and the waiting text spell out the input. */
    ghost predicate Valid()
      reads this
    {
      NoNewline(previousText) && Concat(lines) + previousText == input
    }

    constructor ()
      ensures Valid() && previousText == [] && lines == [] && !ended && input == []
    {
      previousText := [];
      lines := [];
      ended := false;
      input := [];
    }

    /** The reader's `data` event. */
    method Data(chunk: string)
      requires Valid()
      modifies this
      ensures Valid() && input == old(input) + chunk
      ensures lines == old(lines) + Step(old(previousText), chunk).0
      ensures previousText == Step(old(previousText), chunk).1
      ensures forall k :: |old(lines)| <= k < |lines| ==> IsLine(lines[k])
      ensures ended == old(ended)
    {
      var prev := previousText;
      var emitted: seq<string> := [];
      var data := chunk;
      StepLines(prev, chunk);
      while |data| > 0
        invariant emitted + Step(prev, data).0 == Step(previousText, chunk).0
        invariant Step(prev, data).1 == Step(previousText, chunk).1
        invariant unchanged(this)
        decreases |data|
      {
        var eol := FirstNewline(data);
        if eol >= 0 {
          var line := data[..eol + 1];
          StepUnfold(prev, data);
          Assoc(emitted, [prev + line], Step([], data[eol + 1..]).0);
          data := data[eol + 1..];
          if prev != [] {
            emitted := emitted + [prev + line];
            prev := [];
          } else {
            assert [] + line == line;
            emitted := emitted + [line];
          }
        } else {
          prev := prev + data;
          break;
        }
      }
      assert emitted == Step(previousText, chunk).0 && prev == Step(previousText, chunk).1;
      StepKeepsText(lines, previousText, chunk);
      assert Concat(lines + emitted) + prev == input + chunk;
      lines := lines + emitted;
      previousText := prev;
      input := input + chunk;
    }

    /**
     * The reader's `end` event: the waiting text, if any, is the last line.
     * The model then empties `previousText`, which the handler leaves as it
     * is; no `data` event follows `end`, so the lines emitted are the same.
     */
    method End()
      requires Valid()
      modifies this
      ensures Valid() && ended && previousText == [] && input == old(input)
      ensures lines == old(lines) + (if old(previousText) == [] then [] else [old(previousText)])
      ensures Concat(lines) == input
    {
      if previousText != [] {
        ConcatAppend(lines, [previousText]);
        assert Concat([previousText]) == previousText + Concat([]);
        lines := lines + [previousText];
        previousText := [];
      }
      ended := true;
    }
  }

  /**
   * `chomp`: the match of `/^(.*)\r?\n$/`, whose `.` matches no line
   * terminator, so only a line with no other line terminator loses its
   * final "\n" or "\r\n".
   */
  function Chomp(line: string): (r: string)
    ensures r == line || line == r + "\n" || line == r + "\r\n"
    ensures r != line ==> NoLineTerminator(r)
  {
    if |line| >= 1 && line[|line| - 1] == '\n' then
      var body := line[..|line| - 1];
      var x := if |body| >= 1 && body[|body| - 1] == '\r' then body[..|body| - 1] else body;
      if NoLineTerminator(x) then x else line
    else line
  }

  /** Chomping a line with one final break gives the text before it, and a line without one is left alone. */
  lemma ChompCases(x: string)
    requires NoLineTerminator(x)
    ensures Chomp(x + "\n") == x
    ensures Chomp(x + "\r\n") == x
    ensures Chomp(x) == x
  {
    assert (x + "\n")[..|x|] == x;
    assert (x + "\r\n")[..|x| + 1] == x + "\r";
    assert (x + "\r")[..|x|] == x;
    if |x| >= 1 {
      assert !IsLineTerminator(x[|x| - 1]);
    }
  }

  /** Chomping twice is chomping once. */
  lemma ChompIdempotent(line: string)
    ensures Chomp(Chomp(line)) == Chomp(line)
  {
    var r := Chomp(line);
    if r != line {
      ChompCases(r);
    }
  }

  /** Whether "\r\n" occurs in `s`. */
  predicate HasCrLf(s: string)
  {
    exists i :: 0 <= i < |s| - 1 && s[i] == '\r' && s[i + 1] == '\n'
  }

  /** `getPlatformEOL`: "\r\n" on Windows, "\n" elsewhere. */
  function PlatformEol(win32: bool): string
  {
    if win32 then "\r\n" else "\n"
  }

  /** `extractEOL(str)`: "\r\n" if it occurs, else "\n" if that occurs, else the platform's. */
  function ExtractEol(s: string, win32: bool): (r: string)
    ensures r == "\r\n" || r == "\n"
    ensures HasCrLf(s) ==> r == "\r\n"
    ensures !HasCrLf(s) && FirstNewline(s) >= 0 ==> r == "\n"
    ensures FirstNewline(s) < 0 ==> r == PlatformEol(win32)
  {
    if HasCrLf(s) then "\r\n"
    else if FirstNewline(s) >= 0 then "\n"
    else PlatformEol(win32)
  }

  /** A text with "\r\n" has a "\n", so the platform only decides for text without line breaks. */
  lemma ExtractEolPlatform(s: string, win32: bool)
    requires HasCrLf(s)
    ensures FirstNewline(s) >= 0
    ensures ExtractEol(s, true) == ExtractEol(s, false)
  {
    var i :| 0 <= i < |s| - 1 && s[i] == '\r' && s[i + 1] == '\n';
    assert s[i + 1] == '\n';
  }
}
