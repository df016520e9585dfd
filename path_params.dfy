/**
 * Path parameters (shiny-server-client common/path-params.js): settings such
 * as the robust-reconnect id travel inside the URL path as "/name=value"
 * chunks, placed after the app path and before the query string.
 *
 * A JavaScript `assert` that fails, or a regular expression match that is
 * null and then indexed, throws; the model returns `Err` in those cases.
 */
module PathParams {
  import opened Common

  // ---------------------------------------------------------------------
  // addPathParams
  // ---------------------------------------------------------------------

  /** A parameter object, as (key, value) pairs in insertion order. */
  type ParamList = seq<(string, string)>

  predicate DistinctKeys(ps: ParamList)
  {
    forall i, j :: 0 <= i < j < |ps| ==> ps[i].0 != ps[j].0
  }

  /** Every key and value matches /^\w*$/. */
  predicate Unescaped(ps: ParamList)
  {
    forall i :: 0 <= i < |ps| ==> AllWordChars(ps[i].0) && AllWordChars(ps[i].1)
  }

  /** The chunk "key=value". */
  function Chunk(p: (string, string)): string
  {
    p.0 + "=" + p.1
  }

  /** "/k1=v1/k2=v2…" */
  function Fragment(ps: ParamList): (f: string)
    ensures ps == [] ==> f == ""
    ensures ps != [] ==> f == "/" + Join(ChunksOf(ps), '/')
  {
    if ps == [] then ""
    else
      var init := ps[..|ps| - 1];
      var last := Chunk(ps[|ps| - 1]);
      assert ChunksOf(ps) == ChunksOf(init) + [last];
      if init == [] then Fragment(init) + "/" + last
      else
        JoinAppend(ChunksOf(init), [last], '/');
        Fragment(init) + "/" + last
  }

  /**
   * Where `url.replace(/\/?(\?|$)/, …)` matches: from `start` (one '/' before
   * the first '?', or before the end, is included) to `stop` (the first '?',
   * or the end, which the replacement keeps).
   */
  function InsertionPoint(url: string): (r: (nat, nat))
    ensures r.0 <= r.1 <= |url|
    ensures r.1 == |url| <==> '?' !in url
    ensures r.1 < |url| ==> url[r.1] == '?' && '?' !in url[..r.1]
    ensures r.0 == r.1 || (r.0 + 1 == r.1 && url[r.0] == '/')
    ensures r.0 == r.1 ==> r.1 == 0 || url[r.1 - 1] != '/'
    ensures '?' !in url[..r.0]
  {
    var q := if IndexOf(url, '?') < 0 then |url| else IndexOf(url, '?');
    assert '?' !in url[..q] by {
      if q == |url| { assert url[..q] == url; }
    }
    if q > 0 && url[q - 1] == '/' then
      assert url[..q - 1] == url[..q][..q - 1];
      (q - 1, q)
    else (q, q)
  }

  /** The value `addPathParams(url, params)` returns, or the error it throws. */
  function AddedPathParams(url: string, ps: ParamList): (r: Result<string>)
    ensures r.Err? <==> !Unescaped(ps)
  {
    if !Unescaped(ps) then Err("util.addPathParams doesn't implement escaping")
    else
      var (start, stop) := InsertionPoint(url);
      Ok(url[..start] + Fragment(ps) + url[stop..])
  }

  /** `addPathParams`: builds the fragment key by key, throwing on the first unescaped one. */
  method AddPathParams(url: string, ps: ParamList) returns (r: Result<string>)
    ensures r == AddedPathParams(url, ps)
  {
    var fragment := "";
    var i := 0;
    while i < |ps|
      invariant 0 <= i <= |ps|
      invariant Unescaped(ps[..i])
      invariant fragment == Fragment(ps[..i])
    {
      var (key, value) := ps[i];
      if !AllWordChars(key) || !AllWordChars(value) {
        return Err("util.addPathParams doesn't implement escaping");
      }
      assert ps[..i + 1][..i] == ps[..i];
      fragment := fragment + "/" + key + "=" + value;
      i := i + 1;
    }
    assert ps[..i] == ps;
    var (start, stop) := InsertionPoint(url);
    r := Ok(url[..start] + fragment + url[stop..]);
  }

  // ---------------------------------------------------------------------
  // parseUrl / formatUrl
  // ---------------------------------------------------------------------

  /** Length of the run of ASCII letters that starts `c`. */
  function LetterRun(c: string): (k: nat)
    ensures k <= |c|
    ensures forall i :: 0 <= i < k ==> IsAsciiLetter(c[i])
    ensures k < |c| ==> !IsAsciiLetter(c[k])
  {
    if c == [] || !IsAsciiLetter(c[0]) then 0 else 1 + LetterRun(c[1..])
  }

  /** `/^[a-z]+=/i`: the chunk is a path parameter (one or more letters, then '='). */
  predicate IsParamChunk(c: string)
  {
    |c| >= 2 && IsAsciiLetter(c[0]) && (c[1] == '=' || IsParamChunk(c[1..]))
  }

  /** A parameter chunk has an '=' after at least one character. */
  lemma {:induction false} ParamChunkHasEquals(c: string)
    requires IsParamChunk(c)
    ensures '=' in c[1..] && NoLineTerminator(c[..1])
  {
    if c[1] != '=' {
      ParamChunkHasEquals(c[1..]);
      assert c[1..][1..] == c[2..];
    }
  }

  /** Letters, then '=', then anything: a parameter chunk. */
  lemma {:induction false} LettersThenEqualsIsParam(k: string, rest: string)
    requires |k| > 0 && LetterRun(k) == |k|
    ensures IsParamChunk(k + "=" + rest)
  {
    if |k| > 1 {
      LettersThenEqualsIsParam(k[1..], rest);
      assert (k + "=" + rest)[1..] == k[1..] + "=" + rest;
    }
  }

  datatype UrlParts = UrlParts(prefix: seq<string>, params: seq<string>, suffix: seq<string>, search: string)

  /** One past the last parameter chunk among `chunks[..n]`, or 0 when there is none. */
  function LastParamEnd(chunks: seq<string>, n: nat): (e: nat)
    requires n <= |chunks|
    ensures e <= n
    ensures e > 0 ==> IsParamChunk(chunks[e - 1])
    ensures forall j :: e <= j < n ==> !IsParamChunk(chunks[j])
  {
    if n == 0 then 0 else if IsParamChunk(chunks[n - 1]) then n else LastParamEnd(chunks, n - 1)
  }

  /** Start of the run of parameter chunks that ends at `e`. */
  function RunStart(chunks: seq<string>, e: nat): (f: nat)
    requires e <= |chunks|
    ensures f <= e
    ensures forall j :: f <= j < e ==> IsParamChunk(chunks[j])
    ensures f > 0 ==> !IsParamChunk(chunks[f - 1])
  {
    if e == 0 || !IsParamChunk(chunks[e - 1]) then e else RunStart(chunks, e - 1)
  }

  /**
   * The path chunks cut around the LAST run of parameter chunks: chunks after
   * it go to the suffix (SockJS appends path parts of its own), chunks before
   * it to the prefix.
   */
  function SplitChunks(chunks: seq<string>, search: string): (u: UrlParts)
    ensures u.prefix + u.params + u.suffix == chunks && u.search == search
    ensures forall j :: 0 <= j < |u.params| ==> IsParamChunk(u.params[j])
    ensures forall j :: 0 <= j < |u.suffix| ==> !IsParamChunk(u.suffix[j])
    ensures u.params == [] <==> forall j :: 0 <= j < |chunks| ==> !IsParamChunk(chunks[j])
    ensures u.params == [] ==> u.prefix == chunks
    ensures u.params != [] && u.prefix != [] ==> !IsParamChunk(u.prefix[|u.prefix| - 1])
  {
    var e := LastParamEnd(chunks, |chunks|);
    if e == 0 then UrlParts(chunks, [], [], search)
    else
      var f := RunStart(chunks, e);
      SliceFacts(chunks, f, e);
      UrlParts(chunks[..f], chunks[f..e], chunks[e..], search)
  }

  /** The cut around a non-empty run `chunks[f..e]` of parameters with none after it. */
  lemma SliceFacts(chunks: seq<string>, f: nat, e: nat)
    requires 0 <= f < e <= |chunks|
    requires forall j :: f <= j < e ==> IsParamChunk(chunks[j])
    requires forall j :: e <= j < |chunks| ==> !IsParamChunk(chunks[j])
    requires f > 0 ==> !IsParamChunk(chunks[f - 1])
    ensures chunks[..f] + chunks[f..e] + chunks[e..] == chunks
    ensures forall j :: 0 <= j < e - f ==> IsParamChunk(chunks[f..e][j])
    ensures forall j :: 0 <= j < |chunks| - e ==> !IsParamChunk(chunks[e..][j])
    ensures f > 0 ==> !IsParamChunk(chunks[..f][f - 1])
    ensures !forall j :: 0 <= j < |chunks| ==> !IsParamChunk(chunks[j])
  {
    assert IsParamChunk(chunks[f]);
    forall j | 0 <= j < e - f ensures IsParamChunk(chunks[f..e][j]) {
      assert chunks[f..e][j] == chunks[f + j];
    }
    forall j | 0 <= j < |chunks| - e ensures !IsParamChunk(chunks[e..][j]) {
      assert chunks[e..][j] == chunks[e + j];
    }
  }

  /** What `parseUrl` returns: /^([^?]*)(\?.*)?$/ fails when the query holds a line terminator. */
  function UrlPartsOf(url: string): Result<UrlParts>
  {
    var q := IndexOf(url, '?');
    if q < 0 then Ok(SplitChunks(Split(url, '/'), ""))
    else if NoLineTerminator(url[q..]) then Ok(SplitChunks(Split(url[..q], '/'), url[q..]))
    else Err("AssertionError: url does not match")
  }

  /** `parseUrl`: scans the chunks backwards for the last run of parameters. */
  method ParseUrl(url: string) returns (r: Result<UrlParts>)
    ensures r == UrlPartsOf(url)
  {
    var q := IndexOf(url, '?');
    if q >= 0 && !NoLineTerminator(url[q..]) {
      return Err("AssertionError: url does not match");
    }
    var mainUrl := if q < 0 then url else url[..q];
    var search := if q < 0 then "" else url[q..];
    var chunks := Split(mainUrl, '/');
    var firstParamIndex := |chunks|;
    var lastParamIndex := 0;  // 0 stands for `undefined`
    var seenParam := false;
    while firstParamIndex > 0
      invariant 0 <= firstParamIndex <= |chunks|
      invariant !seenParam ==> lastParamIndex == 0
      invariant !seenParam ==> forall j :: firstParamIndex <= j < |chunks| ==> !IsParamChunk(chunks[j])
      invariant seenParam ==> lastParamIndex == LastParamEnd(chunks, |chunks|) > 0
      invariant seenParam ==> firstParamIndex <= lastParamIndex
      invariant seenParam ==> forall j :: firstParamIndex <= j < lastParamIndex ==> IsParamChunk(chunks[j])
    {
      if IsParamChunk(chunks[firstParamIndex - 1]) {
        if lastParamIndex == 0 {
          lastParamIndex := firstParamIndex;
        }
        seenParam := true;
        firstParamIndex := firstParamIndex - 1;
      } else if !seenParam {
        firstParamIndex := firstParamIndex - 1;
      } else {
        break;
      }
    }
    if !seenParam {
      return Ok(UrlParts(chunks, [], [], search));
    }
    assert firstParamIndex == RunStart(chunks, lastParamIndex);
    r := Ok(UrlParts(chunks[..firstParamIndex], chunks[firstParamIndex..lastParamIndex],
                     chunks[lastParamIndex..], search));
  }

  /** `formatUrl` */
  function FormatUrl(u: UrlParts): string
  {
    Join(u.prefix + u.params + u.suffix, '/') + u.search
  }

  /** Formatting what was parsed gives the URL back. */
  lemma FormatParsedUrl(url: string)
    requires UrlPartsOf(url).Ok?
    ensures FormatUrl(UrlPartsOf(url).value) == url
  {
    var q := IndexOf(url, '?');
    if q < 0 {
      JoinSplit(url, '/');
    } else {
      JoinSplit(url[..q], '/');
      assert url[..q] + url[q..] == url;
    }
  }

  /** A URL without parameter chunks parses to all-prefix, no params and no suffix. */
  lemma ParseWithoutParams(url: string)
    requires UrlPartsOf(url).Ok?
    requires var u := UrlPartsOf(url).value;
             forall j :: 0 <= j < |u.prefix + u.params + u.suffix| ==> !IsParamChunk((u.prefix + u.params + u.suffix)[j])
    ensures UrlPartsOf(url).value.params == [] && UrlPartsOf(url).value.suffix == []
  {
  }

  // ---------------------------------------------------------------------
  // The name=value match
  // ---------------------------------------------------------------------

  /** `/^(.+)=(.*)$/`: the name runs to the last '='; a line terminator makes it fail. */
  function ParamMatch(c: string): Option<(string, string)>
  {
    var e := LastIndexOf(c, '=');
    if NoLineTerminator(c) && e >= 1 then Some((c[..e], c[e + 1..])) else None
  }

  /** A match splits the chunk at its last '=' into a non-empty name and a value. */
  lemma ParamMatchShape(c: string)
    ensures var r := ParamMatch(c);
            r.Some? ==> r.value.0 + "=" + r.value.1 == c && |r.value.0| > 0 && '=' !in r.value.1
  {
    var e := LastIndexOf(c, '=');
    if NoLineTerminator(c) && e >= 1 {
      assert c[..e] + "=" + c[e + 1..] == c;
    }
  }

  lemma ParamChunkMatches(c: string)
    requires IsParamChunk(c) && NoLineTerminator(c)
    ensures ParamMatch(c).Some?
  {
    ParamChunkHasEquals(c);
    var i :| 0 <= i < |c[1..]| && c[1..][i] == '=';
    assert c[i + 1] == '=';
  }

  lemma ChunkMatches(p: (string, string))
    requires |p.0| > 0 && NoLineTerminator(p.0) && AllWordChars(p.1)
    ensures ParamMatch(Chunk(p)) == Some(p)
  {
    var c := Chunk(p);
    assert c[..|p.0|] == p.0;
    assert c[|p.0|] == '=';
    assert '=' !in p.1;
    assert c[|p.0| + 1..] == p.1;
    assert LastIndexOf(c, '=') == |p.0|;
    assert NoLineTerminator(c) by {
      forall i | 0 <= i < |c| ensures !IsLineTerminator(c[i]) {
        if i > |p.0| { assert c[i] == p.1[i - |p.0| - 1] && IsWordChar(c[i]); }
      }
    }
  }

  // ---------------------------------------------------------------------
  // extractParams
  // ---------------------------------------------------------------------

  /** The object `extractParams` builds from the parameter chunks: later names overwrite earlier ones. */
  function ParamsToMap(ps: seq<string>): Result<map<string, string>>
  {
    if ps == [] then Ok(map[])
    else
      var prev := ParamsToMap(ps[..|ps| - 1]);
      var m := ParamMatch(ps[|ps| - 1]);
      if prev.Err? then prev
      else if m.None? then Err("TypeError: no name=value match")
      else Ok(prev.value[m.value.0 := m.value.1])
  }

  /** The index of the last chunk among `ps[..n]` whose name is `name`, or -1. */
  function LastNamed(ps: seq<string>, n: nat, name: string): (i: int)
    requires n <= |ps|
    ensures -1 <= i < n
    ensures i >= 0 ==> ParamMatch(ps[i]).Some? && ParamMatch(ps[i]).value.0 == name
    ensures forall j :: i < j < n ==> ParamMatch(ps[j]).None? || ParamMatch(ps[j]).value.0 != name
  {
    if n == 0 then -1
    else if ParamMatch(ps[n - 1]).Some? && ParamMatch(ps[n - 1]).value.0 == name then n - 1
    else LastNamed(ps, n - 1, name)
  }

  /**
   * The map holds exactly the names of the chunks, each with the value of
   * the last chunk of that name; it fails iff some chunk does not match.
   */
  lemma {:induction false} ParamsToMapLookup(ps: seq<string>)
    ensures ParamsToMap(ps).Ok? <==> forall j :: 0 <= j < |ps| ==> ParamMatch(ps[j]).Some?
    ensures ParamsToMap(ps).Ok? ==>
              forall name :: (name in ParamsToMap(ps).value <==> LastNamed(ps, |ps|, name) >= 0)
    ensures ParamsToMap(ps).Ok? ==>
              forall name :: name in ParamsToMap(ps).value ==>
                ParamsToMap(ps).value[name] == ParamMatch(ps[LastNamed(ps, |ps|, name)]).value.1
  {
    if ps != [] {
      var init := ps[..|ps| - 1];
      ParamsToMapLookup(init);
      assert forall j :: 0 <= j < |init| ==> init[j] == ps[j];
      forall name ensures LastNamed(ps, |ps| - 1, name) == LastNamed(init, |init|, name) {
        LastNamedPrefix(ps, |ps| - 1, name);
      }
    }
  }

  lemma {:induction false} LastNamedPrefix(ps: seq<string>, n: nat, name: string)
    requires n <= |ps|
    ensures LastNamed(ps, n, name) == LastNamed(ps[..n], n, name)
    decreases n
  {
    if n > 0 {
      LastNamedPrefix(ps, n - 1, name);
      LastNamedPrefix(ps[..n], n - 1, name);
      assert ps[..n][..n - 1] == ps[..n - 1];
    }
  }

  /** What `extractParams` returns for `url`. */
  function ExtractedParams(url: string): Result<map<string, string>>
  {
    match UrlPartsOf(url)
    case Err(e) => Err(e)
    case Ok(u) => ParamsToMap(u.params)
  }

  /** `extractParams` */
  method ExtractParams(url: string) returns (r: Result<map<string, string>>)
    ensures r == ExtractedParams(url)
  {
    var parsed := ParseUrl(url);
    if parsed.Err? {
      return Err(parsed.error);
    }
    r := CollectParams(parsed.value.params);
  }

  /** The loop of `extractParams` that matches each chunk and records it in the result object. */
  method CollectParams(params: seq<string>) returns (r: Result<map<string, string>>)
    ensures r == ParamsToMap(params)
  {
    var result: map<string, string> := map[];
    var i := 0;
    while i < |params|
      invariant 0 <= i <= |params|
      invariant ParamsToMap(params[..i]) == Ok(result)
    {
      var m := ParamMatch(params[i]);
      ghost var next := params[..i + 1];
      assert next[..i] == params[..i] && next[i] == params[i];
      if m.None? {
        assert ParamsToMap(next) == Err("TypeError: no name=value match");
        ParamsToMapErrExtends(params, i + 1);
        return Err("TypeError: no name=value match");
      }
      result := result[m.value.0 := m.value.1];
      assert ParamsToMap(next) == Ok(result);
      i := i + 1;
    }
    assert params[..i] == params;
    r := Ok(result);
  }

  lemma {:induction false} ParamsToMapErrExtends(ps: seq<string>, n: nat)
    requires n <= |ps| && ParamsToMap(ps[..n]) == Err("TypeError: no name=value match")
    ensures ParamsToMap(ps) == Err("TypeError: no name=value match")
    decreases |ps| - n
  {
    if n < |ps| {
      assert ps[..n + 1][..n] == ps[..n];
      ParamsToMapErrExtends(ps, n + 1);
    } else {
      assert ps[..n] == ps;
    }
  }

  /**
   * What the client adds, the server extracts: adding letter-named
   * parameters to a URL that has none yields a URL whose parameters are
   * exactly the added ones, in order, each mapped to its value.
   */
  lemma AddThenExtract(url: string, ps: ParamList)
    requires UrlPartsOf(url).Ok? && UrlPartsOf(url).value.params == []
    requires |ps| > 0 && Unescaped(ps) && DistinctKeys(ps)
    requires forall i :: 0 <= i < |ps| ==> |ps[i].0| > 0 && LetterRun(ps[i].0) == |ps[i].0|
    ensures AddedPathParams(url, ps).Ok?
    ensures var added := AddedPathParams(url, ps).value;
            UrlPartsOf(added).Ok? && UrlPartsOf(added).value.params == ChunksOf(ps)
    ensures var added := AddedPathParams(url, ps).value;
            ExtractedParams(added).Ok?
            && forall i :: 0 <= i < |ps| ==>
                 ps[i].0 in ExtractedParams(added).value && ExtractedParams(added).value[ps[i].0] == ps[i].1
  {
    var added := AddedPathParams(url, ps).value;
    AddedParamsParse(url, ps);
    assert ExtractedParams(added) == ParamsToMap(ChunksOf(ps));
    ChunksLookup(ps);
  }

  /** The URL with the parameters added parses with exactly the added chunks as its parameters. */
  lemma AddedParamsParse(url: string, ps: ParamList)
    requires UrlPartsOf(url).Ok? && UrlPartsOf(url).value.params == []
    requires |ps| > 0 && Unescaped(ps)
    requires forall i :: 0 <= i < |ps| ==> |ps[i].0| > 0 && LetterRun(ps[i].0) == |ps[i].0|
    ensures AddedPathParams(url, ps).Ok?
    ensures var added := AddedPathParams(url, ps).value;
            UrlPartsOf(added).Ok? && UrlPartsOf(added).value.params == ChunksOf(ps)
  {
    ChunksAreParams(ps);
    AddedParts(url, ps);
    var hc := HeadChunksAreNotParams(url);
    LastRunIsAdded(hc, ChunksOf(ps), UrlPartsOf(url).value.search);
  }

  /** The URL with parameter chunks added parses to the old path chunks followed by the added ones. */
  lemma AddedParts(url: string, ps: ParamList)
    requires UrlPartsOf(url).Ok?
    requires |ps| > 0 && Unescaped(ps)
    requires forall i :: 0 <= i < |ps| ==> '/' !in Chunk(ps[i]) && '?' !in Chunk(ps[i])
    ensures AddedPathParams(url, ps).Ok?
    ensures UrlPartsOf(AddedPathParams(url, ps).value)
              == Ok(SplitChunks(Split(url[..InsertionPoint(url).0], '/') + ChunksOf(ps), UrlPartsOf(url).value.search))
  {
    var cs := ChunksOf(ps);
    var (start, stop) := InsertionPoint(url);
    var added := url[..start] + ("/" + Join(cs, '/')) + url[stop..];
    assert AddedPathParams(url, ps) == Ok(added) by {
      assert Fragment(ps) == "/" + Join(cs, '/');
    }
    AddedUrlParts(url, cs);
  }

  /** Path chunks without parameters, followed by parameter chunks: the parameters are the added ones. */
  lemma LastRunIsAdded(headChunks: seq<string>, cs: seq<string>, search: string)
    requires |cs| > 0 && forall j :: 0 <= j < |cs| ==> IsParamChunk(cs[j])
    requires forall j :: 0 <= j < |headChunks| ==> !IsParamChunk(headChunks[j])
    ensures SplitChunks(headChunks + cs, search).params == cs
  {
    var all := headChunks + cs;
    var e := LastParamEnd(all, |all|);
    assert e == |all| by { assert all[|all| - 1] == cs[|cs| - 1]; }
    RunStartOverParams(all, |headChunks|, e);
    assert all[|headChunks|..e] == cs;
  }

  /** Inserting "/c1/c2…" at the insertion point appends those chunks to the path before it. */
  lemma AddedUrlParts(url: string, cs: seq<string>)
    requires UrlPartsOf(url).Ok?
    requires |cs| > 0 && forall i :: 0 <= i < |cs| ==> '/' !in cs[i] && '?' !in cs[i]
    ensures var (start, stop) := InsertionPoint(url);
            UrlPartsOf(url[..start] + ("/" + Join(cs, '/')) + url[stop..])
              == Ok(SplitChunks(Split(url[..start], '/') + cs, UrlPartsOf(url).value.search))
  {
    var (start, stop) := InsertionPoint(url);
    var head := url[..start];
    var q := IndexOf(url, '?');
    var search := if q < 0 then "" else url[q..];
    assert url[stop..] == search;
    var newMain := head + ("/" + Join(cs, '/'));
    SplitAfterHead(head, cs);
    JoinNoChar(cs, '/', '?');
    UrlPartsOfShape(newMain + search, newMain, search);
  }

  /** The chunks before the insertion point of a URL without parameters are not parameters. */
  lemma HeadChunksAreNotParams(url: string) returns (headChunks: seq<string>)
    requires UrlPartsOf(url).Ok? && UrlPartsOf(url).value.params == []
    ensures headChunks == Split(url[..InsertionPoint(url).0], '/')
    ensures forall j :: 0 <= j < |headChunks| ==> !IsParamChunk(headChunks[j])
  {
    var (start, stop) := InsertionPoint(url);
    var q := IndexOf(url, '?');
    var mainUrl := if q < 0 then url else url[..q];
    headChunks := Split(url[..start], '/');
    assert url[..start] == mainUrl || url[..start] + "/" == mainUrl;
    var all := Split(mainUrl, '/');
    assert SplitChunks(all, if q < 0 then "" else url[q..]).params == [];
    assert forall j :: 0 <= j < |all| ==> !IsParamChunk(all[j]);
    HeadChunksPrecede(mainUrl, url[..start]);
    forall j | 0 <= j < |headChunks| ensures !IsParamChunk(headChunks[j]) {
      assert headChunks[j] in all;
    }
  }

  /** A URL is its path (no '?') followed by its query ('?' and no line terminator, or nothing). */
  lemma UrlPartsOfShape(url: string, mainUrl: string, search: string)
    requires url == mainUrl + search && '?' !in mainUrl
    requires search == [] || (search[0] == '?' && NoLineTerminator(search))
    ensures UrlPartsOf(url) == Ok(SplitChunks(Split(mainUrl, '/'), search))
  {
    if search == [] {
      assert url == mainUrl;
    } else {
      assert url[|mainUrl|] == '?' && url[..|mainUrl|] == mainUrl && url[|mainUrl|..] == search;
    }
  }

  lemma SplitAfterHead(head: string, cs: seq<string>)
    requires |cs| > 0 && forall i :: 0 <= i < |cs| ==> '/' !in cs[i]
    ensures Split(head + ("/" + Join(cs, '/')), '/') == Split(head, '/') + cs
  {
    assert head + ("/" + Join(cs, '/')) == head + "/" + Join(cs, '/');
    SplitConcat(head, Join(cs, '/'), '/');
    SplitJoin(cs, '/');
  }

  /** Dropping one trailing '/' from a path keeps the chunks before it. */
  lemma HeadChunksPrecede(mainUrl: string, head: string)
    requires mainUrl == head || mainUrl == head + "/"
    ensures forall c :: c in Split(head, '/') ==> c in Split(mainUrl, '/')
  {
    if mainUrl != head {
      assert mainUrl == head + "/" + "";
      SplitConcat(head, "", '/');
    }
  }

  function ChunksOf(ps: ParamList): (cs: seq<string>)
    ensures |cs| == |ps| && forall i :: 0 <= i < |ps| ==> cs[i] == Chunk(ps[i])
  {
    if ps == [] then [] else ChunksOf(ps[..|ps| - 1]) + [Chunk(ps[|ps| - 1])]
  }

  lemma ChunksAreParams(ps: ParamList)
    requires Unescaped(ps)
    requires forall i :: 0 <= i < |ps| ==> |ps[i].0| > 0 && LetterRun(ps[i].0) == |ps[i].0|
    ensures forall i :: 0 <= i < |ps| ==> IsParamChunk(Chunk(ps[i])) && '/' !in Chunk(ps[i]) && '?' !in Chunk(ps[i])
  {
    forall i | 0 <= i < |ps|
      ensures IsParamChunk(Chunk(ps[i])) && '/' !in Chunk(ps[i]) && '?' !in Chunk(ps[i])
    {
      var (k, v) := ps[i];
      var c := Chunk(ps[i]);
      LettersThenEqualsIsParam(k, v);
      forall j | 0 <= j < |c| ensures c[j] != '/' && c[j] != '?' {
        if j < |k| { assert c[j] == k[j] && IsAsciiLetter(k[j]); }
        else if j > |k| { assert c[j] == v[j - |k| - 1] && IsWordChar(v[j - |k| - 1]); }
      }
    }
  }

  lemma {:induction false} JoinNoChar(parts: seq<string>, d: char, c: char)
    requires c != d && forall i :: 0 <= i < |parts| ==> c !in parts[i]
    ensures c !in Join(parts, d)
  {
    if |parts| > 1 {
      JoinNoChar(parts[1..], d, c);
    }
  }

  lemma RunStartOverParams(all: seq<string>, h: nat, e: nat)
    requires h <= e <= |all|
    requires forall j :: h <= j < e ==> IsParamChunk(all[j])
    requires forall j :: 0 <= j < h ==> !IsParamChunk(all[j])
    ensures RunStart(all, e) == h
  {
  }

  lemma ChunksMatch(ps: ParamList)
    requires forall j :: 0 <= j < |ps| ==> |ps[j].0| > 0 && LetterRun(ps[j].0) == |ps[j].0| && AllWordChars(ps[j].1)
    ensures forall j :: 0 <= j < |ps| ==> ParamMatch(ChunksOf(ps)[j]) == Some(ps[j])
  {
    forall j | 0 <= j < |ps| ensures ParamMatch(ChunksOf(ps)[j]) == Some(ps[j]) {
      LetterRunNoLineTerminator(ps[j].0);
      ChunkMatches(ps[j]);
    }
  }

  /** With distinct keys, each key's map entry is its own value. */
  lemma ChunksLookup(ps: ParamList)
    requires DistinctKeys(ps)
    requires forall j :: 0 <= j < |ps| ==> |ps[j].0| > 0 && LetterRun(ps[j].0) == |ps[j].0| && AllWordChars(ps[j].1)
    ensures ParamsToMap(ChunksOf(ps)).Ok?
    ensures forall i :: 0 <= i < |ps| ==>
              ps[i].0 in ParamsToMap(ChunksOf(ps)).value && ParamsToMap(ChunksOf(ps)).value[ps[i].0] == ps[i].1
  {
    var cs := ChunksOf(ps);
    ChunksMatch(ps);
    ParamsToMapLookup(cs);
    var m := ParamsToMap(cs).value;
    forall i | 0 <= i < |ps| ensures ps[i].0 in m && m[ps[i].0] == ps[i].1 {
      LastNamedIsUnique(cs, ps, i);
    }
  }

  lemma LastNamedIsUnique(cs: seq<string>, ps: ParamList, i: nat)
    requires i < |ps| == |cs| && DistinctKeys(ps)
    requires forall j :: 0 <= j < |ps| ==> ParamMatch(cs[j]) == Some(ps[j])
    ensures LastNamed(cs, |ps|, ps[i].0) == i
  {
  }

  lemma LetterRunNoLineTerminator(k: string)
    requires LetterRun(k) == |k|
    ensures NoLineTerminator(k)
  {
  }

  // ---------------------------------------------------------------------
  // reorderPathParams
  // ---------------------------------------------------------------------

  /** `order.indexOf(name)` */
  function OrderIndex(order: seq<string>, name: string): (d: int)
    ensures -1 <= d < |order|
    ensures d >= 0 ==> order[d] == name && name !in order[..d]
    ensures d == -1 <==> name !in order
  {
    if order == [] then -1
    else if order[0] == name then 0
    else
      var d := OrderIndex(order[1..], name);
      assert order == [order[0]] + order[1..];
      if d < 0 then -1 else d + 1
  }

  /** The position of the chunk's name in `order`, -1 when it is absent or the chunk does not match. */
  function Rank(order: seq<string>, c: string): int
  {
    match ParamMatch(c)
    case None => -1
    case Some(m) => OrderIndex(order, m.0)
  }

  predicate AllMatch(ps: seq<string>)
  {
    forall i :: 0 <= i < |ps| ==> ParamMatch(ps[i]).Some?
  }

  /** `params.filter(v => v.length > 0)` */
  function NonEmpty(ps: seq<string>): (r: seq<string>)
    ensures forall i :: 0 <= i < |r| ==> r[i] != [] && r[i] in ps
    ensures (forall i :: 0 <= i < |ps| ==> ps[i] != []) ==> r == ps
  {
    if ps == [] then []
    else if ps[0] == [] then NonEmpty(ps[1..])
    else [ps[0]] + NonEmpty(ps[1..])
  }

  /**
   * The `frontParams` array after the loop: slot d holds the last chunk
   * whose name is `order[d]`, if any.
   */
  function Slots(ps: seq<string>, order: seq<string>): (s: seq<Option<string>>)
    ensures |s| == |order|
  {
    if ps == [] then NoSlots(|order|)
    else
      var s := Slots(ps[..|ps| - 1], order);
      var d := Rank(order, ps[|ps| - 1]);
      if d >= 0 then s[d := Some(ps[|ps| - 1])] else s
  }

  /** A fresh `frontParams`: every slot empty. */
  function NoSlots(n: nat): (s: seq<Option<string>>)
    ensures |s| == n && forall d :: 0 <= d < n ==> s[d].None?
  {
    seq(n, _ => None)
  }

  /** The chunks left in `params` after the loop deleted those named in `order`. */
  function Unordered(ps: seq<string>, order: seq<string>): (r: seq<string>)
  {
    if ps == [] then []
    else
      var rest := Unordered(ps[..|ps| - 1], order);
      if Rank(order, ps[|ps| - 1]) >= 0 then rest else rest + [ps[|ps| - 1]]
  }

  /** Slot d only ever holds a chunk of `ps` whose name is `order[d]`. */
  lemma {:induction false} SlotsHoldTheirNames(ps: seq<string>, order: seq<string>)
    ensures forall d :: 0 <= d < |order| && Slots(ps, order)[d].Some? ==>
              Slots(ps, order)[d].value in ps && Rank(order, Slots(ps, order)[d].value) == d
  {
    if ps != [] {
      var init := ps[..|ps| - 1];
      var last := ps[|ps| - 1];
      SlotsHoldTheirNames(init, order);
      var prev := Slots(init, order);
      var s := Slots(ps, order);
      forall d | 0 <= d < |s| && s[d].Some? ensures s[d].value in ps && Rank(order, s[d].value) == d {
        if Rank(order, last) == d {
          assert s[d] == Some(last);
        } else {
          assert s[d] == prev[d];
          assert prev[d].value in init;
        }
      }
    }
  }

  /** The chunks left behind are chunks of `ps` whose names are not in `order`. */
  lemma {:induction false} UnorderedAreUnnamed(ps: seq<string>, order: seq<string>)
    ensures forall c :: c in Unordered(ps, order) ==> c in ps && Rank(order, c) == -1
  {
    if ps != [] {
      UnorderedAreUnnamed(ps[..|ps| - 1], order);
      assert forall c :: c in ps[..|ps| - 1] ==> c in ps;
    }
  }

  /** `compact`: the present values, in slot order. */
  function Present(s: seq<Option<string>>): seq<string>
  {
    if s == [] then [] else Present(s[..|s| - 1]) + (if s[|s| - 1].Some? then [s[|s| - 1].value] else [])
  }

  /** The parameter chunks `reorderPathParams` leaves, or the assertion it throws. */
  function ReorderedParams(ps: seq<string>, order: seq<string>): Result<seq<string>>
  {
    var kept := NonEmpty(ps);
    if AllMatch(kept) then Ok(Present(Slots(kept, order)) + Unordered(kept, order))
    else Err("AssertionError: param does not match")
  }

  /** What `reorderPathParams(url, order)` returns, or the error it throws. */
  function ReorderedUrl(url: string, order: seq<string>): Result<string>
  {
    match UrlPartsOf(url)
    case Err(e) => Err(e)
    case Ok(u) =>
      match ReorderedParams(u.params, order)
      case Err(e) => Err(e)
      case Ok(ps) => Ok(FormatUrl(u.(params := ps)))
  }

  /** `reorderPathParams`: parse, reorder the parameter chunks, format. */
  method ReorderPathParams(url: string, order: seq<string>) returns (r: Result<string>)
    ensures r == ReorderedUrl(url, order)
  {
    var parsed := ParseUrl(url);
    if parsed.Err? {
      return Err(parsed.error);
    }
    var u := parsed.value;
    var params := ReorderParamChunks(u.params, order);
    if params.Err? {
      return Err(params.error);
    }
    r := Ok(FormatUrl(u.(params := params.value)));
  }

  /** The body of `reorderPathParams` between parsing and formatting. */
  method ReorderParamChunks(chunks: seq<string>, order: seq<string>) returns (r: Result<seq<string>>)
    ensures r == ReorderedParams(chunks, order)
  {
    var kept := NonEmpty(chunks);
    var params := new Option<string>[|kept|](i requires 0 <= i < |kept| reads {} => Some(kept[i]));
    var frontParams := new Option<string>[|order|](_ => None);
    var ok := MoveNamedToFront(kept, order, params, frontParams);
    if !ok {
      return Err("AssertionError: param does not match");
    }
    r := Ok(Present(frontParams[..]) + Present(params[..]));
  }

  /**
   * The loop of `reorderPathParams`: each chunk named in `order` moves to
   * its slot of `frontParams` and its place in `params` is deleted.
   */
  method MoveNamedToFront(kept: seq<string>, order: seq<string>, params: array<Option<string>>,
                          frontParams: array<Option<string>>) returns (ok: bool)
    requires params != frontParams
    requires params.Length == |kept| && forall j :: 0 <= j < |kept| ==> params[j] == Some(kept[j])
    requires frontParams.Length == |order| && forall d :: 0 <= d < |order| ==> frontParams[d].None?
    modifies params, frontParams
    ensures ok == AllMatch(kept)
    ensures ok ==> frontParams[..] == Slots(kept, order) && Present(params[..]) == Unordered(kept, order)
  {
    var i := 0;
    assert frontParams[..] == NoSlots(|order|);
    while i < |kept|
      invariant 0 <= i <= |kept|
      invariant AllMatch(kept[..i])
      invariant frontParams[..] == Slots(kept[..i], order)
      invariant Present(params[..i]) == Unordered(kept[..i], order)
      invariant forall j :: i <= j < |kept| ==> params[j] == Some(kept[j])
    {
      var m := ParamMatch(kept[i]);
      if m.None? {
        assert !AllMatch(kept) by { assert kept[i] == kept[..i + 1][i]; }
        return false;
      }
      var desiredOrder := OrderIndex(order, m.value.0);
      ghost var ps, fs := params[..], frontParams[..];
      if desiredOrder >= 0 {
        frontParams[desiredOrder] := Some(kept[i]);
        params[i] := None;
      }
      PlaceStep(kept, i, order, ps, params[..], fs, frontParams[..]);
      i := i + 1;
    }
    assert kept[..i] == kept;
    assert params[..] == params[..i];
    ok := true;
  }

  lemma ReorderStep(kept: seq<string>, i: nat, order: seq<string>)
    requires i < |kept| && AllMatch(kept[..i]) && ParamMatch(kept[i]).Some?
    ensures AllMatch(kept[..i + 1])
    ensures Rank(order, kept[i]) == OrderIndex(order, ParamMatch(kept[i]).value.0)
    ensures var d := Rank(order, kept[i]);
            Slots(kept[..i + 1], order) ==
              (if d >= 0 then Slots(kept[..i], order)[d := Some(kept[i])] else Slots(kept[..i], order))
    ensures Unordered(kept[..i + 1], order) ==
              Unordered(kept[..i], order) + (if Rank(order, kept[i]) >= 0 then [] else [kept[i]])
  {
    var next := kept[..i + 1];
    assert next[..i] == kept[..i] && next[i] == kept[i];
  }

  /** One pass of that loop, on the contents of the two arrays before and after it. */
  lemma PlaceStep(kept: seq<string>, i: nat, order: seq<string>,
                  ps: seq<Option<string>>, ps': seq<Option<string>>, fs: seq<Option<string>>, fs': seq<Option<string>>)
    requires i < |kept| == |ps| && AllMatch(kept[..i]) && ParamMatch(kept[i]).Some?
    requires fs == Slots(kept[..i], order) && Present(ps[..i]) == Unordered(kept[..i], order)
    requires forall j :: i <= j < |kept| ==> ps[j] == Some(kept[j])
    requires var d := OrderIndex(order, ParamMatch(kept[i]).value.0);
             if d >= 0 then fs' == fs[d := Some(kept[i])] && ps' == ps[i := None] else fs' == fs && ps' == ps
    ensures AllMatch(kept[..i + 1])
    ensures fs' == Slots(kept[..i + 1], order) && Present(ps'[..i + 1]) == Unordered(kept[..i + 1], order)
    ensures forall j :: i + 1 <= j < |kept| ==> ps'[j] == Some(kept[j])
  {
    ReorderStep(kept, i, order);
    assert ps'[..i] == ps[..i];
    assert ps'[..i + 1] == ps[..i] + [ps'[i]];
    PresentSnoc(ps[..i], ps'[i]);
  }

  lemma PresentSnoc(s: seq<Option<string>>, x: Option<string>)
    ensures Present(s + [x]) == Present(s) + (if x.Some? then [x.value] else [])
  {
    assert (s + [x])[..|s|] == s;
  }

  /** When no chunk is named in `order`, the URL comes back unchanged. */
  lemma ReorderUnnamedIsIdentity(url: string, order: seq<string>)
    requires UrlPartsOf(url).Ok?
    requires var ps := UrlPartsOf(url).value.params;
             AllMatch(ps) && forall i :: 0 <= i < |ps| ==> Rank(order, ps[i]) == -1
    ensures ReorderedUrl(url, order) == Ok(url)
  {
    var u := UrlPartsOf(url).value;
    var ps := u.params;
    assert NonEmpty(ps) == ps;
    UnorderedAll(ps, order);
    SlotsEmpty(ps, order);
    PresentNone(|order|);
    assert Present(Slots(ps, order)) == [];
    assert Present(Slots(ps, order)) + Unordered(ps, order) == ps;
    assert ReorderedParams(ps, order) == Ok(ps);
    assert u.(params := ps) == u;
    FormatParsedUrl(url);
  }

  lemma {:induction false} UnorderedAll(ps: seq<string>, order: seq<string>)
    requires forall i :: 0 <= i < |ps| ==> Rank(order, ps[i]) == -1
    ensures Unordered(ps, order) == ps
  {
    if ps != [] {
      UnorderedAll(ps[..|ps| - 1], order);
      assert ps[..|ps| - 1] + [ps[|ps| - 1]] == ps;
    }
  }

  lemma {:induction false} SlotsEmpty(ps: seq<string>, order: seq<string>)
    requires forall i :: 0 <= i < |ps| ==> Rank(order, ps[i]) == -1
    ensures Slots(ps, order) == NoSlots(|order|)
  {
    if ps != [] {
      SlotsEmpty(ps[..|ps| - 1], order);
    }
  }

  lemma {:induction false} PresentNone(n: nat)
    ensures Present(NoSlots(n)) == []
  {
    if n > 0 {
      PresentNone(n - 1);
      assert NoSlots(n)[..n - 1] == NoSlots(n - 1);
    }
  }

  /**
   * The reordered chunks: first those named in `order`, in the order of
   * their names there, then the others in their original order.
   */
  lemma ReorderedLayout(ps: seq<string>, order: seq<string>)
    requires ReorderedParams(ps, order).Ok?
    ensures var r := ReorderedParams(ps, order).value;
            var front := Present(Slots(NonEmpty(ps), order));
            r == front + Unordered(NonEmpty(ps), order)
            && (forall i :: 0 <= i < |front| ==> Rank(order, front[i]) >= 0)
            && (forall i, j :: 0 <= i < j < |front| ==> Rank(order, front[i]) < Rank(order, front[j]))
            && (forall i :: |front| <= i < |r| ==> r[i] in ps && Rank(order, r[i]) == -1)
  {
    var s := Slots(NonEmpty(ps), order);
    SlotsHoldTheirNames(NonEmpty(ps), order);
    UnorderedAreUnnamed(NonEmpty(ps), order);
    var idx := PresentIndices(s);
    var front := Present(s);
    forall i | 0 <= i < |front| ensures Rank(order, front[i]) == idx[i] {
      assert s[idx[i]] == Some(front[i]);
    }
    var r := ReorderedParams(ps, order).value;
    var rest := Unordered(NonEmpty(ps), order);
    forall i | |front| <= i < |r| ensures r[i] in ps && Rank(order, r[i]) == -1 {
      assert r[i] == rest[i - |front|];
      assert r[i] in rest;
    }
  }

  /** `Present(s)[i]` is the value of slot `idx[i]`, and the slots are taken in increasing order. */
  lemma {:induction false} PresentIndices(s: seq<Option<string>>) returns (idx: seq<nat>)
    ensures |idx| == |Present(s)|
    ensures forall i :: 0 <= i < |idx| ==> idx[i] < |s| && s[idx[i]] == Some(Present(s)[i])
    ensures forall i, j :: 0 <= i < j < |idx| ==> idx[i] < idx[j]
  {
    if s == [] {
      idx := [];
    } else {
      var init := s[..|s| - 1];
      var prev := PresentIndices(init);
      if s[|s| - 1].Some? {
        idx := prev + [|s| - 1];
      } else {
        idx := prev;
      }
    }
  }
}
