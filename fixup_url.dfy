/*
 * The client's `fixupUrl`: a link whose href still carries the worker
 * segment `/_w_<hex>/` of the page's base href is rewritten to point at the
 * page itself, keeping the page's own query string when the link has none.
 */
module FixupUrl {
  import opened Common

  /** `[a-f0-9]`: only lower-case hex digits belong to a worker id. */
  predicate IsWorkerDigit(c: char)
  {
    IsDigit(c) || ('a' <= c <= 'f')
  }

  /** The length of the run of worker digits at the start of `s`. */
  function HexRun(s: string): (n: nat)
    ensures n <= |s|
    ensures forall k :: 0 <= k < n ==> IsWorkerDigit(s[k])
    ensures n == |s| || !IsWorkerDigit(s[n])
  {
    if s != [] && IsWorkerDigit(s[0]) then 1 + HexRun(s[1..]) else 0
  }

  /**
   * The length of the match of `/\/_w_[a-f0-9]+\//` at the start of `s`, if
   * it matches there. Hex digits are never `/`, so the greedy run is the only
   * one that can be followed by the closing slash.
   */
  function WorkerAt(s: string): (n: Option<nat>)
    ensures n.Some? ==> 6 <= n.value <= |s|
  {
    if |s| >= 4 && s[0] == '/' && s[1] == '_' && s[2] == 'w' && s[3] == '_' then
      var k := HexRun(s[4..]);
      if k > 0 && 4 + k < |s| && s[4 + k] == '/' then Some(5 + k) else None
    else None
  }

  /** `href.replace(/\/_w_[a-f0-9]+\//g, "/")`: left to right, resuming after each match. */
  function StripWorker(s: string): (r: string)
    ensures |r| <= |s|
  {
    if s == [] then []
    else
      match WorkerAt(s)
      case Some(n) => "/" + StripWorker(s[n..])
      case None => [s[0]] + StripWorker(s[1..])
  }

  /** No worker segment starts anywhere in `s`. */
  predicate NoWorker(s: string)
  {
    s == [] || (WorkerAt(s).None? && NoWorker(s[1..]))
  }

  /** The replacement changes the href exactly when it holds a worker segment. */
  lemma {:induction false} StripWorkerIdentity(s: string)
    ensures StripWorker(s) == s <==> NoWorker(s)
  {
    if s != [] {
      match WorkerAt(s)
      case Some(n) =>
        assert |StripWorker(s)| <= 1 + |s| - n < |s|;
      case None =>
        StripWorkerIdentity(s[1..]);
        assert StripWorker(s) == [s[0]] + StripWorker(s[1..]);
        if StripWorker(s[1..]) != s[1..] {
          assert StripWorker(s)[1..] == StripWorker(s[1..]);
        }
    }
  }

  lemma ConsAppend<T>(x: T, t: seq<T>, u: seq<T>)
    ensures [x] + (t + u) == ([x] + t) + u
  {
  }

  lemma NoWorkerHere(s: string)
    requires |s| < 2 || s[1] != '_'
    ensures WorkerAt(s).None?
  {
  }

  /** A prefix without `_` is copied as it is, as long as what follows it does not start with `_`. */
  lemma {:induction false} StripWorkerPlainPrefix(a: string, b: string)
    requires forall i :: 0 <= i < |a| ==> a[i] != '_'
    requires b == [] || b[0] != '_'
    ensures StripWorker(a + b) == a + StripWorker(b)
  {
    if a == [] {
      assert a + b == b;
    } else {
      var s := a + b;
      var t := a[1..];
      assert s == [a[0]] + (t + b);
      assert t + b == [] || (t + b)[0] != '_' by {
        if t != [] {
          assert (t + b)[0] == a[1];
        }
      }
      NoWorkerHere(s);
      StripWorkerPlainPrefix(t, b);
      assert StripWorker(s) == [a[0]] + (t + StripWorker(b));
      assert a == [a[0]] + t;
      ConsAppend(a[0], t, StripWorker(b));
    }
  }

  /** Where `[^#?]*` (with `query`) or `[^#]*` (without) stops. */
  predicate Stops(c: char, query: bool)
  {
    c == '#' || (query && c == '?')
  }

  /** No character of `s` stops the run. */
  predicate Free(s: string, query: bool)
  {
    forall k :: 0 <= k < |s| ==> !Stops(s[k], query)
  }

  /** The length of the longest start of `s` free of stops. */
  function Span(s: string, query: bool): (n: nat)
    ensures n <= |s|
    ensures Free(s[..n], query)
    ensures n == |s| || Stops(s[n], query)
  {
    if s != [] && !Stops(s[0], query) then
      var n := 1 + Span(s[1..], query);
      assert forall k :: 1 <= k < n ==> s[..n][k] == s[1..][..n - 1][k - 1];
      n
    else 0
  }

  /** The parts of a link: the groups of `/^([^#?]*)(\?[^#]*)?(#.*)?$/`. */
  datatype Parts = Parts(base: string, search: string, hash: string)

  predicate WellFormed(parts: Parts)
  {
    Free(parts.base, true)
    && (parts.search == [] || (parts.search[0] == '?' && Free(parts.search, false)))
    && (parts.hash == [] || (parts.hash[0] == '#' && NoLineTerminator(parts.hash[1..])))
  }

  /**
   * The match of `/^([^#?]*)(\?[^#]*)?(#.*)?$/`, None when it fails: `.`
   * does not match a line terminator, so a hash holding one cannot reach `$`.
   */
  function SplitHref(h: string): (r: Option<Parts>)
    ensures r.Some? ==> r.value.base + r.value.search + r.value.hash == h && WellFormed(r.value)
  {
    var i := Span(h, true);
    var j := if i < |h| && h[i] == '?' then i + Span(h[i..], false) else i;
    assert h[i..][..j - i] == h[i..j];
    var parts := Parts(h[..i], h[i..j], h[j..]);
    assert parts.base + parts.search + parts.hash == h;
    if parts.hash == [] || NoLineTerminator(parts.hash[1..]) then Some(parts) else None
  }

  /** Splitting a link put together from well-formed parts gives back those parts. */
  lemma SplitHrefParts(parts: Parts)
    requires WellFormed(parts)
    ensures SplitHref(parts.base + parts.search + parts.hash) == Some(parts)
  {
    var Parts(base, search, hash) := parts;
    var h := base + search + hash;
    SpanAll(base, search + hash, true);
    assert h == base + (search + hash);
    assert h[|base|..] == search + hash;
    if search != [] {
      SpanAll(search, hash, false);
    }
  }

  /** A span stops exactly where its first part ends when the second starts with a stop. */
  lemma {:induction false} SpanAll(a: string, b: string, query: bool)
    requires Free(a, query)
    requires b == [] || Stops(b[0], query)
    ensures Span(a + b, query) == |a|
  {
    if a == [] {
      assert a + b == b;
    } else {
      assert (a + b)[1..] == a[1..] + b;
      assert Free(a[1..], query) by {
        assert forall k :: 0 <= k < |a[1..]| ==> a[1..][k] == a[k + 1];
      }
      SpanAll(a[1..], b, query);
    }
  }

  /** The parts of `window.location` that `fixupUrl` reads. */
  datatype Location = Location(origin: string, pathname: string, search: string)

  /**
   * `fixupUrl(href, location)`; None when the source's `assert(m)` fails,
   * which happens only when the hash holds a line terminator.
   */
  function Fixup(href: string, location: Location): (r: Option<string>)
    ensures StripWorker(href) == href ==> r == Some(href)
    ensures r.Some? && r.value != href ==> location.origin + location.pathname <= r.value
  {
    var stripped := StripWorker(href);
    if stripped == href then Some(href)
    else
      match SplitHref(stripped)
      case None => None
      case Some(parts) =>
        if parts.base != location.origin + location.pathname then Some(href)
        else Some(parts.base + (if parts.search == [] then location.search else parts.search) + parts.hash)
  }

  /** An href without a worker segment, or one that points at another page, is returned unchanged. */
  lemma FixupPassesThrough(href: string, location: Location)
    ensures NoWorker(href) ==> Fixup(href, location) == Some(href)
    ensures SplitHref(StripWorker(href)).Some? && SplitHref(StripWorker(href)).value.base != location.origin + location.pathname
      ==> Fixup(href, location) == Some(href)
  {
    StripWorkerIdentity(href);
  }

  /** A worker segment after a plain page address collapses to one slash. */
  lemma StripOneWorker(page: string, id: string, rest: string)
    requires forall i :: 0 <= i < |page| ==> page[i] != '_'
    requires id != [] && forall i :: 0 <= i < |id| ==> IsWorkerDigit(id[i])
    requires forall i :: 0 <= i < |rest| ==> rest[i] != '_'
    ensures StripWorker(page + ("/_w_" + id + "/" + rest)) == page + ("/" + rest)
  {
    StripWorkerPlainPrefix(page, "/_w_" + id + "/" + rest);
    StripWorkerSegment(id, rest);
    StripWorkerPlainPrefix(rest, []);
    assert rest + [] == rest;
  }

  lemma StripWorkerSegment(id: string, rest: string)
    requires id != [] && forall i :: 0 <= i < |id| ==> IsWorkerDigit(id[i])
    ensures StripWorker("/_w_" + id + "/" + rest) == "/" + StripWorker(rest)
  {
    var s := "/_w_" + id + "/" + rest;
    assert s[0] == '/' && s[1] == '_' && s[2] == 'w' && s[3] == '_';
    assert s[4..] == id + ("/" + rest);
    HexRunStops(id, "/" + rest);
    assert s[4 + |id|] == '/';
    assert WorkerAt(s) == Some(5 + |id|);
    assert s[5 + |id|..] == rest;
  }

  /**
   * A link to this page through a worker segment: the segment goes, the
   * link's query string is kept, or the page's when the link has none, and
   * the hash is kept.
   */
  lemma FixupWorkerLink(page: string, id: string, search: string, hash: string, location: Location)
    requires forall i :: 0 <= i < |page| ==> page[i] != '_' && page[i] != '#' && page[i] != '?'
    requires id != [] && forall i :: 0 <= i < |id| ==> IsWorkerDigit(id[i])
    requires WellFormed(Parts(page + "/", search, hash))
    requires forall i :: 0 <= i < |search + hash| ==> (search + hash)[i] != '_'
    ensures Fixup(page + ("/_w_" + id + "/" + (search + hash)), location) ==
      if page + "/" == location.origin + location.pathname
      then Some(page + "/" + (if search == [] then location.search else search) + hash)
      else Some(page + ("/_w_" + id + "/" + (search + hash)))
  {
    var rest := search + hash;
    StripOneWorker(page, id, rest);
    Regroup(page, "/", search, hash);
    SplitHrefParts(Parts(page + "/", search, hash));
  }

  lemma Regroup<T>(a: seq<T>, b: seq<T>, c: seq<T>, d: seq<T>)
    ensures a + (b + (c + d)) == a + b + c + d
  {
  }

  /** The worker-digit run of an id followed by a slash is the whole id. */
  lemma {:induction false} HexRunStops(id: string, rest: string)
    requires forall i :: 0 <= i < |id| ==> IsWorkerDigit(id[i])
    requires rest != [] && rest[0] == '/'
    ensures HexRun(id + rest) == |id|
  {
    if id == [] {
      assert id + rest == rest;
    } else {
      assert (id + rest)[1..] == id[1..] + rest;
      HexRunStops(id[1..], rest);
    }
  }
}
