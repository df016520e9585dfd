/*
 * The router built from `shiny-server.conf`: how the checked config tree
 * becomes a list of server routers (`createServers`), how a server router
 * scores a request (`ServerRouter.getScore`), and how the URL path of a
 * possibly nested `location` is derived (`joinUrlParts`,
 * `deriveLocationPath`).
 */
module ConfigRouter {
  import opened Common
  import opened ConfigLexer
  import opened ConfigTree
  import opened ConfigSchema

  // ---------------------------------------------------------------------
  // URL paths of locations
  // ---------------------------------------------------------------------

  predicate EndsWithSlash(s: string)
  {
    s != [] && s[|s| - 1] == '/'
  }

  predicate StartsWithSlash(s: string)
  {
    s != [] && s[0] == '/'
  }

  /** `s.replace(/\/$/, '')` */
  function StripTrailingSlash(s: string): (r: string)
    ensures EndsWithSlash(s) ==> r + "/" == s
    ensures !EndsWithSlash(s) ==> r == s
  {
    if EndsWithSlash(s) then s[..|s| - 1] else s
  }

  /** `s.replace(/^\//, '')` */
  function StripLeadingSlash(s: string): (r: string)
    ensures StartsWithSlash(s) ==> "/" + r == s
    ensures !StartsWithSlash(s) ==> r == s
  {
    if StartsWithSlash(s) then s[1..] else s
  }

  /** `joinUrlParts(a, b)`: exactly one slash between the parts, however many of the two they bring. */
  function JoinUrlParts(a: string, b: string): (r: string)
    ensures StartsWithSlash(a) ==> StartsWithSlash(r)
    ensures EndsWithSlash(b) ==> EndsWithSlash(r)
  {
    StripTrailingSlash(a) + "/" + StripLeadingSlash(b)
  }

  /**
   * Exactly one slash separates the parts: whether `a` already ends with a
   * slash and whether `b` already starts with one makes no difference.
   */
  lemma JoinUrlPartsOneSlash(a: string, b: string)
    requires !EndsWithSlash(a) && !StartsWithSlash(b)
    ensures JoinUrlParts(a, b) == a + "/" + b
    ensures JoinUrlParts(a + "/", b) == a + "/" + b
    ensures JoinUrlParts(a, "/" + b) == a + "/" + b
    ensures JoinUrlParts(a + "/", "/" + b) == a + "/" + b
  {
    assert (a + "/")[..|a + "/"| - 1] == a;
    assert ("/" + b)[1..] == b;
  }

  /** Stripping a slash at one end leaves the other end alone once there are two characters. */
  lemma StripsCommute(b: string)
    requires |b| >= 2
    ensures StripLeadingSlash(StripTrailingSlash(b)) == StripTrailingSlash(StripLeadingSlash(b))
  {
  }

  lemma StripTrailingAfterSlash(x: string, y: string)
    requires y != []
    ensures StripTrailingSlash(x + "/" + y) == x + "/" + StripTrailingSlash(y)
  {
    if EndsWithSlash(y) {
      assert (x + "/" + y)[..|x + "/" + y| - 1] == x + "/" + y[..|y| - 1];
    }
  }

  lemma StripLeadingBeforeSlash(x: string, y: string)
    requires x != []
    ensures StripLeadingSlash(x + "/" + y) == StripLeadingSlash(x) + "/" + y
  {
    if StartsWithSlash(x) {
      assert (x + "/" + y)[1..] == x[1..] + "/" + y;
    }
  }

  lemma JoinEmptyMiddle(a: string, b: string, c: string)
    requires StripTrailingSlash(b) == [] && StripLeadingSlash(b) == []
    ensures JoinUrlParts(a, JoinUrlParts(b, c)) == JoinUrlParts(JoinUrlParts(a, b), c)
  {
    var a' := StripTrailingSlash(a);
    var c' := StripLeadingSlash(c);
    assert JoinUrlParts(b, c) == "/" + c';
    assert StripLeadingSlash("/" + c') == c';
    assert JoinUrlParts(a, b) == a' + "/";
    assert StripTrailingSlash(a' + "/") == a';
  }

  lemma SlashRegroup(x: string, y: string, z: string)
    ensures x + "/" + (y + "/" + z) == (x + "/" + y) + "/" + z
  {
  }

  lemma JoinLongMiddle(a: string, b: string, c: string)
    requires StripTrailingSlash(b) != [] && StripLeadingSlash(b) != []
    requires StripLeadingSlash(StripTrailingSlash(b)) == StripTrailingSlash(StripLeadingSlash(b))
    ensures JoinUrlParts(a, JoinUrlParts(b, c)) == JoinUrlParts(JoinUrlParts(a, b), c)
  {
    var a' := StripTrailingSlash(a);
    var c' := StripLeadingSlash(c);
    var tb := StripTrailingSlash(b);
    var lb := StripLeadingSlash(b);
    var m := StripLeadingSlash(tb);
    var bc := JoinUrlParts(b, c);
    var ab := JoinUrlParts(a, b);
    assert bc == tb + "/" + c';
    assert ab == a' + "/" + lb;
    StripLeadingBeforeSlash(tb, c');
    StripTrailingAfterSlash(a', lb);
    assert StripLeadingSlash(bc) == m + "/" + c';
    assert StripTrailingSlash(ab) == a' + "/" + m;
    SlashRegroup(a', m, c');
  }

  /** Joining is associative, so a nested path can be joined from either end. */
  lemma JoinUrlPartsAssociative(a: string, b: string, c: string)
    ensures JoinUrlParts(a, JoinUrlParts(b, c)) == JoinUrlParts(JoinUrlParts(a, b), c)
  {
    if b == [] || b == "/" {
      JoinEmptyMiddle(a, b, c);
    } else {
      if |b| >= 2 {
        StripsCommute(b);
      }
      JoinLongMiddle(a, b, c);
    }
  }

  /** The `path` value of a `location` directive, once the schema has given it one. */
  function PathOf(n: Node): Option<string>
  {
    if n.values.Some? && "path" in n.values.value && n.values.value["path"].StringV?
    then Some(n.values.value["path"].s) else None
  }

  /**
   * The index in `chain` (a location node followed by its ancestors) of the
   * outermost location reached from index `i` through parents named `location`.
   */
  function Outermost(chain: seq<Node>, i: nat): (o: nat)
    requires i < |chain|
    ensures i <= o < |chain|
    ensures forall k :: i < k <= o ==> chain[k].name == Some("location")
    ensures o + 1 == |chain| || chain[o + 1].name != Some("location")
    decreases |chain| - i
  {
    if i + 1 < |chain| && chain[i + 1].name == Some("location") then Outermost(chain, i + 1) else i
  }

  /** Every location the derivation visits has a `path`. */
  predicate PathsUpTo(chain: seq<Node>, o: nat)
    requires o < |chain|
  {
    forall k :: 0 <= k <= o ==> PathOf(chain[k]).Some?
  }

  /** The joined path of the locations `chain[0..i]`, the outer ones first. */
  function JoinedTo(chain: seq<Node>, i: nat): string
    requires i < |chain| && PathsUpTo(chain, i)
  {
    if i == 0 then PathOf(chain[0]).value
    else JoinUrlParts(PathOf(chain[i]).value, JoinedTo(chain, i - 1))
  }

  /** `/^\//.test(path)` failing prefixes a slash. */
  function Rooted(path: string): (r: string)
    ensures StartsWithSlash(r)
    ensures StartsWithSlash(path) ==> r == path
    ensures !StartsWithSlash(path) ==> r == "/" + path
  {
    if StartsWithSlash(path) then path else "/" + path
  }

  /** The URL path of the location `chain[0]`, its enclosing locations included. */
  function LocationPath(chain: seq<Node>): string
    requires chain != [] && PathsUpTo(chain, Outermost(chain, 0))
  {
    Rooted(JoinedTo(chain, Outermost(chain, 0)))
  }

  /** `deriveLocationPath(locNode)`, the node given with its ancestors. */
  method DeriveLocationPath(chain: seq<Node>) returns (path: string)
    requires chain != [] && PathsUpTo(chain, Outermost(chain, 0))
    ensures path == LocationPath(chain)
    ensures StartsWithSlash(path)
  {
    var i := 0;
    path := PathOf(chain[0]).value;
    while i + 1 < |chain| && chain[i + 1].name == Some("location")
      invariant 0 <= i <= Outermost(chain, 0)
      invariant Outermost(chain, i) == Outermost(chain, 0)
      invariant path == JoinedTo(chain, i)
      decreases |chain| - i
    {
      i := i + 1;
      path := JoinUrlParts(PathOf(chain[i]).value, path);
    }
    if !StartsWithSlash(path) {
      path := "/" + path;
    }
  }

  /** Joining the locations from the inside out is joining the outer ones onto the innermost. */
  lemma {:induction false} JoinedToNested(chain: seq<Node>, i: nat)
    requires 1 <= i < |chain| && PathsUpTo(chain, i)
    ensures PathsUpTo(chain[1..], i - 1)
    ensures JoinedTo(chain, i) == JoinUrlParts(JoinedTo(chain[1..], i - 1), PathOf(chain[0]).value)
  {
    var up := chain[1..];
    assert forall k :: 0 <= k <= i - 1 ==> up[k] == chain[k + 1];
    if i > 1 {
      JoinedToNested(chain, i - 1);
      assert up[i - 1] == chain[i];
      JoinUrlPartsAssociative(PathOf(chain[i]).value, JoinedTo(up, i - 2), PathOf(chain[0]).value);
    }
  }

  lemma {:induction false} OutermostShift(chain: seq<Node>, i: nat)
    requires 1 <= i < |chain|
    ensures Outermost(chain, i) == Outermost(chain[1..], i - 1) + 1
    decreases |chain| - i
  {
    if i + 1 < |chain| && chain[i + 1].name == Some("location") {
      OutermostShift(chain, i + 1);
    }
  }

  lemma RootedJoinBare(inner: string, p: string)
    requires inner == [] || inner == "/"
    ensures Rooted(JoinUrlParts(inner, p)) == JoinUrlParts(Rooted(inner), p)
  {
    assert Rooted(inner) == "/";
    assert StripTrailingSlash("/") == [];
    assert StripTrailingSlash(inner) == [];
    assert JoinUrlParts(inner, p) == "/" + StripLeadingSlash(p);
  }

  lemma JoinOntoRooted(inner: string, p: string)
    requires inner != [] && inner[0] != '/'
    ensures JoinUrlParts(Rooted(inner), p) == "/" + JoinUrlParts(inner, p)
  {
    assert Rooted(inner) == [] + "/" + inner;
    StripTrailingAfterSlash([], inner);
    var t := StripTrailingSlash(inner);
    var l := StripLeadingSlash(p);
    assert StripTrailingSlash(Rooted(inner)) == "/" + t;
    assert ("/" + t) + "/" + l == "/" + (t + "/" + l);
  }

  lemma JoinUnrooted(inner: string, p: string)
    requires inner != [] && inner[0] != '/'
    ensures !StartsWithSlash(JoinUrlParts(inner, p))
  {
    var ti := StripTrailingSlash(inner);
    assert ti != [] && ti[0] == inner[0];
    assert (ti + "/" + StripLeadingSlash(p))[0] == ti[0];
  }

  /** Rooting the joined path is joining onto the rooted path. */
  lemma RootedJoin(inner: string, p: string)
    ensures Rooted(JoinUrlParts(inner, p)) == JoinUrlParts(Rooted(inner), p)
  {
    if inner == [] || inner == "/" {
      RootedJoinBare(inner, p);
    } else if inner[0] == '/' {
      assert StripTrailingSlash(inner)[0] == '/';
    } else {
      JoinOntoRooted(inner, p);
      JoinUnrooted(inner, p);
    }
  }

  /**
   * The path of a location nested in another is the enclosing location's
   * path joined with its own.
   */
  lemma NestedLocationPath(chain: seq<Node>)
    requires |chain| >= 2 && chain[1].name == Some("location")
    requires PathsUpTo(chain, Outermost(chain, 0))
    ensures PathsUpTo(chain[1..], Outermost(chain[1..], 0))
    ensures LocationPath(chain) == JoinUrlParts(LocationPath(chain[1..]), PathOf(chain[0]).value)
  {
    var o := Outermost(chain, 0);
    OutermostShift(chain, 1);
    JoinedToNested(chain, o);
    RootedJoin(JoinedTo(chain[1..], o - 1), PathOf(chain[0]).value);
  }

  // ---------------------------------------------------------------------
  // Scoring a request
  // ---------------------------------------------------------------------

  /** A local socket address: its port and its IPv4 address. */
  datatype Address = Address(port: int, host: string)

  /**
   * What scoring reads of a request: `req.address`, the local address of
   * `req.connection`, and the `Host` header.
   */
  datatype Request = Request(address: Option<Address>, connection: Option<Address>, hostHeader: Option<string>)

  /** `ServerRouter`: the port and host it listens on and its lowercased server names. */
  datatype ServerRouter = ServerRouter(port: int, host: string, vhosts: seq<string>)

  /** `(req.headers.host || '').split(/:/)[0].toLowerCase()` */
  function VirtualHost(hostHeader: Option<string>): (v: string)
    ensures ':' !in v
  {
    var h := if hostHeader.Some? then hostHeader.value else "";
    var v := ToLowerAscii(Split(h, ':')[0]);
    assert forall i :: 0 <= i < |v| ==> v[i] != ':' by {
      forall i | 0 <= i < |v| ensures v[i] != ':' {
        assert Split(h, ':')[0][i] != ':';
      }
    }
    v
  }

  predicate Wildcard(host: string)
  {
    host == "0.0.0.0" || host == "*"
  }

  /** The local address the request arrived on, `req.address || req.connection.address()`. */
  function LocalAddress(req: Request): Address
    requires req.address.Some? || req.connection.Some?
  {
    if req.address.Some? then req.address.value else req.connection.value
  }

  /** The points for the host: 1 for a wildcard, 2 for the request's own address, 0 otherwise. */
  function HostPoints(server: ServerRouter, req: Request): nat
    requires req.address.Some? || req.connection.Some?
  {
    if Wildcard(server.host) then 1 else if server.host == LocalAddress(req).host then 2 else 0
  }

  /**
   * Whether a server can answer a request at all: the request has a local
   * address, the ports agree, the host is a wildcard or the same address,
   * and a server with names lists the request's virtual host (which `_.find`
   * only reports when it is a non-empty string).
   */
  predicate Serves(server: ServerRouter, req: Request)
  {
    (req.address.Some? || req.connection.Some?)
    && LocalAddress(req).port == server.port
    && HostPoints(server, req) > 0
    && (server.vhosts == [] || (VirtualHost(req.hostHeader) != "" && VirtualHost(req.hostHeader) in server.vhosts))
  }

  /** The score `getScore` computes, stated by cases. */
  function Score(server: ServerRouter, req: Request): nat
  {
    if !Serves(server, req) then 0
    else HostPoints(server, req) + (if server.vhosts == [] then 0 else 3)
  }

  /** `ServerRouter.prototype.getScore` */
  method GetScore(server: ServerRouter, req: Request) returns (score: nat)
    ensures score == Score(server, req)
    ensures score in {0, 1, 2, 4, 5}
    ensures score > 0 <==> Serves(server, req)
  {
    score := 0;
    if req.address.None? && req.connection.None? {
      return 0;
    }
    var address := if req.address.Some? then req.address.value else req.connection.value;
    var vhost := VirtualHost(req.hostHeader);
    if address.port != server.port {
      return 0;
    }
    if server.host == "0.0.0.0" || server.host == "*" {
      score := score + 1;
    } else if server.host == address.host {
      score := score + 2;
    } else {
      return 0;
    }
    if |server.vhosts| > 0 {
      var i := 0;
      while i < |server.vhosts| && server.vhosts[i] != vhost
        invariant 0 <= i <= |server.vhosts|
        invariant vhost !in server.vhosts[..i]
      {
        i := i + 1;
      }
      if i == |server.vhosts| {
        assert server.vhosts[..i] == server.vhosts;
      }
      var found: Option<string> := if i < |server.vhosts| then Some(server.vhosts[i]) else None;
      if found.Some? && found.value != "" {
        score := score + 3;
      } else {
        return 0;
      }
    }
  }

  // ---------------------------------------------------------------------
  // Creating the server routers
  // ---------------------------------------------------------------------

  /** Each node is followed by its parent in the chain. */
  predicate ParentLinks(chain: seq<Node>)
  {
    forall k :: 0 <= k < |chain| - 1 ==> chain[k] in chain[k + 1].children
  }

  /**
   * `search(pred, includeSelf)` in preorder, each node found paired with its
   * ancestors (the chain `above` being the ancestors of `n`), so that the
   * inheriting lookups of the node can climb to them.
   */
  function ChainsFrom(n: Node, above: seq<Node>, pred: Node -> bool, includeSelf: bool): (cs: seq<seq<Node>>)
    requires ParentLinks(above) && (above == [] || n in above[0].children)
    ensures forall i :: 0 <= i < |cs| ==> cs[i] != [] && ParentLinks(cs[i])
    decreases n, 1
  {
    (if includeSelf && pred(n) then [[n] + above] else []) + ChainsAll(n.children, [n] + above, pred)
  }

  function ChainsAll(ns: seq<Node>, above: seq<Node>, pred: Node -> bool): (cs: seq<seq<Node>>)
    requires ParentLinks(above) && above != [] && forall i :: 0 <= i < |ns| ==> ns[i] in above[0].children
    ensures forall i :: 0 <= i < |cs| ==> cs[i] != [] && ParentLinks(cs[i])
    decreases ns, 0
  {
    if ns == [] then [] else ChainsFrom(ns[0], above, pred, true) + ChainsAll(ns[1..], above, pred)
  }

  function Heads(cs: seq<seq<Node>>): (hs: seq<Node>)
    requires forall i :: 0 <= i < |cs| ==> cs[i] != []
    ensures |hs| == |cs|
    ensures forall i :: 0 <= i < |cs| ==> hs[i] == cs[i][0]
  {
    if cs == [] then [] else [cs[0][0]] + Heads(cs[1..])
  }

  lemma HeadsAppend(a: seq<seq<Node>>, b: seq<seq<Node>>)
    requires forall i :: 0 <= i < |a| ==> a[i] != []
    requires forall i :: 0 <= i < |b| ==> b[i] != []
    ensures forall i :: 0 <= i < |a + b| ==> (a + b)[i] != []
    ensures Heads(a + b) == Heads(a) + Heads(b)
  {
  }

  /** The nodes the chains start with are exactly what `search` finds, in the same order. */
  lemma {:induction false} ChainsFromAreSearch(n: Node, above: seq<Node>, pred: Node -> bool, includeSelf: bool)
    requires ParentLinks(above) && (above == [] || n in above[0].children)
    ensures Heads(ChainsFrom(n, above, pred, includeSelf)) == SearchFrom(n, pred, includeSelf, false)
    decreases n, 1
  {
    var own: seq<seq<Node>> := if includeSelf && pred(n) then [[n] + above] else [];
    var up := [n] + above;
    assert ParentLinks(up) by {
      forall k | 0 <= k < |up| - 1 ensures up[k] in up[k + 1].children {
        if k > 0 { assert up[k] == above[k - 1] && up[k + 1] == above[k]; }
      }
    }
    var rest := ChainsAll(n.children, up, pred);
    assert ChainsFrom(n, above, pred, includeSelf) == own + rest;
    ChainsAllAreSearch(n.children, up, pred);
    HeadsAppend(own, rest);
    assert Heads(own) == if includeSelf && pred(n) then [n] else [];
    assert SearchFrom(n, pred, includeSelf, false) == Heads(own) + SearchAll(n.children, pred, false) + [];
  }

  lemma {:induction false} ChainsAllAreSearch(ns: seq<Node>, above: seq<Node>, pred: Node -> bool)
    requires ParentLinks(above) && above != [] && forall i :: 0 <= i < |ns| ==> ns[i] in above[0].children
    ensures Heads(ChainsAll(ns, above, pred)) == SearchAll(ns, pred, false)
    decreases ns, 0
  {
    if ns != [] {
      ChainsFromAreSearch(ns[0], above, pred, true);
      ChainsAllAreSearch(ns[1..], above, pred);
      HeadsAppend(ChainsFrom(ns[0], above, pred, true), ChainsAll(ns[1..], above, pred));
    }
  }

  /** `conf.search('server')`: every `server` node below the root, with its ancestors. */
  function ServerChains(conf: Node): (cs: seq<seq<Node>>)
    ensures forall i :: 0 <= i < |cs| ==> cs[i] != [] && ParentLinks(cs[i])
  {
    ChainsFrom(conf, [], MakePredicate(Named("server")).value, false)
  }

  /** What `createServers` reads of a server before it checks for conflicts. */
  datatype ServerConfig = ServerConfig(port: nat, host: string, names: Option<seq<string>>, listenPosition: Option<Position>)

  /** The `port` of the `listen` values: 80 when absent. */
  function ListenPort(values: map<string, Value>): Option<int>
  {
    if "port" !in values then Some(80)
    else if values["port"].IntV? then Some(values["port"].i)
    else None
  }

  /** The `host` of the `listen` values: a missing or empty host, and `*`, mean 0.0.0.0. */
  function ListenHost(values: map<string, Value>): (host: string)
    ensures host != "*" && host != ""
  {
    if "host" in values && values["host"].StringV? && values["host"].s != "" && values["host"].s != "*"
    then values["host"].s else "0.0.0.0"
  }

  /** `/^\d+\.\d+\.\d+\.\d+$/` */
  predicate DottedQuad(host: string)
  {
    var parts := Split(host, '.');
    |parts| == 4 && forall i :: 0 <= i < 4 ==> parts[i] != "" && AllDigits(parts[i])
  }

  /** The string elements of a list of values. */
  function Strings(items: seq<Value>): (ss: seq<string>)
    ensures |ss| <= |items|
  {
    if items == [] then []
    else (if items[0].StringV? then [items[0].s] else []) + Strings(items[1..])
  }

  /** `getValues('server_name').names`: None where the source sees `undefined`. */
  function ServerNames(values: map<string, Value>): Option<seq<string>>
  {
    if "names" in values && values["names"].ListV? then Some(Strings(values["names"].items)) else None
  }

  const ListenMissing := "Required \"listen\" directive is missing"
  const InvalidPort := "Invalid port number"

  /** `serverNode.getValues('server_name').names` */
  function NamesOf(chain: seq<Node>): Option<seq<string>>
    requires chain != []
  {
    ServerNames(GetValues(chain, Named("server_name"), true).value)
  }

  /** A checked `listen` address. */
  datatype ListenAt = ListenAt(port: nat, host: string)

  /** The port and host of the `listen` values, errors reported at the `listen` directive. */
  function ListenAddress(values: map<string, Value>, position: Option<Position>): (r: Result<ListenAt>)
    ensures r.Ok? <==> ListenPort(values).Some? && ListenPort(values).value > 0 && DottedQuad(ListenHost(values))
    ensures r.Ok? ==> r.value.port as int == ListenPort(values).value && r.value.host == ListenHost(values)
    ensures r.Err? && (ListenPort(values).None? || ListenPort(values).value <= 0) ==> r.error == ThrowFor(position, InvalidPort)
    ensures r.Err? && ListenPort(values).Some? && ListenPort(values).value > 0 ==>
      r.error == ThrowFor(position, "Invalid IPv4 address \"" + ListenHost(values) + "\"")
  {
    var port := ListenPort(values);
    if port.None? || port.value <= 0 then Err(ThrowFor(position, InvalidPort))
    else
      var host := ListenHost(values);
      if !DottedQuad(host) then Err(ThrowFor(position, "Invalid IPv4 address \"" + host + "\""))
      else Ok(ListenAt(port.value, host))
  }

  /**
   * The checks `createServers` makes of one server (its node first in
   * `chain`): a `listen` directive, inherited or its own, must exist, its
   * port must be positive, and its host, once defaulted, a dotted quad.
   */
  function ConfigureServer(chain: seq<Node>): Result<ServerConfig>
    requires chain != []
  {
    var listen := GetOne(chain, Named("listen"), true).value;
    if listen.None? then Err(ThrowFor(chain[0].position, ListenMissing))
    else
      var address := ListenAddress(GetValues(chain, Named("listen"), true).value, listen.value.position);
      if address.Err? then Err(address.error)
      else Ok(ServerConfig(address.value.port, address.value.host,
                           NamesOf(chain), listen.value.position))
  }

  /**
   * A server is accepted only with a `listen` directive within reach, a
   * positive port (80 when none is given) and a dotted-quad host (0.0.0.0
   * when none, an empty one or `*` is given); its names are those of the
   * nearest `server_name`.
   */
  lemma ConfigureServerChecks(chain: seq<Node>)
    requires chain != []
    ensures GetOne(chain, Named("listen"), true).value.None? ==> ConfigureServer(chain) == Err(ThrowFor(chain[0].position, ListenMissing))
    ensures ConfigureServer(chain).Ok? ==> GetOne(chain, Named("listen"), true).value.Some?
    ensures ConfigureServer(chain).Ok? ==>
      var cfg := ConfigureServer(chain).value;
      cfg.port > 0 && DottedQuad(cfg.host) && cfg.host != "*"
      && Some(cfg.port as int) == ListenPort(GetValues(chain, Named("listen"), true).value)
      && cfg.host == ListenHost(GetValues(chain, Named("listen"), true).value)
      && cfg.names == NamesOf(chain)
  {
  }

  /** A `listen` directive whose port is zero or negative is refused, wherever it is written. */
  lemma NonPositivePort(chain: seq<Node>)
    requires chain != []
    requires GetOne(chain, Named("listen"), true).value.Some?
    requires ListenPort(GetValues(chain, Named("listen"), true).value).Some?
    requires ListenPort(GetValues(chain, Named("listen"), true).value).value <= 0
    ensures ConfigureServer(chain) == Err(ThrowFor(GetOne(chain, Named("listen"), true).value.value.position, InvalidPort))
  {
  }

  /** `host + ':' + port`, followed by `(serverName)` for a non-empty name. */
  function ServerKey(host: string, port: nat, name: string): string
  {
    host + ":" + NatToDecimal(port) + (if name != "" then "(" + name + ")" else "")
  }

  /** `serverNames || ['']` */
  function NamesOrDefault(cfg: ServerConfig): seq<string>
  {
    if cfg.names.Some? then cfg.names.value else [""]
  }

  /** The keys a server claims, one per name. */
  function ServerKeys(cfg: ServerConfig): (keys: seq<string>)
    ensures |keys| == |NamesOrDefault(cfg)|
    ensures forall j :: 0 <= j < |keys| ==> keys[j] == ServerKey(cfg.host, cfg.port, NamesOrDefault(cfg)[j])
  {
    seq(|NamesOrDefault(cfg)|, j requires 0 <= j < |NamesOrDefault(cfg)| => ServerKey(cfg.host, cfg.port, NamesOrDefault(cfg)[j]))
  }

  function ConflictMessage(key: string): string
  {
    key + " combination conflicts with earlier server definition"
  }

  /** Adding `keys` one at a time to the keys `seen`, failing at the first one seen before. */
  function ClaimKeys(keys: seq<string>, seen: set<string>, position: Option<Position>): Result<set<string>>
  {
    if keys == [] then Ok(seen)
    else if keys[0] in seen then Err(ThrowFor(position, ConflictMessage(keys[0])))
    else ClaimKeys(keys[1..], seen + {keys[0]}, position)
  }

  lemma ClaimKeysStep(keys: seq<string>, j: nat, seen: set<string>, position: Option<Position>)
    requires j < |keys| && keys[j] !in seen
    ensures ClaimKeys(keys[j..], seen, position) == ClaimKeys(keys[j + 1..], seen + {keys[j]}, position)
  {
    assert keys[j..][1..] == keys[j + 1..];
  }

  /** `new ServerRouter(port, host, serverNames, ...)`: the names lowercased, none when absent. */
  function MakeRouter(cfg: ServerConfig): ServerRouter
  {
    ServerRouter(cfg.port, cfg.host,
      if cfg.names.Some? then seq(|cfg.names.value|, j requires 0 <= j < |cfg.names.value| => ToLowerAscii(cfg.names.value[j]))
      else [])
  }

  function Prepend(done: seq<ServerRouter>, rest: Result<seq<ServerRouter>>): Result<seq<ServerRouter>>
  {
    if rest.Ok? then Ok(done + rest.value) else rest
  }

  /** The servers of `chains` from index `i` on, in order, the keys `seen` already taken. */
  function CreateFrom(chains: seq<seq<Node>>, i: nat, seen: set<string>): Result<seq<ServerRouter>>
    requires i <= |chains| && forall k :: 0 <= k < |chains| ==> chains[k] != []
    decreases |chains| - i
  {
    if i == |chains| then Ok([])
    else
      var cfg := ConfigureServer(chains[i]);
      if cfg.Err? then Err(cfg.error)
      else
        var claimed := ClaimKeys(ServerKeys(cfg.value), seen, cfg.value.listenPosition);
        if claimed.Err? then Err(claimed.error)
        else Prepend([MakeRouter(cfg.value)], CreateFrom(chains, i + 1, claimed.value))
  }

  /** What `createServers(conf)` returns or throws. */
  function Servers(conf: Node): Result<seq<ServerRouter>>
  {
    CreateFrom(ServerChains(conf), 0, {})
  }

  /** One server accepted: the rest are created with its keys taken. */
  lemma CreateFromStep(chains: seq<seq<Node>>, i: nat, seen: set<string>, cfg: ServerConfig, claimed: set<string>)
    requires i < |chains| && forall k :: 0 <= k < |chains| ==> chains[k] != []
    requires ConfigureServer(chains[i]) == Ok(cfg)
    requires ClaimKeys(ServerKeys(cfg), seen, cfg.listenPosition) == Ok(claimed)
    ensures CreateFrom(chains, i, seen) == Prepend([MakeRouter(cfg)], CreateFrom(chains, i + 1, claimed))
  {
  }

  lemma PrependTwice(done: seq<ServerRouter>, s: ServerRouter, rest: Result<seq<ServerRouter>>)
    ensures Prepend(done, Prepend([s], rest)) == Prepend(done + [s], rest)
  {
    if rest.Ok? {
      assert done + ([s] + rest.value) == (done + [s]) + rest.value;
    }
  }

  /** The `_.each` over a server's names: each key is marked seen, a repeated one throws. */
  method ClaimServerKeys(cfg: ServerConfig, seen: set<string>) returns (r: Result<set<string>>)
    ensures r == ClaimKeys(ServerKeys(cfg), seen, cfg.listenPosition)
  {
    var names := NamesOrDefault(cfg);
    var keys := ServerKeys(cfg);
    var seenKeys := seen;
    var j := 0;
    while j < |names|
      invariant 0 <= j <= |names|
      invariant ClaimKeys(keys, seen, cfg.listenPosition) == ClaimKeys(keys[j..], seenKeys, cfg.listenPosition)
    {
      var key := ServerKey(cfg.host, cfg.port, names[j]);
      assert key == keys[j];
      if key in seenKeys {
        assert keys[j..][0] == key;
        return Err(ThrowFor(cfg.listenPosition, ConflictMessage(key)));
      }
      ClaimKeysStep(keys, j, seenKeys, cfg.listenPosition);
      seenKeys := seenKeys + {key};
      j := j + 1;
    }
    assert keys[j..] == [];
    return Ok(seenKeys);
  }

  /** `createServers(conf)` */
  method CreateServers(conf: Node) returns (r: Result<seq<ServerRouter>>)
    ensures r == Servers(conf)
  {
    r := CreateAll(ServerChains(conf));
  }

  /** The loop of `createServers` over the server chains, in order. */
  method CreateAll(chains: seq<seq<Node>>) returns (r: Result<seq<ServerRouter>>)
    requires forall k :: 0 <= k < |chains| ==> chains[k] != []
    ensures r == CreateFrom(chains, 0, {})
  {
    var seenKeys: set<string> := {};
    var servers: seq<ServerRouter> := [];
    var i := 0;
    PrependNothing(CreateFrom(chains, 0, {}));
    while i < |chains|
      invariant 0 <= i <= |chains|
      invariant CreateFrom(chains, 0, {}) == Prepend(servers, CreateFrom(chains, i, seenKeys))
    {
      var cfg := ConfigureServer(chains[i]);
      if cfg.Err? {
        CreateFromStops(chains, i, seenKeys, servers);
        return Err(cfg.error);
      }
      var claimed := ClaimServerKeys(cfg.value, seenKeys);
      if claimed.Err? {
        CreateFromStops(chains, i, seenKeys, servers);
        return Err(claimed.error);
      }
      CreateFromGoesOn(chains, i, seenKeys, servers, cfg.value, claimed.value);
      seenKeys := claimed.value;
      servers := servers + [MakeRouter(cfg.value)];
      i := i + 1;
    }
    PrependAll(servers);
    return Ok(servers);
  }

  lemma PrependNothing(rest: Result<seq<ServerRouter>>)
    ensures Prepend([], rest) == rest
  {
    if rest.Ok? {
      assert [] + rest.value == rest.value;
    }
  }

  lemma PrependAll(done: seq<ServerRouter>)
    ensures Prepend(done, Ok([])) == Ok(done)
  {
    assert done + [] == done;
  }

  /** A server that is refused, or whose keys clash, ends the creation with its error. */
  lemma CreateFromStops(chains: seq<seq<Node>>, i: nat, seen: set<string>, done: seq<ServerRouter>)
    requires i < |chains| && forall k :: 0 <= k < |chains| ==> chains[k] != []
    ensures var cfg := ConfigureServer(chains[i]);
      cfg.Err? ==> Prepend(done, CreateFrom(chains, i, seen)) == Err(cfg.error)
    ensures var cfg := ConfigureServer(chains[i]);
      cfg.Ok? && ClaimKeys(ServerKeys(cfg.value), seen, cfg.value.listenPosition).Err? ==>
        Prepend(done, CreateFrom(chains, i, seen)) == Err(ClaimKeys(ServerKeys(cfg.value), seen, cfg.value.listenPosition).error)
  {
  }

  /** A server accepted joins those created so far, its keys taken for the rest. */
  lemma CreateFromGoesOn(chains: seq<seq<Node>>, i: nat, seen: set<string>, done: seq<ServerRouter>,
                         cfg: ServerConfig, claimed: set<string>)
    requires i < |chains| && forall k :: 0 <= k < |chains| ==> chains[k] != []
    requires ConfigureServer(chains[i]) == Ok(cfg)
    requires ClaimKeys(ServerKeys(cfg), seen, cfg.listenPosition) == Ok(claimed)
    ensures Prepend(done, CreateFrom(chains, i, seen)) == Prepend(done + [MakeRouter(cfg)], CreateFrom(chains, i + 1, claimed))
  {
    CreateFromStep(chains, i, seen, cfg, claimed);
    PrependTwice(done, MakeRouter(cfg), CreateFrom(chains, i + 1, claimed));
  }

  // ---------------------------------------------------------------------
  // What createServers guarantees
  // ---------------------------------------------------------------------

  predicate NoneSeen(keys: seq<string>, seen: set<string>)
  {
    forall a :: 0 <= a < |keys| ==> keys[a] !in seen
  }

  lemma DistinctAppend(x: seq<string>, y: seq<string>)
    ensures Distinct(x + y) <==> Distinct(x) && Distinct(y) && NoneSeen(y, set k | k in x)
  {
    if Distinct(x) && Distinct(y) && NoneSeen(y, set k | k in x) {
      forall a, b | 0 <= a < b < |x + y|
        ensures (x + y)[a] != (x + y)[b]
      {
        if b >= |x| && a < |x| {
          assert (x + y)[b] == y[b - |x|] && (x + y)[a] in x;
        } else if a >= |x| {
          assert (x + y)[a] == y[a - |x|] && (x + y)[b] == y[b - |x|];
        }
      }
    }
    if Distinct(x + y) {
      forall a, b | 0 <= a < b < |y|
        ensures y[a] != y[b]
      {
        assert y[a] == (x + y)[a + |x|] && y[b] == (x + y)[b + |x|];
      }
      forall a | 0 <= a < |y|
        ensures y[a] !in set k | k in x
      {
        forall c | 0 <= c < |x|
          ensures x[c] != y[a]
        {
          assert x[c] == (x + y)[c] && y[a] == (x + y)[a + |x|];
        }
      }
      forall a, b | 0 <= a < b < |x|
        ensures x[a] != x[b]
      {
        assert x[a] == (x + y)[a] && x[b] == (x + y)[b];
      }
    }
  }

  /**
   * Claiming keys succeeds exactly when they are distinct and none was seen
   * before, and then every one of them is seen afterwards.
   */
  lemma {:induction false} ClaimKeysMeaning(keys: seq<string>, seen: set<string>, position: Option<Position>)
    ensures ClaimKeys(keys, seen, position).Ok? <==> Distinct(keys) && NoneSeen(keys, seen)
    ensures ClaimKeys(keys, seen, position).Ok? ==> ClaimKeys(keys, seen, position).value == seen + set k | k in keys
  {
    if keys != [] && keys[0] !in seen {
      var rest := keys[1..];
      ClaimKeysMeaning(rest, seen + {keys[0]}, position);
      DistinctAppend([keys[0]], rest);
      assert keys == [keys[0]] + rest;
      assert (set k | k in [keys[0]]) == {keys[0]};
      if Distinct(rest) && NoneSeen(rest, seen + {keys[0]}) {
        assert (set k | k in keys) == {keys[0]} + set k | k in rest;
      }
      if NoneSeen(keys, seen) {
        assert NoneSeen(rest, seen) by {
          forall a | 0 <= a < |rest| ensures rest[a] !in seen { assert rest[a] == keys[a + 1]; }
        }
      }
      if Distinct(rest) && NoneSeen(rest, seen + {keys[0]}) {
        assert NoneSeen(keys, seen) by {
          forall a | 0 <= a < |keys| ensures keys[a] !in seen { if a > 0 { assert keys[a] == rest[a - 1]; } }
        }
      }
    } else if keys != [] {
      assert !NoneSeen(keys, seen);
    }
  }

  /** The keys a server claims, none when it is refused. */
  function ChainKeys(chain: seq<Node>): seq<string>
    requires chain != []
  {
    var cfg := ConfigureServer(chain);
    if cfg.Ok? then ServerKeys(cfg.value) else []
  }

  /** The keys claimed by the servers of `chains` from index `i` on. */
  function KeysFrom(chains: seq<seq<Node>>, i: nat): seq<string>
    requires i <= |chains| && forall k :: 0 <= k < |chains| ==> chains[k] != []
    decreases |chains| - i
  {
    if i == |chains| then [] else ChainKeys(chains[i]) + KeysFrom(chains, i + 1)
  }

  predicate AllConfigured(chains: seq<seq<Node>>, i: nat)
    requires i <= |chains| && forall k :: 0 <= k < |chains| ==> chains[k] != []
  {
    forall k :: i <= k < |chains| ==> ConfigureServer(chains[k]).Ok?
  }

  lemma NoneSeenAppend(x: seq<string>, y: seq<string>, seen: set<string>)
    ensures NoneSeen(x + y, seen) <==> NoneSeen(x, seen) && NoneSeen(y, seen)
  {
    if NoneSeen(x + y, seen) {
      assert forall a :: 0 <= a < |x| ==> x[a] == (x + y)[a];
      assert forall a :: 0 <= a < |y| ==> y[a] == (x + y)[a + |x|];
    }
  }

  lemma NoneSeenUnion(y: seq<string>, seen: set<string>, more: set<string>)
    ensures NoneSeen(y, seen + more) <==> NoneSeen(y, seen) && NoneSeen(y, more)
  {
  }

  /**
   * Creating the servers succeeds exactly when every server passes its own
   * checks and no two of them claim the same host:port(name) key.
   */
  lemma {:induction false} CreateFromOkIff(chains: seq<seq<Node>>, i: nat, seen: set<string>)
    requires i <= |chains| && forall k :: 0 <= k < |chains| ==> chains[k] != []
    ensures CreateFrom(chains, i, seen).Ok? <==>
      AllConfigured(chains, i) && Distinct(KeysFrom(chains, i)) && NoneSeen(KeysFrom(chains, i), seen)
    decreases |chains| - i
  {
    if i < |chains| {
      var cfg := ConfigureServer(chains[i]);
      if cfg.Ok? {
        var keys := ServerKeys(cfg.value);
        var later := KeysFrom(chains, i + 1);
        ClaimKeysMeaning(keys, seen, cfg.value.listenPosition);
        DistinctAppend(keys, later);
        NoneSeenAppend(keys, later, seen);
        var claimed := ClaimKeys(keys, seen, cfg.value.listenPosition);
        if claimed.Ok? {
          CreateFromOkIff(chains, i + 1, claimed.value);
          NoneSeenUnion(later, seen, set k | k in keys);
        }
      }
    }
  }

  /** The routers of the servers of `chains` from index `i` on, each one configured. */
  function RoutersFrom(chains: seq<seq<Node>>, i: nat): (rs: seq<ServerRouter>)
    requires i <= |chains| && forall k :: 0 <= k < |chains| ==> chains[k] != []
    requires AllConfigured(chains, i)
    ensures |rs| == |chains| - i
    decreases |chains| - i
  {
    if i == |chains| then [] else [MakeRouter(ConfigureServer(chains[i]).value)] + RoutersFrom(chains, i + 1)
  }

  /** The routers created are those of the servers in order, one for each. */
  lemma {:induction false} CreateFromRouters(chains: seq<seq<Node>>, i: nat, seen: set<string>)
    requires i <= |chains| && forall k :: 0 <= k < |chains| ==> chains[k] != []
    requires CreateFrom(chains, i, seen).Ok?
    ensures AllConfigured(chains, i)
    ensures CreateFrom(chains, i, seen).value == RoutersFrom(chains, i)
    decreases |chains| - i
  {
    if i < |chains| {
      var cfg := ConfigureServer(chains[i]);
      var claimed := ClaimKeys(ServerKeys(cfg.value), seen, cfg.value.listenPosition);
      CreateFromStep(chains, i, seen, cfg.value, claimed.value);
      CreateFromRouters(chains, i + 1, claimed.value);
    }
  }

  /**
   * `createServers` succeeds exactly when every `server` passes its checks
   * and the host:port(name) keys are all distinct; it then returns one
   * router per `server` directive, in the order `search` finds them.
   */
  lemma ServersMeaning(conf: Node)
    ensures Heads(ServerChains(conf)) == SearchFrom(conf, MakePredicate(Named("server")).value, false, false)
    ensures Servers(conf).Ok? <==>
      AllConfigured(ServerChains(conf), 0) && Distinct(KeysFrom(ServerChains(conf), 0))
    ensures Servers(conf).Ok? ==>
      AllConfigured(ServerChains(conf), 0) && Servers(conf).value == RoutersFrom(ServerChains(conf), 0)
  {
    ChainsFromAreSearch(conf, [], MakePredicate(Named("server")).value, false);
    CreateFromOkIff(ServerChains(conf), 0, {});
    if Servers(conf).Ok? {
      CreateFromRouters(ServerChains(conf), 0, {});
    }
  }
}
