/**
 * The HTTP front server that listens on many host/port combinations at once.
 * Listeners live in two tables keyed by "host:port": one for the wildcard
 * address and one for named hosts. `setAddresses` closes the listeners no
 * longer wanted, opens the missing ones and leaves the others alone; a
 * listener that closes, or fails before it binds, removes itself from its
 * table, but only while the table still holds that very listener.
 *
 * Listeners are handles; what the model keeps of each is the table and key
 * it was opened for, whether it is bound, and whether `close` was called on it.
 */
module HttpServer {
  import opened Common

  /** A listen address from the configuration. */
  datatype Address = Address(address: string, port: nat)

  /** A listener: its handle, and the table and key it was opened for. */
  datatype Listener = Listener(id: nat, wildcard: bool, key: string)

  /** `'*'` and `'0.0.0.0'` both mean every interface. */
  predicate IsWildcard(a: Address)
  {
    a.address == "*" || a.address == "0.0.0.0"
  }

  /** The table key of an address: "0.0.0.0:port" for the wildcard, "host:port" otherwise. */
  function KeyOf(a: Address): string
  {
    (if IsWildcard(a) then "0.0.0.0" else a.address) + ":" + NatToDecimal(a.port)
  }

  /** The deduplicated keys that the addresses of one kind ask for (`_.uniq` of the pushed keys). */
  function KeySet(addresses: seq<Address>, wildcard: bool): set<string>
  {
    set a | a in addresses && IsWildcard(a) == wildcard :: KeyOf(a)
  }

  /** A key is asked for exactly when some address of that kind has it. */
  lemma KeySetMembers(addresses: seq<Address>, wildcard: bool, k: string)
    ensures k in KeySet(addresses, wildcard) <==> exists i :: 0 <= i < |addresses| && IsWildcard(addresses[i]) == wildcard && KeyOf(addresses[i]) == k
  {
    if k in KeySet(addresses, wildcard) {
      var a :| a in addresses && IsWildcard(a) == wildcard && KeyOf(a) == k;
      var i :| 0 <= i < |addresses| && addresses[i] == a;
    }
  }

  /** `/^([^:]+):(\d+)$/`: the host and port a key is opened with, or None when the key does not match. */
  function ParseKey(key: string): (r: Option<(string, nat)>)
    ensures r.Some? ==> r.value.0 != [] && ':' !in r.value.0
  {
    var parts := Split(key, ':');
    if |parts| == 2 && parts[0] != [] && parts[1] != [] && AllDigits(parts[1])
    then Some((parts[0], DecimalValue(parts[1])))
    else None
  }

  /** A host name the key pattern accepts: not empty and without ':'. */
  predicate PlainHost(host: string)
  {
    host != [] && ':' !in host
  }

  /** The key of an address parses back to its interface and port. */
  lemma KeyRoundTrip(a: Address)
    requires IsWildcard(a) || PlainHost(a.address)
    ensures ParseKey(KeyOf(a)) == Some((if IsWildcard(a) then "0.0.0.0" else a.address, a.port))
  {
    var host := if IsWildcard(a) then "0.0.0.0" else a.address;
    var digits := NatToDecimal(a.port);
    assert ':' !in host;
    assert ':' !in digits by {
      forall i | 0 <= i < |digits| ensures digits[i] != ':' {
        assert IsDigit(digits[i]);
      }
    }
    SplitConcat(host, digits, ':');
    SplitNoSeparator(host, ':');
    SplitNoSeparator(digits, ':');
    DecimalRoundTrip(a.port);
  }

  /** Two addresses share a listener exactly when both are wildcards on one port, or the same host and port. */
  lemma SameKey(a: Address, b: Address)
    requires IsWildcard(a) || PlainHost(a.address)
    requires IsWildcard(b) || PlainHost(b.address)
    ensures KeyOf(a) == KeyOf(b) <==>
      a.port == b.port && (if IsWildcard(a) then IsWildcard(b) || b.address == "0.0.0.0" else a.address == b.address)
  {
    KeyRoundTrip(a);
    KeyRoundTrip(b);
  }

  /** The wildcard spellings share one key per port, and a wildcard key is never a host key. */
  lemma WildcardKeys(p: nat, host: string)
    requires PlainHost(host) && host != "*" && host != "0.0.0.0"
    ensures KeyOf(Address("*", p)) == KeyOf(Address("0.0.0.0", p)) == "0.0.0.0:" + NatToDecimal(p)
    ensures forall q: nat :: KeyOf(Address(host, q)) != KeyOf(Address("*", p))
  {
    forall q: nat ensures KeyOf(Address(host, q)) != KeyOf(Address("*", p)) {
      SameKey(Address(host, q), Address("*", p));
    }
  }

  /** The loop of `setAddresses` that sorts the addresses into wildcard and host keys. */
  method CollectKeys(addresses: seq<Address>) returns (wildcardKeys: set<string>, hostKeys: set<string>)
    ensures wildcardKeys == KeySet(addresses, true) && hostKeys == KeySet(addresses, false)
  {
    wildcardKeys, hostKeys := {}, {};
    for i := 0 to |addresses|
      invariant wildcardKeys == KeySet(addresses[..i], true)
      invariant hostKeys == KeySet(addresses[..i], false)
    {
      assert addresses[..i + 1] == addresses[..i] + [addresses[i]];
      if IsWildcard(addresses[i]) {
        wildcardKeys := wildcardKeys + {KeyOf(addresses[i])};
      } else {
        hostKeys := hostKeys + {KeyOf(addresses[i])};
      }
    }
    assert addresses[..|addresses|] == addresses;
  }

  /** Every listener in the table was opened for this table and its key. */
  predicate TableValid(table: map<string, Listener>, wildcard: bool)
  {
    forall k :: k in table ==> table[k].wildcard == wildcard && table[k].key == k
  }

  /** `removeFromTable`: the entry goes only if it is still this listener. */
  function RemoveFromTable(table: map<string, Listener>, key: string, server: Listener): (r: map<string, Listener>)
    ensures forall k :: k in r <==> k in table && !(k == key && table[k] == server)
    ensures forall k :: k in r ==> r[k] == table[k]
  {
    if key in table && table[key] == server then table - {key} else table
  }

  /** A listener from an earlier `setAddresses` that closes late does not take out its successor under the same key. */
  lemma StaleCloseHarmless(table: map<string, Listener>, server: Listener)
    requires server.key in table && table[server.key].id != server.id
    ensures RemoveFromTable(table, server.key, server) == table
  {
  }

  /** The bound listeners under the given keys: those `$close` calls `close` on. */
  function BoundUnder(table: map<string, Listener>, keys: set<string>, listening: set<Listener>): set<Listener>
  {
    set k | k in keys && k in table && table[k] in listening :: table[k]
  }

  lemma BoundUnderAdd(table: map<string, Listener>, keys: set<string>, key: string, listening: set<Listener>)
    requires key in table
    ensures BoundUnder(table, keys + {key}, listening)
      == BoundUnder(table, keys, listening) + (if table[key] in listening then {table[key]} else {})
  {
  }

  /**
   * `$close(table, keys)`: `close` on each listener under the keys that is
   * bound, and every key taken out; the new table and the listeners closed.
   */
  method CloseKeys(table: map<string, Listener>, keys: set<string>, listening: set<Listener>)
    returns (remaining: map<string, Listener>, closed: set<Listener>)
    requires keys <= table.Keys
    ensures forall k :: k in remaining <==> k in table && k !in keys
    ensures forall k :: k in remaining ==> remaining[k] == table[k]
    ensures closed == BoundUnder(table, keys, listening)
  {
    remaining := table;
    closed := {};
    var todo := keys;
    while todo != {}
      invariant todo <= keys
      invariant forall k :: k in remaining <==> k in table && (k !in keys || k in todo)
      invariant forall k :: k in remaining ==> remaining[k] == table[k]
      invariant closed == BoundUnder(table, keys - todo, listening)
      decreases |todo|
    {
      var key :| key in todo;
      var server := remaining[key];
      if server in listening {
        closed := closed + {server};
      }
      BoundUnderAdd(table, keys - todo, key, listening);
      remaining := RemoveFromTable(remaining, key, server);
      assert keys - (todo - {key}) == (keys - todo) + {key};
      todo := todo - {key};
    }
  }

  /**
   * `$open(table, keys)`: a new listener per key, entered in the table. A key
   * the pattern rejects fails the source's assertion, which ends the call
   * with an error; the keys handled before it stay open.
   */
  method OpenKeys(table: map<string, Listener>, wildcard: bool, keys: set<string>, next: nat)
    returns (r: Result<()>, table': map<string, Listener>, next': nat)
    requires keys !! table.Keys && TableValid(table, wildcard)
    ensures TableValid(table', wildcard) && next' >= next
    ensures r.Ok? <==> forall k :: k in keys ==> ParseKey(k).Some?
    ensures r.Ok? ==> forall k :: k in table' <==> k in table || k in keys
    ensures forall k :: k in table' ==> k in table || k in keys
    ensures forall k :: k in table ==> k in table' && table'[k] == table[k]
    ensures forall k :: k in table' && k !in table ==> next <= table'[k].id < next'
  {
    table', next' := table, next;
    var todo := keys;
    r := Ok(());
    while todo != {}
      invariant todo <= keys
      invariant TableValid(table', wildcard) && next' >= next
      invariant forall k :: k in table' <==> k in table || (k in keys && k !in todo)
      invariant forall k :: k in table ==> table'[k] == table[k]
      invariant forall k :: k in table' && k !in table ==> next <= table'[k].id < next'
      invariant forall k :: k in keys && k !in todo ==> ParseKey(k).Some?
      decreases |todo|
    {
      var key :| key in todo;
      if ParseKey(key).None? {
        r := Err("Invalid HTTP server key: " + key);
        break;
      }
      table' := table'[key := Listener(next', wildcard, key)];
      next' := next' + 1;
      todo := todo - {key};
    }
  }

  class MultiServer {
    /** `$wildcards` */
    var wildcards: map<string, Listener>
    /** `$hosts` */
    var hosts: map<string, Listener>
    /** The listeners that reported `listening`. */
    var listening: set<Listener>
    /** The listeners `close` was called on. */
    var closeRequested: set<Listener>
    /** The handle the next listener gets. */
    var nextServer: nat

    /** Every listener in a table was opened for that table and key, with a handle already given out. */
    ghost predicate Valid()
      reads this
    {
      TableValid(wildcards, true) && TableValid(hosts, false)
      && (forall k :: k in wildcards ==> wildcards[k].id < nextServer)
      && (forall k :: k in hosts ==> hosts[k].id < nextServer)
    }

    constructor ()
      ensures Valid() && wildcards == map[] && hosts == map[]
      ensures listening == {} && closeRequested == {} && nextServer == 0
    {
      wildcards := map[];
      hosts := map[];
      listening := {};
      closeRequested := {};
      nextServer := 0;
    }

    /**
     * `setAddresses`: close the listeners whose key is no longer asked for,
     * then open one for each new key; a key asked for before and now keeps
     * its listener.
     */
    method SetAddresses(addresses: seq<Address>) returns (r: Result<()>)
      requires Valid()
      modifies this
      ensures Valid() && listening == old(listening)
      ensures r.Ok? ==> forall k :: k in wildcards <==> k in KeySet(addresses, true)
      ensures r.Ok? ==> forall k :: k in hosts <==> k in KeySet(addresses, false)
      ensures r.Ok? ==> forall k :: k in KeySet(addresses, true) && k !in old(wildcards) ==> ParseKey(k).Some?
      ensures r.Ok? ==> forall k :: k in KeySet(addresses, false) && k !in old(hosts) ==> ParseKey(k).Some?
      ensures forall k :: k in old(wildcards) && k in KeySet(addresses, true) ==> k in wildcards && wildcards[k] == old(wildcards)[k]
      ensures forall k :: k in old(hosts) && k in KeySet(addresses, false) ==> k in hosts && hosts[k] == old(hosts)[k]
      ensures forall k :: k in wildcards ==> k in KeySet(addresses, true)
      ensures forall k :: k in hosts ==> k in KeySet(addresses, false)
      ensures closeRequested == old(closeRequested)
        + BoundUnder(old(wildcards), old(wildcards).Keys - KeySet(addresses, true), listening)
        + BoundUnder(old(hosts), old(hosts).Keys - KeySet(addresses, false), listening)
    {
      var wildcardKeys, hostKeys := CollectKeys(addresses);
      CloseStale(wildcardKeys, hostKeys);
      r := OpenMissing(wildcardKeys, hostKeys);
    }

    /** The first half of `setAddresses`: close what is no longer asked for, in both tables. */
    method CloseStale(wildcardKeys: set<string>, hostKeys: set<string>)
      requires Valid()
      modifies this
      ensures Valid() && listening == old(listening) && nextServer == old(nextServer)
      ensures forall k :: k in wildcards <==> k in old(wildcards) && k in wildcardKeys
      ensures forall k :: k in hosts <==> k in old(hosts) && k in hostKeys
      ensures forall k :: k in wildcards ==> wildcards[k] == old(wildcards)[k]
      ensures forall k :: k in hosts ==> hosts[k] == old(hosts)[k]
      ensures closeRequested == old(closeRequested)
        + BoundUnder(old(wildcards), old(wildcards).Keys - wildcardKeys, listening)
        + BoundUnder(old(hosts), old(hosts).Keys - hostKeys, listening)
    {
      var closedW, closedH;
      wildcards, closedW := CloseKeys(wildcards, wildcards.Keys - wildcardKeys, listening);
      hosts, closedH := CloseKeys(hosts, hosts.Keys - hostKeys, listening);
      closeRequested := closeRequested + closedW + closedH;
    }

    /** The second half of `setAddresses`: open what is asked for and missing, wildcards first. */
    method OpenMissing(wildcardKeys: set<string>, hostKeys: set<string>) returns (r: Result<()>)
      requires Valid()
      modifies this
      ensures Valid() && listening == old(listening) && closeRequested == old(closeRequested)
      ensures r.Ok? ==> forall k :: k in wildcards <==> k in old(wildcards) || k in wildcardKeys
      ensures r.Ok? ==> forall k :: k in hosts <==> k in old(hosts) || k in hostKeys
      ensures r.Ok? ==> forall k :: k in wildcardKeys && k !in old(wildcards) ==> ParseKey(k).Some?
      ensures r.Ok? ==> forall k :: k in hostKeys && k !in old(hosts) ==> ParseKey(k).Some?
      ensures forall k :: k in old(wildcards) ==> k in wildcards && wildcards[k] == old(wildcards)[k]
      ensures forall k :: k in old(hosts) ==> k in hosts && hosts[k] == old(hosts)[k]
      ensures forall k :: k in wildcards ==> k in old(wildcards) || k in wildcardKeys
      ensures forall k :: k in hosts ==> k in old(hosts) || k in hostKeys
    {
      r, wildcards, nextServer := OpenKeys(wildcards, true, wildcardKeys - wildcards.Keys, nextServer);
      if r.Err? {
        return;
      }
      r, hosts, nextServer := OpenKeys(hosts, false, hostKeys - hosts.Keys, nextServer);
    }

    /** `destroy`: close every listener of both tables. */
    method Destroy()
      requires Valid()
      modifies this
      ensures Valid() && wildcards == map[] && hosts == map[]
      ensures closeRequested == old(closeRequested)
        + BoundUnder(old(wildcards), old(wildcards).Keys, listening) + BoundUnder(old(hosts), old(hosts).Keys, listening)
      ensures listening == old(listening) && nextServer == old(nextServer)
    {
      var closedW, closedH;
      wildcards, closedW := CloseKeys(wildcards, wildcards.Keys, listening);
      hosts, closedH := CloseKeys(hosts, hosts.Keys, listening);
      closeRequested := closeRequested + closedW + closedH;
    }

    /** The listener's `listening` event: it is bound. */
    method OnListening(server: Listener)
      requires Valid()
      modifies this
      ensures Valid() && listening == old(listening) + {server}
      ensures wildcards == old(wildcards) && hosts == old(hosts)
      ensures closeRequested == old(closeRequested) && nextServer == old(nextServer)
    {
      listening := listening + {server};
    }

    /** `removeFromTable` on the table the listener was opened for. */
    method Forget(server: Listener)
      requires Valid()
      modifies this
      ensures Valid()
      ensures server.wildcard ==> wildcards == RemoveFromTable(old(wildcards), server.key, server) && hosts == old(hosts)
      ensures !server.wildcard ==> hosts == RemoveFromTable(old(hosts), server.key, server) && wildcards == old(wildcards)
      ensures listening == old(listening) && closeRequested == old(closeRequested) && nextServer == old(nextServer)
    {
      if server.wildcard {
        wildcards := RemoveFromTable(wildcards, server.key, server);
      } else {
        hosts := RemoveFromTable(hosts, server.key, server);
      }
    }

    /** The listener's `close` event: no longer bound, and out of its table if it is still there. */
    method OnClose(server: Listener)
      requires Valid()
      modifies this
      ensures Valid() && listening == old(listening) - {server}
      ensures server.wildcard ==> wildcards == RemoveFromTable(old(wildcards), server.key, server) && hosts == old(hosts)
      ensures !server.wildcard ==> hosts == RemoveFromTable(old(hosts), server.key, server) && wildcards == old(wildcards)
      ensures closeRequested == old(closeRequested) && nextServer == old(nextServer)
    {
      listening := listening - {server};
      Forget(server);
    }

    /** The listener's `error` event: one that never bound will not close, so it leaves its table now. */
    method OnError(server: Listener)
      requires Valid()
      modifies this
      ensures Valid() && listening == old(listening)
      ensures server in old(listening) ==> wildcards == old(wildcards) && hosts == old(hosts)
      ensures server !in old(listening) && server.wildcard ==>
        wildcards == RemoveFromTable(old(wildcards), server.key, server) && hosts == old(hosts)
      ensures server !in old(listening) && !server.wildcard ==>
        hosts == RemoveFromTable(old(hosts), server.key, server) && wildcards == old(wildcards)
      ensures closeRequested == old(closeRequested) && nextServer == old(nextServer)
    {
      if server !in listening {
        Forget(server);
      }
    }
  }
}
