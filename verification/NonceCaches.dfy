/** The paired least-recently-used caches of received and generated nonces on both HTTP sides. */
module NonceCaches {
  import opened Prelude
  import Base64

  type Nonce = seq<byte>

  datatype Entry = Entry(key: string, nonce: Nonce)

  const CAPACITY := 200

  // ----- One cache, most recent entry first

  function Remove(cache: seq<Entry>, key: string): seq<Entry> {
    if cache == [] then []
    else if cache[0].key == key then Remove(cache[1..], key)
    else [cache[0]] + Remove(cache[1..], key)
  }

  function Keep(cache: seq<Entry>): (kept: seq<Entry>)
    ensures |kept| <= CAPACITY
  {
    if |cache| <= CAPACITY then cache else cache[..CAPACITY]
  }

  /** `LruCache::put`. */
  function Put(cache: seq<Entry>, key: string, nonce: Nonce): (r: seq<Entry>)
    ensures |r| <= CAPACITY
  {
    Keep([Entry(key, nonce)] + Remove(cache, key))
  }

  function Get(cache: seq<Entry>, key: string): Option<Nonce> {
    if cache == [] then None
    else if cache[0].key == key then Some(cache[0].nonce)
    else Get(cache[1..], key)
  }

  function Keys(cache: seq<Entry>): (keys: seq<string>)
    ensures |keys| == |cache| && forall i :: 0 <= i < |keys| ==> keys[i] == cache[i].key
  {
    seq(|cache|, i requires 0 <= i < |cache| => cache[i].key)
  }

  ghost predicate Distinct(cache: seq<Entry>) {
    forall i, j :: 0 <= i < j < |cache| ==> cache[i].key != cache[j].key
  }

  /** The puts of a run, oldest first, as a cache without a bound: every key once, latest first. */
  function Recency(puts: seq<Entry>): seq<Entry> {
    if puts == [] then []
    else
      var n := |puts| - 1;
      [puts[n]] + Remove(Recency(puts[..n]), puts[n].key)
  }

  function Cached(puts: seq<Entry>): (cache: seq<Entry>)
    ensures |cache| <= CAPACITY
  {
    if puts == [] then []
    else
      var n := |puts| - 1;
      Put(Cached(puts[..n]), puts[n].key, puts[n].nonce)
  }

  function Last(puts: seq<Entry>, key: string): Option<Nonce> {
    if puts == [] then None
    else
      var n := |puts| - 1;
      if puts[n].key == key then Some(puts[n].nonce) else Last(puts[..n], key)
  }

  lemma {:induction false} RemoveAbsent(cache: seq<Entry>, key: string)
    ensures forall i :: 0 <= i < |Remove(cache, key)| ==> Remove(cache, key)[i].key != key
    ensures |Remove(cache, key)| <= |cache|
    ensures (forall i :: 0 <= i < |cache| ==> cache[i].key != key) ==> Remove(cache, key) == cache
  {
    if cache != [] {
      RemoveAbsent(cache[1..], key);
      assert cache == [cache[0]] + cache[1..];
    }
  }

  lemma {:induction false} RemoveFrom(cache: seq<Entry>, key: string)
    ensures forall i :: 0 <= i < |Remove(cache, key)| ==> Remove(cache, key)[i] in cache
    ensures Distinct(cache) ==> Distinct(Remove(cache, key))
  {
    if cache != [] {
      var rest := Remove(cache[1..], key);
      RemoveFrom(cache[1..], key);
      if Distinct(cache) && cache[0].key != key {
        forall i | 0 <= i < |rest| ensures rest[i].key != cache[0].key {
          assert rest[i] in cache[1..];
        }
      }
    }
  }

  lemma {:induction false} RecencyDistinct(puts: seq<Entry>)
    ensures Distinct(Recency(puts))
  {
    if puts != [] {
      var n := |puts| - 1;
      RecencyDistinct(puts[..n]);
      RemoveFrom(Recency(puts[..n]), puts[n].key);
      RemoveAbsent(Recency(puts[..n]), puts[n].key);
    }
  }

  lemma {:induction false} RemoveOfDistinct(cache: seq<Entry>, i: nat)
    requires Distinct(cache) && i < |cache|
    ensures Remove(cache, cache[i].key) == cache[..i] + cache[i + 1..]
  {
    if i == 0 {
      RemoveAbsent(cache[1..], cache[0].key);
    } else {
      RemoveOfDistinct(cache[1..], i - 1);
      assert cache[1..][..i - 1] == cache[1..i] && cache[1..][i..] == cache[i + 1..];
      assert cache[..i] == [cache[0]] + cache[1..i];
    }
  }

  lemma PutKeptHit(cache: seq<Entry>, i: nat, e: Entry)
    requires Distinct(cache) && |cache| > CAPACITY && i < CAPACITY && cache[i].key == e.key
    ensures Keep([e] + Remove(cache[..CAPACITY], e.key)) == Keep([e] + Remove(cache, e.key))
  {
    RemoveOfDistinct(cache, i);
    RemoveOfDistinct(cache[..CAPACITY], i);
    CutAround(cache, i, CAPACITY);
    FrontOnly(e, cache[..i] + cache[i + 1..], CAPACITY - 1);
  }

  lemma CutAround(cache: seq<Entry>, i: nat, n: nat)
    requires i < n < |cache|
    ensures cache[..n][..i] + cache[..n][i + 1..] == (cache[..i] + cache[i + 1..])[..n - 1]
  {}

  lemma FrontOnly(e: Entry, rest: seq<Entry>, n: nat)
    requires n <= |rest|
    ensures ([e] + rest)[..n + 1] == [e] + rest[..n]
  {}

  lemma RemoveBeyond(cache: seq<Entry>, n: nat, key: string)
    requires Distinct(cache) && |cache| > n && forall i :: 0 <= i < n ==> cache[i].key != key
    ensures |Remove(cache, key)| >= n && Remove(cache, key)[..n] == cache[..n]
  {
    if j :| 0 <= j < |cache| && cache[j].key == key {
      RemoveOfDistinct(cache, j);
      assert (cache[..j] + cache[j + 1..])[..n] == cache[..n];
    } else {
      RemoveAbsent(cache, key);
    }
  }

  lemma PutKeptMiss(cache: seq<Entry>, e: Entry)
    requires Distinct(cache) && |cache| > CAPACITY && forall i :: 0 <= i < CAPACITY ==> cache[i].key != e.key
    ensures Keep([e] + Remove(cache[..CAPACITY], e.key)) == Keep([e] + Remove(cache, e.key))
  {
    RemoveAbsent(cache[..CAPACITY], e.key);
    RemoveBeyond(cache, CAPACITY, e.key);
    SameFront(e, cache[..CAPACITY], Remove(cache, e.key));
  }

  lemma SameFront(e: Entry, a: seq<Entry>, b: seq<Entry>)
    requires |a| == CAPACITY <= |b| && b[..CAPACITY] == a
    ensures Keep([e] + a) == Keep([e] + b)
  {
    forall i | 0 <= i < CAPACITY ensures ([e] + a)[i] == ([e] + b)[i] {
      if i > 0 {
        assert a[i - 1] == b[..CAPACITY][i - 1] == b[i - 1];
      }
    }
  }

  /** Bounding the cache at every put is the same as bounding it at the end. */
  lemma PutKept(cache: seq<Entry>, key: string, nonce: Nonce)
    requires Distinct(cache)
    ensures Put(Keep(cache), key, nonce) == Keep([Entry(key, nonce)] + Remove(cache, key))
  {
    if |cache| > CAPACITY {
      if i :| 0 <= i < CAPACITY && cache[i].key == key {
        PutKeptHit(cache, i, Entry(key, nonce));
      } else {
        PutKeptMiss(cache, Entry(key, nonce));
      }
    }
  }

  /** The cache holds the keys put most recently, and of each the nonce put last. */
  lemma {:induction false} CachedIsRecent(puts: seq<Entry>)
    ensures Cached(puts) == Keep(Recency(puts)) && Distinct(Cached(puts))
  {
    RecencyDistinct(puts);
    if puts != [] {
      var n := |puts| - 1;
      CachedIsRecent(puts[..n]);
      RecencyDistinct(puts[..n]);
      PutKept(Recency(puts[..n]), puts[n].key, puts[n].nonce);
    }
  }

  lemma {:induction false} GetRemoved(cache: seq<Entry>, key: string, other: string)
    ensures Get(Remove(cache, key), other) == if key == other then None else Get(cache, other)
  {
    if cache != [] {
      GetRemoved(cache[1..], key, other);
      if cache[0].key != key {
        assert Remove(cache, key)[1..] == Remove(cache[1..], key);
      }
    }
  }

  lemma {:induction false} GetPrefix(cache: seq<Entry>, n: nat, key: string)
    requires n <= |cache| && Get(cache[..n], key).Some?
    ensures Get(cache, key) == Get(cache[..n], key)
  {
    if cache[0].key != key {
      assert cache[..n][1..] == cache[1..][..n - 1];
      GetPrefix(cache[1..], n - 1, key);
    }
  }

  lemma {:induction false} RecencyIsLast(puts: seq<Entry>, key: string)
    ensures Get(Recency(puts), key) == Last(puts, key)
  {
    if puts != [] {
      var n := |puts| - 1;
      RecencyIsLast(puts[..n], key);
      GetRemoved(Recency(puts[..n]), puts[n].key, key);
      assert Recency(puts)[1..] == Remove(Recency(puts[..n]), puts[n].key);
    }
  }

  lemma CachedIsLast(puts: seq<Entry>, key: string)
    requires Get(Cached(puts), key).Some?
    ensures Get(Cached(puts), key) == Last(puts, key)
  {
    CachedIsRecent(puts);
    RecencyIsLast(puts, key);
    if |Recency(puts)| > CAPACITY {
      GetPrefix(Recency(puts), CAPACITY, key);
    }
  }

  /** Where a key was put last, counted from one, or 0. */
  function LastAt(puts: seq<Entry>, key: string): (n: nat)
    ensures n <= |puts|
    ensures n > 0 ==> puts[n - 1].key == key
    ensures forall i :: n <= i < |puts| ==> puts[i].key != key
  {
    if puts == [] then 0 else if puts[|puts| - 1].key == key then |puts| else LastAt(puts[..|puts| - 1], key)
  }

  /** Each entry of the unbounded cache was put later than the one behind it. */
  ghost predicate Ordered(puts: seq<Entry>, cache: seq<Entry>) {
    forall i, j :: 0 <= i < j < |cache| ==> LastAt(puts, cache[i].key) > LastAt(puts, cache[j].key)
  }

  ghost predicate HasKey(cache: seq<Entry>, key: string) {
    exists i :: 0 <= i < |cache| && cache[i].key == key
  }

  lemma {:induction false} RemoveOrdered(puts: seq<Entry>, cache: seq<Entry>, key: string)
    requires Ordered(puts, cache)
    ensures Ordered(puts, Remove(cache, key))
  {
    if cache != [] {
      var rest := Remove(cache[1..], key);
      RemoveOrdered(puts, cache[1..], key);
      RemoveFrom(cache[1..], key);
      if cache[0].key != key {
        forall j | 0 <= j < |rest| ensures LastAt(puts, cache[0].key) > LastAt(puts, rest[j].key) {
          assert rest[j] in cache[1..];
        }
      }
    }
  }

  lemma {:induction false} RemoveHas(cache: seq<Entry>, key: string, other: string)
    ensures HasKey(Remove(cache, key), other) <==> other != key && HasKey(cache, other)
  {
    if cache != [] {
      RemoveHas(cache[1..], key, other);
      assert cache == [cache[0]] + cache[1..];
      HasCons(cache[0], cache[1..], other);
      if cache[0].key != key {
        HasCons(cache[0], Remove(cache[1..], key), other);
      }
    }
  }

  lemma HasCons(e: Entry, cache: seq<Entry>, key: string)
    ensures HasKey([e] + cache, key) <==> e.key == key || HasKey(cache, key)
  {
    if HasKey(cache, key) {
      var i :| 0 <= i < |cache| && cache[i].key == key;
      assert ([e] + cache)[i + 1].key == key;
    }
    if e.key == key {
      assert ([e] + cache)[0].key == key;
    }
  }

  /** The unbounded cache has every key put, once, latest first. */
  lemma {:induction false} RecencyOrder(puts: seq<Entry>)
    ensures Ordered(puts, Recency(puts))
    ensures forall key :: HasKey(Recency(puts), key) <==> LastAt(puts, key) > 0
  {
    if puts != [] {
      var n := |puts| - 1;
      var before, e := puts[..n], puts[n];
      var rest := Remove(Recency(before), e.key);
      RecencyOrder(before);
      RemoveOrdered(before, Recency(before), e.key);
      RemoveAbsent(Recency(before), e.key);
      assert Ordered(puts, [e] + rest);
      forall key ensures HasKey([e] + rest, key) <==> LastAt(puts, key) > 0 {
        RemoveHas(Recency(before), e.key, key);
        HasCons(e, rest, key);
      }
    }
  }

  /** The cache is the front of that list, up to 200 entries. */
  lemma CacheExact(puts: seq<Entry>)
    ensures var cache, recent := Cached(puts), Recency(puts);
            && cache == (if |recent| <= 200 then recent else recent[..200]) && Ordered(puts, recent)
            && forall key :: HasKey(recent, key) <==> LastAt(puts, key) > 0
  {
    CachedIsRecent(puts);
    RecencyOrder(puts);
  }

  // ----- The pair of caches

  datatype Pair = Pair(received: seq<Entry>, generated: seq<Entry>)

  const EMPTY: Pair := Pair([], [])

  lemma {:induction false} RemoveSameKeys(a: seq<Entry>, b: seq<Entry>, key: string)
    requires Keys(a) == Keys(b)
    ensures Keys(Remove(a, key)) == Keys(Remove(b, key))
  {
    if a != [] {
      assert Keys(a)[0] == Keys(b)[0];
      assert Keys(a[1..]) == Keys(a)[1..] == Keys(b)[1..] == Keys(b[1..]);
      RemoveSameKeys(a[1..], b[1..], key);
      assert Keys([a[0]] + Remove(a[1..], key)) == [a[0].key] + Keys(Remove(a[1..], key));
      assert Keys([b[0]] + Remove(b[1..], key)) == [b[0].key] + Keys(Remove(b[1..], key));
    }
  }

  /** Which entry is evicted depends on the keys alone. */
  lemma PutSameKeys(a: seq<Entry>, b: seq<Entry>, key: string, x: Nonce, y: Nonce)
    requires Keys(a) == Keys(b)
    ensures Keys(Put(a, key, x)) == Keys(Put(b, key, y))
  {
    var ra, rb := [Entry(key, x)] + Remove(a, key), [Entry(key, y)] + Remove(b, key);
    RemoveSameKeys(a, b, key);
    assert Keys(ra) == [key] + Keys(Remove(a, key));
    assert Keys(rb) == [key] + Keys(Remove(b, key));
    assert Keys(Keep(ra)) == Keys(ra)[..|Keep(ra)|];
    assert Keys(Keep(rb)) == Keys(rb)[..|Keep(rb)|];
  }

  /** The steps of the handlers of one side: a handler puts the received nonce under the first lock
      and, still holding it, the generated nonce under the second. */
  datatype Step = Enter(key: string, received: Nonce, generated: Nonce) | Leave

  datatype Shared = Shared(pair: Pair, holder: Option<Entry>)

  predicate CanStep(s: Shared, step: Step) {
    match step
    case Enter(_, _, _) => s.holder == None
    case Leave => s.holder.Some?
  }

  function Take(s: Shared, step: Step): Shared
    requires CanStep(s, step)
  {
    match step
    case Enter(key, received, generated) =>
      Shared(s.pair.(received := Put(s.pair.received, key, received)), Some(Entry(key, generated)))
    case Leave => Shared(s.pair.(generated := Put(s.pair.generated, s.holder.value.key, s.holder.value.nonce)), None)
  }

  ghost predicate CanRun(s: Shared, steps: seq<Step>)
    decreases |steps|
  {
    steps != [] ==> CanStep(s, steps[0]) && CanRun(Take(s, steps[0]), steps[1..])
  }

  function RunSteps(s: Shared, steps: seq<Step>): Shared
    requires CanRun(s, steps)
    decreases |steps|
  {
    if steps == [] then s else RunSteps(Take(s, steps[0]), steps[1..])
  }

  /** The two caches have the same keys in the same order, as soon as the holder is through. */
  ghost predicate Paired(s: Shared) {
    && |s.pair.received| <= CAPACITY && |s.pair.generated| <= CAPACITY
    && match s.holder
       case None => Keys(s.pair.received) == Keys(s.pair.generated)
       case Some(e) => Keys(s.pair.received) == Keys(Put(s.pair.generated, e.key, e.nonce))
  }

  lemma {:induction false} AlwaysPaired(s: Shared, steps: seq<Step>)
    requires Paired(s) && CanRun(s, steps)
    ensures Paired(RunSteps(s, steps))
    decreases |steps|
  {
    if steps != [] {
      if steps[0].Enter? {
        PutSameKeys(s.pair.received, s.pair.generated, steps[0].key, steps[0].received, steps[0].generated);
      }
      AlwaysPaired(Take(s, steps[0]), steps[1..]);
    }
  }

  // ----- The handlers, which put in place

  class Caches {
    var received: seq<Entry>
    var generated: seq<Entry>

    function Now(): Pair
      reads this
    {
      Pair(received, generated)
    }

    ghost predicate Valid()
      reads this
    {
      Paired(Shared(Now(), None))
    }

    constructor ()
      ensures Valid() && Now() == EMPTY
    {
      received, generated := [], [];
    }

    /** `nonce_exchange` of the server; `None` is a bad request. */
    method NonceExchange(remoteKey: string, nonceText: string, newNonce: Nonce) returns (response: Option<string>)
      requires Valid()
      modifies this
      ensures Valid()
      ensures response.Some? <==> exists nonce :: 16 <= |nonce| <= 128 && nonceText == Base64.Encode(nonce)
      ensures response == None ==> Now() == old(Now())
      ensures forall nonce :: 16 <= |nonce| <= 128 && nonceText == Base64.Encode(nonce) ==>
                response == Some(Base64.Encode(newNonce))
                && Now() == Pair(Put(old(received), remoteKey, nonce), Put(old(generated), remoteKey, newNonce))
    {
      var decoded := Base64.Decode(nonceText);
      if decoded == None || !ValidNonce(decoded.value) {
        forall nonce ensures nonceText == Base64.Encode(nonce) ==> decoded == Some(nonce) {
          Base64.Canonical(nonceText, nonce);
        }
        return None;
      }
      forall nonce ensures nonceText == Base64.Encode(nonce) <==> nonce == decoded.value {
        Base64.Canonical(nonceText, nonce);
      }
      PutSameKeys(received, generated, remoteKey, decoded.value, newNonce);
      received := Put(received, remoteKey, decoded.value);
      generated := Put(generated, remoteKey, newNonce);
      return Some(Base64.Encode(newNonce));
    }

    /** The second half of `LsHttpClient::nonce`, with the response at hand; false is an error. */
    method SaveResponse(remoteKey: string, generatedNonce: Nonce, responseText: string) returns (ok: bool)
      requires Valid()
      modifies this
      ensures Valid()
      ensures ok <==> exists nonce :: responseText == Base64.Encode(nonce)
      ensures !ok ==> Now() == old(Now())
      ensures forall nonce :: responseText == Base64.Encode(nonce) ==>
                Now() == Pair(Put(old(received), remoteKey, nonce), Put(old(generated), remoteKey, generatedNonce))
    {
      var decoded := Base64.Decode(responseText);
      forall nonce ensures responseText == Base64.Encode(nonce) <==> decoded == Some(nonce) {
        Base64.Canonical(responseText, nonce);
      }
      if decoded == None {
        return false;
      }
      assert responseText == Base64.Encode(decoded.value);
      PutSameKeys(received, generated, remoteKey, decoded.value, generatedNonce);
      received := Put(received, remoteKey, decoded.value);
      generated := Put(generated, remoteKey, generatedNonce);
      return true;
    }
  }

  // ----- Two sides

  /** A whole exchange between a client and a server. */
  method Meet(client: Caches, server: Caches, clientKey: string, serverKey: string, clientNonce: Nonce,
              serverNonce: Nonce)
    requires client != server && client.Valid() && server.Valid() && |clientNonce| == 32 == |serverNonce|
    modifies client, server
    ensures client.Valid() && server.Valid()
    ensures Get(server.received, clientKey) == Some(clientNonce) == Get(client.generated, serverKey)
    ensures Get(server.generated, clientKey) == Some(serverNonce) == Get(client.received, serverKey)
  {
    var response := server.NonceExchange(clientKey, Base64.Encode(clientNonce), serverNonce);
    var ok := client.SaveResponse(serverKey, clientNonce, response.value);
  }

  datatype Exchange = Exchange(clientNonce: Nonce, serverNonce: Nonce)

  /** The server answered a client's request; the client saved a server's response. */
  datatype Event =
    | Handled(client: string, server: string, exchange: Exchange)
    | Completed(client: string, server: string, exchange: Exchange)

  /** What each side put into its two caches during a run. */
  function ServerPuts(run: seq<Event>, server: string, mine: bool): seq<Entry> {
    if run == [] then []
    else
      var e, before := run[|run| - 1], ServerPuts(run[..|run| - 1], server, mine);
      if e.Handled? && e.server == server
      then before + [Entry(e.client, if mine then e.exchange.serverNonce else e.exchange.clientNonce)] else before
  }

  function ClientPuts(run: seq<Event>, client: string, mine: bool): seq<Entry> {
    if run == [] then []
    else
      var e, before := run[|run| - 1], ClientPuts(run[..|run| - 1], client, mine);
      if e.Completed? && e.client == client
      then before + [Entry(e.server, if mine then e.exchange.clientNonce else e.exchange.serverNonce)] else before
  }

  function ServerPair(run: seq<Event>, server: string): Pair {
    Pair(Cached(ServerPuts(run, server, false)), Cached(ServerPuts(run, server, true)))
  }

  function ClientPair(run: seq<Event>, client: string): Pair {
    Pair(Cached(ClientPuts(run, client, false)), Cached(ClientPuts(run, client, true)))
  }

  /** The last exchange between the two that the server handled, or that the client completed. */
  function LastExchange(run: seq<Event>, client: string, server: string, handled: bool): Option<Exchange> {
    if run == [] then None
    else
      var e := run[|run| - 1];
      if e.Handled? == handled && e.client == client && e.server == server then Some(e.exchange)
      else LastExchange(run[..|run| - 1], client, server, handled)
  }

  lemma {:induction false} LastServerPut(run: seq<Event>, client: string, server: string, mine: bool)
    ensures Last(ServerPuts(run, server, mine), client)
            == match LastExchange(run, client, server, true)
               case None => None
               case Some(x) => Some(if mine then x.serverNonce else x.clientNonce)
  {
    if run != [] {
      var before := run[..|run| - 1];
      LastServerPut(before, client, server, mine);
      LastAppend(ServerPuts(before, server, mine));
    }
  }

  lemma {:induction false} LastClientPut(run: seq<Event>, client: string, server: string, mine: bool)
    ensures Last(ClientPuts(run, client, mine), server)
            == match LastExchange(run, client, server, false)
               case None => None
               case Some(x) => Some(if mine then x.clientNonce else x.serverNonce)
  {
    if run != [] {
      var before := run[..|run| - 1];
      LastClientPut(before, client, server, mine);
      LastAppend(ClientPuts(before, client, mine));
    }
  }

  lemma LastAppend(puts: seq<Entry>)
    ensures forall e: Entry :: (puts + [e])[..|puts|] == puts
  {}

  ghost predicate Holds(run: seq<Event>, client: string, server: string) {
    && Get(ServerPair(run, server).received, client).Some? && Get(ServerPair(run, server).generated, client).Some?
    && Get(ClientPair(run, client).received, server).Some? && Get(ClientPair(run, client).generated, server).Some?
  }

  ghost predicate Crosswise(run: seq<Event>, client: string, server: string) {
    && Get(ServerPair(run, server).received, client) == Get(ClientPair(run, client).generated, server)
    && Get(ServerPair(run, server).generated, client) == Get(ClientPair(run, client).received, server)
  }

  /** A pair cached on both sides agrees crosswise exactly when the last exchange the server handled
      for the client is the last one the client completed with the server. */
  lemma CrosswiseExactly(run: seq<Event>, client: string, server: string)
    requires Holds(run, client, server)
    ensures Crosswise(run, client, server) <==>
            LastExchange(run, client, server, true) == LastExchange(run, client, server, false)
  {
    LastServerPut(run, client, server, false);
    LastServerPut(run, client, server, true);
    LastClientPut(run, client, server, false);
    LastClientPut(run, client, server, true);
    CachedIsLast(ServerPuts(run, server, false), client);
    CachedIsLast(ServerPuts(run, server, true), client);
    CachedIsLast(ClientPuts(run, client, false), server);
    CachedIsLast(ClientPuts(run, client, true), server);
  }

  function Between(run: seq<Event>, client: string, server: string): seq<Event> {
    if run == [] then []
    else
      var e, before := run[|run| - 1], Between(run[..|run| - 1], client, server);
      if e.client == client && e.server == server then before + [e] else before
  }

  /** Each exchange of the two is completed before the next one is handled. */
  ghost predicate InTurn(events: seq<Event>) {
    && |events| % 2 == 0
    && forall i :: 0 <= i < |events| / 2 ==>
         events[2 * i].Handled? && events[2 * i + 1].Completed? && events[2 * i].exchange == events[2 * i + 1].exchange
  }

  lemma {:induction false} LastBetween(run: seq<Event>, client: string, server: string, handled: bool)
    ensures LastExchange(run, client, server, handled)
            == LastExchange(Between(run, client, server), client, server, handled)
    ensures forall i :: 0 <= i < |Between(run, client, server)| ==>
              Between(run, client, server)[i].client == client && Between(run, client, server)[i].server == server
  {
    if run != [] {
      var n := |run| - 1;
      LastBetween(run[..n], client, server, handled);
      var before := Between(run[..n], client, server);
      assert (before + [run[n]])[..|before|] == before;
    }
  }

  /** Exchanges that do not overlap leave agreeing nonces, whatever other parties do meanwhile. */
  lemma InTurnAgrees(run: seq<Event>, client: string, server: string)
    requires InTurn(Between(run, client, server)) && Holds(run, client, server)
    ensures Crosswise(run, client, server)
  {
    CrosswiseExactly(run, client, server);
    LastBetween(run, client, server, true);
    LastBetween(run, client, server, false);
    var events := Between(run, client, server);
    if events != [] {
      var m := |events| / 2 - 1;
      assert |events| == 2 * m + 2;
      assert events[2 * m].Handled? && events[2 * m + 1].Completed?;
      var before := events[..2 * m + 1];
      assert before[|before| - 1] == events[2 * m];
      assert LastExchange(before, client, server, true) == Some(events[2 * m].exchange);
    }
  }
}
