/** The two caches of the OIDC client. A lookup that misses starts a fetch; any number of fetches
    run at once, for the same key too, and each stores its answer when it arrives. */
module OidcCache {
  import opened Domain

  const CacheTtlMilliseconds := 60000

  datatype CachedEntry<V> = CachedEntry(value: V, expiresAt: int)

  /** The value served without a fetch, if any. */
  function Hit<V>(entries: map<string, CachedEntry<V>>, key: string, now: int): Option<V> {
    if key in entries && entries[key].expiresAt > now then Some(entries[key].value) else None
  }

  /** The cache after a fetch that read the clock at `begunAt` was answered; `answer` is None
      when the response was refused. */
  function Stored<V>(entries: map<string, CachedEntry<V>>, key: string, begunAt: int, answer: Option<V>)
    : map<string, CachedEntry<V>>
  {
    if answer.None? then entries
    else entries[key := CachedEntry(answer.value, begunAt + CacheTtlMilliseconds)]
  }

  // ---------------------------------------------------------------- the cache

  /** An accepted answer: what it was fetched for, when the fetch began, and its value. */
  datatype Arrival<V> = Arrival(key: string, begunAt: int, value: V)

  /** The accepted answer that arrived last for `key`. */
  function LastFor<V>(arrivals: seq<Arrival<V>>, key: string): Option<Arrival<V>> {
    if arrivals == [] then None
    else if arrivals[|arrivals| - 1].key == key then Some(arrivals[|arrivals| - 1])
    else LastFor(arrivals[..|arrivals| - 1], key)
  }

  class TtlCache<V> {
    var entries: map<string, CachedEntry<V>>
    /** Every accepted answer so far, as they arrived. */
    ghost var arrivals: seq<Arrival<V>>

    /** Each key holds its last arrival, however old the fetch that brought it. */
    ghost predicate Valid()
      reads this
    {
      forall key :: match LastFor(arrivals, key)
                    case None => key !in entries
                    case Some(a) =>
                      key in entries && entries[key] == CachedEntry(a.value, a.begunAt + CacheTtlMilliseconds)
    }

    constructor ()
      ensures Valid() && arrivals == []
    {
      entries, arrivals := map[], [];
    }

    /** Serves the value that arrived last for the key, exactly while its fetch began less than
        one minute ago. */
    method Lookup(key: string, now: int) returns (hit: Option<V>)
      requires Valid()
      ensures hit.Some? <==>
                LastFor(arrivals, key).Some? && now - LastFor(arrivals, key).value.begunAt < 60000
      ensures hit.Some? ==> hit.value == LastFor(arrivals, key).value.value
      ensures hit == Hit(entries, key, now)
    {
      if key in entries {
        var cached := entries[key];
        if cached.expiresAt > now {
          return Some(cached.value);
        }
      }
      return None;
    }

    /** An accepted answer arrives; a refused one leaves the cache as it was. */
    method Arrive(key: string, begunAt: int, answer: Option<V>)
      requires Valid()
      modifies this
      ensures Valid()
      ensures arrivals == old(arrivals) + if answer.Some? then [Arrival(key, begunAt, answer.value)] else []
      ensures entries == Stored(old(entries), key, begunAt, answer)
    {
      if answer.Some? {
        entries := entries[key := CachedEntry(answer.value, begunAt + CacheTtlMilliseconds)];
        arrivals := arrivals + [Arrival(key, begunAt, answer.value)];
        assert arrivals[..|arrivals| - 1] == old(arrivals);
      }
    }
  }

  // ---------------------------------------------------------------- interleaved lookups

  datatype Fetch = Fetch(key: string, begunAt: int)

  /** A value handed to a caller at `at`; `hit` if it came from the cache. `begunAt` is when the
      fetch began that its expiry is counted from. */
  datatype Return<V> = Return(key: string, value: V, at: int, begunAt: int, hit: bool)

  datatype State<V> = State(
    entries: map<string, CachedEntry<V>>,
    fetches: map<nat, Fetch>,
    returned: seq<Return<V>>)

  function Idle<V>(): State<V> {
    State(map[], map[], [])
  }

  datatype Action<R> =
    | Ask(caller: nat, key: string, now: int)
    | Respond(caller: nat, response: R, at: int)

  predicate Enabled<V, R>(s: State<V>, a: Action<R>) {
    if a.Ask? then a.caller !in s.fetches else a.caller in s.fetches
  }

  function Next<V, R>(s: State<V>, a: Action<R>, accept: R -> Option<V>): State<V>
    requires Enabled(s, a)
  {
    match a
    case Ask(caller, key, now) =>
      var hit := Hit(s.entries, key, now);
      if hit.Some? then
        var begunAt := s.entries[key].expiresAt - CacheTtlMilliseconds;
        s.(returned := s.returned + [Return(key, hit.value, now, begunAt, true)])
      else s.(fetches := s.fetches[caller := Fetch(key, now)])
    case Respond(caller, response, at) =>
      var f, answer := s.fetches[caller], accept(response);
      State(Stored(s.entries, f.key, f.begunAt, answer),
            s.fetches - {caller},
            s.returned + if answer.Some? then [Return(f.key, answer.value, at, f.begunAt, false)] else [])
  }

  /** The actions happen one after the other on empty caches, each enabled where it happens. */
  ghost predicate Runs<V(!new), R>(actions: seq<Action<R>>, accept: R -> Option<V>)
    decreases |actions|, 0
  {
    actions == [] ||
    (&& Runs(actions[..|actions| - 1], accept)
     && Enabled(After(actions[..|actions| - 1], accept), actions[|actions| - 1]))
  }

  ghost function After<V(!new), R>(actions: seq<Action<R>>, accept: R -> Option<V>): State<V>
    requires Runs(actions, accept)
    decreases |actions|, 1
  {
    if actions == [] then Idle()
    else Next(After(actions[..|actions| - 1], accept), actions[|actions| - 1], accept)
  }

  // ---------------------------------------------------------------- where values come from

  /** Action `m` is the lookup of `key` at `begunAt` that began a fetch, and the same caller has
      done nothing since. */
  ghost predicate AskedAt<R>(actions: seq<Action<R>>, caller: nat, f: Fetch, m: nat) {
    && m < |actions| && actions[m] == Ask(caller, f.key, f.begunAt)
    && forall j | m < j < |actions| :: actions[j].caller != caller
  }

  /** Action `m` began a fetch of `key` at `begunAt`, and action `n`, the next of the same caller,
      is a response that was accepted with `value`. */
  ghost predicate FetchedAt<V, R>(actions: seq<Action<R>>, accept: R -> Option<V>, a: Arrival<V>, m: nat, n: nat) {
    && m < n < |actions| && actions[n].Respond? && accept(actions[n].response) == Some(a.value)
    && actions[m] == Ask(actions[n].caller, a.key, a.begunAt)
    && forall j | m < j < n :: actions[j].caller != actions[n].caller
  }

  ghost predicate Fetched<V, R>(actions: seq<Action<R>>, accept: R -> Option<V>, a: Arrival<V>) {
    exists m, n :: FetchedAt(actions, accept, a, m, n)
  }

  /** Where an entry came from. */
  function ArrivalOf<V>(key: string, entry: CachedEntry<V>): Arrival<V> {
    Arrival(key, entry.expiresAt - CacheTtlMilliseconds, entry.value)
  }

  ghost predicate ReturnTraced<V, R>(actions: seq<Action<R>>, accept: R -> Option<V>, r: Return<V>) {
    && Fetched(actions, accept, Arrival(r.key, r.begunAt, r.value))
    && (r.hit ==> r.at - r.begunAt < CacheTtlMilliseconds)
  }

  ghost predicate Traced<V, R>(s: State<V>, actions: seq<Action<R>>, accept: R -> Option<V>) {
    && (forall caller | caller in s.fetches :: exists m :: AskedAt(actions, caller, s.fetches[caller], m))
    && (forall key | key in s.entries :: Fetched(actions, accept, ArrivalOf(key, s.entries[key])))
    && (forall i | 0 <= i < |s.returned| :: ReturnTraced(actions, accept, s.returned[i]))
  }

  lemma FetchedStays<V, R>(actions: seq<Action<R>>, next: Action<R>, accept: R -> Option<V>, a: Arrival<V>)
    requires Fetched(actions, accept, a)
    ensures Fetched(actions + [next], accept, a)
  {
    var m, n :| FetchedAt(actions, accept, a, m, n);
    assert FetchedAt(actions + [next], accept, a, m, n);
  }

  lemma FetchArrives<V, R>(actions: seq<Action<R>>, next: Action<R>, accept: R -> Option<V>, f: Fetch)
    requires next.Respond? && accept(next.response).Some? && exists m :: AskedAt(actions, next.caller, f, m)
    ensures Fetched(actions + [next], accept, Arrival(f.key, f.begunAt, accept(next.response).value))
  {
    var m :| AskedAt(actions, next.caller, f, m);
    assert FetchedAt(actions + [next], accept, Arrival(f.key, f.begunAt, accept(next.response).value), m, |actions|);
  }

  lemma FetchesTraced<V, R>(s: State<V>, actions: seq<Action<R>>, a: Action<R>, accept: R -> Option<V>, caller: nat)
    requires Traced(s, actions, accept) && Enabled(s, a) && caller in Next(s, a, accept).fetches
    ensures exists m :: AskedAt(actions + [a], caller, Next(s, a, accept).fetches[caller], m)
  {
    var f := Next(s, a, accept).fetches[caller];
    if caller == a.caller && a.Ask? {
      assert AskedAt(actions + [a], caller, f, |actions|);
    } else {
      var m :| AskedAt(actions, caller, f, m);
      assert AskedAt(actions + [a], caller, f, m);
    }
  }

  lemma EntriesTraced<V, R>(s: State<V>, actions: seq<Action<R>>, a: Action<R>, accept: R -> Option<V>, key: string)
    requires Traced(s, actions, accept) && Enabled(s, a) && key in Next(s, a, accept).entries
    ensures Fetched(actions + [a], accept, ArrivalOf(key, Next(s, a, accept).entries[key]))
  {
    if a.Respond? && accept(a.response).Some? && s.fetches[a.caller].key == key {
      FetchArrives(actions, a, accept, s.fetches[a.caller]);
    } else {
      FetchedStays(actions, a, accept, ArrivalOf(key, s.entries[key]));
    }
  }

  lemma ReturnsTraced<V, R>(s: State<V>, actions: seq<Action<R>>, a: Action<R>, accept: R -> Option<V>, i: nat)
    requires Traced(s, actions, accept) && Enabled(s, a) && i < |Next(s, a, accept).returned|
    ensures ReturnTraced(actions + [a], accept, Next(s, a, accept).returned[i])
  {
    var r := Next(s, a, accept).returned[i];
    if i < |s.returned| {
      assert r == s.returned[i];
      FetchedStays(actions, a, accept, Arrival(r.key, r.begunAt, r.value));
    } else if a.Ask? {
      FetchedStays(actions, a, accept, ArrivalOf(a.key, s.entries[a.key]));
    } else {
      FetchArrives(actions, a, accept, s.fetches[a.caller]);
    }
  }

  lemma NextKeepsTraced<V, R>(s: State<V>, actions: seq<Action<R>>, a: Action<R>, accept: R -> Option<V>)
    requires Traced(s, actions, accept) && Enabled(s, a)
    ensures Traced(Next(s, a, accept), actions + [a], accept)
  {
    var s' := Next(s, a, accept);
    hide Next;
    forall caller | caller in s'.fetches ensures exists m :: AskedAt(actions + [a], caller, s'.fetches[caller], m) {
      FetchesTraced(s, actions, a, accept, caller);
    }
    forall key | key in s'.entries ensures Fetched(actions + [a], accept, ArrivalOf(key, s'.entries[key])) {
      EntriesTraced(s, actions, a, accept, key);
    }
    forall i | 0 <= i < |s'.returned| ensures ReturnTraced(actions + [a], accept, s'.returned[i]) {
      ReturnsTraced(s, actions, a, accept, i);
    }
  }

  lemma {:induction false} RunIsTraced<V(!new), R>(actions: seq<Action<R>>, accept: R -> Option<V>)
    requires Runs(actions, accept)
    ensures Traced(After(actions, accept), actions, accept)
    decreases |actions|
  {
    hide Next, Enabled;
    if actions == [] {
    } else {
      var n := |actions| - 1;
      RunIsTraced(actions[..n], accept);
      hide Traced;
      NextKeepsTraced(After(actions[..n], accept), actions[..n], actions[n], accept);
      assert actions[..n] + [actions[n]] == actions;
    }
  }

  /** Under any interleaving of lookups and responses, an older fetch overwriting a newer one
      included: every value that a caller got was accepted from a response in this very run, to a
      fetch that a lookup of the same key began, and what the cache served came from a fetch begun
      less than one lifetime, a minute, before. The clock may run backwards between readings. */
  lemma HitsAreFresh<V(!new), R>(actions: seq<Action<R>>, accept: R -> Option<V>, i: nat) returns (m: nat, n: nat)
    requires Runs(actions, accept) && i < |After(actions, accept).returned|
    ensures var r := After(actions, accept).returned[i];
            && FetchedAt(actions, accept, Arrival(r.key, r.begunAt, r.value), m, n)
            && (r.hit ==> r.at - r.begunAt < 60000)
  {
    RunIsTraced(actions, accept);
    var r := After(actions, accept).returned[i];
    hide Runs, After, FetchedAt;
    assert ReturnTraced(actions, accept, r);
    m, n :| FetchedAt(actions, accept, Arrival(r.key, r.begunAt, r.value), m, n);
  }

  /** And so was every value in the cache: a refused response is never stored. */
  lemma RefusedIsNeverStored<V(!new), R>(actions: seq<Action<R>>, accept: R -> Option<V>, key: string)
    returns (m: nat, n: nat)
    requires Runs(actions, accept) && key in After(actions, accept).entries
    ensures FetchedAt(actions, accept, ArrivalOf(key, After(actions, accept).entries[key]), m, n)
  {
    RunIsTraced(actions, accept);
    var a := ArrivalOf(key, After(actions, accept).entries[key]);
    hide Runs, After, FetchedAt;
    m, n :| FetchedAt(actions, accept, a, m, n);
  }

  /** Whatever else has happened, the answer that just arrived is what a lookup of its key gets
      until one minute after its fetch began, and no longer; lookups of other keys get what they
      got before. */
  lemma ArrivedIsServed<V, R>(s: State<V>, caller: nat, response: R, at: int, accept: R -> Option<V>, key: string,
      now: int)
    requires Enabled(s, Respond(caller, response, at)) && accept(response).Some?
    ensures var f, s' := s.fetches[caller], Next(s, Respond(caller, response, at), accept);
            if key != f.key then Hit(s'.entries, key, now) == Hit(s.entries, key, now)
            else Hit(s'.entries, key, now)
                   == if now - f.begunAt < 60000 then Some(accept(response).value) else None
  {
  }

  // ---------------------------------------------------------------- when everything is fresh

  ghost predicate AllFresh<V>(s: State<V>) {
    forall i | 0 <= i < |s.returned| :: s.returned[i].at - s.returned[i].begunAt < CacheTtlMilliseconds
  }

  /** An accepted response arrives less than one lifetime after its fetch began. */
  predicate InTime<V, R>(s: State<V>, a: Action<R>, accept: R -> Option<V>)
    requires Enabled(s, a)
  {
    a.Respond? && accept(a.response).Some? ==> a.at - s.fetches[a.caller].begunAt < CacheTtlMilliseconds
  }

  /** Every accepted response of the run does. */
  ghost predicate Timely<V(!new), R>(actions: seq<Action<R>>, accept: R -> Option<V>)
    requires Runs(actions, accept)
    decreases |actions|
  {
    actions == [] ||
    (&& Timely(actions[..|actions| - 1], accept)
     && InTime(After(actions[..|actions| - 1], accept), actions[|actions| - 1], accept))
  }

  lemma StepFreshness<V, R>(s: State<V>, a: Action<R>, accept: R -> Option<V>)
    requires Enabled(s, a)
    ensures AllFresh(Next(s, a, accept)) <==> AllFresh(s) && InTime(s, a, accept)
  {
    var s', n := Next(s, a, accept), |s.returned|;
    assert s'.returned[..n] == s.returned;
    forall i | 0 <= i < n ensures s.returned[i] == s'.returned[i] {
      assert s'.returned[..n][i] == s'.returned[i];
    }
    if |s'.returned| > n {
      var r := s'.returned[n];
      assert a.Ask? ==> r.at - r.begunAt < CacheTtlMilliseconds;
    }
  }

  /** Everything handed out in a run, hits and own fetches alike, was younger than one lifetime
      exactly if no accepted response of the run was that late. (For a caller's own fetch the two
      say the same of one action; that hits never spoil it is `HitsAreFresh`.) */
  lemma {:induction false} FreshIffTimely<V(!new), R>(actions: seq<Action<R>>, accept: R -> Option<V>)
    requires Runs(actions, accept)
    ensures AllFresh(After(actions, accept)) <==> Timely(actions, accept)
    decreases |actions|
  {
    if actions != [] {
      hide Next, AllFresh, InTime, Enabled;
      var n := |actions| - 1;
      FreshIffTimely(actions[..n], accept);
      StepFreshness(After(actions[..n], accept), actions[n], accept);
    }
  }

  // ---------------------------------------------------------------- accepted responses

  datatype DiscoveryDocument =
    DiscoveryDocument(issuer: string, authorizationEndpoint: string, tokenEndpoint: string, jwksUri: string)

  /** A response: refused by status, no JSON, or a JSON object of which the named members are
      given when they are strings. */
  datatype DiscoveryResponse =
    | NotOk
    | NotJson
    | Json(issuer: Option<string>, authorizationEndpoint: Option<string>, tokenEndpoint: Option<string>,
           jwksUri: Option<string>)

  function AcceptDiscovery(r: DiscoveryResponse): Option<DiscoveryDocument> {
    if r.Json? && r.issuer.Some? && r.authorizationEndpoint.Some? && r.tokenEndpoint.Some? && r.jwksUri.Some? then
      Some(DiscoveryDocument(r.issuer.value, r.authorizationEndpoint.value, r.tokenEndpoint.value, r.jwksUri.value))
    else None
  }

  /** A response is taken exactly if it carries all four members, and then with each in its place. */
  lemma DocumentsAreWhole(r: DiscoveryResponse, d: DiscoveryDocument)
    ensures AcceptDiscovery(r) == Some(d) <==>
              r == Json(Some(d.issuer), Some(d.authorizationEndpoint), Some(d.tokenEndpoint), Some(d.jwksUri))
  {
  }

  datatype Jwk = Jwk(kid: Option<string>, material: string)

  datatype JwksResponse = JwksNotOk | JwksNotJson | JwksJson(keys: Option<seq<Jwk>>)

  function AcceptKeys(r: JwksResponse): Option<seq<Jwk>> {
    if r.JwksJson? && r.keys.Some? && r.keys.value != [] then Some(r.keys.value) else None
  }

  /** A key list is taken exactly if it is not empty. */
  lemma KeysAreTaken(r: JwksResponse, keys: seq<Jwk>)
    ensures AcceptKeys(r) == Some(keys) <==> keys != [] && r == JwksJson(Some(keys))
  {
  }

  /** Every discovery document handed out was received in this run, whole: a response of the issuer
      that was asked carried the four members it shows. */
  lemma DocumentsWereReceived(actions: seq<Action<DiscoveryResponse>>, i: nat) returns (n: nat)
    requires Runs(actions, AcceptDiscovery) && i < |After(actions, AcceptDiscovery).returned|
    ensures n < |actions| && actions[n].Respond?
    ensures var d := After(actions, AcceptDiscovery).returned[i].value;
            actions[n].response == Json(Some(d.issuer), Some(d.authorizationEndpoint), Some(d.tokenEndpoint),
                Some(d.jwksUri))
    ensures exists m :: 0 <= m < n && actions[m].Ask? && actions[m].caller == actions[n].caller
                        && actions[m].key == After(actions, AcceptDiscovery).returned[i].key
  {
    var m: nat;
    m, n := HitsAreFresh(actions, AcceptDiscovery, i);
    hide Runs, After;
    assert actions[m].Ask? && actions[m].caller == actions[n].caller;
  }

  predicate Carries(a: Action<JwksResponse>, keys: seq<Jwk>) {
    a.Respond? && a.response == JwksJson(Some(keys))
  }

  /** Every key list handed out was received in this run, and no key list in the cache or handed
      out is empty, so a token without a key id always finds a key. */
  lemma KeyListsAreNonEmpty(actions: seq<Action<JwksResponse>>)
    requires Runs(actions, AcceptKeys)
    ensures var s := After(actions, AcceptKeys);
            && (forall key | key in s.entries :: s.entries[key].value != [])
            && (forall i | 0 <= i < |s.returned| ::
                  && s.returned[i].value != []
                  && exists n :: 0 <= n < |actions| && Carries(actions[n], s.returned[i].value))
  {
    var s := After(actions, AcceptKeys);
    forall key | key in s.entries ensures s.entries[key].value != [] {
      var _, _ := RefusedIsNeverStored(actions, AcceptKeys, key);
    }
    forall i | 0 <= i < |s.returned|
      ensures s.returned[i].value != [] && exists n :: 0 <= n < |actions| && Carries(actions[n], s.returned[i].value)
    {
      var _, n := HitsAreFresh(actions, AcceptKeys, i);
      assert Carries(actions[n], s.returned[i].value);
    }
  }

  /** A caller that waits for its own fetch gets that fetch's answer, however long it took: with a
      fetch of a whole lifetime the value is older than any hit may be, and the entry it stores
      is expired on arrival. */
  lemma SlowFetchIsOld(key: string, response: JwksResponse)
    requires AcceptKeys(response).Some?
    ensures var asked := Next(Idle(), Ask(0, key, 0), AcceptKeys);
            var s := Next(asked, Respond(0, response, 60000), AcceptKeys);
            && |s.returned| == 1 && !s.returned[0].hit
            && !(s.returned[0].at - s.returned[0].begunAt < CacheTtlMilliseconds)
            && Hit(s.entries, key, 60000).None?
  {
  }

  /** findJwkByKid on a key list: the first key of that id, or the first key when none is asked for. */
  method FindJwkByKid(keys: seq<Jwk>, kid: Option<string>) returns (r: Option<Jwk>)
    ensures kid.None? || kid.value == "" ==> r == if keys == [] then None else Some(keys[0])
    ensures kid.Some? && kid.value != "" ==>
              match r
              case None => forall k | k in keys :: k.kid != kid
              case Some(key) => exists i :: 0 <= i < |keys| && keys[i] == key && key.kid == kid
                                            && forall j | 0 <= j < i :: keys[j].kid != kid
  {
    if kid.None? || kid.value == "" {
      return if keys == [] then None else Some(keys[0]);
    }
    for i := 0 to |keys|
      invariant forall j | 0 <= j < i :: keys[j].kid != kid
    {
      if keys[i].kid == kid {
        return Some(keys[i]);
      }
    }
    return None;
  }
}
