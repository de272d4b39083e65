/**
 * The TTL cache in front of the upstream fetch (`_load_data`). The clock
 * reading and the outcome of the one POST request are parameters.
 */
module Loader {
  import opened Optional
  import opened Dataset

  /** `_CACHE_TTL_SECONDS`. */
  const TtlSeconds: real := 600.0

  /** What the POST request ends in: an exception (transport failure, or a
      body `resp.json()` cannot parse), a response that is not ok, or an ok
      response whose body is the document. */
  datatype FetchOutcome = FetchRaised | NotOk | Body(doc: Document)

  /** What `_load_data` hands back: the cached value (which is `None` after
      a not-ok response), or the exception of the fetch. */
  datatype LoadResult = Loaded(data: Option<Document>) | LoadRaised

  /** The module globals `_CACHE` and `_CACHE_TS`. */
  datatype CacheState = CacheState(cache: Option<Document>, ts: Option<real>)

  /** The cache answers without a request when it holds a value and is
      younger than the TTL. */
  predicate IsFresh(s: CacheState, now: real) {
    s.cache.Some? && s.ts.Some? && now - s.ts.value < TtlSeconds
  }

  /** `_fetch_remote()`: the body of an ok response, `None` for a response
      that is not ok (the function falls off its end). */
  function FetchedValue(f: FetchOutcome): Option<Document>
    requires !f.FetchRaised?
  {
    if f.Body? then Some(f.doc) else None
  }

  /** One call of `_load_data` at time `now`: the new globals and the result. */
  function Step(s: CacheState, now: real, f: FetchOutcome): (CacheState, LoadResult) {
    if IsFresh(s, now) then (s, Loaded(s.cache))
    else if f.FetchRaised? then (s, LoadRaised)
    else (CacheState(FetchedValue(f), Some(now)), Loaded(FetchedValue(f)))
  }

  /** A fresh cache is served as it is, whatever the upstream would answer,
      and the globals do not change. */
  lemma {:induction false} HitIgnoresUpstream(s: CacheState, now: real, f: FetchOutcome, g: FetchOutcome)
    requires IsFresh(s, now)
    ensures Step(s, now, f) == Step(s, now, g) == (s, Loaded(s.cache))
  {
  }

  /** After a request that returns, the cache holds what it returned (even
      `None`) stamped `now`; after a request that raises, nothing changed. */
  lemma {:induction false} MissStoresFetch(s: CacheState, now: real, f: FetchOutcome)
    requires !IsFresh(s, now)
    ensures f.FetchRaised? ==> Step(s, now, f) == (s, LoadRaised)
    ensures f.NotOk? ==> Step(s, now, f) == (CacheState(None, Some(now)), Loaded(None))
    ensures f.Body? ==> Step(s, now, f) == (CacheState(Some(f.doc), Some(now)), Loaded(Some(f.doc)))
  {
  }

  /** A document fetched at `t1` is served without a request by every call
      at a time `t2` with `t1 <= t2 < t1 + 600`: two calls within the TTL
      fetch at most once. */
  lemma {:induction false} FetchedDocumentStaysFresh(s: CacheState, t1: real, t2: real, f: FetchOutcome, g: FetchOutcome)
    requires !IsFresh(s, t1) && f.Body?
    requires t1 <= t2 < t1 + TtlSeconds
    ensures IsFresh(Step(s, t1, f).0, t2)
    ensures Step(Step(s, t1, f).0, t2, g) == (Step(s, t1, f).0, Loaded(Step(s, t1, f).0.cache))
  {
  }

  /** A not-ok response empties the cache, so the next call fetches again
      however soon it comes: a stale or failed value is never served. */
  lemma {:induction false} NotOkForcesRefetch(s: CacheState, t1: real, t2: real)
    requires !IsFresh(s, t1)
    ensures !IsFresh(Step(s, t1, NotOk).0, t2)
  {
  }

  /** The process-wide cache of the service. */
  class TtlCache {
    var cache: Option<Document>
    var ts: Option<real>
    /** How many upstream requests the cache has made. */
    ghost var fetches: nat

    function State(): CacheState
      reads this
    {
      CacheState(cache, ts)
    }

    constructor ()
      ensures State() == CacheState(None, None) && fetches == 0
    {
      cache, ts := None, None;
      fetches := 0;
    }

    /** `_load_data()` at clock reading `now`, with `fetch` the outcome of the
        request it makes if the cache is not fresh. */
    method Load(now: real, fetch: FetchOutcome) returns (r: LoadResult)
      modifies this
      ensures (State(), r) == Step(old(State()), now, fetch)
      ensures fetches == if old(IsFresh(State(), now)) then old(fetches) else old(fetches) + 1
    {
      if cache.Some? && ts.Some? && now - ts.value < TtlSeconds {
        return Loaded(cache);
      }
      fetches := fetches + 1;
      if fetch.FetchRaised? {
        return LoadRaised;
      }
      var data := if fetch.Body? then Some(fetch.doc) else None;
      cache := data;
      ts := Some(now);
      r := Loaded(data);
    }
  }
}
