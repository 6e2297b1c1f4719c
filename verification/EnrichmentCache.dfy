/** The default result cache: a map whose expired entries are dropped by the read that
    notices them (packages/core/src/enrichment-cache.ts). The clock is the `now` argument. */
module EnrichmentCache {
  import opened Wrappers
  import opened EnrichmentSchema
  import opened Clocks

  datatype Entry = Entry(report: Report, expiresAt: real)

  datatype CacheCall = SetCall(key: string, report: Report, ttlMs: JsNumber, now: real) | GetCall(key: string, now: real)

  /** A non-positive or non-finite lifetime is not cacheable. */
  predicate Storable(ttlMs: JsNumber) {
    ttlMs.Finite? && ttlMs.value > 0.0
  }

  function Lookup(store: map<string, Entry>, key: string, now: real): Option<Report> {
    if key in store && now < store[key].expiresAt then Some(store[key].report) else None
  }

  /** The store after a sequence of calls, reads evicting what they find expired. */
  function StoreAfter(trace: seq<CacheCall>): map<string, Entry> {
    if trace == [] then map[] else
      var before := StoreAfter(trace[..|trace| - 1]);
      match trace[|trace| - 1]
      case SetCall(key, report, ttl, now) =>
        if Storable(ttl) then before[key := Entry(report, now + ttl.value)] else before
      case GetCall(key, now) =>
        if key in before && now >= before[key].expiresAt then before - {key} else before
  }

  class InMemoryEnrichmentCache {
    var store: map<string, Entry>
    ghost var history: seq<CacheCall>

    ghost predicate Valid()
      reads this
    {
      store == StoreAfter(history)
    }

    constructor ()
      ensures Valid() && history == []
    {
      store, history := map[], [];
    }

    method Get(key: string, now: real) returns (r: Option<Report>)
      requires Valid()
      modifies this
      ensures Valid() && history == old(history) + [GetCall(key, now)]
      ensures r == Lookup(StoreAfter(old(history)), key, now)
    {
      history := history + [GetCall(key, now)];
      assert history[..|history| - 1] == old(history);
      if key !in store {
        return None;
      }
      if now >= store[key].expiresAt {
        store := store - {key};
        return None;
      }
      return Some(store[key].report);
    }

    method Set(key: string, report: Report, ttlMs: JsNumber, now: real)
      requires Valid()
      modifies this
      ensures Valid() && history == old(history) + [SetCall(key, report, ttlMs, now)]
    {
      history := history + [SetCall(key, report, ttlMs, now)];
      assert history[..|history| - 1] == old(history);
      if !ttlMs.Finite? || ttlMs.value <= 0.0 {
        return;
      }
      store := store[key := Entry(report, now + ttlMs.value)];
    }
  }

  // ---------- the simple specification ----------

  /** What was last stored under a key, and until when; nothing is ever evicted. */
  function LastStored(trace: seq<CacheCall>, key: string): Option<Entry> {
    if trace == [] then None else
      var c := trace[|trace| - 1];
      if c.SetCall? && c.key == key && Storable(c.ttlMs) then Some(Entry(c.report, c.now + c.ttlMs.value))
      else LastStored(trace[..|trace| - 1], key)
  }

  /** A map that keeps everything and filters by expiry when asked. */
  function Reference(trace: seq<CacheCall>, key: string, now: real): Option<Report> {
    var e := LastStored(trace, key);
    if e.Some? && now < e.value.expiresAt then Some(e.value.report) else None
  }

  /** When the calls of a trace were made. */
  function Readings(trace: seq<CacheCall>): (readings: seq<real>)
    ensures |readings| == |trace| && forall i :: 0 <= i < |trace| ==> readings[i] == trace[i].now
  {
    seq(|trace|, i requires 0 <= i < |trace| => trace[i].now)
  }

  /** Whatever the clock does, an entry still held is the last one stored. */
  lemma {:induction false} HeldIsLast(trace: seq<CacheCall>, key: string)
    ensures key in StoreAfter(trace) ==> LastStored(trace, key) == Some(StoreAfter(trace)[key])
  {
    if trace != [] {
      HeldIsLast(trace[..|trace| - 1], key);
    }
  }

  /** On a forward clock, only entries that are expired for good are missing. */
  lemma {:induction false} MissingIsExpired(trace: seq<CacheCall>, key: string, now: real)
    requires Forward(Readings(trace)) && NotBefore(Readings(trace), now)
    ensures key !in StoreAfter(trace) && LastStored(trace, key).Some? ==> LastStored(trace, key).value.expiresAt <= now
  {
    if trace != [] {
      var before := trace[..|trace| - 1];
      MissingIsExpired(before, key, now);
      HeldIsLast(before, key);
    }
  }

  /** The lazily evicting cache answers every request like the map that never evicts. */
  lemma {:induction false} LazyEvictionIsInvisible(trace: seq<CacheCall>, key: string, now: real)
    requires Forward(Readings(trace)) && NotBefore(Readings(trace), now)
    ensures Lookup(StoreAfter(trace), key, now) == Reference(trace, key, now)
  {
    HeldIsLast(trace, key);
    MissingIsExpired(trace, key, now);
  }

  /** On any clock a hit is a correct hit: eviction can only turn hits into misses. */
  lemma {:induction false} HitsAreSound(trace: seq<CacheCall>, key: string, now: real)
    ensures Lookup(StoreAfter(trace), key, now).Some? ==>
      Lookup(StoreAfter(trace), key, now) == Reference(trace, key, now)
  {
    HeldIsLast(trace, key);
  }

  /** Call `i` is the last one that stored under the key. */
  ghost predicate LastStore(trace: seq<CacheCall>, key: string, i: nat) {
    && i < |trace| && Stores(trace[i], key) && forall j :: i < j < |trace| ==> !Stores(trace[j], key)
  }

  predicate Stores(c: CacheCall, key: string) {
    c.SetCall? && c.key == key && Storable(c.ttlMs)
  }

  /** Until when the entry written by a storing call lives. */
  function Expiry(c: CacheCall): real
    requires c.SetCall? && Storable(c.ttlMs)
  {
    c.now + c.ttlMs.value
  }

  /** Call `j` read the key, after the last store at call `i`, at a time when its entry had expired. */
  ghost predicate ReadExpired(trace: seq<CacheCall>, key: string, i: nat, j: nat) {
    && LastStore(trace, key, i) && i < j < |trace|
    && trace[j].GetCall? && trace[j].key == key && Expiry(trace[i]) <= trace[j].now
  }

  /** What the specification keeps is what the last storing call wrote. */
  lemma {:induction false} LastStoredIs(trace: seq<CacheCall>, key: string)
    ensures LastStored(trace, key).Some? <==> exists i: nat :: LastStore(trace, key, i)
    ensures forall i: nat :: LastStore(trace, key, i) ==> LastStored(trace, key) == Some(Entry(trace[i].report, Expiry(trace[i])))
  {
    if trace != [] {
      var n := |trace| - 1;
      var before := trace[..n];
      LastStoredIs(before, key);
      if Stores(trace[n], key) {
        assert LastStore(trace, key, n);
      } else {
        forall i: nat ensures LastStore(before, key, i) <==> LastStore(trace, key, i) {
          assert i < n ==> before[i] == trace[i];
          if LastStore(before, key, i) {
            forall j | i < j < |trace| ensures !Stores(trace[j], key) {
              assert j < n ==> trace[j] == before[j];
            }
          } else if LastStore(trace, key, i) {
            forall j | i < j < n ensures !Stores(before[j], key) {
              assert before[j] == trace[j];
            }
          }
        }
      }
    }
  }

  /** An entry that was stored is gone exactly when a read found it expired. */
  lemma {:induction false} GoneExactly(trace: seq<CacheCall>, key: string, i: nat)
    requires LastStore(trace, key, i)
    ensures key !in StoreAfter(trace) <==> exists j: nat :: ReadExpired(trace, key, i, j)
    decreases |trace|
  {
    var n := |trace| - 1;
    var before, c := trace[..n], trace[n];
    if i < n {
      assert before[i] == trace[i] && forall j :: i < j < n ==> before[j] == trace[j];
      assert LastStore(before, key, i);
      GoneExactly(before, key, i);
      HeldIsLast(before, key);
      LastStoredIs(before, key);
      forall j: nat | j < n ensures ReadExpired(before, key, i, j) <==> ReadExpired(trace, key, i, j) {
      }
      if key !in StoreAfter(before) {
        var j: nat :| ReadExpired(before, key, i, j);
        assert ReadExpired(trace, key, i, j);
      } else if c.GetCall? && c.key == key && Expiry(trace[i]) <= c.now {
        assert ReadExpired(trace, key, i, n);
      }
    }
  }

  /** On any clock the two differ exactly when a read found the entry of the last store expired
      although it is live again now, which takes a clock that stepped back. */
  lemma {:induction false} DiffersExactlyWhenDropped(trace: seq<CacheCall>, key: string, now: real)
    ensures Lookup(StoreAfter(trace), key, now) != Reference(trace, key, now) <==>
      exists i: nat, j: nat :: ReadExpired(trace, key, i, j) && now < Expiry(trace[i])
    ensures forall i: nat, j: nat :: ReadExpired(trace, key, i, j) && now < Expiry(trace[i]) ==> now < trace[j].now
  {
    hide StoreAfter;
    HeldIsLast(trace, key);
    LastStoredIs(trace, key);
    if i: nat :| LastStore(trace, key, i) {
      GoneExactly(trace, key, i);
      forall k: nat, j: nat | ReadExpired(trace, key, k, j) ensures k == i {
        assert Stores(trace[k], key) && Stores(trace[i], key);
      }
    }
  }

  lemma BackwardClockLosesAnEntry(report: Report)
    ensures exists trace: seq<CacheCall> :: Lookup(StoreAfter(trace), "k", 1.0) != Reference(trace, "k", 1.0)
  {
    var put, read := SetCall("k", report, Finite(5.0), 0.0), GetCall("k", 5.0);
    assert [put][..0] == [] && [put, read][..1] == [put];
    assert "k" in StoreAfter([put]) && StoreAfter([put])["k"].expiresAt == 5.0;
    assert "k" !in StoreAfter([put, read]);
    assert LastStored([put, read], "k") == LastStored([put], "k");
    assert Lookup(StoreAfter([put, read]), "k", 1.0) != Reference([put, read], "k", 1.0);
  }
}
