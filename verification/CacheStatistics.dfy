/** What the counters of the cache count, and what happens when it is exactly full. */
module CacheStatistics {
  import opened Options
  import opened ResponseCache
  import opened CacheHistory

  /** The gets since the last clear. */
  function Gets(ops: seq<Op>): nat {
    if ops == [] then 0 else
      match ops[|ops| - 1]
      case Clear(_) => 0
      case Get(_, _) => Gets(ops[..|ops| - 1]) + 1
      case _ => Gets(ops[..|ops| - 1])
  }

  function SumHits(entries: seq<Entry>): nat {
    if entries == [] then 0 else entries[0].hits + SumHits(entries[1..])
  }

  function HitsOf(entries: seq<Entry>, key: string): nat {
    if Has(entries, key) then At(entries, key).hits else 0
  }

  /** The hits of the entries one operation evicts, overwrites or expires. */
  function LostBy(limits: Limits, c: Cache, op: Op): nat {
    match op
    case Get(key, now) => if IsHit(limits, c, key, now) then 0 else HitsOf(c.entries, key)
    case Set(key, _, _) =>
      (if |c.entries| >= limits.maxEntries && c.entries != [] then c.entries[Victim(c.entries)].hits else 0)
      + HitsOf(Evicted(limits, c.entries), key)
    case Clear(_) => 0
    case Cleanup(now) => ExpiredHits(limits, c.entries, now)
  }

  function ExpiredHits(limits: Limits, entries: seq<Entry>, now: int): nat {
    if entries == [] then 0
    else if Expired(limits, entries[0].createdAt, now) then entries[0].hits + ExpiredHits(limits, entries[1..], now)
    else ExpiredHits(limits, entries[1..], now)
  }

  /** Lost hits since the last clear. */
  function Lost(limits: Limits, ops: seq<Op>): nat {
    if ops == [] || ops[|ops| - 1].Clear? then 0
    else Lost(limits, ops[..|ops| - 1]) + LostBy(limits, StateAfter(limits, ops[..|ops| - 1]), ops[|ops| - 1])
  }

  lemma {:induction false} HitsAndMissesAreGets(limits: Limits, ops: seq<Op>)
    ensures StateAfter(limits, ops).hits + StateAfter(limits, ops).misses == Gets(ops)
  {
    if ops == [] {
    } else {
      HitsAndMissesAreGets(limits, ops[..|ops| - 1]);
    }
  }

  lemma HitsCons(e: Entry, rest: seq<Entry>, key: string)
    ensures HitsOf([e] + rest, key) == if e.key == key then e.hits else HitsOf(rest, key)
  {
    IndexOfCons(e, rest, key);
  }

  lemma {:induction false} SumDelete(entries: seq<Entry>, key: string)
    ensures SumHits(Delete(entries, key)) + HitsOf(entries, key) == SumHits(entries)
  {
    if entries == [] {
    } else {
      var rest := entries[1..];
      SumDelete(rest, key);
      assert entries == [entries[0]] + rest;
      DeleteCons(entries[0], rest, key);
      HitsCons(entries[0], rest, key);
    }
  }

  lemma {:induction false} SumPut(entries: seq<Entry>, e: Entry)
    ensures SumHits(Put(entries, e)) + HitsOf(entries, e.key) == SumHits(entries) + e.hits
  {
    if entries == [] {
      assert Put(entries, e) == [e];
    } else {
      var rest := entries[1..];
      SumPut(rest, e);
      assert entries == [entries[0]] + rest;
      PutCons(entries[0], rest, e);
      HitsCons(entries[0], rest, e.key);
    }
  }

  lemma {:induction false} SumFresh(limits: Limits, entries: seq<Entry>, now: int)
    ensures SumHits(Fresh(limits, entries, now)) + ExpiredHits(limits, entries, now) == SumHits(entries)
  {
    if entries == [] {
    } else {
      SumFresh(limits, entries[1..], now);
      assert ([entries[0]] + Fresh(limits, entries[1..], now))[1..] == Fresh(limits, entries[1..], now);
    }
  }

  lemma {:induction false} SumEvicted(limits: Limits, entries: seq<Entry>)
    requires KeysDistinct(entries)
    ensures SumHits(Evicted(limits, entries))
         + (if |entries| >= limits.maxEntries && entries != [] then entries[Victim(entries)].hits else 0)
             == SumHits(entries)
  {
    if |entries| >= limits.maxEntries && entries != [] {
      SumDelete(entries, entries[Victim(entries)].key);
      LookupIs(entries, Victim(entries));
    }
  }

  lemma StepConservesHits(limits: Limits, c: Cache, op: Op)
    requires KeysDistinct(c.entries) && !op.Clear?
    ensures var next := Apply(limits, c, op);
            next.hits + SumHits(c.entries) == c.hits + SumHits(next.entries) + LostBy(limits, c, op)
  {
    match op
    case Get(key, now) =>
      if IsHit(limits, c, key, now) {
        SumPut(c.entries, At(c.entries, key).(hits := At(c.entries, key).hits + 1));
      } else {
        SumDelete(c.entries, key);
      }
    case Set(key, response, now) =>
      SumEvicted(limits, c.entries);
      SumPut(Evicted(limits, c.entries), Entry(key, response, now, 0));
    case Cleanup(now) => SumFresh(limits, c.entries, now);
  }

  /** The hit counter is the hits of the entries still there and of those lost since the last clear. */
  lemma {:induction false} HitsAreLiveOrLost(limits: Limits, ops: seq<Op>)
    requires limits.maxEntries > 0
    ensures StateAfter(limits, ops).hits == SumHits(StateAfter(limits, ops).entries) + Lost(limits, ops)
  {
    if ops == [] || ops[|ops| - 1].Clear? {
    } else {
      var front := ops[..|ops| - 1];
      HitsAreLiveOrLost(limits, front);
      Bounded(limits, front);
      StepConservesHits(limits, StateAfter(limits, front), ops[|ops| - 1]);
    }
  }

  // ---- With exactly as many keys as the bound ----

  function Key(i: nat): string {
    seq(i, _ => 'k')
  }

  function Filled(n: nat): seq<Entry> {
    seq(n, i requires 0 <= i < n => Entry(Key(i), "r", 0, 0))
  }

  function Sets(n: nat): seq<Op> {
    seq(n, i requires 0 <= i < n => Set(Key(i), "r", 0))
  }

  lemma KeysDiffer(i: nat, j: nat)
    requires i != j
    ensures Key(i) != Key(j)
  {
    assert |Key(i)| != |Key(j)|;
  }

  lemma FillsOne(limits: Limits, c: Cache, n: nat)
    requires c.entries == Filled(n) && n < limits.maxEntries
    ensures AfterSet(limits, c, Key(n), "r", 0).entries == Filled(n + 1)
  {
    assert Filled(n + 1) == Filled(n) + [Entry(Key(n), "r", 0, 0)];
  }

  lemma {:induction false} FillsUp(limits: Limits, n: nat)
    requires n <= limits.maxEntries
    ensures StateAfter(limits, Sets(n)).entries == Filled(n)
  {
    if n == 0 {
      assert Filled(n) == [];
    } else {
      FillsUp(limits, n - 1);
      SetsOneMore(n - 1);
      FillsOne(limits, StateAfter(limits, Sets(n - 1)), n - 1);
    }
  }

  lemma SetsOneMore(n: nat)
    ensures Sets(n + 1) == Sets(n) + [Set(Key(n), "r", 0)]
  {
  }

  lemma {:induction false} SetsKeys(n: nat)
    ensures |KeysSet(Sets(n))| == n && forall k :: k in KeysSet(Sets(n)) <==> exists i: nat :: i < n && k == Key(i)
  {
    if n == 0 {
    } else {
      SetsKeys(n - 1);
      assert Sets(n)[..n - 1] == Sets(n - 1);
      forall i: nat | i < n - 1 ensures Key(i) != Key(n - 1) {
        KeysDiffer(i, n - 1);
      }
    }
  }

  lemma FullCacheDropsFirst(limits: Limits, c: Cache, c': Cache)
    requires limits.maxEntries >= 2 && c.entries == Filled(limits.maxEntries)
    requires c' == AfterSet(limits, c, Key(limits.maxEntries - 1), "r", 0)
    ensures Lookup(c'.entries, Key(0)).None?
  {
    var n := limits.maxEntries;
    EvictionPicksFirstColdest(limits, c.entries, 0, Key(0));
    KeysDiffer(0, n - 1);
    LookupPut(Evicted(limits, c.entries), Entry(Key(n - 1), "r", 0, 0), Key(0));
  }

  lemma {:induction false} LatestOfFirst(n: nat)
    requires n >= 1
    ensures Latest(Sets(n), Key(0)) == Some(("r", 0))
  {
    if n == 1 {
    } else {
      LatestOfFirst(n - 1);
      assert Sets(n)[..n - 1] == Sets(n - 1);
      KeysDiffer(0, n - 1);
    }
  }

  /** Fill the cache, then set the newest key again. */
  function Refill(n: nat): seq<Op>
    requires n > 0
  {
    Sets(n) + [Set(Key(n - 1), "r", 0)]
  }

  lemma {:induction false} RefillState(limits: Limits)
    requires limits.maxEntries >= 2
    ensures Lookup(StateAfter(limits, Refill(limits.maxEntries)).entries, Key(0)).None?
  {
    var n := limits.maxEntries;
    FillsUp(limits, n);
    FullCacheDropsFirst(limits, StateAfter(limits, Sets(n)), StateAfter(limits, Refill(n)));
  }

  lemma RefillHistory(n: nat)
    requires n >= 2
    ensures Latest(Refill(n), Key(0)) == Some(("r", 0)) && |KeysSet(Refill(n))| == n
  {
    assert Refill(n)[..n] == Sets(n);
    LatestOfFirst(n);
    KeysDiffer(0, n - 1);
    SetsKeys(n);
    assert KeysSet(Refill(n)) == KeysSet(Sets(n));
  }

  /**
   * Setting the newest key of a full cache again drops the oldest entry: with as many keys as the bound it is
   * not the unbounded map.
   */
  lemma FullCacheDrops(limits: Limits) returns (ops: seq<Op>)
    requires limits.maxEntries >= 2 && !Expired(limits, 0, 0)
    ensures Monotone(ops) && |KeysSet(ops)| == limits.maxEntries && (forall i :: 0 <= i < |ops| ==> ops[i].now == 0)
    ensures GetResult(limits, StateAfter(limits, ops), Key(0), 0) == None
    ensures TtlGet(limits, ops, Key(0), 0) == Some("r")
  {
    ops := Refill(limits.maxEntries);
    RefillState(limits);
    RefillHistory(limits.maxEntries);
  }
}
