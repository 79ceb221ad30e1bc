/** The cache against the plain history of what was set. */
module CacheHistory {
  import opened Options
  import opened ResponseCache

  datatype Op =
    | Get(key: string, now: int)
    | Set(key: string, response: string, now: int)
    | Clear(now: int)
    | Cleanup(now: int)

  function Apply(limits: Limits, c: Cache, op: Op): Cache {
    match op
    case Get(key, now) => AfterGet(limits, c, key, now)
    case Set(key, response, now) => AfterSet(limits, c, key, response, now)
    case Clear(_) => ResponseCache.EMPTY
    case Cleanup(now) => AfterCleanup(limits, c, now)
  }

  function StateAfter(limits: Limits, ops: seq<Op>): Cache {
    if ops == [] then ResponseCache.EMPTY else Apply(limits, StateAfter(limits, ops[..|ops| - 1]), ops[|ops| - 1])
  }

  // ---- The history ----

  /** The response and time of the latest set of key since the last clear. */
  function Latest(ops: seq<Op>, key: string): Option<(string, int)> {
    if ops == [] then None else
      var last := ops[|ops| - 1];
      if last.Clear? then None
      else if last.Set? && last.key == key then Some((last.response, last.now))
      else Latest(ops[..|ops| - 1], key)
  }

  /** What an unbounded map would answer that keeps a response for so many seconds, or for ever. */
  function TtlGet(limits: Limits, ops: seq<Op>, key: string, now: int): Option<string> {
    match Latest(ops, key)
    case None => None
    case Some((response, t)) =>
      match limits.ttlSeconds
      case None => Some(response)
      case Some(ttl) => if now - t <= 1000 * ttl then Some(response) else None
  }

  /** The keys set since the last clear. */
  function KeysSet(ops: seq<Op>): set<string> {
    if ops == [] then {} else
      match ops[|ops| - 1]
      case Clear(_) => {}
      case Set(key, _, _) => KeysSet(ops[..|ops| - 1]) + {key}
      case _ => KeysSet(ops[..|ops| - 1])
  }

  predicate Monotone(ops: seq<Op>) {
    forall i, j :: 0 <= i < j < |ops| ==> ops[i].now <= ops[j].now
  }

  // ---- Lookups ----

  function Lookup(entries: seq<Entry>, key: string): Option<Entry> {
    if Has(entries, key) then Some(At(entries, key)) else None
  }

  lemma LookupIs(entries: seq<Entry>, i: nat)
    requires KeysDistinct(entries) && i < |entries|
    ensures Lookup(entries, entries[i].key) == Some(entries[i])
  {
  }

  lemma LookupCons(e: Entry, rest: seq<Entry>, key: string)
    ensures Lookup([e] + rest, key) == if e.key == key then Some(e) else Lookup(rest, key)
  {
    IndexOfCons(e, rest, key);
  }

  lemma {:induction false} LookupAbsent(entries: seq<Entry>, key: string)
    requires forall e :: e in entries ==> e.key != key
    ensures Lookup(entries, key).None?
  {
  }

  lemma PutCons(first: Entry, rest: seq<Entry>, e: Entry)
    ensures Put([first] + rest, e) == if first.key == e.key then [e] + rest else [first] + Put(rest, e)
  {
    IndexOfCons(first, rest, e.key);
  }

  lemma {:induction false} LookupPut(entries: seq<Entry>, e: Entry, key: string)
    ensures Lookup(Put(entries, e), key) == if key == e.key then Some(e) else Lookup(entries, key)
  {
    if entries == [] {
      LookupCons(e, [], key);
    } else {
      var rest := entries[1..];
      LookupPut(rest, e, key);
      assert entries == [entries[0]] + rest;
      PutCons(entries[0], rest, e);
      LookupCons(entries[0], rest, key);
      LookupCons(e, rest, key);
      LookupCons(entries[0], Put(rest, e), key);
    }
  }

  lemma {:induction false} LookupDelete(entries: seq<Entry>, gone: string, key: string)
    requires KeysDistinct(entries)
    ensures Lookup(Delete(entries, gone), key) == if key == gone then None else Lookup(entries, key)
  {
    if entries == [] {
    } else {
      var rest := entries[1..];
      LookupDelete(rest, gone, key);
      DeleteCons(entries[0], rest, gone);
      assert entries == [entries[0]] + rest;
      LookupCons(entries[0], rest, key);
      LookupCons(entries[0], Delete(rest, gone), key);
      LookupAbsent(if entries[0].key == gone then rest else [], gone);
    }
  }

  lemma {:induction false} LookupFresh(limits: Limits, entries: seq<Entry>, now: int, key: string)
    requires KeysDistinct(entries)
    ensures Lookup(Fresh(limits, entries, now), key) ==
            if Has(entries, key) && !Expired(limits, At(entries, key).createdAt, now)
            then Lookup(entries, key) else None
  {
    if entries == [] {
    } else {
      var rest := entries[1..];
      LookupFresh(limits, rest, now, key);
      assert entries == [entries[0]] + rest;
      LookupCons(entries[0], rest, key);
      LookupCons(entries[0], Fresh(limits, rest, now), key);
      LookupAbsent(if entries[0].key == key then rest else [], key);
    }
  }

  // ---- Shape ----

  lemma {:induction false} FreshKeepsDistinct(limits: Limits, entries: seq<Entry>, now: int)
    requires KeysDistinct(entries)
    ensures KeysDistinct(Fresh(limits, entries, now)) && |Fresh(limits, entries, now)| <= |entries|
    ensures forall e :: e in Fresh(limits, entries, now) ==> e in entries
  {
    if entries == [] {
    } else {
      FreshKeepsDistinct(limits, entries[1..], now);
      assert forall e :: e in Fresh(limits, entries[1..], now) ==> e in entries[1..] && e.key != entries[0].key;
    }
  }

  /** Keys stay distinct and the bound holds, after any operations. */
  lemma {:induction false} Bounded(limits: Limits, ops: seq<Op>)
    requires limits.maxEntries > 0
    ensures KeysDistinct(StateAfter(limits, ops).entries) && |StateAfter(limits, ops).entries| <= limits.maxEntries
  {
    if ops == [] {
    } else {
      var c := StateAfter(limits, ops[..|ops| - 1]);
      Bounded(limits, ops[..|ops| - 1]);
      match ops[|ops| - 1]
      case Get(key, now) =>
        DeleteKeepsDistinct(c.entries, key);
        if IsHit(limits, c, key, now) {
          PutKeepsDistinct(c.entries, At(c.entries, key).(hits := At(c.entries, key).hits + 1));
        }
      case Set(key, response, now) =>
        PutKeepsDistinct(Evicted(limits, c.entries), Entry(key, response, now, 0));
      case Clear(_) =>
      case Cleanup(now) => FreshKeepsDistinct(limits, c.entries, now);
    }
  }

  /** The evicted entry is the first of those with the fewest hits, and it alone goes. */
  lemma EvictionPicksFirstColdest(limits: Limits, entries: seq<Entry>, i: nat, key: string)
    requires KeysDistinct(entries) && |entries| >= limits.maxEntries && IsVictim(entries, i)
    ensures Lookup(Evicted(limits, entries), key) == if key == entries[i].key then None else Lookup(entries, key)
  {
    assert i == Victim(entries);
    LookupDelete(entries, entries[i].key, key);
  }

  // ---- What a get returns ----

  /** An entry of the cache is the latest set of its key. */
  ghost predicate HoldsLatest(c: Cache, ops: seq<Op>, key: string) {
    Lookup(c.entries, key).Some? ==>
      Latest(ops, key) == Some((Lookup(c.entries, key).value.response, Lookup(c.entries, key).value.createdAt))
  }

  lemma LookupEvicted(limits: Limits, entries: seq<Entry>, key: string)
    requires KeysDistinct(entries)
    ensures Lookup(Evicted(limits, entries), key) in {None, Lookup(entries, key)}
    ensures |entries| < limits.maxEntries ==> Evicted(limits, entries) == entries
  {
    if |entries| >= limits.maxEntries && entries != [] {
      LookupDelete(entries, entries[Victim(entries)].key, key);
    }
  }

  /** What one operation leaves of the entry of one key. */
  function LookupThen(limits: Limits, c: Cache, op: Op, key: string): Option<Entry> {
    match op
    case Get(k, now) =>
      if key != k then Lookup(c.entries, key)
      else if IsHit(limits, c, key, now) then Some(At(c.entries, key).(hits := At(c.entries, key).hits + 1))
      else None
    case Set(k, response, now) =>
      if key == k then Some(Entry(key, response, now, 0)) else Lookup(Evicted(limits, c.entries), key)
    case Clear(_) => None
    case Cleanup(now) => if IsHit(limits, c, key, now) then Lookup(c.entries, key) else None
  }

  lemma LookupAfter(limits: Limits, c: Cache, op: Op, key: string)
    requires KeysDistinct(c.entries)
    ensures Lookup(Apply(limits, c, op).entries, key) == LookupThen(limits, c, op, key)
  {
    match op
    case Get(k, now) =>
      LookupDelete(c.entries, k, key);
      if IsHit(limits, c, k, now) {
        LookupPut(c.entries, At(c.entries, k).(hits := At(c.entries, k).hits + 1), key);
      }
    case Set(k, response, now) => LookupPut(Evicted(limits, c.entries), Entry(k, response, now, 0), key);
    case Clear(_) =>
    case Cleanup(now) => LookupFresh(limits, c.entries, now, key);
  }

  lemma {:induction false} EntriesAreLatest(limits: Limits, ops: seq<Op>, key: string)
    requires limits.maxEntries > 0
    ensures HoldsLatest(StateAfter(limits, ops), ops, key)
  {
    if ops == [] {
    } else {
      var front, op := ops[..|ops| - 1], ops[|ops| - 1];
      Bounded(limits, front);
      EntriesAreLatest(limits, front, key);
      LookupAfter(limits, StateAfter(limits, front), op, key);
      LookupEvicted(limits, StateAfter(limits, front).entries, key);
    }
  }

  /**
   * Whatever came before and whatever the clock did: a response is that of the latest set since the last clear,
   * and not too old.
   */
  lemma {:induction false} GetReturnsLatest(limits: Limits, ops: seq<Op>, key: string, now: int)
    requires limits.maxEntries > 0
    ensures var r := GetResult(limits, StateAfter(limits, ops), key, now);
            r.Some? ==> r == TtlGet(limits, ops, key, now)
    // In numbers: it was set at a time t, at most so many seconds ago.
    ensures var r := GetResult(limits, StateAfter(limits, ops), key, now);
            r.Some? ==> exists t :: Latest(ops, key) == Some((r.value, t))
                                    && (limits.ttlSeconds.Some? ==> now - t <= 1000 * limits.ttlSeconds.value)
  {
    EntriesAreLatest(limits, ops, key);
  }

  // ---- Exactly the unbounded map ----

  /** Fewer keys than the bound were ever set between two clears. */
  predicate Roomy(limits: Limits, ops: seq<Op>) {
    forall i :: 0 <= i <= |ops| ==> |KeysSet(ops[..i])| < limits.maxEntries
  }

  lemma {:induction false} HeldKeysWereSet(limits: Limits, ops: seq<Op>)
    requires limits.maxEntries > 0
    ensures forall e :: e in StateAfter(limits, ops).entries ==> e.key in KeysSet(ops)
  {
    if ops == [] {
    } else {
      var front, op := ops[..|ops| - 1], ops[|ops| - 1];
      var c := StateAfter(limits, front);
      Bounded(limits, front);
      Bounded(limits, ops);
      HeldKeysWereSet(limits, front);
      var now := StateAfter(limits, ops).entries;
      forall i | 0 <= i < |now| ensures now[i].key in KeysSet(ops) {
        LookupIs(now, i);
        LookupAfter(limits, c, op, now[i].key);
        LookupEvicted(limits, c.entries, now[i].key);
      }
    }
  }

  lemma {:induction false} DistinctKeysCount(entries: seq<Entry>, keys: set<string>)
    requires KeysDistinct(entries) && forall e :: e in entries ==> e.key in keys
    ensures |entries| <= |keys|
  {
    if entries == [] {
    } else {
      forall e | e in entries[1..] ensures e.key in keys - {entries[0].key} {
      }
      DistinctKeysCount(entries[1..], keys - {entries[0].key});
    }
  }

  /** An entry that is missing was never set since the last clear, or is too old by now. */
  ghost predicate MissingIsOld(limits: Limits, ops: seq<Op>, key: string) {
    Lookup(StateAfter(limits, ops).entries, key).None? && Latest(ops, key).Some? ==>
      ops != [] && Expired(limits, Latest(ops, key).value.1, ops[|ops| - 1].now)
  }

  lemma {:induction false} RoomyForgetsOnlyOld(limits: Limits, ops: seq<Op>, key: string)
    requires Roomy(limits, ops) && Monotone(ops)
    ensures MissingIsOld(limits, ops, key)
  {
    if ops == [] {
    } else {
      var front := ops[..|ops| - 1];
      assert forall i :: 0 <= i <= |front| ==> front[..i] == ops[..i];
      RoomyForgetsOnlyOld(limits, front, key);
      RoomyNeverEvicts(limits, ops);
      MissingAfter(limits, ops, key);
    }
  }

  lemma {:induction false} RoomyNeverEvicts(limits: Limits, ops: seq<Op>)
    requires Roomy(limits, ops) && ops != []
    ensures |StateAfter(limits, ops[..|ops| - 1]).entries| < limits.maxEntries
  {
    var front := ops[..|ops| - 1];
    Bounded(limits, front);
    HeldKeysWereSet(limits, front);
    DistinctKeysCount(StateAfter(limits, front).entries, KeysSet(front));
  }

  lemma {:induction false} MissingAfter(limits: Limits, ops: seq<Op>, key: string)
    requires ops != [] && limits.maxEntries > 0 && Monotone(ops)
    requires |StateAfter(limits, ops[..|ops| - 1]).entries| < limits.maxEntries
    requires MissingIsOld(limits, ops[..|ops| - 1], key)
    ensures MissingIsOld(limits, ops, key)
  {
    var front, op := ops[..|ops| - 1], ops[|ops| - 1];
    var c := StateAfter(limits, front);
    Bounded(limits, front);
    EntriesAreLatest(limits, front, key);
    LookupAfter(limits, c, op, key);
    LookupEvicted(limits, c.entries, key);
  }

  /**
   * Under a clock that does not go back, with room for every key, the cache is the unbounded map, whenever it
   * cleans up.
   */
  lemma {:induction false} CacheIsTtlMap(limits: Limits, ops: seq<Op>, key: string, now: int)
    requires Roomy(limits, ops) && Monotone(ops) && (ops != [] ==> ops[|ops| - 1].now <= now)
    ensures GetResult(limits, StateAfter(limits, ops), key, now) == TtlGet(limits, ops, key, now)
    // In numbers: what was set at a time t is answered exactly up to so many seconds later.
    ensures forall response, t :: Latest(ops, key) == Some((response, t)) ==> (
              GetResult(limits, StateAfter(limits, ops), key, now) == Some(response) <==>
              limits.ttlSeconds.None? || now - t <= 1000 * limits.ttlSeconds.value)
  {
    assert |KeysSet(ops[..0])| < limits.maxEntries;
    RoomyForgetsOnlyOld(limits, ops, key);
    EntriesAreLatest(limits, ops, key);
  }
}
