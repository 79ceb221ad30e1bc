/** AiCacheService: a bounded map with a time to live, in Map order. */
module ResponseCache {
  import opened Options

  /** createdAt and every now are in milliseconds. */
  datatype Entry = Entry(key: string, response: string, createdAt: int, hits: nat)

  /** ttlSeconds is None when the environment variable does not parse: no age is greater than NaN. */
  datatype Limits = Limits(maxEntries: nat, ttlSeconds: Option<int>)

  datatype Cache = Cache(entries: seq<Entry>, hits: nat, misses: nat)

  const EMPTY := Cache([], 0, 0)

  predicate Expired(limits: Limits, createdAt: int, now: int) {
    limits.ttlSeconds.Some? && now - createdAt > 1000 * limits.ttlSeconds.value
  }

  // ---- A Map in insertion order ----

  predicate KeysDistinct(entries: seq<Entry>) {
    forall i, j :: 0 <= i < j < |entries| ==> entries[i].key != entries[j].key
  }

  function IndexOf(entries: seq<Entry>, key: string): (i: nat)
    ensures i <= |entries| && (i < |entries| ==> entries[i].key == key)
    ensures forall k :: 0 <= k < i ==> entries[k].key != key
  {
    if entries == [] || entries[0].key == key then 0 else 1 + IndexOf(entries[1..], key)
  }

  predicate Has(entries: seq<Entry>, key: string) {
    IndexOf(entries, key) < |entries|
  }

  function At(entries: seq<Entry>, key: string): (e: Entry)
    requires Has(entries, key)
    ensures e in entries && e.key == key
  {
    entries[IndexOf(entries, key)]
  }

  /** Map.delete. */
  function Delete(entries: seq<Entry>, key: string): seq<Entry> {
    var i := IndexOf(entries, key);
    if i == |entries| then entries else Without(entries, i)
  }

  function Without(entries: seq<Entry>, i: nat): seq<Entry>
    requires i < |entries|
  {
    entries[..i] + entries[i + 1..]
  }

  /** Map.set: a key that is there keeps its place. */
  function Put(entries: seq<Entry>, e: Entry): seq<Entry> {
    var i := IndexOf(entries, e.key);
    if i == |entries| then entries + [e] else entries[i := e]
  }

  // ---- The operations ----

  /** What the eviction scan finds: the first of the entries with the fewest hits. */
  ghost predicate IsVictim(entries: seq<Entry>, i: nat) {
    && i < |entries|
    && (forall k :: 0 <= k < |entries| ==> entries[i].hits <= entries[k].hits)
    && (forall k :: 0 <= k < i ==> entries[i].hits < entries[k].hits)
  }

  function Victim(entries: seq<Entry>): (i: nat)
    requires entries != []
    ensures IsVictim(entries, i)
  {
    var last := |entries| - 1;
    if last == 0 then 0 else
      var i := Victim(entries[..last]);
      if entries[last].hits < entries[i].hits then last else i
  }

  function Evicted(limits: Limits, entries: seq<Entry>): seq<Entry> {
    if |entries| >= limits.maxEntries && entries != [] then Delete(entries, entries[Victim(entries)].key) else entries
  }

  predicate IsHit(limits: Limits, c: Cache, key: string, now: int) {
    Has(c.entries, key) && !Expired(limits, At(c.entries, key).createdAt, now)
  }

  function GetResult(limits: Limits, c: Cache, key: string, now: int): Option<string> {
    if IsHit(limits, c, key, now) then Some(At(c.entries, key).response) else None
  }

  function AfterGet(limits: Limits, c: Cache, key: string, now: int): Cache {
    if IsHit(limits, c, key, now) then
      var e := At(c.entries, key);
      Cache(Put(c.entries, e.(hits := e.hits + 1)), c.hits + 1, c.misses)
    else Cache(Delete(c.entries, key), c.hits, c.misses + 1)
  }

  function AfterSet(limits: Limits, c: Cache, key: string, response: string, now: int): Cache {
    c.(entries := Put(Evicted(limits, c.entries), Entry(key, response, now, 0)))
  }

  /** The entries that are not expired. */
  function Fresh(limits: Limits, entries: seq<Entry>, now: int): seq<Entry> {
    if entries == [] then []
    else if Expired(limits, entries[0].createdAt, now) then Fresh(limits, entries[1..], now)
    else [entries[0]] + Fresh(limits, entries[1..], now)
  }

  lemma {:induction false} FreshAreYoung(limits: Limits, entries: seq<Entry>, now: int)
    ensures forall e :: e in Fresh(limits, entries, now) <==>
              e in entries && (limits.ttlSeconds.None? || now - e.createdAt <= 1000 * limits.ttlSeconds.value)
  {
    if entries == [] {
    } else {
      FreshAreYoung(limits, entries[1..], now);
    }
  }

  function AfterCleanup(limits: Limits, c: Cache, now: int): Cache {
    c.(entries := Fresh(limits, c.entries, now))
  }

  // ---- Deleting collected keys one by one ----

  function WithoutKeys(entries: seq<Entry>, keys: set<string>): (r: seq<Entry>)
    ensures forall e :: e in r ==> e in entries && e.key !in keys
  {
    if entries == [] then []
    else if entries[0].key in keys then WithoutKeys(entries[1..], keys)
    else [entries[0]] + WithoutKeys(entries[1..], keys)
  }

  function KeysIn(keys: seq<string>): set<string> {
    set k | k in keys
  }

  lemma KeysInMore(keys: seq<string>, i: nat)
    requires i < |keys|
    ensures KeysIn(keys[..i + 1]) == KeysIn(keys[..i]) + {keys[i]}
  {
  }

  lemma {:induction false} NoKeysDeleted(entries: seq<Entry>)
    ensures WithoutKeys(entries, {}) == entries
  {
    if entries == [] {
    } else {
      NoKeysDeleted(entries[1..]);
    }
  }

  lemma {:induction false} UntouchedKey(entries: seq<Entry>, keys: set<string>, key: string)
    requires forall e :: e in entries ==> e.key != key
    ensures WithoutKeys(entries, keys + {key}) == WithoutKeys(entries, keys)
  {
    if entries == [] {
    } else {
      UntouchedKey(entries[1..], keys, key);
    }
  }

  lemma {:induction false} IndexOfCons(e: Entry, rest: seq<Entry>, key: string)
    ensures IndexOf([e] + rest, key) == if e.key == key then 0 else 1 + IndexOf(rest, key)
  {
    assert ([e] + rest)[1..] == rest;
  }

  lemma DropCons(e: Entry, rest: seq<Entry>, i: nat)
    requires i < |rest|
    ensures Without([e] + rest, i + 1) == [e] + Without(rest, i)
  {
    assert ([e] + rest)[..i + 1] == [e] + rest[..i];
    assert ([e] + rest)[i + 1 + 1..] == rest[i + 1..];
  }

  lemma DropFirst(e: Entry, rest: seq<Entry>)
    ensures Without([e] + rest, 0) == rest
  {
  }

  lemma DeleteCons(e: Entry, rest: seq<Entry>, key: string)
    ensures Delete([e] + rest, key) == if e.key == key then rest else [e] + Delete(rest, key)
  {
    IndexOfCons(e, rest, key);
    if e.key == key {
      DropFirst(e, rest);
    } else if IndexOf(rest, key) < |rest| {
      DropCons(e, rest, IndexOf(rest, key));
    }
  }

  lemma {:induction false} DeleteOneMore(entries: seq<Entry>, keys: set<string>, key: string)
    requires KeysDistinct(entries)
    ensures Delete(WithoutKeys(entries, keys), key) == WithoutKeys(entries, keys + {key})
  {
    if entries == [] {
    } else {
      var rest := WithoutKeys(entries[1..], keys);
      DeleteOneMore(entries[1..], keys, key);
      DeleteCons(entries[0], rest, key);
      if entries[0].key == key {
        UntouchedKey(entries[1..], keys, key);
      }
    }
  }

  lemma {:induction false} FreshIsWithout(limits: Limits, entries: seq<Entry>, now: int, keys: set<string>)
    requires KeysDistinct(entries)
    requires forall e :: e in entries ==> (e.key in keys <==> Expired(limits, e.createdAt, now))
    ensures WithoutKeys(entries, keys) == Fresh(limits, entries, now)
  {
    if entries == [] {
    } else {
      assert entries[0] in entries;
      FreshIsWithout(limits, entries[1..], now, keys);
    }
  }

  class AiCacheService {
    var entries: seq<Entry>
    var hits: nat
    var misses: nat
    const limits: Limits

    constructor (limits: Limits)
      requires limits.maxEntries > 0
      ensures Valid() && State() == EMPTY && this.limits == limits
    {
      this.limits := limits;
      entries, hits, misses := [], 0, 0;
    }

    ghost predicate Valid()
      reads this
    {
      KeysDistinct(entries) && |entries| <= limits.maxEntries && limits.maxEntries > 0
    }

    ghost function State(): Cache
      reads this
    {
      Cache(entries, hits, misses)
    }

    method Get(key: string, now: int) returns (response: Option<string>)
      requires Valid()
      modifies this
      ensures Valid()
      ensures response == GetResult(limits, old(State()), key, now)
      // The response of an entry set at most so many seconds ago, whenever there is one.
      ensures response.Some? <==>
              exists e :: && e in old(entries) && e.key == key
                          && (limits.ttlSeconds.None? || now - e.createdAt <= 1000 * limits.ttlSeconds.value)
      ensures response.Some? ==> exists e :: e in old(entries) && e.key == key && e.response == response.value
      ensures State() == AfterGet(limits, old(State()), key, now)
    {
      var i := IndexOf(entries, key);
      if i == |entries| {
        misses := misses + 1;
        return None;
      }
      if Expired(limits, entries[i].createdAt, now) {
        entries := entries[..i] + entries[i + 1..];
        misses := misses + 1;
        return None;
      }
      entries := entries[i := entries[i].(hits := entries[i].hits + 1)];
      hits := hits + 1;
      return Some(entries[i].response);
    }

    /** The scan of set over the entries; lruHits is None for Infinity. */
    method FindVictim(key: string) returns (lruKey: string)
      requires Valid()
      ensures lruKey == if entries == [] then key else entries[Victim(entries)].key
    {
      lruKey := key;
      var lruHits: Option<nat> := None;
      for i := 0 to |entries|
        invariant i == 0 ==> lruHits.None? && lruKey == key
        invariant i > 0 ==>
                  lruHits == Some(entries[Victim(entries[..i])].hits) && lruKey == entries[Victim(entries[..i])].key
      {
        assert entries[..i + 1][..i] == entries[..i];
        if lruHits.None? || entries[i].hits < lruHits.value {
          lruKey, lruHits := entries[i].key, Some(entries[i].hits);
        }
      }
      assert entries[..|entries|] == entries;
    }

    method Set(key: string, response: string, now: int)
      requires Valid()
      modifies this
      ensures Valid()
      ensures State() == AfterSet(limits, old(State()), key, response, now)
    {
      if |entries| >= limits.maxEntries {
        var lruKey := FindVictim(key);
        entries := Delete(entries, lruKey);
      }
      PutKeepsDistinct(entries, Entry(key, response, now, 0));
      entries := Put(entries, Entry(key, response, now, 0));
    }

    method Clear()
      modifies this
      requires Valid()
      ensures Valid() && State() == EMPTY
    {
      entries, hits, misses := [], 0, 0;
    }

    method CollectExpired(now: int) returns (keysToDelete: seq<string>)
      requires Valid()
      ensures forall e :: e in entries ==> (e.key in keysToDelete <==> Expired(limits, e.createdAt, now))
      // Those set more than so many seconds ago.
      ensures forall e :: e in entries ==> (e.key in keysToDelete <==>
                limits.ttlSeconds.Some? && now - e.createdAt > 1000 * limits.ttlSeconds.value)
    {
      keysToDelete := [];
      for i := 0 to |entries|
        invariant forall k :: k in keysToDelete ==> exists j :: 0 <= j < i && entries[j].key == k
        invariant forall j :: 0 <= j < i ==>
                  (entries[j].key in keysToDelete <==> Expired(limits, entries[j].createdAt, now))
      {
        if Expired(limits, entries[i].createdAt, now) {
          keysToDelete := keysToDelete + [entries[i].key];
        }
      }
    }

    /** Deletes the collected keys one after the other. */
    method DeleteAll(keys: seq<string>)
      requires Valid()
      modifies this`entries
      ensures Valid()
      ensures entries == WithoutKeys(old(entries), KeysIn(keys))
    {
      NoKeysDeleted(entries);
      assert KeysIn(keys[..0]) == {};
      for i := 0 to |keys|
        invariant Valid() && entries == WithoutKeys(old(entries), KeysIn(keys[..i]))
      {
        DeleteOneMore(old(entries), KeysIn(keys[..i]), keys[i]);
        DeleteKeepsDistinct(entries, keys[i]);
        KeysInMore(keys, i);
        entries := Delete(entries, keys[i]);
      }
      assert keys[..|keys|] == keys;
    }

    method CleanupExpired(now: int)
      requires Valid()
      modifies this`entries
      ensures Valid()
      ensures State() == AfterCleanup(limits, old(State()), now)
      // What stays are the entries set at most so many seconds ago.
      ensures forall e :: e in entries <==>
                e in old(entries) && (limits.ttlSeconds.None? || now - e.createdAt <= 1000 * limits.ttlSeconds.value)
    {
      FreshAreYoung(limits, entries, now);
      var keysToDelete := CollectExpired(now);
      FreshIsWithout(limits, entries, now, KeysIn(keysToDelete));
      DeleteAll(keysToDelete);
    }
  }

  lemma PutKeepsDistinct(entries: seq<Entry>, e: Entry)
    requires KeysDistinct(entries)
    ensures KeysDistinct(Put(entries, e))
  {
  }

  lemma DeleteKeepsDistinct(entries: seq<Entry>, key: string)
    requires KeysDistinct(entries)
    ensures KeysDistinct(Delete(entries, key)) && |Delete(entries, key)| <= |entries|
  {
  }
}
