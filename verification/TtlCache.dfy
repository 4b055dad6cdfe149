/** `app/core/cache.py`: a bounded cache, measured against an unbounded one. */
module TtlCache {
  // Entries expire, and the least recently used are evicted. The store is an ordered dict, least
  // recently used first; the unbounded map it is measured against remembers everything.

  const MAX_ENTRIES := 256

  datatype Option<+T> = None | Some(value: T)

  datatype Entry<V> = Entry(key: string, expires: real, value: V) {
    predicate Live(now: real) { now < expires }
  }

  function Filter<V(!new)>(s: seq<Entry<V>>, keep: Entry<V> -> bool): (r: seq<Entry<V>>)
    ensures |r| <= |s|
    ensures forall e :: e in r <==> e in s && keep(e)
  {
    if s == [] then []
    else (if keep(s[0]) then [s[0]] else []) + Filter(s[1..], keep)
  }

  /** `del store[key]`, if it is there. */
  function Drop<V(!new)>(s: seq<Entry<V>>, key: string): seq<Entry<V>> {
    Filter(s, (e: Entry<V>) => e.key != key)
  }

  function Reap<V(!new)>(s: seq<Entry<V>>, now: real): seq<Entry<V>> {
    Filter(s, (e: Entry<V>) => e.Live(now))
  }

  function DropAll<V(!new)>(s: seq<Entry<V>>, keys: seq<string>): seq<Entry<V>> {
    Filter(s, (e: Entry<V>) => e.key !in keys)
  }

  predicate DistinctKeys<V(!new)>(s: seq<Entry<V>>) {
    forall i, j | 0 <= i < j < |s| :: s[i].key != s[j].key
  }

  ghost predicate ValidStore<V(!new)>(s: seq<Entry<V>>) {
    DistinctKeys(s) && |s| <= MAX_ENTRIES
  }

  /** `store.get(key)`. */
  function Find<V(!new)>(s: seq<Entry<V>>, key: string): (r: Option<Entry<V>>)
    ensures r.Some? ==> r.value in s && r.value.key == key
    ensures r.None? ==> forall e | e in s :: e.key != key
  {
    if s == [] then None
    else if s[0].key == key then Some(s[0])
    else Find(s[1..], key)
  }

  function Lookup<V(!new)>(s: seq<Entry<V>>, key: string, now: real): Option<V> {
    var entry := Find(s, key);
    if entry.Some? && entry.value.Live(now) then Some(entry.value.value) else None
  }

  function AfterGet<V(!new)>(s: seq<Entry<V>>, key: string, now: real): seq<Entry<V>> {
    var entry := Find(s, key);
    if entry.None? then s
    else if entry.value.Live(now) then Drop(s, key) + [entry.value]
    else Drop(s, key)
  }

  function Newest<V(!new)>(s: seq<Entry<V>>): seq<Entry<V>> {
    if |s| > MAX_ENTRIES then s[|s| - MAX_ENTRIES..] else s
  }

  function AfterSet<V(!new)>(s: seq<Entry<V>>, e: Entry<V>, now: real): seq<Entry<V>> {
    Newest(Drop(Reap(s, now), e.key) + [e])
  }

  class Cache<V(!new)> {
    var store: seq<Entry<V>>

    ghost predicate Valid() reads this { ValidStore(store) }

    constructor ()
      ensures Valid() && store == []
    {
      store := [];
    }

    method Get(key: string, now: real) returns (r: Option<V>)
      requires Valid()
      modifies this
      ensures Valid()
      ensures r == Lookup(old(store), key, now)
      ensures store == AfterGet(old(store), key, now)
    {
      AfterGetValid(store, key, now);
      var entry := Find(store, key);
      if entry.None? {
        return None;
      }
      if now >= entry.value.expires {
        store := Drop(store, key);
        return None;
      }
      store := Drop(store, key) + [entry.value];
      return Some(entry.value.value);
    }

    method Set(key: string, value: V, ttl: real, now: real)
      requires Valid()
      modifies this
      ensures Valid()
      ensures store == AfterSet(old(store), Entry(key, now + ttl, value), now)
    {
      var stale: seq<string> := [];
      for n := 0 to |store|
        invariant store == old(store)
        invariant forall k :: k in stale <==> exists i :: 0 <= i < n && !store[i].Live(now) && store[i].key == k
      {
        if now >= store[n].expires {
          stale := stale + [store[n].key];
        }
      }
      DropNothing(store);
      for n := 0 to |stale|
        invariant store == DropAll(old(store), stale[..n])
      {
        assert stale[..n + 1] == stale[..n] + [stale[n]];
        DropOneMore(old(store), stale[..n], stale[n]);
        store := Drop(store, stale[n]);
      }
      assert stale[..|stale|] == stale;
      assert store == Reap(old(store), now) by {
        SameChoice(old(store), (e: Entry<V>) => e.key !in stale, (e: Entry<V>) => e.Live(now));
      }
      store := Drop(store, key) + [Entry(key, now + ttl, value)];
      AfterSetValid(old(store), Entry(key, now + ttl, value), now);
      ghost var full := store;
      while |store| > MAX_ENTRIES
        invariant |store| <= |full| && store == full[|full| - |store|..]
        invariant |full| > MAX_ENTRIES ==> |store| >= MAX_ENTRIES
        invariant |full| <= MAX_ENTRIES ==> store == full
      {
        store := store[1..];
      }
    }

    method Clear()
      modifies this
      ensures Valid() && store == []
    {
      store := [];
    }
  }

  // ----- filters

  lemma {:induction false} SameChoice<V(!new)>(s: seq<Entry<V>>, p: Entry<V> -> bool, q: Entry<V> -> bool)
    requires forall e | e in s :: p(e) == q(e)
    ensures Filter(s, p) == Filter(s, q)
  {
    if s != [] {
      SameChoice(s[1..], p, q);
    }
  }

  lemma {:induction false} FilterTwice<V(!new)>(s: seq<Entry<V>>, p: Entry<V> -> bool, q: Entry<V> -> bool)
    ensures Filter(Filter(s, p), q) == Filter(s, (e: Entry<V>) => p(e) && q(e))
  {
    if s != [] {
      FilterTwice(s[1..], p, q);
      var rest := Filter(s[1..], p);
      if p(s[0]) {
        assert ([s[0]] + rest)[1..] == rest;
      } else {
        assert Filter(s, p) == rest;
      }
    }
  }

  lemma DropNothing<V(!new)>(s: seq<Entry<V>>)
    ensures DropAll(s, []) == s
  {
    KeepAll(s, (e: Entry<V>) => e.key !in []);
  }

  lemma {:induction false} KeepAll<V(!new)>(s: seq<Entry<V>>, p: Entry<V> -> bool)
    requires forall e | e in s :: p(e)
    ensures Filter(s, p) == s
  {
    if s != [] {
      KeepAll(s[1..], p);
    }
  }

  lemma DropOneMore<V(!new)>(s: seq<Entry<V>>, keys: seq<string>, key: string)
    ensures Drop(DropAll(s, keys), key) == DropAll(s, keys + [key])
  {
    var p, q := (e: Entry<V>) => e.key !in keys, (e: Entry<V>) => e.key != key;
    FilterTwice(s, p, q);
    SameChoice(s, (e: Entry<V>) => p(e) && q(e), (e: Entry<V>) => e.key !in keys + [key]);
  }

  lemma {:induction false} FilterDistinct<V(!new)>(s: seq<Entry<V>>, p: Entry<V> -> bool)
    requires DistinctKeys(s)
    ensures DistinctKeys(Filter(s, p))
  {
    if s != [] {
      FilterDistinct(s[1..], p);
      var r := Filter(s[1..], p);
      forall e | e in r ensures e.key != s[0].key {
        assert e in s[1..];
      }
    }
  }

  lemma AppendDistinct<V(!new)>(s: seq<Entry<V>>, e: Entry<V>)
    requires DistinctKeys(s) && forall x | x in s :: x.key != e.key
    ensures DistinctKeys(s + [e])
  {
  }

  lemma {:induction false} FilterShorter<V(!new)>(s: seq<Entry<V>>, p: Entry<V> -> bool, e: Entry<V>)
    requires e in s && !p(e)
    ensures |Filter(s, p)| < |s|
  {
    if s[0] != e {
      FilterShorter(s[1..], p, e);
    }
  }

  lemma AfterGetValid<V(!new)>(s: seq<Entry<V>>, key: string, now: real)
    requires ValidStore(s)
    ensures ValidStore(AfterGet(s, key, now))
  {
    var p := (e: Entry<V>) => e.key != key;
    FilterDistinct(s, p);
    if Find(s, key).Some? {
      FilterShorter(s, p, Find(s, key).value);
      AppendDistinct(Drop(s, key), Find(s, key).value);
    }
  }

  lemma AfterSetValid<V(!new)>(s: seq<Entry<V>>, e: Entry<V>, now: real)
    requires DistinctKeys(s)
    ensures ValidStore(AfterSet(s, e, now)) && DistinctKeys(Drop(Reap(s, now), e.key) + [e])
  {
    FilterDistinct(s, (x: Entry<V>) => x.Live(now));
    FilterDistinct(Reap(s, now), (x: Entry<V>) => x.key != e.key);
    AppendDistinct(Drop(Reap(s, now), e.key), e);
  }

  // ----- runs, and the unbounded map they are measured against

  datatype Call<V> =
    | Get(key: string, at: real)
    | Set(key: string, value: V, ttl: real, at: real)
    | Clear(at: real)

  ghost predicate InOrder<V(!new)>(calls: seq<Call<V>>) {
    forall i, j | 0 <= i < j < |calls| :: calls[i].at <= calls[j].at
  }

  function Step<V(!new)>(s: seq<Entry<V>>, c: Call<V>): seq<Entry<V>> {
    match c
    case Get(key, at) => AfterGet(s, key, at)
    case Set(key, value, ttl, at) => AfterSet(s, Entry(key, at + ttl, value), at)
    case Clear(_) => []
  }

  function Run<V(!new)>(calls: seq<Call<V>>): seq<Entry<V>> {
    if calls == [] then [] else Step(Run(calls[..|calls| - 1]), calls[|calls| - 1])
  }

  function Remember<V(!new)>(m: map<string, Entry<V>>, c: Call<V>): map<string, Entry<V>> {
    match c
    case Get(_, _) => m
    case Set(key, value, ttl, at) => m[key := Entry(key, at + ttl, value)]
    case Clear(_) => map[]
  }

  /** The last entry set for each key since the last clear, kept for ever. */
  function Ideal<V(!new)>(calls: seq<Call<V>>): map<string, Entry<V>> {
    if calls == [] then map[] else Remember(Ideal(calls[..|calls| - 1]), calls[|calls| - 1])
  }

  /** A key is used when it is set, and when it is asked for and found. */
  function Use<V(!new)>(s: seq<Entry<V>>, since: set<string>, key: string, c: Call<V>): set<string> {
    match c
    case Clear(_) => {}
    case Get(used, at) =>
      if Lookup(s, used, at).None? then since else if used == key then {} else since + {used}
    case Set(used, _, _, _) => if used == key then {} else since + {used}
  }

  /** The other keys used since `key` was last used. */
  function Since<V(!new)>(calls: seq<Call<V>>, key: string): set<string> {
    if calls == [] then {}
    else Use(Run(calls[..|calls| - 1]), Since(calls[..|calls| - 1], key), key, calls[|calls| - 1])
  }

  lemma {:induction false} RunIsValid<V(!new)>(calls: seq<Call<V>>)
    ensures ValidStore(Run(calls))
  {
    if calls != [] {
      var s, c := Run(calls[..|calls| - 1]), calls[|calls| - 1];
      RunIsValid(calls[..|calls| - 1]);
      match c
      case Get(key, at) => AfterGetValid(s, key, at);
      case Set(key, value, ttl, at) => AfterSetValid(s, Entry(key, at + ttl, value), at);
      case Clear(_) =>
    }
  }

  lemma SetKeepsCurrent<V(!new)>(s: seq<Entry<V>>, ideal: map<string, Entry<V>>, e: Entry<V>, now: real)
    requires Current(s, ideal)
    ensures Current(AfterSet(s, e, now), ideal[e.key := e])
  {
    SetReaps(s, e, now);
  }

  /** Nothing in the store differs from the last value set for its key. */
  lemma {:induction false} StoreIsCurrent<V(!new)>(calls: seq<Call<V>>)
    ensures Current(Run(calls), Ideal(calls))
  {
    if calls != [] {
      var s, c := Run(calls[..|calls| - 1]), calls[|calls| - 1];
      StoreIsCurrent(calls[..|calls| - 1]);
      if c.Set? {
        SetKeepsCurrent(s, Ideal(calls[..|calls| - 1]), Entry(c.key, c.at + c.ttl, c.value), c.at);
      }
    }
  }

  /** A hit returns the last value set, before its expiry and not cleared since. */
  lemma HitIsCurrent<V(!new)>(calls: seq<Call<V>>, key: string, now: real)
    requires Lookup(Run(calls), key, now).Some?
    ensures key in Ideal(calls) && Ideal(calls)[key].Live(now)
    ensures Lookup(Run(calls), key, now) == Some(Ideal(calls)[key].value)
  {
    StoreIsCurrent(calls);
  }

  // ----- recency

  ghost function KeySet<V(!new)>(s: seq<Entry<V>>): (r: set<string>)
    ensures forall k :: k in r <==> exists e :: e in s && e.key == k
  {
    set e | e in s :: e.key
  }

  /** The keys that were used more recently than `key`, as far as the store remembers. */
  ghost function KeysAfter<V(!new)>(s: seq<Entry<V>>, key: string): set<string> {
    if s == [] then {}
    else if s[0].key == key then KeySet(s[1..])
    else KeysAfter(s[1..], key)
  }

  lemma {:induction false} KeysAfterFilter<V(!new)>(s: seq<Entry<V>>, p: Entry<V> -> bool, key: string,
                                                    newer: set<string>)
    requires forall e | e in s && (e.key == key || e.key in newer) :: p(e)
    ensures KeysAfter(Filter(s, p), key) <= KeysAfter(s, key)
    ensures newer <= KeysAfter(s, key) ==> newer <= KeysAfter(Filter(s, p), key)
  {
    if s != [] {
      var rest := Filter(s[1..], p);
      if p(s[0]) {
        assert Filter(s, p)[1..] == rest;
      } else {
        assert Filter(s, p) == rest;
      }
      if s[0].key == key {
        if newer <= KeySet(s[1..]) {
          forall j | j in newer ensures j in KeySet(rest) {
            var e :| e in s[1..] && e.key == j;
            assert e in rest;
          }
        }
      } else {
        KeysAfterFilter(s[1..], p, key, newer);
      }
    }
  }

  lemma {:induction false} KeysAfterAppend<V(!new)>(s: seq<Entry<V>>, e: Entry<V>, key: string)
    ensures key in KeySet(s) ==> KeysAfter(s + [e], key) == KeysAfter(s, key) + {e.key}
    ensures key !in KeySet(s) ==> KeysAfter(s + [e], key) == {}
  {
    if s == [] {
      assert (s + [e])[1..] == [];
    } else {
      assert (s + [e])[1..] == s[1..] + [e];
      KeysAfterAppend(s[1..], e, key);
      assert forall x :: x in s <==> x == s[0] || x in s[1..];
    }
  }

  lemma {:induction false} KeySetSize<V(!new)>(s: seq<Entry<V>>)
    requires DistinctKeys(s)
    ensures |KeySet(s)| == |s|
  {
    if s != [] {
      KeySetSize(s[1..]);
      assert KeySet(s) == KeySet(s[1..]) + {s[0].key};
      assert s[0].key !in KeySet(s[1..]);
    }
  }

  /** `key` is in the store, behind nothing but keys of `since`. */
  ghost predicate Recent<V(!new)>(s: seq<Entry<V>>, key: string, since: set<string>) {
    key in KeySet(s) && KeysAfter(s, key) <= since
  }

  /** If `key` is in the store at all, it is in front of all of `newer`. */
  ghost predicate Older<V(!new)>(s: seq<Entry<V>>, key: string, newer: set<string>) {
    key in KeySet(s) ==> newer <= KeysAfter(s, key)
  }

  lemma FilterKeepsRecency<V(!new)>(s: seq<Entry<V>>, p: Entry<V> -> bool, key: string, since: set<string>,
                                    newer: set<string>)
    requires forall e | e in s && (e.key == key || e.key in newer) :: p(e)
    ensures Recent(s, key, since) ==> Recent(Filter(s, p), key, since)
    ensures Older(s, key, newer) ==> Older(Filter(s, p), key, newer)
  {
    KeysAfterFilter(s, p, key, newer);
    if key in KeySet(s) {
      var e :| e in s && e.key == key;
      assert e in Filter(s, p);
    }
  }

  lemma FilterDropsKey<V(!new)>(s: seq<Entry<V>>, p: Entry<V> -> bool, key: string)
    requires forall e | e in s && e.key == key :: !p(e)
    ensures key !in KeySet(Filter(s, p))
  {
  }

  lemma AppendKeepsRecency<V(!new)>(s: seq<Entry<V>>, e: Entry<V>, key: string, since: set<string>, newer: set<string>)
    requires key != e.key
    ensures Recent(s, key, since) ==> Recent(s + [e], key, since + {e.key})
    ensures Older(s, key, newer) ==> Older(s + [e], key, newer + {e.key})
  {
    KeysAfterAppend(s, e, key);
    assert forall x :: x in s + [e] <==> x in s || x == e;
  }

  lemma AppendedIsNewest<V(!new)>(s: seq<Entry<V>>, e: Entry<V>)
    requires e.key !in KeySet(s)
    ensures Recent(s + [e], e.key, {}) && Older(s + [e], e.key, {})
  {
    KeysAfterAppend(s, e, e.key);
    assert e in s + [e];
  }

  /** Eviction takes the one entry that at least MAX_ENTRIES others were used after. */
  lemma EvictionKeepsRecency<V(!new)>(s: seq<Entry<V>>, key: string, since: set<string>, newer: set<string>)
    requires DistinctKeys(s) && |s| <= MAX_ENTRIES + 1
    ensures Recent(s, key, since) && |since| < MAX_ENTRIES ==> Recent(Newest(s), key, since)
    ensures Older(s, key, newer) ==> Older(Newest(s), key, newer)
  {
    if |s| > MAX_ENTRIES {
      assert Newest(s) == s[1..];
      assert forall e :: e in s <==> e == s[0] || e in s[1..];
      if s[0].key == key {
        KeySetSize(s[1..]);
        if Recent(s, key, since) {
          SubsetSize(KeySet(s[1..]), since);
        }
      }
    }
  }

  lemma {:induction false} SubsetSize<T>(a: set<T>, b: set<T>)
    requires a <= b
    ensures |a| <= |b|
  {
    assert b == a + (b - a);
  }

  function LiveKeys<V(!new)>(ideal: map<string, Entry<V>>, keys: set<string>, now: real): set<string> {
    set k | k in keys && k in ideal && ideal[k].Live(now)
  }

  /**
   * What every run keeps, for every key: a live key with fewer than MAX_ENTRIES others used since is
   * in the store, and a key in the store is in front of every live key used since.
   */
  ghost predicate Ranked<V(!new)>(s: seq<Entry<V>>, ideal: map<string, Entry<V>>, since: set<string>, key: string,
                                  now: real) {
    && (key in ideal && ideal[key].Live(now) && |since| < MAX_ENTRIES ==> Recent(s, key, since))
    && Older(s, key, LiveKeys(ideal, since, now))
  }

  ghost predicate Current<V(!new)>(s: seq<Entry<V>>, ideal: map<string, Entry<V>>) {
    forall e | e in s :: e.key in ideal && ideal[e.key] == e
  }

  /** A write of another key, seen by a key that is live and by one that is about to be reaped. */
  lemma SetRecency<V(!new)>(s: seq<Entry<V>>, e: Entry<V>, now: real, key: string, since: set<string>,
                            newer: set<string>)
    requires ValidStore(s) && key != e.key && e.key !in newer
    requires forall x | x in s && x.key in newer :: x.Live(now)
    ensures (forall x | x in s && x.key == key :: x.Live(now))
            && Recent(s, key, since) && |since + {e.key}| < MAX_ENTRIES
            ==> Recent(AfterSet(s, e, now), key, since + {e.key})
    ensures Older(s, key, newer) ==> Older(AfterSet(s, e, now), key, newer + {e.key})
  {
    var live, other := (x: Entry<V>) => x.Live(now), (x: Entry<V>) => x.key != e.key;
    var reaped := Reap(s, now);
    var rest := Drop(reaped, e.key);
    AfterSetValid(s, e, now);
    if x :| x in s && x.key == key && !x.Live(now) {
      UniqueKey(s, x);
      FilterDropsKey(s, live, key);
      SetReaps(s, e, now);
    } else {
      FilterKeepsRecency(s, live, key, since, newer);
      FilterKeepsRecency(reaped, other, key, since, newer);
      AppendKeepsRecency(rest, e, key, since, newer);
      EvictionKeepsRecency(rest + [e], key, since + {e.key}, newer + {e.key});
    }
  }

  lemma UniqueKey<V(!new)>(s: seq<Entry<V>>, e: Entry<V>)
    requires DistinctKeys(s) && e in s
    ensures forall x | x in s && x.key == e.key :: x == e
  {
  }

  lemma OwnSetRanks<V(!new)>(s: seq<Entry<V>>, e: Entry<V>, now: real, s': seq<Entry<V>>,
                             ideal: map<string, Entry<V>>, since: set<string>)
    requires ValidStore(s) && s' == AfterSet(s, e, now) && since == {}
    ensures Ranked(s', ideal, since, e.key, now)
  {
    assert LiveKeys(ideal, {}, now) == {};
    var rest := Drop(Reap(s, now), e.key);
    AfterSetValid(s, e, now);
    AppendedIsNewest(rest, e);
    EvictionKeepsRecency(rest + [e], e.key, {}, {});
  }

  lemma OtherSetRanks<V(!new)>(s: seq<Entry<V>>, ideal: map<string, Entry<V>>, since: set<string>, key: string,
                               e: Entry<V>, now: real,
                               s': seq<Entry<V>>, ideal': map<string, Entry<V>>, since': set<string>)
    requires ValidStore(s) && Current(s, ideal) && Ranked(s, ideal, since, key, now) && key != e.key
    requires s' == AfterSet(s, e, now) && ideal' == ideal[e.key := e] && since' == since + {e.key}
    ensures Ranked(s', ideal', since', key, now)
  {
    var newer := LiveKeys(ideal, since, now) - {e.key};
    SetRecency(s, e, now, key, since, newer);
    SubsetSize(since, since');
    assert LiveKeys(ideal', since', now) <= newer + {e.key};
  }

  lemma SetKeepsRank<V(!new)>(s: seq<Entry<V>>, ideal: map<string, Entry<V>>, since: set<string>, key: string,
                              c: Call<V>)
    requires c.Set? && ValidStore(s) && Current(s, ideal) && Ranked(s, ideal, since, key, c.at)
    ensures Ranked(Step(s, c), Remember(ideal, c), Use(s, since, key, c), key, c.at)
  {
    var e := Entry(c.key, c.at + c.ttl, c.value);
    if key == c.key {
      OwnSetRanks(s, e, c.at, Step(s, c), Remember(ideal, c), Use(s, since, key, c));
    } else {
      OtherSetRanks(s, ideal, since, key, e, c.at, Step(s, c), Remember(ideal, c), Use(s, since, key, c));
    }
  }

  /** A hit on another key. */
  lemma HitRecency<V(!new)>(s: seq<Entry<V>>, e: Entry<V>, key: string, since: set<string>, newer: set<string>)
    requires key != e.key && e.key !in newer
    ensures Recent(s, key, since) ==> Recent(Drop(s, e.key) + [e], key, since + {e.key})
    ensures Older(s, key, newer) ==> Older(Drop(s, e.key) + [e], key, newer + {e.key})
  {
    FilterKeepsRecency(s, (x: Entry<V>) => x.key != e.key, key, since, newer);
    AppendKeepsRecency(Drop(s, e.key), e, key, since, newer);
  }

  lemma ExpiredRecency<V(!new)>(s: seq<Entry<V>>, gone: string, key: string, since: set<string>, newer: set<string>)
    requires gone !in newer
    ensures key != gone && Recent(s, key, since) ==> Recent(Drop(s, gone), key, since)
    ensures Older(s, key, newer) ==> Older(Drop(s, gone), key, newer)
  {
    if key == gone {
      FilterDropsKey(s, (x: Entry<V>) => x.key != gone, key);
    } else {
      FilterKeepsRecency(s, (x: Entry<V>) => x.key != gone, key, since, newer);
    }
  }

  lemma GetKeepsRank<V(!new)>(s: seq<Entry<V>>, ideal: map<string, Entry<V>>, since: set<string>, key: string,
                              c: Call<V>)
    requires c.Get? && Current(s, ideal) && Ranked(s, ideal, since, key, c.at)
    ensures Ranked(Step(s, c), ideal, Use(s, since, key, c), key, c.at)
  {
    var used, now := c.key, c.at;
    var entry := Find(s, used);
    if entry.Some? {
      var newer := LiveKeys(ideal, since, now) - {used};
      if !entry.value.Live(now) {
        assert LiveKeys(ideal, since, now) == newer;
        ExpiredRecency(s, used, key, since, newer);
      } else if key == used {
        AppendedIsNewest(Drop(s, used), entry.value);
      } else {
        HitRecency(s, entry.value, key, since, newer);
        SubsetSize(since, since + {used});
        assert LiveKeys(ideal, since + {used}, now) <= newer + {used};
      }
    }
  }

  lemma RankLater<V(!new)>(s: seq<Entry<V>>, ideal: map<string, Entry<V>>, since: set<string>, key: string, t: real,
                           now: real)
    requires Ranked(s, ideal, since, key, t) && t <= now
    ensures Ranked(s, ideal, since, key, now)
  {
    assert LiveKeys(ideal, since, now) <= LiveKeys(ideal, since, t);
  }

  lemma CallKeepsRank<V(!new)>(s: seq<Entry<V>>, ideal: map<string, Entry<V>>, since: set<string>, key: string,
                               c: Call<V>)
    requires ValidStore(s) && Current(s, ideal) && Ranked(s, ideal, since, key, c.at)
    ensures Ranked(Step(s, c), Remember(ideal, c), Use(s, since, key, c), key, c.at)
  {
    if c.Get? {
      GetKeepsRank(s, ideal, since, key, c);
    } else if c.Set? {
      SetKeepsRank(s, ideal, since, key, c);
    }
  }

  lemma {:induction false} RunKeepsRank<V(!new)>(calls: seq<Call<V>>, key: string, now: real)
    requires InOrder(calls) && (calls != [] ==> calls[|calls| - 1].at <= now)
    ensures Ranked(Run(calls), Ideal(calls), Since(calls, key), key, now)
  {
    if calls != [] {
      var before, c := calls[..|calls| - 1], calls[|calls| - 1];
      RunKeepsRank(before, key, c.at);
      StoreIsCurrent(before);
      RunIsValid(before);
      CallKeepsRank(Run(before), Ideal(before), Since(before, key), key, c);
      RankLater(Run(calls), Ideal(calls), Since(calls, key), key, c.at, now);
    }
  }

  /** An unexpired key is a hit as long as fewer than 256 distinct other keys were used since. */
  lemma LiveKeyHits<V(!new)>(calls: seq<Call<V>>, key: string, now: real)
    requires InOrder(calls) && (calls != [] ==> calls[|calls| - 1].at <= now)
    requires key in Ideal(calls) && Ideal(calls)[key].Live(now) && |Since(calls, key)| < 256
    ensures Lookup(Run(calls), key, now) == Some(Ideal(calls)[key].value)
  {
    RunKeepsRank(calls, key, now);
    StoreIsCurrent(calls);
  }

  /** A hit leaves room: fewer than 256 of the keys used since can still be live. */
  lemma HitLeavesRoom<V(!new)>(calls: seq<Call<V>>, key: string, now: real)
    requires InOrder(calls) && (calls != [] ==> calls[|calls| - 1].at <= now)
    requires Lookup(Run(calls), key, now).Some?
    ensures |LiveKeys(Ideal(calls), Since(calls, key), now)| < 256
  {
    var s := Run(calls);
    RunKeepsRank(calls, key, now);
    RunIsValid(calls);
    KeySetSize(s);
    SubsetSize(LiveKeys(Ideal(calls), Since(calls, key), now), KeysAfter(s, key));
    KeysAfterFewer(s, key);
  }

  lemma {:induction false} KeysAfterFewer<V(!new)>(s: seq<Entry<V>>, key: string)
    requires DistinctKeys(s) && key in KeySet(s)
    ensures |KeysAfter(s, key)| < |s|
  {
    if s[0].key == key {
      KeySetSize(s[1..]);
    } else {
      KeysAfterFewer(s[1..], key);
    }
  }

  /**
   * When exactly the bounded cache misses what the unbounded one remembers. As long as the keys used
   * since are themselves unexpired: when there are 256 or more of them, and not before.
   */
  lemma HitExactlyWhen<V(!new)>(calls: seq<Call<V>>, key: string, now: real)
    requires InOrder(calls) && (calls != [] ==> calls[|calls| - 1].at <= now)
    requires key in Ideal(calls) && Ideal(calls)[key].Live(now)
    requires forall j | j in Since(calls, key) :: j in Ideal(calls) && Ideal(calls)[j].Live(now)
    ensures Lookup(Run(calls), key, now).Some? <==> |Since(calls, key)| < 256
  {
    if |Since(calls, key)| < 256 {
      LiveKeyHits(calls, key, now);
    }
    if Lookup(Run(calls), key, now).Some? {
      HitLeavesRoom(calls, key, now);
      assert LiveKeys(Ideal(calls), Since(calls, key), now) == Since(calls, key);
    }
  }

  /** Asking takes the key out when it has expired, and leaves every other entry, and the value of this one, alone. */
  lemma GetTakesExpired<V(!new)>(calls: seq<Call<V>>, key: string, now: real, e: Entry<V>)
    ensures var (before, after) := (Run(calls), Run(calls + [Get(key, now)]));
            e in after <==> e in before && (e.key == key ==> now < e.expires)
  {
    var s := Run(calls);
    assert (calls + [Get(key, now)])[..|calls|] == calls;
    RunIsValid(calls);
    if e in s && e.key == key {
      UniqueKey(s, e);
    }
    if Find(s, key).Some? {
      assert Find(s, key).value in s;
    }
  }

  /** A write never leaves an expired entry of an earlier call behind. */
  lemma SetReaps<V(!new)>(s: seq<Entry<V>>, e: Entry<V>, now: real)
    ensures forall x | x in AfterSet(s, e, now) :: x == e || (x in s && now < x.expires && x.key != e.key)
    ensures e in AfterSet(s, e, now)
  {
    var all := Drop(Reap(s, now), e.key) + [e];
    assert all[|all| - 1] == e;
    forall x | x in Newest(all) ensures x in all {
    }
    assert Newest(all)[|Newest(all)| - 1] == e;
  }
}
