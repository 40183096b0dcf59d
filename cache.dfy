/** The in-memory caches of performance/cache.py: `TTLCache` (a value
    dictionary and an expiry dictionary updated together), `BalancesCache`
    (snapshots without expiry) and the two module-level instances with
    `invalidate_on_balance_change`. `time.time()` is the parameter `now`;
    the asyncio locks only serialise the operations, which are atomic here. */
module Caching {
  import opened Common

  // ---------------------------------------------------------------------------
  // TTLCache, as a value

  /** The two dictionaries of a `TTLCache`: `_store` and `_exp`. */
  datatype Ttl<V> = Ttl(store: map<string, V>, exp: map<string, real>)

  /** The invariant the class keeps: both dictionaries have the same keys. */
  predicate Aligned<V>(c: Ttl<V>) {
    c.store.Keys == c.exp.Keys
  }

  /** `_exp.get(key, 0)`. */
  function Expiry<V>(c: Ttl<V>, key: string): real {
    if key in c.exp then c.exp[key] else 0.0
  }

  /** The entry for `key` is present and not yet expired at `now`. */
  predicate Live<V>(c: Ttl<V>, key: string, now: real) {
    key in c.store && now < Expiry(c, key)
  }

  /** What `get(key)` returns at time `now`. */
  function Lookup<V>(c: Ttl<V>, key: string, now: real): Option<V> {
    if Live(c, key, now) then Some(c.store[key]) else None
  }

  /** What `get(key)` leaves behind: an expired entry is deleted from both
      dictionaries, anything else is left as it was. */
  function AfterLookup<V>(c: Ttl<V>, key: string, now: real): Ttl<V> {
    if key in c.store && !Live(c, key, now) then Remove(c, key) else c
  }

  /** `set(key, value)` at time `now` with time-to-live `ttl`. */
  function Put<V>(c: Ttl<V>, key: string, value: V, now: real, ttl: real): Ttl<V> {
    Ttl(c.store[key := value], c.exp[key := now + ttl])
  }

  /** `invalidate(key)`: `key` leaves both dictionaries. */
  function Remove<V>(c: Ttl<V>, key: string): Ttl<V> {
    Ttl(c.store - {key}, c.exp - {key})
  }

  /** The operations of a `TTLCache`, each with the time it runs at. */
  datatype Op<V> = Get(key: string, now: real) | Set(key: string, value: V, now: real)
                 | Invalidate(key: string) | Clear

  /** The state after one operation. */
  function Apply<V>(c: Ttl<V>, op: Op<V>, ttl: real): Ttl<V> {
    match op
    case Get(k, now) => AfterLookup(c, k, now)
    case Set(k, v, now) => Put(c, k, v, now, ttl)
    case Invalidate(k) => Remove(c, k)
    case Clear => Ttl(map[], map[])
  }

  /** The state after a sequence of operations, in order. */
  function ApplyAll<V>(c: Ttl<V>, ops: seq<Op<V>>, ttl: real): Ttl<V>
    decreases |ops|
  {
    if ops == [] then c else ApplyAll(Apply(c, ops[0], ttl), ops[1..], ttl)
  }

  /** Every operation keeps `_store` and `_exp` on the same key set. */
  lemma ApplyKeepsAligned<V>(c: Ttl<V>, op: Op<V>, ttl: real)
    requires Aligned(c)
    ensures Aligned(Apply(c, op, ttl))
  {
  }

  /** ... and so does every sequence of them, starting from the empty cache
      the constructor makes. */
  lemma {:induction false} AlwaysAligned<V>(ops: seq<Op<V>>, c: Ttl<V>, ttl: real)
    requires Aligned(c)
    ensures Aligned(ApplyAll(c, ops, ttl))
    decreases |ops|
  {
    if ops != [] {
      ApplyKeepsAligned(c, ops[0], ttl);
      AlwaysAligned(ops[1..], Apply(c, ops[0], ttl), ttl);
    }
  }

  /** A value set at time `t` is returned by a `get` at any time before
      `t + ttl`, and that `get` changes nothing. */
  lemma ReadBeforeExpiry<V>(c: Ttl<V>, key: string, value: V, t: real, ttl: real, now: real)
    requires now < t + ttl
    ensures var d := Put(c, key, value, t, ttl);
      Lookup(d, key, now) == Some(value) && AfterLookup(d, key, now) == d
  {
  }

  /** A `get` at or after the expiry returns nothing and deletes the key
      from both dictionaries; the other keys keep their entries. */
  lemma ExpiredIsDeleted<V>(c: Ttl<V>, key: string, now: real)
    requires key in c.store && now >= Expiry(c, key)
    ensures Lookup(c, key, now) == None
    ensures var d := AfterLookup(c, key, now);
      key !in d.store && key !in d.exp
      && (forall k :: k != key ==> (k in d.store <==> k in c.store) && (k in d.exp <==> k in c.exp))
      && (forall k :: k != key && k in c.store ==> d.store[k] == c.store[k])
      && (forall k :: k != key && k in c.exp ==> d.exp[k] == c.exp[k])
  {
  }

  /** `set` overwrites the value and resets the expiry of its own key and
      of no other. */
  lemma PutTouchesOnlyItsKey<V>(c: Ttl<V>, key: string, value: V, t: real, ttl: real)
    ensures var d := Put(c, key, value, t, ttl);
      && d.store[key] == value && d.exp[key] == t + ttl
      && d.store.Keys == c.store.Keys + {key} && d.exp.Keys == c.exp.Keys + {key}
      && (forall k :: k != key && k in c.store ==> d.store[k] == c.store[k])
      && (forall k :: k != key && k in c.exp ==> d.exp[k] == c.exp[k])
  {
  }

  /** `invalidate` removes only its key, does nothing when the key is
      absent, and a `get` of that key then returns nothing. */
  lemma RemoveTouchesOnlyItsKey<V>(c: Ttl<V>, key: string, now: real)
    ensures var d := Remove(c, key);
      && Lookup(d, key, now) == None
      && d.store.Keys == c.store.Keys - {key} && d.exp.Keys == c.exp.Keys - {key}
      && (forall k :: k != key && k in c.store ==> d.store[k] == c.store[k])
      && (forall k :: k != key && k in c.exp ==> d.exp[k] == c.exp[k])
    ensures key !in c.store && key !in c.exp ==> Remove(c, key) == c
  {
  }

  /** Operations that leave `key` alone: gets and sets of other keys, and
      invalidations of other keys. */
  predicate SparesKey<V>(op: Op<V>, key: string) {
    match op
    case Get(_, _) => true
    case Set(k, _, _) => k != key
    case Invalidate(k) => k != key
    case Clear => false
  }

  /** After `set(key, value)` at time `t`, any run of operations that spare
      `key` and happen before `t + ttl` leaves the entry in place, so a
      `get` of `key` before the expiry still returns `value`. */
  lemma {:induction false} StaysUntilExpiry<V>(c: Ttl<V>, key: string, value: V, t: real, ttl: real,
                                              ops: seq<Op<V>>, now: real)
    requires forall i :: 0 <= i < |ops| ==> SparesKey(ops[i], key)
    requires forall i :: 0 <= i < |ops| && ops[i].Get? ==> ops[i].now < t + ttl
    requires now < t + ttl
    ensures Lookup(ApplyAll(Put(c, key, value, t, ttl), ops, ttl), key, now) == Some(value)
  {
    StaysAcross(Put(c, key, value, t, ttl), key, value, t + ttl, ops, ttl);
  }

  lemma {:induction false} StaysAcross<V>(c: Ttl<V>, key: string, value: V, expiry: real,
                                         ops: seq<Op<V>>, ttl: real)
    requires key in c.store && c.store[key] == value && Expiry(c, key) == expiry
    requires forall i :: 0 <= i < |ops| ==> SparesKey(ops[i], key)
    requires forall i :: 0 <= i < |ops| && ops[i].Get? ==> ops[i].now < expiry
    ensures var d := ApplyAll(c, ops, ttl);
      key in d.store && d.store[key] == value && Expiry(d, key) == expiry
    decreases |ops|
  {
    if ops != [] {
      var c1 := Apply(c, ops[0], ttl);
      assert SparesKey(ops[0], key);
      assert key in c1.store && c1.store[key] == value && Expiry(c1, key) == expiry;
      forall i | 0 <= i < |ops[1..]|
        ensures SparesKey(ops[1..][i], key)
        ensures ops[1..][i].Get? ==> ops[1..][i].now < expiry
      {
        assert ops[1..][i] == ops[i + 1];
      }
      StaysAcross(c1, key, value, expiry, ops[1..], ttl);
    }
  }

  // ---------------------------------------------------------------------------
  // TTLCache, as an object

  class TTLCache<V> {
    const ttl: real
    var store: map<string, V>
    var exp: map<string, real>

    function Contents(): Ttl<V>
      reads this
    {
      Ttl(store, exp)
    }

    ghost predicate Valid()
      reads this
    {
      Aligned(Contents())
    }

    /** `TTLCache(ttl)`: both dictionaries start empty. */
    constructor (ttl: real)
      ensures this.ttl == ttl && Contents() == Ttl(map[], map[]) && Valid()
    {
      this.ttl := ttl;
      store := map[];
      exp := map[];
    }

    /** `get(key)` at time `now`. The `del self._exp[key]` cannot fail,
        because the two dictionaries share their keys. */
    method Get(key: string, now: real) returns (r: Option<V>)
      requires Valid()
      modifies this
      ensures Valid()
      ensures r == Lookup(old(Contents()), key, now)
      ensures Contents() == AfterLookup(old(Contents()), key, now)
    {
      if key in store {
        var expiry := if key in exp then exp[key] else 0.0;
        if now < expiry {
          return Some(store[key]);
        } else {
          assert key in exp;
          store := store - {key};
          exp := exp - {key};
        }
      }
      return None;
    }

    /** `set(key, value)` at time `now`. */
    method Set(key: string, value: V, now: real)
      modifies this
      ensures Contents() == Put(old(Contents()), key, value, now, ttl)
      ensures old(Valid()) ==> Valid()
    {
      store := store[key := value];
      exp := exp[key := now + ttl];
    }

    /** `invalidate(key)`: each dictionary loses `key` if it has it. */
    method Invalidate(key: string)
      modifies this
      ensures Contents() == Remove(old(Contents()), key)
      ensures old(Valid()) ==> Valid()
    {
      if key in store {
        store := store - {key};
      }
      if key in exp {
        exp := exp - {key};
      }
    }

    /** `clear()`: both dictionaries empty. */
    method Clear()
      modifies this
      ensures Contents() == Ttl(map[], map[]) && Valid()
    {
      store := map[];
      exp := map[];
    }
  }

  // ---------------------------------------------------------------------------
  // BalancesCache

  /** `{"balances": balances, "last_update": time}`. */
  datatype Snapshot<B> = Snapshot(balances: B, lastUpdate: real)

  /** A snapshot cache without expiry: an entry stays until it is
      invalidated, replaced or cleared. */
  class BalancesCache<B> {
    var store: map<string, Snapshot<B>>

    constructor ()
      ensures store == map[]
    {
      store := map[];
    }

    /** `get(account_id)`: `_store.get(account_id)`, whatever the time. */
    method Get(account: string) returns (r: Option<Snapshot<B>>)
      ensures r.Some? <==> account in store
      ensures r.Some? ==> r.value == store[account]
    {
      if account in store {
        r := Some(store[account]);
      } else {
        r := None;
      }
    }

    /** `set(account_id, balances)` at time `now`. */
    method Set(account: string, balances: B, now: real)
      modifies this
      ensures store == old(store)[account := Snapshot(balances, now)]
    {
      store := store[account := Snapshot(balances, now)];
    }

    /** `invalidate(account_id)`. */
    method Invalidate(account: string)
      modifies this
      ensures store == old(store) - {account}
    {
      if account in store {
        store := store - {account};
      }
    }

    method Clear()
      modifies this
      ensures store == map[]
    {
      store := map[];
    }
  }

  // ---------------------------------------------------------------------------
  // The module-level instances

  /** `price_cache` (time-to-live 7 seconds) and `balances_cache`. */
  const PriceTtl: real := 7.0

  class Caches<P, B> {
    const price: TTLCache<P>
    const balances: BalancesCache<B>

    constructor ()
      ensures fresh(price) && fresh(balances)
      ensures price.ttl == PriceTtl && price.Contents() == Ttl(map[], map[]) && price.Valid()
      ensures balances.store == map[]
    {
      price := new TTLCache(PriceTtl);
      balances := new BalancesCache();
    }

    /** `invalidate_on_balance_change(account_id)`: only that account leaves
        the balances cache; the price cache is untouched. */
    method InvalidateOnBalanceChange(account: string)
      modifies balances
      ensures balances.store == old(balances.store) - {account}
      ensures price.Contents() == old(price.Contents())
    {
      balances.Invalidate(account);
    }
  }
}
