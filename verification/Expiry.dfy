/** mesi/cache_memory.go: how long an entry of the cache lives, in numbers and over all histories. */
module Expiry {
  import opened Options
  import opened Sets
  import opened MemoryCache

  /** The time to live in force: the given one, or the default if that is 0. */
  function Ttl(l: Limits, ttl: int): int {
    if ttl == 0 then l.defaultTTL else ttl
  }

  /** Whether a value set at `at` with `t` to live is still good at `now`; it always is if `t` is not positive. */
  predicate Good(t: int, at: int, now: int) {
    t <= 0 || now <= at + t
  }

  /** Nothing but lookups is done to `key`. */
  predicate OnlyLookups(ops: seq<Op>, key: string) {
    forall i :: 0 <= i < |ops| && ops[i].key == key ==> ops[i].Get?
  }

  /** Every lookup of `key` comes while a value set at `at` is good. */
  predicate LookedUpInTime(ops: seq<Op>, key: string, t: int, at: int) {
    forall i :: 0 <= i < |ops| && ops[i].Get? && ops[i].key == key ==> Good(t, at, ops[i].now)
  }

  /** The keys besides `key` that are looked up or set. */
  function OtherKeys(ops: seq<Op>, key: string): set<string> {
    if ops == [] then {}
    else (if ops[0].Delete? || ops[0].key == key then {} else {ops[0].key}) + OtherKeys(ops[1..], key)
  }

  /** If `key` is in the cache, its entry holds `value` and is good until `at + t`. */
  ghost predicate Holds(c: CacheState, key: string, value: string, t: int, at: int) {
    key in c.items ==>
      && c.items[key].value == value
      && forall now :: Expired(c.items[key], now) <==> !Good(t, at, now)
  }

  lemma SetHolds(l: Limits, c: CacheState, key: string, value: string, ttl: int, at: int)
    ensures key in Apply(l, c, Set(key, value, ttl, at)).items
    ensures Holds(Apply(l, c, Set(key, value, ttl, at)), key, value, Ttl(l, ttl), at)
  {
  }

  lemma LookupKeeps(l: Limits, c: CacheState, op: Op, key: string, value: string, t: int, at: int)
    requires Holds(c, key, value, t, at) && (op.key == key ==> op.Get?)
    ensures Holds(Apply(l, c, op), key, value, t, at)
    ensures key !in c.items ==> key !in Apply(l, c, op).items
    ensures op.key == key && key in Apply(l, c, op).items ==> Good(t, at, op.now)
  {
    hide Good, Without;
  }

  lemma {:induction false} LookupsKeep(
    l: Limits, c: CacheState, ops: seq<Op>, key: string, value: string, t: int, at: int)
    requires Holds(c, key, value, t, at) && OnlyLookups(ops, key)
    ensures Holds(Run(l, c, ops), key, value, t, at)
    ensures key in Run(l, c, ops).items ==> key in c.items && LookedUpInTime(ops, key, t, at)
    decreases |ops|
  {
    hide Holds, Apply, Good;
    if ops != [] {
      LookupKeeps(l, c, ops[0], key, value, t, at);
      RestOnly(ops, key);
      LookupsKeep(l, Apply(l, c, ops[0]), ops[1..], key, value, t, at);
    }
  }

  lemma RestOnly(ops: seq<Op>, key: string)
    requires ops != [] && OnlyLookups(ops, key)
    ensures OnlyLookups(ops[1..], key)
  {
  }

  /** After a Set of a key and operations that leave it in place, a lookup hits exactly as long as the time to live
      says, and takes the entry out of the cache if it comes later. */
  lemma {:induction false} HitsExactlyInTime(
    l: Limits, before: seq<Op>, key: string, value: string, ttl: int, at: int, since: seq<Op>, now: int)
    requires OnlyLookups(since, key)
    requires key in Run(l, Apply(l, Run(l, EMPTY, before), Set(key, value, ttl, at)), since).items
    ensures
      var last := Run(l, Apply(l, Run(l, EMPTY, before), Set(key, value, ttl, at)), since);
      var t := if ttl == 0 then l.defaultTTL else ttl;
      && Found(last, key, now) == (if t <= 0 || now <= at + t then Some(value) else None)
      && (key in AfterGet(last, key, now).items <==> t <= 0 || now <= at + t)
      && (forall k :: k != key ==> (k in AfterGet(last, key, now).items <==> k in last.items))
  {
    hide Run, Apply, Without;
    var c := Run(l, EMPTY, before);
    SetHolds(l, c, key, value, ttl, at);
    LookupsKeep(l, Apply(l, c, Set(key, value, ttl, at)), since, key, value, Ttl(l, ttl), at);
  }

  // ---- Without knowing what is in the cache ----

  lemma {:induction false} InTimeIsUndisturbed(
    l: Limits, c: CacheState, ops: seq<Op>, key: string, value: string, t: int, at: int)
    requires Holds(c, key, value, t, at) && OnlyLookups(ops, key) && LookedUpInTime(ops, key, t, at)
    ensures Undisturbed(l, c, ops, key)
    decreases |ops|
  {
    hide Apply, Good;
    if ops != [] {
      LookupKeeps(l, c, ops[0], key, value, t, at);
      assert OnlyLookups(ops[1..], key) && LookedUpInTime(ops[1..], key, t, at);
      InTimeIsUndisturbed(l, Apply(l, c, ops[0]), ops[1..], key, value, t, at);
    }
  }

  lemma {:induction false} TouchedAreOthers(l: Limits, c: CacheState, ops: seq<Op>, key: string)
    ensures TouchedIn(l, c, ops) - {key} <= OtherKeys(ops, key)
    decreases |ops|
  {
    hide Apply;
    if ops != [] { TouchedAreOthers(l, Apply(l, c, ops[0]), ops[1..], key); }
  }

  /** After any history and a Set of a key, if then fewer than maxSize other keys are looked up or set (any number
      without a limit) and nothing but lookups is done to this one: a lookup hits exactly if the time to live, where
      there is one, has passed neither now nor at any of those lookups, and it returns the value that was set. */
  lemma {:induction false} SetIsFoundExactlyInTime(
    l: Limits, before: seq<Op>, key: string, value: string, ttl: int, at: int, since: seq<Op>, now: int)
    requires OnlyLookups(since, key) && (l.maxSize <= 0 || |OtherKeys(since, key)| < l.maxSize)
    ensures
      var last := Run(l, Apply(l, Run(l, EMPTY, before), Set(key, value, ttl, at)), since);
      var t := if ttl == 0 then l.defaultTTL else ttl;
      Found(last, key, now)
      == if t <= 0 || (now <= at + t && forall i :: 0 <= i < |since| && since[i].key == key ==> since[i].now <= at + t)
         then Some(value) else None
  {
    hide Run, Apply, Undisturbed, TouchedIn, OtherKeys, Holds;
    var c, op, t := Run(l, EMPTY, before), Set(key, value, ttl, at), Ttl(l, ttl);
    var next := Apply(l, c, op);
    assert LookedUpInTime(since, key, t, at) <==>
           t <= 0 || forall i :: 0 <= i < |since| && since[i].key == key ==> since[i].now <= at + t;
    SetHolds(l, c, key, value, ttl, at);
    LookupsKeep(l, next, since, key, value, t, at);
    if key in Run(l, next, since).items { HitsExactlyInTime(l, before, key, value, ttl, at, since, now); }
    if LookedUpInTime(since, key, t, at) {
      InTimeIsUndisturbed(l, next, since, key, value, t, at);
      TouchedAreOthers(l, next, since, key);
      if l.maxSize > 0 { SubsetSize(TouchedIn(l, next, since) - {key}, OtherKeys(since, key)); }
      RecentlyUsedStays(l, before, op, since);
    }
  }
}
