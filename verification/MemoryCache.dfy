/** mesi/cache_memory.go: the LRU cache with expiring entries. */
module MemoryCache {
  import opened Options
  import opened Sets

  /** `expireAt` None stands for Go's zero time: the entry never expires. */
  datatype Entry = Entry(value: string, expireAt: Option<int>)

  /** The map, and the keys of the linked list from front (most recent) to back. */
  datatype CacheState = CacheState(items: map<string, Entry>, order: seq<string>)

  datatype Limits = Limits(maxSize: int, defaultTTL: int)

  predicate Expired(e: Entry, now: int) {
    e.expireAt.Some? && now > e.expireAt.value
  }

  function ExpiryFor(l: Limits, ttl: int, now: int): Option<int> {
    var t := if ttl == 0 then l.defaultTTL else ttl;
    if t > 0 then Some(now + t) else None
  }

  function Without(order: seq<string>, key: string): seq<string> {
    if order == [] then []
    else if order[0] == key then order[1..]
    else [order[0]] + Without(order[1..], key)
  }

  function ToFront(order: seq<string>, key: string): seq<string> {
    [key] + Without(order, key)
  }

  // ---- The operations as functions ----

  function AfterGet(c: CacheState, key: string, now: int): CacheState {
    if key !in c.items then c
    else if Expired(c.items[key], now) then AfterDelete(c, key)
    else c.(order := ToFront(c.order, key))
  }

  function Found(c: CacheState, key: string, now: int): Option<string> {
    if key in c.items && !Expired(c.items[key], now) then Some(c.items[key].value) else None
  }

  function AfterDelete(c: CacheState, key: string): CacheState {
    if key in c.items then CacheState(c.items - {key}, Without(c.order, key)) else c
  }

  function Evicted(c: CacheState): CacheState {
    if c.order == [] then c
    else CacheState(c.items - {c.order[|c.order| - 1]}, c.order[..|c.order| - 1])
  }

  function AfterSet(l: Limits, c: CacheState, key: string, value: string, ttl: int, now: int): CacheState {
    var e := Entry(value, ExpiryFor(l, ttl, now));
    if key in c.items then CacheState(c.items[key := e], ToFront(c.order, key))
    else
      var room := if l.maxSize > 0 && |c.order| >= l.maxSize then Evicted(c) else c;
      CacheState(room.items[key := e], [key] + room.order)
  }

  const EMPTY := CacheState(map[], [])

  // ---- The class ----

  class MemoryCache {
    var items: map<string, Entry>
    var lru: seq<string>
    const limits: Limits

    ghost function State(): CacheState
      reads this
    {
      CacheState(items, lru)
    }

    constructor (maxSize: int, defaultTTL: int)
      ensures State() == EMPTY && limits == Limits(maxSize, defaultTTL)
    {
      items, lru := map[], [];
      limits := Limits(maxSize, defaultTTL);
    }

    method Get(key: string, now: int) returns (value: string, ok: bool)
      modifies this
      ensures State() == AfterGet(old(State()), key, now)
      ensures (if ok then Some(value) else None) == Found(old(State()), key, now)
    {
      if key !in items {
        return "", false;
      }
      var entry := items[key];
      if entry.expireAt.Some? && now > entry.expireAt.value {
        RemoveEntry(key);
        return "", false;
      }
      lru := ToFront(lru, key);
      return entry.value, true;
    }

    method Set(key: string, value: string, ttl: int, now: int)
      modifies this
      ensures State() == AfterSet(limits, old(State()), key, value, ttl, now)
    {
      var ttl := if ttl == 0 then limits.defaultTTL else ttl;
      var expireAt := if ttl > 0 then Some(now + ttl) else None;
      if key in items {
        items := items[key := Entry(value, expireAt)];
        lru := ToFront(lru, key);
        return;
      }
      if limits.maxSize > 0 && |lru| >= limits.maxSize {
        EvictLRU();
      }
      lru := [key] + lru;
      items := items[key := Entry(value, expireAt)];
    }

    method Delete(key: string)
      modifies this
      ensures State() == AfterDelete(old(State()), key)
    {
      if key in items {
        RemoveEntry(key);
      }
    }

    method RemoveEntry(key: string)
      requires key in items
      modifies this
      ensures State() == AfterDelete(old(State()), key)
    {
      lru := Without(lru, key);
      items := items - {key};
    }

    method EvictLRU()
      modifies this
      ensures State() == Evicted(old(State()))
    {
      if |lru| == 0 {
        return;
      }
      var back := lru[|lru| - 1];
      items := items - {back};
      lru := lru[..|lru| - 1];
    }
  }

  // ---- Map and list agree ----

  /** The list holds the keys of the map once each, and a positive limit is kept. */
  ghost predicate Valid(l: Limits, c: CacheState) {
    && Distinct(c.order) && Members(c.order) == c.items.Keys
    && (l.maxSize > 0 ==> |c.order| <= l.maxSize)
  }

  lemma {:induction false} WithoutIsDistinct(order: seq<string>, key: string)
    requires Distinct(order)
    ensures Distinct(Without(order, key)) && Members(Without(order, key)) == Members(order) - {key}
    ensures |Without(order, key)| == |order| - if key in Members(order) then 1 else 0
  {
    if order != [] && order[0] != key {
      WithoutIsDistinct(order[1..], key);
      assert Without(order, key)[1..] == Without(order[1..], key);
    }
  }

  lemma {:induction false} PrefixIsDistinct(order: seq<string>)
    requires Distinct(order) && order != []
    ensures var last := order[|order| - 1];
            && last in Members(order)
            && Distinct(order[..|order| - 1]) && Members(order[..|order| - 1]) == Members(order) - {last}
  {
    var n := |order| - 1;
    if n > 0 {
      PrefixIsDistinct(order[1..]);
      assert order[..n][1..] == order[1..][..n - 1];
      assert order[1..][n - 1] == order[n];
    }
  }

  lemma ConsIsDistinct(order: seq<string>, key: string)
    requires Distinct(order) && key !in Members(order)
    ensures Distinct([key] + order) && Members([key] + order) == Members(order) + {key}
  {
    assert ([key] + order)[1..] == order;
  }

  datatype Op =
    | Get(key: string, now: int)
    | Set(key: string, value: string, ttl: int, now: int)
    | Delete(key: string)

  function Apply(l: Limits, c: CacheState, op: Op): CacheState {
    match op
    case Get(key, now) => AfterGet(c, key, now)
    case Set(key, value, ttl, now) => AfterSet(l, c, key, value, ttl, now)
    case Delete(key) => AfterDelete(c, key)
  }

  function Run(l: Limits, c: CacheState, ops: seq<Op>): CacheState
    decreases |ops|
  {
    if ops == [] then c else Run(l, Apply(l, c, ops[0]), ops[1..])
  }

  lemma {:induction false} OpKeepsValid(l: Limits, c: CacheState, op: Op)
    requires Valid(l, c)
    ensures Valid(l, Apply(l, c, op))
  {
    WithoutIsDistinct(c.order, op.key);
    if op.key in c.items {
      ConsIsDistinct(Without(c.order, op.key), op.key);
    } else {
      if c.order != [] {
        PrefixIsDistinct(c.order);
        ConsIsDistinct(c.order[..|c.order| - 1], op.key);
      }
      ConsIsDistinct(c.order, op.key);
    }
  }

  lemma {:induction false} RunKeepsValid(l: Limits, c: CacheState, ops: seq<Op>)
    requires Valid(l, c)
    ensures Valid(l, Run(l, c, ops))
    decreases |ops|
  {
    hide Valid, Apply;
    if ops != [] {
      OpKeepsValid(l, c, ops[0]);
      RunKeepsValid(l, Apply(l, c, ops[0]), ops[1..]);
    }
  }

  // ---- A hit returns the last value set ----

  /** The entry the last Set of `key` made, unless a Delete came after it. */
  function LastSet(l: Limits, ops: seq<Op>, key: string, before: Option<Entry>): Option<Entry> {
    if ops == [] then before
    else
      LastSet(l, ops[1..], key,
        if ops[0].key != key then before
        else match ops[0]
          case Get(_, _) => before
          case Set(_, value, ttl, now) => Some(Entry(value, ExpiryFor(l, ttl, now)))
          case Delete(_) => None)
  }

  lemma {:induction false} HitIsLastSet(l: Limits, c: CacheState, ops: seq<Op>, key: string, before: Option<Entry>)
    requires Valid(l, c)
    requires key in c.items ==> before == Some(c.items[key])
    ensures key in Run(l, c, ops).items ==> LastSet(l, ops, key, before) == Some(Run(l, c, ops).items[key])
    decreases |ops|
  {
    hide Valid;
    if ops != [] {
      var next := Apply(l, c, ops[0]);
      OpKeepsValid(l, c, ops[0]);
      var now := if ops[0].key != key then before
                 else match ops[0]
                   case Get(_, _) => before
                   case Set(_, value, ttl, now) => Some(Entry(value, ExpiryFor(l, ttl, now)))
                   case Delete(_) => None;
      assert key in next.items ==> now == Some(next.items[key]);
      HitIsLastSet(l, next, ops[1..], key, now);
    }
  }

  /** After any history, a lookup that hits returns the value of the last Set of its key, made after
      any Delete of it and not yet expired; the list and the map agree and the size limit holds. */
  lemma {:induction false} GetAfterAnyHistory(l: Limits, ops: seq<Op>, key: string, now: int)
    ensures Valid(l, Run(l, EMPTY, ops))
    ensures
      var found := Found(Run(l, EMPTY, ops), key, now);
      found.Some? ==>
        var e := LastSet(l, ops, key, None);
        e.Some? && found.value == e.value.value && !Expired(e.value, now)
  {
    EmptyIsValid(l);
    RunKeepsValid(l, EMPTY, ops);
    HitIsLastSet(l, EMPTY, ops, key, None);
  }

  // ---- The guarantee of least-recently-used eviction ----

  /** The keys in front of `key`. */
  function Ahead(order: seq<string>, key: string): set<string> {
    if order == [] || order[0] == key then {} else {order[0]} + Ahead(order[1..], key)
  }

  /** The key an operation moves to the front, if any: a Set, or a Get that hits. */
  function Touched(c: CacheState, op: Op): set<string> {
    match op
    case Get(key, now) => if Found(c, key, now).Some? then {key} else {}
    case Set(key, _, _, _) => {key}
    case Delete(_) => {}
  }

  function TouchedIn(l: Limits, c: CacheState, ops: seq<Op>): set<string>
    decreases |ops|
  {
    if ops == [] then {} else Touched(c, ops[0]) + TouchedIn(l, Apply(l, c, ops[0]), ops[1..])
  }

  /** `key` is not deleted, and no lookup of it comes after it has expired. */
  predicate Undisturbed(l: Limits, c: CacheState, ops: seq<Op>, key: string)
    decreases |ops|
  {
    ops == [] || (
      && !(ops[0].Delete? && ops[0].key == key)
      && (ops[0].Get? && ops[0].key == key && key in c.items ==> !Expired(c.items[key], ops[0].now))
      && Undisturbed(l, Apply(l, c, ops[0]), ops[1..], key))
  }

  lemma {:induction false} AheadWithout(order: seq<string>, key: string, other: string)
    requires Distinct(order) && key != other
    ensures Ahead(Without(order, other), key) == Ahead(order, key) - {other}
  {
    AheadAreMembers(order, key);
    if order != [] {
      AheadAreMembers(order[1..], key);
      if order[0] != other {
        AheadWithout(order[1..], key, other);
        assert Without(order, other)[1..] == Without(order[1..], other);
      }
    }
  }

  lemma {:induction false} AheadAreMembers(order: seq<string>, key: string)
    ensures Ahead(order, key) <= Members(order) - {key}
  {
    if order != [] { AheadAreMembers(order[1..], key); }
  }

  lemma {:induction false} AheadPrefix(order: seq<string>, key: string)
    requires order != []
    ensures Ahead(order[..|order| - 1], key) <= Ahead(order, key)
    ensures key in Members(order[..|order| - 1]) ==> Ahead(order[..|order| - 1], key) == Ahead(order, key)
  {
    var n := |order| - 1;
    if n > 0 && order[0] != key {
      AheadPrefix(order[1..], key);
      assert order[..n][1..] == order[1..][..n - 1];
    }
  }

  lemma {:induction false} AheadOfLast(order: seq<string>)
    requires Distinct(order) && order != []
    ensures Ahead(order, order[|order| - 1]) == Members(order) - {order[|order| - 1]}
  {
    var n := |order| - 1;
    if n > 0 {
      assert order[1..][n - 1] == order[n];
      AheadOfLast(order[1..]);
      PrefixIsDistinct(order[1..]);
    }
  }

  lemma AheadOfCons(order: seq<string>, key: string, other: string)
    requires key != other
    ensures Ahead([other] + order, key) == {other} + Ahead(order, key)
  {
    assert ([other] + order)[1..] == order;
  }

  /** One operation on a cache in which only keys of `since` are ahead of `key`. */
  lemma {:induction false} StaysOneStep(l: Limits, c: CacheState, op: Op, key: string, since: set<string>)
    requires Valid(l, c) && key in c.items && Ahead(c.order, key) <= since && key !in since
    requires !(op.Delete? && op.key == key)
    requires op.Get? && op.key == key ==> !Expired(c.items[key], op.now)
    requires l.maxSize > 0 ==> |since + Touched(c, op) - {key}| < l.maxSize
    ensures key in Apply(l, c, op).items
    ensures Ahead(Apply(l, c, op).order, key) <= since + Touched(c, op) - {key}
  {
    hide Valid, Ahead, Without;
    if op.key in c.items {
      if op.key != key { OtherMoves(l, c, op.key, key, since); }
      KeyMoves(c.order, key);
    } else if op.Set? {
      Inserted(l, c, op.key, key, since);
    }
  }

  lemma KeyMoves(order: seq<string>, key: string)
    ensures Ahead(ToFront(order, key), key) == {}
  {
  }

  /** Another key is moved to the front, or deleted. */
  lemma OtherMoves(l: Limits, c: CacheState, other: string, key: string, since: set<string>)
    requires Valid(l, c) && other != key && Ahead(c.order, key) <= since && key !in since
    ensures Ahead(ToFront(c.order, other), key) <= since + {other} - {key}
    ensures Ahead(Without(c.order, other), key) <= since - {key}
  {
    hide Ahead, Without;
    AheadWithout(c.order, key, other);
    AheadOfCons(Without(c.order, other), key, other);
  }

  /** Another key is inserted, into a full list by evicting the last. */
  lemma {:induction false} Inserted(l: Limits, c: CacheState, other: string, key: string, since: set<string>)
    requires Valid(l, c) && key in c.items && other !in c.items && Ahead(c.order, key) <= since && key !in since
    requires l.maxSize > 0 ==> |since + {other}| < l.maxSize
    ensures var room := if l.maxSize > 0 && |c.order| >= l.maxSize then Evicted(c) else c;
            key in room.items && Ahead([other] + room.order, key) <= since + {other} - {key}
  {
    hide Ahead;
    AheadOfCons(c.order, key, other);
    if l.maxSize > 0 && |c.order| >= l.maxSize {
      EvictedKeeps(c, key);
      AheadOfCons(c.order[..|c.order| - 1], key, other);
      NotTheVictim(l, c, other, key, since);
    }
  }

  lemma EvictedKeeps(c: CacheState, key: string)
    requires c.order != []
    ensures Ahead(Evicted(c).order, key) <= Ahead(c.order, key)
  {
    AheadPrefix(c.order, key);
  }

  /** Too few keys were touched for `key` to be at the back of a full list. */
  lemma {:induction false} NotTheVictim(l: Limits, c: CacheState, other: string, key: string, since: set<string>)
    requires Valid(l, c) && key in c.items && other !in c.items && Ahead(c.order, key) <= since && key !in since
    requires l.maxSize > 0 && |c.order| >= l.maxSize && |since + {other}| < l.maxSize
    ensures c.order[|c.order| - 1] != key
  {
    hide Ahead, Members, Distinct;
    if c.order[|c.order| - 1] == key {
      AheadOfLast(c.order);
      MembersSize(c.order);
      PrefixIsDistinct(c.order);
      assert other !in Ahead(c.order, key);
      SubsetSize(Ahead(c.order, key) + {other}, since + {other});
    }
  }

  lemma {:induction false} StaysSince(l: Limits, c: CacheState, ops: seq<Op>, key: string, since: set<string>)
    requires Valid(l, c) && key in c.items && Ahead(c.order, key) <= since && key !in since
    requires Undisturbed(l, c, ops, key)
    requires l.maxSize > 0 ==> |since + TouchedIn(l, c, ops) - {key}| < l.maxSize
    ensures key in Run(l, c, ops).items
    decreases |ops|
  {
    hide Valid, Apply, Ahead;
    if ops != [] {
      var next := Apply(l, c, ops[0]);
      var later := since + Touched(c, ops[0]) - {key};
      SubsetSize(later, since + TouchedIn(l, c, ops) - {key});
      StaysOneStep(l, c, ops[0], key, since);
      OpKeepsValid(l, c, ops[0]);
      assert later + TouchedIn(l, next, ops[1..]) - {key} == since + TouchedIn(l, c, ops) - {key};
      StaysSince(l, next, ops[1..], key, later);
    }
  }

  /** After any history, a key that is touched, then neither deleted nor looked up after it expired, is still
      there as long as fewer than maxSize other keys have been touched since (always, without a limit). */
  lemma {:induction false} RecentlyUsedStays(l: Limits, before: seq<Op>, touch: Op, since: seq<Op>)
    requires
      var c := Run(l, EMPTY, before);
      && Touched(c, touch) == {touch.key}
      && Undisturbed(l, Apply(l, c, touch), since, touch.key)
      && (l.maxSize > 0 ==> |TouchedIn(l, Apply(l, c, touch), since) - {touch.key}| < l.maxSize)
    ensures touch.key in Run(l, Apply(l, Run(l, EMPTY, before), touch), since).items
  {
    var c := Run(l, EMPTY, before);
    var next := Apply(l, c, touch);
    EmptyIsValid(l);
    RunKeepsValid(l, EMPTY, before);
    OpKeepsValid(l, c, touch);
    hide Valid, Run, TouchedIn, Undisturbed;
    assert touch.key in next.items && Ahead(next.order, touch.key) == {};
    assert {} + TouchedIn(l, next, since) - {touch.key} == TouchedIn(l, next, since) - {touch.key};
    StaysSince(l, next, since, touch.key, {});
  }

  /** No deletion, no lookup of an expired entry, and nothing done to `key`. */
  predicate Quiet(l: Limits, c: CacheState, ops: seq<Op>, key: string)
    decreases |ops|
  {
    ops == [] || (
      && QuietOp(c, ops[0], key)
      && Quiet(l, Apply(l, c, ops[0]), ops[1..], key))
  }

  predicate QuietOp(c: CacheState, op: Op, key: string) {
    && op.key != key && !op.Delete?
    && (op.Get? && op.key in c.items ==> !Expired(c.items[op.key], op.now))
  }

  lemma {:induction false} PushedBackOneStep(l: Limits, c: CacheState, op: Op, key: string, since: set<string>)
    requires Valid(l, c) && QuietOp(c, op, key) && (key in c.items ==> since <= Ahead(c.order, key))
    ensures var next := Apply(l, c, op);
            key in next.items ==> since + Touched(c, op) <= Ahead(next.order, key)
  {
    if op.key in c.items {
      AheadWithout(c.order, key, op.key);
      AheadOfCons(Without(c.order, op.key), key, op.key);
    } else if op.Set? {
      AheadOfCons(c.order, key, op.key);
      if c.order != [] {
        PrefixIsDistinct(c.order);
        AheadPrefix(c.order, key);
        AheadOfCons(c.order[..|c.order| - 1], key, op.key);
      }
    }
  }

  lemma {:induction false} PushedBack(l: Limits, c: CacheState, ops: seq<Op>, key: string, since: set<string>)
    requires Valid(l, c) && Quiet(l, c, ops, key) && (key in c.items ==> since <= Ahead(c.order, key))
    ensures
      var last := Run(l, c, ops);
      && Valid(l, last)
      && (key in last.items ==> since + TouchedIn(l, c, ops) <= Ahead(last.order, key))
    decreases |ops|
  {
    hide Valid, Apply, Ahead;
    if ops != [] {
      PushedBackOneStep(l, c, ops[0], key, since);
      OpKeepsValid(l, c, ops[0]);
      PushedBack(l, Apply(l, c, ops[0]), ops[1..], key, since + Touched(c, ops[0]));
      assert since + Touched(c, ops[0]) + TouchedIn(l, Apply(l, c, ops[0]), ops[1..]) == since + TouchedIn(l, c, ops);
    }
  }

  lemma {:induction false} QuietLeavesAlone(l: Limits, c: CacheState, ops: seq<Op>, key: string)
    requires Quiet(l, c, ops, key)
    ensures Undisturbed(l, c, ops, key) && key !in TouchedIn(l, c, ops)
    decreases |ops|
  {
    if ops != [] { QuietLeavesAlone(l, Apply(l, c, ops[0]), ops[1..], key); }
  }

  /** Without deletions and expiries, a key left alone since its last touch is still cached
      exactly if fewer than maxSize other keys have been touched since. */
  lemma {:induction false} EvictionIsExactlyLeastRecentlyUsed(l: Limits, before: seq<Op>, touch: Op, since: seq<Op>)
    requires l.maxSize > 0
    requires
      var c := Run(l, EMPTY, before);
      Touched(c, touch) == {touch.key} && Quiet(l, Apply(l, c, touch), since, touch.key)
    ensures
      var next := Apply(l, Run(l, EMPTY, before), touch);
      touch.key in Run(l, next, since).items <==> |TouchedIn(l, next, since)| < l.maxSize
  {
    hide Run, Quiet, Undisturbed, TouchedIn, Apply, Touched, Valid, Ahead, Members, Distinct;
    var key := touch.key;
    var next := Apply(l, Run(l, EMPTY, before), touch);
    QuietLeavesAlone(l, next, since, key);
    assert TouchedIn(l, next, since) - {key} == TouchedIn(l, next, since);
    if |TouchedIn(l, next, since)| < l.maxSize {
      RecentlyUsedStays(l, before, touch, since);
    }
    EmptyIsValid(l);
    RunKeepsValid(l, EMPTY, before);
    OpKeepsValid(l, Run(l, EMPTY, before), touch);
    PushedBack(l, next, since, key, {});
    var last := Run(l, next, since);
    if key in last.items {
      assert {} + TouchedIn(l, next, since) == TouchedIn(l, next, since);
      TooManyAhead(l, last, TouchedIn(l, next, since), key);
    }
  }

  /** The keys ahead of one in the list and that one itself fit the limit together. */
  lemma TooManyAhead(l: Limits, c: CacheState, others: set<string>, key: string)
    requires l.maxSize > 0 && Valid(l, c) && key in c.items && others <= Ahead(c.order, key)
    ensures |others| < l.maxSize
  {
    hide Ahead, Members, Distinct;
    MembersSize(c.order);
    AheadAreMembers(c.order, key);
    SubsetSize(others + {key}, Members(c.order));
  }

  lemma EmptyIsValid(l: Limits)
    ensures Valid(l, EMPTY)
  {
  }
}
