/** The in-memory cache (cache/cache.go): recency is a 64-bit stamp per entry, rebased when the counter is
    exhausted. Every method refines the recency list. */
module Cache {
  import opened GoStrings
  import opened RecencyList

  /** `^uint64(0)`, and the largest Go `int`. */
  const MAX_STAMP: nat := 0xFFFF_FFFF_FFFF_FFFF
  const MAX_LEN: nat := 0x7FFF_FFFF_FFFF_FFFF

  datatype Stamped<T> = Stamped(entry: Entry<T>, accessOrder: nat)

  type Items<T> = map<string, Stamped<T>>

  /** The map holds exactly the entries of the list, with positive stamps that decrease strictly from the recent
      end and start at or below the counter. */
  ghost predicate Represents<T>(items: Items<T>, list: seq<Item<T>>, counter: int)
    decreases |list|
  {
    if list == [] then items == map[]
    else
      var n := |list| - 1;
      var key := list[n].key;
      && key in items
      && items[key].entry == list[n].entry
      && 0 < items[key].accessOrder <= counter
      && Represents(items - {key}, list[..n], items[key].accessOrder - 1)
  }

  lemma {:induction false} RaiseCounter<T>(items: Items<T>, list: seq<Item<T>>, counter: int, more: int)
    requires Represents(items, list, counter) && counter <= more
    ensures Represents(items, list, more)
  {
  }

  // ------------------------------------------------ what representing means

  lemma {:induction false} FindSnoc<T>(list: seq<Item<T>>, k: string)
    requires list != [] && HasKey(list, k)
    ensures Find(list, k) == if HasKey(list[..|list| - 1], k) then Find(list[..|list| - 1], k) else list[|list| - 1].entry
    decreases |list|
  {
    var n := |list| - 1;
    if n > 0 {
      if list[0].key != k {
        FindSnoc(list[1..], k);
        assert list[1..][..n - 1] == list[..n][1..];
      }
    }
  }

  /** The same keys, the same entries, stamps within the counter. */
  lemma {:induction false} RepresentsKey<T>(items: Items<T>, list: seq<Item<T>>, counter: int, key: string)
    requires Represents(items, list, counter)
    ensures key in items <==> HasKey(list, key)
    ensures key in items ==> Find(list, key) == items[key].entry && 0 < items[key].accessOrder <= counter
    decreases |list|
  {
    if list != [] {
      var n := |list| - 1;
      var last := list[n].key;
      RepresentsKey(items - {last}, list[..n], items[last].accessOrder - 1, key);
      RepresentsKey(items - {last}, list[..n], items[last].accessOrder - 1, last);
      if HasKey(list, key) {
        FindSnoc(list, key);
      }
    }
  }

  /** Stamps increase strictly along the list, so they are distinct. */
  lemma {:induction false} StampsIncrease<T>(items: Items<T>, list: seq<Item<T>>, counter: int, i: nat, j: nat)
    requires Represents(items, list, counter) && i < j < |list|
    ensures list[i].key in items && list[j].key in items
    ensures items[list[i].key].accessOrder < items[list[j].key].accessOrder <= counter
    decreases |list|
  {
    var n := |list| - 1;
    var last := list[n].key;
    if j < n {
      StampsIncrease(items - {last}, list[..n], items[last].accessOrder - 1, i, j);
    } else {
      assert HasKey(list[..n], list[i].key) by { assert list[..n][i].key == list[i].key; }
      RepresentsKey(items - {last}, list[..n], items[last].accessOrder - 1, list[i].key);
    }
  }

  lemma {:induction false} SameLength<T>(items: Items<T>, list: seq<Item<T>>, counter: int)
    requires Represents(items, list, counter)
    ensures |items| == |list|
    decreases |list|
  {
    if list != [] {
      var n := |list| - 1;
      var last := list[n].key;
      SameLength(items - {last}, list[..n], items[last].accessOrder - 1);
    }
  }

  // -------------------------------------------------- what operations keep it

  /** Storing a new key with the next stamp. */
  lemma AppendRepresents<T>(items: Items<T>, list: seq<Item<T>>, counter: int, key: string, entry: Entry<T>)
    requires Represents(items, list, counter) && key !in items && counter >= 0
    ensures Represents(items[key := Stamped(entry, counter + 1)], list + [Item(key, entry)], counter + 1)
  {
    var items', list' := items[key := Stamped(entry, counter + 1)], list + [Item(key, entry)];
    assert items' - {key} == items;
    assert list'[..|list|] == list;
  }

  lemma {:induction false} WithoutSnoc<T>(list: seq<Item<T>>, key: string)
    requires list != []
    ensures var n := |list| - 1;
            Without(list, key) == Without(list[..n], key) + (if list[n].key == key then [] else [list[n]])
    decreases |list|
  {
    var n := |list| - 1;
    if n > 0 {
      WithoutSnoc(list[1..], key);
      assert list[1..][..n - 1] == list[..n][1..];
    }
  }

  lemma {:induction false} WithoutAbsent<T>(list: seq<Item<T>>, key: string)
    requires !HasKey(list, key)
    ensures Without(list, key) == list
  {
    if list != [] {
      WithoutAbsent(list[1..], key);
    }
  }

  /** Deleting a key. */
  lemma {:induction false} DeleteRepresents<T>(items: Items<T>, list: seq<Item<T>>, counter: int, key: string)
    requires Represents(items, list, counter)
    ensures Represents(items - {key}, Without(list, key), counter)
    decreases |list|
  {
    if list == [] {
      assert items - {key} == map[];
    } else {
      var n := |list| - 1;
      var last := list[n].key;
      var stamp := items[last].accessOrder;
      WithoutSnoc(list, key);
      if last == key {
        RepresentsKey(items - {key}, list[..n], stamp - 1, key);
        WithoutAbsent(list[..n], key);
        assert Without(list, key) == list[..n];
        RaiseCounter(items - {key}, list[..n], stamp - 1, counter);
      } else {
        DeleteRepresents(items - {last}, list[..n], stamp - 1, key);
        assert items - {last} - {key} == items - {key} - {last};
        var rest := Without(list[..n], key);
        assert Without(list, key)[..|rest|] == rest;
      }
    }
  }

  /** Storing a key, present or not. */
  lemma StoreRepresents<T>(items: Items<T>, list: seq<Item<T>>, counter: int, key: string, entry: Entry<T>)
    requires Represents(items, list, counter) && counter >= 0
    ensures Represents(items[key := Stamped(entry, counter + 1)], Stored(list, key, entry), counter + 1)
  {
    DeleteRepresents(items, list, counter, key);
    AppendRepresents(items - {key}, Without(list, key), counter, key, entry);
    assert (items - {key})[key := Stamped(entry, counter + 1)] == items[key := Stamped(entry, counter + 1)];
  }

  /** Deleting everything that is expired. */
  function Purged<T>(items: Items<T>, now: int): Items<T> {
    map key | key in items && !items[key].entry.Expired(now) :: items[key]
  }

  lemma {:induction false} PurgeRepresents<T>(items: Items<T>, list: seq<Item<T>>, counter: int, now: int)
    requires Represents(items, list, counter)
    ensures Represents(Purged(items, now), Live(list, now), counter)
    decreases |list|
  {
    if list == [] {
      assert Purged(items, now) == map[];
    } else {
      var n := |list| - 1;
      var last := list[n].key;
      var stamp := items[last].accessOrder;
      PurgeRepresents(items - {last}, list[..n], stamp - 1, now);
      PurgedWithout(items, last, now);
      LiveSnoc(list[..n], list[n], now);
      assert list == list[..n] + [list[n]];
      if list[n].entry.Expired(now) {
        assert Live(list, now) == Live(list[..n], now);
        RaiseCounter(Purged(items, now), Live(list, now), stamp - 1, counter);
      } else {
        PrependLast(Purged(items, now), Live(list[..n], now), list[n], counter);
      }
    }
  }

  lemma PurgedWithout<T>(items: Items<T>, key: string, now: int)
    requires key in items
    ensures Purged(items - {key}, now) == Purged(items, now) - {key}
    ensures items[key].entry.Expired(now) ==> Purged(items, now) - {key} == Purged(items, now)
  {
  }

  lemma PrependLast<T>(items: Items<T>, list: seq<Item<T>>, last: Item<T>, counter: int)
    requires last.key in items && items[last.key].entry == last.entry && 0 < items[last.key].accessOrder <= counter
    requires Represents(items - {last.key}, list, items[last.key].accessOrder - 1)
    ensures Represents(items, list + [last], counter)
  {
    assert (list + [last])[..|list|] == list;
  }

  /** The entry with the least stamp is the first of the list. */
  lemma {:induction false} OldestIsFirst<T>(items: Items<T>, list: seq<Item<T>>, counter: int, oldest: string)
    requires Represents(items, list, counter)
    requires oldest in items && forall key :: key in items ==> items[oldest].accessOrder <= items[key].accessOrder
    ensures list != [] && oldest == list[0].key
    ensures Represents(items - {oldest}, list[1..], counter)
    decreases |list|
  {
    RepresentsKey(items, list, counter, oldest);
    FirstIsOldest(items, list, counter, oldest);
    NotAgain(items, list, counter);
    WithoutAbsent(list[1..], oldest);
    DeleteRepresents(items, list, counter, oldest);
  }

  lemma FirstIsOldest<T>(items: Items<T>, list: seq<Item<T>>, counter: int, oldest: string)
    requires Represents(items, list, counter) && HasKey(list, oldest)
    requires oldest in items && forall key :: key in items ==> items[oldest].accessOrder <= items[key].accessOrder
    ensures list[0].key == oldest
  {
    var i :| 0 <= i < |list| && list[i].key == oldest;
    if i > 0 {
      StampsIncrease(items, list, counter, 0, i);
    }
  }

  lemma NotAgain<T>(items: Items<T>, list: seq<Item<T>>, counter: int)
    requires Represents(items, list, counter) && list != []
    ensures !HasKey(list[1..], list[0].key)
  {
    if i :| 0 <= i < |list[1..]| && list[1..][i].key == list[0].key {
      StampsIncrease(items, list, counter, 0, i + 1);
    }
  }

  // --------------------------------------------------------------- rebasing

  /** Keys in increasing order of their stamps. */
  ghost predicate ByStamp<T>(items: Items<T>, keys: seq<string>) {
    && (forall i :: 0 <= i < |keys| ==> keys[i] in items)
    && (forall i, j :: 0 <= i < j < |keys| ==> items[keys[i]].accessOrder < items[keys[j]].accessOrder)
  }

  ghost predicate Covers<T>(items: Items<T>, keys: seq<string>) {
    forall key :: key in items ==> key in keys
  }

  /** The keys are those of the list, in order. */
  ghost predicate KeysOf<T>(keys: seq<string>, list: seq<Item<T>>) {
    |keys| == |list| && forall i :: 0 <= i < |list| ==> keys[i] == list[i].key
  }

  lemma KeysOfSnoc<T>(keys: seq<string>, list: seq<Item<T>>)
    requires keys != [] && list != [] && keys[|keys| - 1] == list[|list| - 1].key
    requires KeysOf(keys[..|keys| - 1], list[..|list| - 1])
    ensures KeysOf(keys, list)
  {
    forall i | 0 <= i < |list| ensures keys[i] == list[i].key {
      if i < |list| - 1 {
        assert keys[..|keys| - 1][i] == list[..|list| - 1][i].key;
      }
    }
  }

  /** Without the last key of the list, the others are still sorted. */
  lemma ButLastSorted<T>(items: Items<T>, keys: seq<string>)
    requires ByStamp(items, keys) && Covers(items, keys) && keys != []
    ensures var m := |keys| - 1; ByStamp(items - {keys[m]}, keys[..m]) && Covers(items - {keys[m]}, keys[..m])
  {
    var m := |keys| - 1;
    forall key | key in items - {keys[m]} ensures key in keys[..m] {
      assert key in keys;
    }
  }

  /** The keys sorted by stamp are the keys of the list. */
  lemma {:induction false} SortedKeysAreTheList<T>(items: Items<T>, list: seq<Item<T>>, counter: int, keys: seq<string>)
    requires Represents(items, list, counter) && ByStamp(items, keys) && Covers(items, keys)
    ensures KeysOf(keys, list)
    decreases |list|
  {
    assert |keys| == 0 || keys[0] in items;
    if list != [] {
      var n := |list| - 1;
      var last := list[n].key;
      LastSortedKey(items, list, counter, keys);
      ButLastSorted(items, keys);
      SortedKeysAreTheList(items - {last}, list[..n], items[last].accessOrder - 1, keys[..|keys| - 1]);
      KeysOfSnoc(keys, list);
    }
  }

  lemma LastSortedKey<T>(items: Items<T>, list: seq<Item<T>>, counter: int, keys: seq<string>)
    requires Represents(items, list, counter) && ByStamp(items, keys) && Covers(items, keys) && list != []
    ensures keys != [] && keys[|keys| - 1] == list[|list| - 1].key
  {
    var n, m := |list| - 1, |keys| - 1;
    var last := list[n].key;
    assert last in keys;
    var i :| 0 <= i < |keys| && keys[i] == last;
    if i < m {
      RepresentsKey(items - {last}, list[..n], items[last].accessOrder - 1, keys[m]);
    }
  }

  /** The entries restamped 1, 2, 3, ... in the order of `keys`. */
  ghost predicate Restamped<T>(items: Items<T>, items': Items<T>, keys: seq<string>) {
    && items'.Keys == items.Keys
    && forall i :: 0 <= i < |keys| ==> keys[i] in items && items'[keys[i]] == Stamped(items[keys[i]].entry, i + 1)
  }

  /** Rebasing keeps the list. */
  lemma {:induction false} RebaseRepresents<T>(items: Items<T>, items': Items<T>, list: seq<Item<T>>, counter: int, keys: seq<string>)
    requires Represents(items, list, counter) && Restamped(items, items', keys)
    requires |keys| == |list| && forall i :: 0 <= i < |list| ==> keys[i] == list[i].key
    ensures Represents(items', list, |list|)
    decreases |list|
  {
    if list == [] {
      assert items' == map[];
    } else {
      var n := |list| - 1;
      var last := keys[n];
      assert items'[keys[n]] == Stamped(items[keys[n]].entry, n + 1);
      forall i | 0 <= i < n ensures keys[i] != last {
        StampsIncrease(items, list, counter, i, n);
      }
      RebaseRepresents(items - {last}, items' - {last}, list[..n], items[last].accessOrder - 1, keys[..n]);
    }
  }

  /** `sort.Slice` of the keys by stamp. */
  method KeysByStamp<T>(items: Items<T>, ghost list: seq<Item<T>>, ghost counter: int) returns (keys: seq<string>)
    requires Represents(items, list, counter)
    ensures |keys| == |list| && forall i :: 0 <= i < |list| ==> keys[i] == list[i].key
  {
    keys := [];
    var todo := items.Keys;
    while todo != {}
      invariant todo <= items.Keys
      invariant ByStamp(items, keys)
      invariant forall key :: key in items ==> key in todo || key in keys
      invariant forall key :: key in keys ==> key !in todo
    {
      var key :| key in todo;
      todo := todo - {key};
      var at := 0;
      while at < |keys| && items[keys[at]].accessOrder < items[key].accessOrder
        invariant at <= |keys|
        invariant forall i :: 0 <= i < at ==> items[keys[i]].accessOrder < items[key].accessOrder
      {
        at := at + 1;
      }
      if at < |keys| {
        DistinctStamps(items, list, counter, key, keys[at]);
      }
      InsertByStamp(items, keys, key, at);
      forall k { InsertMembers(keys, key, at, k); }
      keys := keys[..at] + [key] + keys[at..];
    }
    SortedKeysAreTheList(items, list, counter, keys);
  }

  lemma DistinctStamps<T>(items: Items<T>, list: seq<Item<T>>, counter: int, a: string, b: string)
    requires Represents(items, list, counter) && a in items && b in items && a != b
    ensures items[a].accessOrder != items[b].accessOrder
  {
    RepresentsKey(items, list, counter, a);
    RepresentsKey(items, list, counter, b);
    var i :| 0 <= i < |list| && list[i].key == a;
    var j :| 0 <= j < |list| && list[j].key == b;
    if i < j {
      StampsIncrease(items, list, counter, i, j);
    } else {
      StampsIncrease(items, list, counter, j, i);
    }
  }

  lemma InsertByStamp<T>(items: Items<T>, keys: seq<string>, key: string, at: nat)
    requires ByStamp(items, keys) && key in items && at <= |keys|
    requires forall i :: 0 <= i < at ==> items[keys[i]].accessOrder < items[key].accessOrder
    requires at < |keys| ==> items[key].accessOrder < items[keys[at]].accessOrder
    ensures ByStamp(items, keys[..at] + [key] + keys[at..])
  {
    var keys' := keys[..at] + [key] + keys[at..];
    assert forall i :: at <= i < |keys| ==> items[key].accessOrder < items[keys[i]].accessOrder;
    forall i, j | 0 <= i < j < |keys'| ensures items[keys'[i]].accessOrder < items[keys'[j]].accessOrder {
      assert keys'[i] == if i < at then keys[i] else if i == at then key else keys[i - 1];
      assert keys'[j] == if j < at then keys[j] else if j == at then key else keys[j - 1];
    }
  }

  lemma InsertMembers(keys: seq<string>, key: string, at: nat, k: string)
    requires at <= |keys|
    ensures k in keys[..at] + [key] + keys[at..] <==> k in keys || k == key
  {
    assert keys == keys[..at] + keys[at..];
  }

  // ---------------------------------------------------------------- the cache

  datatype LookupState = Absent | FreshHit | StaleHit | NegativeHit

  /** What a loader came back with. */
  datatype Loaded<T> = Value(value: T) | NotFound | Failed

  class Cache<T> {
    const maxEntries: int
    const disabled: bool
    const caching: bool  // a positive negativeTTL
    const zero: T
    var items: Items<T>
    var nextAccessOrder: nat
    ghost var list: seq<Item<T>>

    ghost predicate Valid()
      reads this
    {
      && Represents(items, list, nextAccessOrder)
      && nextAccessOrder <= MAX_STAMP
      && |list| <= MAX_LEN
    }

    constructor (maxEntries: int, disabled: bool, caching: bool, zero: T)
      ensures Valid() && list == []
      ensures this.maxEntries == maxEntries && this.disabled == disabled && this.caching == caching && this.zero == zero
    {
      this.maxEntries, this.disabled, this.caching, this.zero := maxEntries, disabled, caching, zero;
      items, nextAccessOrder, list := map[], 0, [];
    }

    /** A stamp above every live one; the order of the live entries is kept even when the counter starts again. */
    method NextAccessOrder() returns (stamp: nat)
      requires Valid()
      modifies this
      ensures Valid() && list == old(list)
      ensures stamp == nextAccessOrder > 0 && Represents(items, list, stamp - 1)
      ensures old(nextAccessOrder) < MAX_STAMP ==> items == old(items) && stamp == old(nextAccessOrder) + 1
      ensures old(nextAccessOrder) == MAX_STAMP ==> stamp == |list| + 1
    {
      if nextAccessOrder == MAX_STAMP {
        Rebase();
      }
      RaiseCounter(items, list, nextAccessOrder, nextAccessOrder + 1);
      nextAccessOrder := nextAccessOrder + 1;
      stamp := nextAccessOrder;
    }

    /** The live entries are stamped 1, 2, 3, ... in their order. */
    method Rebase()
      requires Valid()
      modifies this
      ensures Valid() && list == old(list) && nextAccessOrder == |list|
    {
      var keys := KeysByStamp(items, list, nextAccessOrder);
      forall i, j | 0 <= i < j < |keys| ensures keys[i] != keys[j] {
        StampsIncrease(items, list, nextAccessOrder, i, j);
      }
      forall i | 0 <= i < |keys| ensures keys[i] in items {
        assert HasKey(list, list[i].key);
        RepresentsKey(items, list, nextAccessOrder, keys[i]);
      }
      Restamp(keys);
      RebaseRepresents(old(items), items, list, old(nextAccessOrder), keys);
    }

    method Restamp(keys: seq<string>)
      requires Distinct(keys) && forall i :: 0 <= i < |keys| ==> keys[i] in items
      modifies this`items, this`nextAccessOrder
      ensures Restamped(old(items), items, keys) && nextAccessOrder == |keys|
    {
      nextAccessOrder := 0;
      for i := 0 to |keys|
        invariant nextAccessOrder == i
        invariant items.Keys == old(items).Keys
        invariant forall j :: 0 <= j < i ==> items[keys[j]] == Stamped(old(items)[keys[j]].entry, j + 1)
        invariant forall j :: i <= j < |keys| ==> items[keys[j]] == old(items)[keys[j]]
      {
        nextAccessOrder := nextAccessOrder + 1;
        items := items[keys[i] := items[keys[i]].(accessOrder := nextAccessOrder)];
      }
    }

    /** `evictLocked`. */
    method Evict(now: int)
      requires Valid()
      modifies this`items, this`list
      ensures Valid() && list == Evicted(old(list), now, maxEntries)
    {
      PurgeExpired(now);
      if maxEntries <= 0 {
        return;
      }
      SameLength(items, list, nextAccessOrder);
      DropDownTo(maxEntries);
    }

    method DropDownTo(max: int)
      requires Valid() && |items| == |list| && max > 0
      modifies this`items, this`list
      ensures Valid() && list == Newest(old(list), max)
    {
      ghost var dropped := 0;
      while |items| > max
        invariant Valid() && |items| == |list|
        invariant dropped <= |old(list)| && list == old(list)[dropped..]
        invariant dropped > 0 ==> |list| >= max
        decreases |list|
      {
        DropOldest();
        dropped := dropped + 1;
      }
    }

    method DropOldest()
      requires Valid() && |items| > 0
      modifies this`items, this`list
      ensures Valid()
      ensures |old(list)| == |old(items)| && list == old(list)[1..] && |items| == |list|
    {
      SameLength(items, list, nextAccessOrder);
      var oldest := Oldest();
      OldestIsFirst(items, list, nextAccessOrder, oldest);
      items := items - {oldest};
      list := list[1..];
      SameLength(items, list, nextAccessOrder);
    }

    method PurgeExpired(now: int)
      requires Valid()
      modifies this`items, this`list
      ensures Valid() && list == Live(old(list), now)
    {
      ghost var before := items;
      var todo := items.Keys;
      while todo != {}
        invariant todo <= before.Keys
        invariant forall key :: key in items <==> key in before && (key in todo || !before[key].entry.Expired(now))
        invariant forall key :: key in items ==> items[key] == before[key]
        invariant list == old(list)
      {
        var key :| key in todo;
        todo := todo - {key};
        if items[key].entry.Expired(now) {
          items := items - {key};
        }
      }
      assert items == Purged(before, now);
      PurgeRepresents(before, list, nextAccessOrder, now);
      LiveShrinks(list, now);
      list := Live(list, now);
    }

    /** The key with the least stamp. */
    method Oldest() returns (oldest: string)
      requires |items| > 0
      ensures oldest in items && forall key :: key in items ==> items[oldest].accessOrder <= items[key].accessOrder
    {
      oldest := "";
      var found := false;
      var todo := items.Keys;
      while todo != {}
        invariant todo <= items.Keys
        invariant !found ==> todo == items.Keys
        invariant found ==> oldest in items && forall key :: key in items && key !in todo ==> items[oldest].accessOrder <= items[key].accessOrder
      {
        var key :| key in todo;
        todo := todo - {key};
        if !found || items[key].accessOrder < items[oldest].accessOrder {
          oldest, found := key, true;
        }
      }
    }

    /** Storing an entry under the lock, then evicting. */
    method StoreLocked(key: string, entry: Entry<T>, now: int)
      requires Valid() && |list| < MAX_LEN
      modifies this
      ensures Valid() && list == Next(old(list), maxEntries, Store(key, entry, now))
    {
      var stamp := NextAccessOrder();
      StoreRepresents(items, list, stamp - 1, key, entry);
      items := items[key := Stamped(entry, stamp)];
      WithoutShrinks(list, key);
      list := Stored(list, key, entry);
      Evict(now);
    }

    method Set(key: string, value: T, expiresAt: Option<int>, staleUntil: Option<int>, now: int)
      requires Valid() && |list| < MAX_LEN
      modifies this
      ensures Valid()
      ensures list == if disabled || key == "" then old(list)
                      else Next(old(list), maxEntries, Store(key, Entry(value, expiresAt, staleUntil, false), now))
    {
      if disabled || key == "" {
        return;
      }
      StoreLocked(key, Entry(value, expiresAt, staleUntil, false), now);
    }

    /** A hit moves the key to the recent end; an expired entry is removed. A not-found marker is a hit, with the
        zero value that is stored in it. */
    method Get(key: string, now: int) returns (value: T, ok: bool)
      requires Valid()
      modifies this
      ensures Valid()
      ensures disabled || key == "" ==> !ok && value == zero && list == old(list)
      ensures !disabled && key != "" ==>
                && list == Next(old(list), maxEntries, Use(key, now))
                && ok == (HasKey(old(list), key) && !Find(old(list), key).Expired(now))
                && value == if ok then Find(old(list), key).value else zero
    {
      if disabled || key == "" {
        return zero, false;
      }
      RepresentsKey(items, list, nextAccessOrder, key);
      if key !in items {
        return zero, false;
      }
      if items[key].entry.Expired(now) {
        Remove(key);
        return zero, false;
      }
      var entry := items[key].entry;
      Touch(key, entry);
      return entry.value, true;
    }

    method Remove(key: string)
      requires Valid()
      modifies this`items, this`list
      ensures Valid() && list == Without(old(list), key)
    {
      DeleteRepresents(items, list, nextAccessOrder, key);
      WithoutShrinks(list, key);
      items := items - {key};
      list := Without(list, key);
    }

    method Touch(key: string, entry: Entry<T>)
      requires Valid() && HasKey(list, key)
      modifies this
      ensures Valid() && list == Stored(old(list), key, entry)
    {
      var stamp := NextAccessOrder();
      StoreRepresents(items, list, stamp - 1, key, entry);
      WithoutShrinks(list, key);
      items := items[key := Stamped(entry, stamp)];
      list := Stored(list, key, entry);
    }

    /** `lookup`: the state tells a fresh hit, a stale hit and a not-found marker apart. */
    method Lookup(key: string, now: int) returns (value: T, state: LookupState)
      requires Valid()
      modifies this
      ensures Valid() && list == Next(old(list), maxEntries, Use(key, now))
      ensures state == if !HasKey(old(list), key) || Find(old(list), key).Expired(now) then Absent
                       else if Find(old(list), key).negative then NegativeHit
                       else if Find(old(list), key).Fresh(now) then FreshHit else StaleHit
      ensures value == if state.FreshHit? || state.StaleHit? then Find(old(list), key).value else zero
    {
      RepresentsKey(items, list, nextAccessOrder, key);
      if key !in items {
        return zero, Absent;
      }
      var entry := items[key].entry;
      if entry.Fresh(now) {
        Touch(key, entry);
        if entry.negative {
          return zero, NegativeHit;
        }
        return entry.value, FreshHit;
      }
      if entry.Stale(now) {
        Touch(key, entry);
        if entry.negative {
          return zero, NegativeHit;
        }
        return entry.value, StaleHit;
      }
      Remove(key);
      return zero, Absent;
    }

    /** The locked section of `load`, once the loader has answered. */
    method StoreLoaded(key: string, loaded: Loaded<T>, expiresAt: int, staleUntil: int, now: int)
      requires Valid() && |list| < MAX_LEN
      modifies this
      ensures Valid()
      ensures list == match loaded
                      case Value(value) => Next(old(list), maxEntries, Store(key, Entry(value, Some(expiresAt), Some(staleUntil), false), now))
                      case NotFound =>
                        if caching then Next(old(list), maxEntries, Store(key, Entry(zero, Some(expiresAt), Some(expiresAt), true), now))
                        else old(list)
                      case Failed => old(list)
    {
      match loaded
      case Value(value) => StoreLocked(key, Entry(value, Some(expiresAt), Some(staleUntil), false), now);
      case NotFound =>
        if caching {
          StoreLocked(key, Entry(zero, Some(expiresAt), Some(expiresAt), true), now);
        }
      case Failed =>
    }

    method Delete(key: string) returns (deleted: bool)
      requires Valid()
      modifies this
      ensures Valid()
      ensures deleted == (key != "" && HasKey(old(list), key))
      ensures list == if deleted then Next(old(list), maxEntries, RecencyList.Op.Delete(key)) else old(list)
    {
      RepresentsKey(items, list, nextAccessOrder, key);
      if key == "" || key !in items {
        return false;
      }
      Remove(key);
      return true;
    }

    method Clear()
      requires Valid()
      modifies this
      ensures Valid() && list == Next(old(list), maxEntries, RecencyList.Op.Clear)
    {
      var todo := items.Keys;
      while todo != {}
        invariant items.Keys == todo && nextAccessOrder == old(nextAccessOrder)
      {
        var key :| key in todo;
        todo := todo - {key};
        items := items - {key};
      }
      list := [];
    }

    method Len() returns (n: nat)
      requires Valid()
      ensures n == |list|
    {
      SameLength(items, list, nextAccessOrder);
      n := |items|;
    }
  }

  lemma {:induction false} LiveShrinks<T>(list: seq<Item<T>>, now: int)
    ensures |Live(list, now)| <= |list|
  {
    if list != [] {
      LiveShrinks(list[1..], now);
    }
  }
}
