/** What the cache is meant to be: a list of entries from the least to the most recently used (cache/cache.go). */
module RecencyList {
  import opened GoStrings

  /** A cached value with its deadlines; a missing deadline is Go's zero time. */
  datatype Entry<T> = Entry(value: T, expiresAt: Option<int>, staleUntil: Option<int>, negative: bool) {
    predicate Fresh(now: int) {
      expiresAt.None? || now < expiresAt.value
    }

    predicate Stale(now: int) {
      staleUntil.Some? && now < staleUntil.value
    }

    predicate Expired(now: int) {
      !Fresh(now) && !Stale(now)
    }
  }

  datatype Item<T> = Item(key: string, entry: Entry<T>)

  ghost predicate DistinctKeys<T>(list: seq<Item<T>>) {
    forall i, j :: 0 <= i < j < |list| ==> list[i].key != list[j].key
  }

  predicate HasKey<T>(list: seq<Item<T>>, key: string) {
    exists i :: 0 <= i < |list| && list[i].key == key
  }

  /** The entry of a key that is in the list. */
  function Find<T>(list: seq<Item<T>>, key: string): Entry<T>
    requires HasKey(list, key)
  {
    if list[0].key == key then list[0].entry
    else
      Find(list[1..], key)
  }

  // ------------------------------------------------------------ operations

  function Without<T>(list: seq<Item<T>>, key: string): seq<Item<T>> {
    if list == [] then []
    else if list[0].key == key then Without(list[1..], key)
    else [list[0]] + Without(list[1..], key)
  }

  /** The key becomes the most recently used, with this entry. */
  function Stored<T>(list: seq<Item<T>>, key: string, entry: Entry<T>): seq<Item<T>> {
    Without(list, key) + [Item(key, entry)]
  }

  function Live<T>(list: seq<Item<T>>, now: int): seq<Item<T>> {
    if list == [] then []
    else if list[0].entry.Expired(now) then Live(list[1..], now)
    else [list[0]] + Live(list[1..], now)
  }

  /** The most recently used entries, as many as the limit allows; no limit when it is not positive. */
  function Newest<T>(list: seq<Item<T>>, max: int): seq<Item<T>> {
    if max <= 0 || |list| <= max then list else list[|list| - max..]
  }

  function Evicted<T>(list: seq<Item<T>>, now: int, max: int): seq<Item<T>> {
    Newest(Live(list, now), max)
  }

  datatype Op<T> =
    | Store(key: string, entry: Entry<T>, now: int)
    | Use(key: string, now: int)
    | Delete(key: string)
    | Clear

  function Next<T>(list: seq<Item<T>>, max: int, op: Op<T>): seq<Item<T>> {
    match op
    case Store(key, entry, now) => Evicted(Stored(list, key, entry), now, max)
    case Use(key, now) =>
      if !HasKey(list, key) then list
      else if Find(list, key).Expired(now) then Without(list, key)
      else Stored(list, key, Find(list, key))
    case Delete(key) => Without(list, key)
    case Clear => []
  }

  function Run<T>(max: int, ops: seq<Op<T>>): seq<Item<T>> {
    if ops == [] then [] else Next(Run(max, ops[..|ops| - 1]), max, ops[|ops| - 1])
  }

  // ------------------------------------------------------- what they contain

  lemma {:induction false} WithoutMembers<T>(list: seq<Item<T>>, key: string, x: Item<T>)
    ensures x in Without(list, key) <==> x in list && x.key != key
    ensures |Without(list, key)| <= |list|
  {
    if list != [] {
      WithoutMembers(list[1..], key, x);
      assert list == [list[0]] + list[1..];
    }
  }

  lemma {:induction false} LiveMembers<T>(list: seq<Item<T>>, now: int, x: Item<T>)
    ensures x in Live(list, now) <==> x in list && !x.entry.Expired(now)
  {
    if list != [] {
      LiveMembers(list[1..], now, x);
      assert list == [list[0]] + list[1..];
    }
  }

  lemma {:induction false} FindIsEntry<T>(list: seq<Item<T>>, i: nat)
    requires DistinctKeys(list) && i < |list|
    ensures HasKey(list, list[i].key) && Find(list, list[i].key) == list[i].entry
  {
    if i > 0 {
      FindIsEntry(list[1..], i - 1);
    }
  }

  // ------------------------------------------------------ what order they keep

  /** The list is in strictly increasing rank. */
  ghost predicate SortedBy<T>(list: seq<Item<T>>, rank: string -> int) {
    forall i, j :: 0 <= i < j < |list| ==> rank(list[i].key) < rank(list[j].key)
  }

  ghost predicate Below<T>(list: seq<Item<T>>, rank: string -> int, bound: int) {
    forall i :: 0 <= i < |list| ==> rank(list[i].key) < bound
  }

  ghost predicate Above<T>(list: seq<Item<T>>, rank: string -> int, bound: int) {
    forall i :: 0 <= i < |list| ==> rank(list[i].key) > bound
  }

  lemma ConsSorted<T>(x: Item<T>, tail: seq<Item<T>>, rank: string -> int)
    requires SortedBy(tail, rank) && Above(tail, rank, rank(x.key))
    ensures SortedBy([x] + tail, rank)
  {
  }

  lemma {:induction false} WithoutSorted<T>(list: seq<Item<T>>, key: string, rank: string -> int, bound: int)
    requires SortedBy(list, rank)
    ensures SortedBy(Without(list, key), rank)
    ensures Above(list, rank, bound) ==> Above(Without(list, key), rank, bound)
    ensures Below(list, rank, bound) ==> Below(Without(list, key), rank, bound)
  {
    if list != [] {
      WithoutSorted(list[1..], key, rank, bound);
      WithoutSorted(list[1..], key, rank, rank(list[0].key));
      if list[0].key != key {
        ConsSorted(list[0], Without(list[1..], key), rank);
      }
    }
  }

  lemma {:induction false} LiveSorted<T>(list: seq<Item<T>>, now: int, rank: string -> int, bound: int)
    requires SortedBy(list, rank)
    ensures SortedBy(Live(list, now), rank)
    ensures Above(list, rank, bound) ==> Above(Live(list, now), rank, bound)
  {
    if list != [] {
      LiveSorted(list[1..], now, rank, bound);
      LiveSorted(list[1..], now, rank, rank(list[0].key));
      if !list[0].entry.Expired(now) {
        ConsSorted(list[0], Live(list[1..], now), rank);
      }
    }
  }

  // ------------------------------------------------------- eviction is LRU

  /** Eviction is exact LRU. For a list in recency order: with a positive limit the result fits it, nothing expired
      remains, and a live entry is removed only when the limit is full of more recently used live entries. */
  lemma EvictionIsLru<T>(list: seq<Item<T>>, now: int, max: int, rank: string -> int, x: Item<T>)
    requires SortedBy(list, rank)
    ensures max > 0 ==> |Evicted(list, now, max)| <= max
    ensures x in Evicted(list, now, max) ==> x in list && !x.entry.Expired(now)
    ensures x in list && !x.entry.Expired(now) && x !in Evicted(list, now, max) ==>
              && max > 0 && |Evicted(list, now, max)| == max
              && Above(Evicted(list, now, max), rank, rank(x.key))
  {
    var live, kept := Live(list, now), Evicted(list, now, max);
    LiveMembers(list, now, x);
    LiveSorted(list, now, rank, 0);
    if x in live && x !in kept {
      var i :| 0 <= i < |live| && live[i] == x;
      var drop := |live| - max;
      assert kept == live[drop..];
      forall m | drop <= m < |live| ensures live[m] in kept {
        assert live[m] == kept[m - drop];
      }
    }
  }

  /** A key just stored survives the eviction that follows unless it is already expired. */
  lemma StoredKeySurvives<T>(list: seq<Item<T>>, key: string, entry: Entry<T>, now: int, max: int)
    ensures var after := Next(list, max, Store(key, entry, now));
            if entry.Expired(now) then !HasKey(after, key)
            else |after| > 0 && after[|after| - 1] == Item(key, entry)
  {
    var x := Item(key, entry);
    LiveSnoc(Without(list, key), x, now);
    var live := Live(Stored(list, key, entry), now);
    var after := Newest(live, max);
    if entry.Expired(now) {
      forall i | 0 <= i < |after| ensures after[i].key != key {
        assert after[i] in live;
        LiveMembers(Without(list, key), now, after[i]);
        WithoutMembers(list, key, after[i]);
      }
    }
  }

  lemma {:induction false} LiveSnoc<T>(list: seq<Item<T>>, x: Item<T>, now: int)
    ensures Live(list + [x], now) == Live(list, now) + (if x.entry.Expired(now) then [] else [x])
  {
    if list != [] {
      LiveSnoc(list[1..], x, now);
      assert (list + [x])[1..] == list[1..] + [x];
    }
  }

  // ------------------------------------------------- recency over whole runs

  predicate Mentions<T>(op: Op<T>, key: string) {
    (op.Store? || op.Use?) && op.key == key
  }

  /** One more than the index of the last operation that stored or used the key. */
  function LastUse<T>(ops: seq<Op<T>>, key: string): nat {
    if ops == [] then 0
    else if Mentions(ops[|ops| - 1], key) then |ops|
    else LastUse(ops[..|ops| - 1], key)
  }

  lemma {:induction false} LastUseBounded<T>(ops: seq<Op<T>>, key: string)
    ensures LastUse(ops, key) <= |ops|
  {
    if ops != [] && !Mentions(ops[|ops| - 1], key) {
      LastUseBounded(ops[..|ops| - 1], key);
    }
  }

  function LastUseRank<T>(ops: seq<Op<T>>): string -> int {
    key => LastUse(ops, key)
  }

  lemma StoredSortedByUse<T>(list: seq<Item<T>>, ops: seq<Op<T>>, key: string, entry: Entry<T>)
    requires ops != [] && Mentions(ops[|ops| - 1], key)
    requires SortedBy(list, LastUseRank(ops[..|ops| - 1]))
    ensures SortedBy(Stored(list, key, entry), LastUseRank(ops))
  {
    var earlier, rest := ops[..|ops| - 1], Without(list, key);
    WithoutSorted(list, key, LastUseRank(earlier), 0);
    forall i | 0 <= i < |rest| ensures rest[i].key != key {
      WithoutMembers(list, key, rest[i]);
    }
    forall i | 0 <= i < |rest| ensures LastUseRank(ops)(rest[i].key) < |ops| {
      LastUseBounded(earlier, rest[i].key);
    }
  }

  /** In every run the list is in the order in which its keys were last stored or used, so the entries that
      eviction removes are the least recently used ones; and with a positive limit it never exceeds the limit. */
  lemma {:induction false} RunIsInRecencyOrder<T>(max: int, ops: seq<Op<T>>)
    ensures SortedBy(Run(max, ops), LastUseRank(ops))
    ensures max > 0 ==> |Run(max, ops)| <= max
  {
    if ops != [] {
      var earlier, op := ops[..|ops| - 1], ops[|ops| - 1];
      var list := Run(max, earlier);
      RunIsInRecencyOrder(max, earlier);
      match op
      case Store(key, entry, now) =>
        var stored := Stored(list, key, entry);
        StoredSortedByUse(list, ops, key, entry);
        LiveSorted(stored, now, LastUseRank(ops), 0);
      case Use(key, now) =>
        UseInRecencyOrder(max, ops, key, now);
      case Delete(key) =>
        WithoutSorted(list, key, LastUseRank(ops), 0);
        WithoutShrinks(list, key);
      case Clear =>
    }
  }

  lemma UseInRecencyOrder<T>(max: int, ops: seq<Op<T>>, key: string, now: int)
    requires ops != [] && ops[|ops| - 1] == Use(key, now)
    requires SortedBy(Run(max, ops[..|ops| - 1]), LastUseRank(ops[..|ops| - 1]))
    requires max > 0 ==> |Run(max, ops[..|ops| - 1])| <= max
    ensures SortedBy(Run(max, ops), LastUseRank(ops))
    ensures max > 0 ==> |Run(max, ops)| <= max
  {
    var earlier := ops[..|ops| - 1];
    var list := Run(max, earlier);
    if !HasKey(list, key) {
    } else {
      WithoutShrinks(list, key);
      if Find(list, key).Expired(now) {
        var rest := Without(list, key);
        WithoutSorted(list, key, LastUseRank(earlier), 0);
        forall i | 0 <= i < |rest| ensures rest[i].key != key {
          WithoutMembers(list, key, rest[i]);
        }
      } else {
        StoredSortedByUse(list, ops, key, Find(list, key));
      }
    }
  }

  lemma {:induction false} WithoutShrinks<T>(list: seq<Item<T>>, key: string)
    ensures |Without(list, key)| <= |list|
    ensures HasKey(list, key) ==> |Without(list, key)| < |list|
  {
    if list != [] {
      WithoutShrinks(list[1..], key);
    }
  }

  /** Exact LRU over whole runs: when the last operation stores a key, a live entry of another key is lost only because
      the limit is full of keys that were all stored or used later in the run than it was. */
  lemma StoreEvictsLeastRecentlyUsed<T>(max: int, ops: seq<Op<T>>, x: Item<T>)
    requires ops != [] && ops[|ops| - 1].Store?
    requires x in Run(max, ops[..|ops| - 1]) && x.key != ops[|ops| - 1].key && !x.entry.Expired(ops[|ops| - 1].now)
    requires x !in Run(max, ops)
    ensures max > 0 && |Run(max, ops)| == max
    ensures forall y :: y in Run(max, ops) ==> LastUse(ops, x.key) < LastUse(ops, y.key)
  {
    var earlier, op := ops[..|ops| - 1], ops[|ops| - 1];
    var list := Run(max, earlier);
    RunIsInRecencyOrder(max, earlier);
    StoredSortedByUse(list, ops, op.key, op.entry);
    WithoutMembers(list, op.key, x);
    EvictionIsLru(Stored(list, op.key, op.entry), op.now, max, LastUseRank(ops), x);
  }

  // --------------------------------------------- which entries a run leaves

  /** Operation `i` stored the item, and its key was neither stored again nor deleted nor cleared after that. */
  ghost predicate StoredLast<T>(ops: seq<Op<T>>, i: nat, x: Item<T>) {
    && i < |ops| && ops[i].Store? && ops[i].key == x.key && ops[i].entry == x.entry
    && forall j :: i < j < |ops| ==> !(ops[j].Store? && ops[j].key == x.key) && ops[j] != Delete(x.key) && !ops[j].Clear?
  }

  /** Both deadlines have passed, of which the first is there. */
  ghost predicate IsDead<T>(e: Entry<T>, now: int) {
    e.expiresAt.Some? && now >= e.expiresAt.value && (e.staleUntil.None? || now >= e.staleUntil.value)
  }

  /** From operation `i` on, no store, and no use of the key itself, came at a time when the item was dead. */
  ghost predicate Outlives<T>(ops: seq<Op<T>>, i: nat, x: Item<T>) {
    forall j :: i <= j < |ops| && (ops[j].Store? || (ops[j].Use? && ops[j].key == x.key)) ==> !IsDead(x.entry, ops[j].now)
  }

  ghost predicate IsOrigin<T>(ops: seq<Op<T>>, i: nat, x: Item<T>) {
    StoredLast(ops, i, x) && Outlives(ops, i, x)
  }

  lemma ExpiredIsDead<T>(e: Entry<T>, now: int)
    ensures e.Expired(now) <==> IsDead(e, now)
  {
  }

  lemma {:induction false} FindIsThere<T>(list: seq<Item<T>>, key: string)
    requires HasKey(list, key)
    ensures Item(key, Find(list, key)) in list
  {
    if list[0].key == key {
      assert list[0] == Item(key, Find(list, key));
    } else {
      FindIsThere(list[1..], key);
    }
  }

  lemma MemberHasKey<T>(list: seq<Item<T>>, x: Item<T>)
    requires x in list
    ensures HasKey(list, x.key)
  {
  }

  lemma StoredMembers<T>(list: seq<Item<T>>, key: string, entry: Entry<T>, x: Item<T>)
    ensures x in Stored(list, key, entry) <==> x == Item(key, entry) || (x in list && x.key != key)
  {
    WithoutMembers(list, key, x);
  }

  lemma NewestMembers<T>(list: seq<Item<T>>, max: int, x: Item<T>)
    ensures x in Newest(list, max) ==> x in list
    ensures max <= 0 && x in list ==> x in Newest(list, max)
  {
  }

  /** What one operation does to an item: it puts it there, or leaves it there. */
  lemma StepMembers<T>(list: seq<Item<T>>, max: int, op: Op<T>, x: Item<T>)
    requires x in Next(list, max, op)
    ensures (op.Store? && op.key == x.key && op.entry == x.entry) ||
            (x in list && !(op.Store? && op.key == x.key) && op != Delete(x.key) && !op.Clear?)
    ensures op.Store? || (op.Use? && op.key == x.key) ==> !IsDead(x.entry, op.now)
  {
    ExpiredIsDead(x.entry, if op.Store? || op.Use? then op.now else 0);
    match op
    case Store(key, entry, now) =>
      NewestMembers(Live(Stored(list, key, entry), now), max, x);
      LiveMembers(Stored(list, key, entry), now, x);
      StoredMembers(list, key, entry, x);
    case Use(key, now) =>
      if !HasKey(list, key) {
        MemberHasKey(list, x);
      } else {
        FindIsThere(list, key);
        WithoutMembers(list, key, x);
        StoredMembers(list, key, Find(list, key), x);
      }
    case Delete(key) => WithoutMembers(list, key, x);
    case Clear =>
  }

  lemma OriginGrows<T>(ops: seq<Op<T>>, i: nat, x: Item<T>)
    requires ops != [] && IsOrigin(ops[..|ops| - 1], i, x)
    requires var op := ops[|ops| - 1];
             && !(op.Store? && op.key == x.key) && op != Delete(x.key) && !op.Clear?
             && (op.Store? || (op.Use? && op.key == x.key) ==> !IsDead(x.entry, op.now))
    ensures IsOrigin(ops, i, x)
  {
    forall j | i <= j < |ops| - 1 ensures ops[j] == ops[..|ops| - 1][j] {}
  }

  /** Every entry in the cache is the one that the last store of its key stored, and is neither deleted, cleared nor dead:
      using a key changes its place and nothing else. */
  lemma {:induction false} EntriesHaveOrigins<T>(max: int, ops: seq<Op<T>>, x: Item<T>) returns (i: nat)
    requires x in Run(max, ops)
    ensures IsOrigin(ops, i, x)
  {
    var n := |ops| - 1;
    StepMembers(Run(max, ops[..n]), max, ops[n], x);
    if ops[n].Store? && ops[n].key == x.key && ops[n].entry == x.entry {
      i := n;
    } else {
      i := EntriesHaveOrigins(max, ops[..n], x);
      OriginGrows(ops, i, x);
    }
  }

  lemma SortedIsDistinct<T>(list: seq<Item<T>>, rank: string -> int)
    requires SortedBy(list, rank)
    ensures DistinctKeys(list)
  {
    forall i, j | 0 <= i < j < |list| ensures list[i].key != list[j].key {
      assert rank(list[i].key) < rank(list[j].key);
    }
  }

  /** An operation that neither stores nor removes the item keeps it, as long as there is no limit. */
  lemma StepKeeps<T>(list: seq<Item<T>>, max: int, op: Op<T>, x: Item<T>)
    requires x in list && DistinctKeys(list) && (max <= 0 || !op.Store?)
    requires !(op.Store? && op.key == x.key) && op != Delete(x.key) && !op.Clear?
    requires op.Store? || (op.Use? && op.key == x.key) ==> !IsDead(x.entry, op.now)
    ensures x in Next(list, max, op)
  {
    ExpiredIsDead(x.entry, if op.Store? || op.Use? then op.now else 0);
    match op
    case Store(key, entry, now) =>
      StoredMembers(list, key, entry, x);
      LiveMembers(Stored(list, key, entry), now, x);
      NewestMembers(Live(Stored(list, key, entry), now), max, x);
    case Use(key, now) =>
      if HasKey(list, key) {
        var i :| 0 <= i < |list| && list[i] == x;
        FindIsEntry(list, i);
        WithoutMembers(list, key, x);
        StoredMembers(list, key, Find(list, key), x);
      }
    case Delete(key) => WithoutMembers(list, key, x);
  }

  lemma StoreAdds<T>(list: seq<Item<T>>, max: int, x: Item<T>, now: int)
    requires max <= 0 && !IsDead(x.entry, now)
    ensures x in Next(list, max, Store(x.key, x.entry, now))
  {
    ExpiredIsDead(x.entry, now);
    StoredMembers(list, x.key, x.entry, x);
    LiveMembers(Stored(list, x.key, x.entry), now, x);
    NewestMembers(Live(Stored(list, x.key, x.entry), now), max, x);
  }

  lemma {:induction false} OriginsAreKept<T>(max: int, ops: seq<Op<T>>, i: nat, x: Item<T>)
    requires max <= 0 && IsOrigin(ops, i, x)
    ensures x in Run(max, ops)
    decreases |ops|
  {
    var n := |ops| - 1;
    if i == n {
      StoreAdds(Run(max, ops[..n]), max, x, ops[n].now);
    } else {
      assert IsOrigin(ops[..n], i, x);
      OriginsAreKept(max, ops[..n], i, x);
      RunIsInRecencyOrder(max, ops[..n]);
      SortedIsDistinct(Run(max, ops[..n]), LastUseRank(ops[..n]));
      StepKeeps(Run(max, ops[..n]), max, ops[n], x);
    }
  }

  /** Without a limit, the cache holds exactly the entries last stored under their keys that are still alive. */
  lemma UnlimitedRunHoldsExactly<T>(max: int, ops: seq<Op<T>>, x: Item<T>)
    requires max <= 0
    ensures x in Run(max, ops) <==> exists i: nat :: IsOrigin(ops, i, x)
  {
    if x in Run(max, ops) {
      var i := EntriesHaveOrigins(max, ops, x);
    }
    if i: nat :| IsOrigin(ops, i, x) {
      OriginsAreKept(max, ops, i, x);
    }
  }

  /** With a limit, an entry is lost to another operation than a store only when its key is deleted, the cache is cleared, or
      its key is used when it is dead. */
  lemma LostExactlyWhenRemoved<T>(max: int, ops: seq<Op<T>>, x: Item<T>)
    requires ops != [] && !ops[|ops| - 1].Store? && x in Run(max, ops[..|ops| - 1])
    ensures var op := ops[|ops| - 1];
            x !in Run(max, ops) <==>
            op == Delete(x.key) || op.Clear? || (op.Use? && op.key == x.key && IsDead(x.entry, op.now))
  {
    var n := |ops| - 1;
    var list := Run(max, ops[..n]);
    RunIsInRecencyOrder(max, ops[..n]);
    SortedIsDistinct(list, LastUseRank(ops[..n]));
    if x in Run(max, ops) {
      StepMembers(list, max, ops[n], x);
    } else if !(ops[n] == Delete(x.key) || ops[n].Clear? || (ops[n].Use? && ops[n].key == x.key && IsDead(x.entry, ops[n].now))) {
      StepKeeps(list, max, ops[n], x);
    }
  }
}
