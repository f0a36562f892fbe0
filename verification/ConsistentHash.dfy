/** The consistent-hash balancer (rpc/balancer.go): a ring of replica hashes, cached behind a signature. */
module ConsistentHash {
  import opened GoStrings
  import opened Endpoints

  /** `hashString` is an arbitrary function: nothing below depends on FNV. */
  type HashFunction = string -> nat

  const NUL: char := '\0'
  const COUNTER_RANGE: nat := 0x1_0000_0000_0000_0000

  /** The text hashed for replica `i` of endpoint `e`. */
  function Label(e: string, i: nat): string {
    e + "#" + Decimal(i)
  }

  /** Different replicas, of one endpoint or of two, have different texts. */
  lemma LabelsDiffer(e: string, i: nat, e': string, i': nat)
    requires Label(e, i) == Label(e', i')
    ensures e == e' && i == i'
  {
    DecimalHasDigits(i);
    DecimalHasDigits(i');
    var text := Label(e, i);
    assert forall k :: |e| < k < |text| ==> IsDigit(text[k]);
    assert forall k :: |e'| < k < |text| ==> IsDigit(text[k]);
    assert text[|e|] == '#' && text[|e'|] == '#';
    assert text[..|e|] == e && text[..|e'|] == e';
    assert text[|e| + 1..] == Decimal(i) && text[|e'| + 1..] == Decimal(i');
    DecimalIsInjective(i, i');
  }

  // ------------------------------------------------------- what a ring means

  /** Some replica of `e` has hash `h`. */
  ghost predicate Writes(hash: HashFunction, replicas: nat, e: string, h: nat) {
    exists i: nat :: i < replicas && hash(Label(e, i)) == h
  }

  /** Candidate `k` owns point `h`: it has a replica there and no later candidate has. */
  ghost predicate Owns(hash: HashFunction, replicas: nat, cands: seq<string>, h: nat, k: nat) {
    && k < |cands|
    && Writes(hash, replicas, cands[k], h)
    && forall j :: k < j < |cands| ==> !Writes(hash, replicas, cands[j], h)
  }

  ghost predicate OnRing(hash: HashFunction, replicas: nat, cands: seq<string>, h: nat) {
    exists k :: 0 <= k < |cands| && Writes(hash, replicas, cands[k], h)
  }

  /** `h` is the first point met clockwise from `key`: the least at or after it, else the least of all. */
  ghost predicate Clockwise(hash: HashFunction, replicas: nat, cands: seq<string>, key: nat, h: nat) {
    && OnRing(hash, replicas, cands, h)
    && forall h': nat :: OnRing(hash, replicas, cands, h') ==> if h >= key then h' < key || h <= h' else h <= h' < key
  }

  /** Endpoint `e` serves `key`: it owns the first point clockwise. */
  ghost predicate Serves(hash: HashFunction, replicas: nat, cands: seq<string>, key: nat, e: string) {
    exists h: nat, k: nat :: Clockwise(hash, replicas, cands, key, h) && Owns(hash, replicas, cands, h, k) && cands[k] == e
  }

  lemma ServerIsUnique(hash: HashFunction, replicas: nat, cands: seq<string>, key: nat, e: string, e': string)
    requires Serves(hash, replicas, cands, key, e) && Serves(hash, replicas, cands, key, e')
    ensures e == e'
  {
    var h: nat, k: nat :| Clockwise(hash, replicas, cands, key, h) && Owns(hash, replicas, cands, h, k) && cands[k] == e;
    var h': nat, k': nat :| Clockwise(hash, replicas, cands, key, h') && Owns(hash, replicas, cands, h', k') && cands[k'] == e';
    assert h == h';
    assert !(k < k') && !(k' < k);
  }

  // -------------------------------------------------------- removing a server

  lemma {:induction false} WithoutKeepsOwner(hash: HashFunction, replicas: nat, cands: seq<string>, gone: string, h: nat, k: nat) returns (k': nat)
    requires Owns(hash, replicas, cands, h, k) && cands[k] != gone
    ensures Owns(hash, replicas, Without(cands, gone), h, k') && Without(cands, gone)[k'] == cands[k]
  {
    var n := |cands| - 1;
    var init := Without(cands[..n], gone);
    if k == n {
      k' := |init|;
    } else {
      assert forall j :: k < j < n ==> cands[..n][j] == cands[j];
      k' := WithoutKeepsOwner(hash, replicas, cands[..n], gone, h, k);
    }
  }

  lemma OnRingWithout(hash: HashFunction, replicas: nat, cands: seq<string>, gone: string, h: nat)
    requires OnRing(hash, replicas, Without(cands, gone), h)
    ensures OnRing(hash, replicas, cands, h)
  {
    var rest := Without(cands, gone);
    var k :| 0 <= k < |rest| && Writes(hash, replicas, rest[k], h);
    assert rest[k] in cands;
  }

  /** Removing an endpoint changes the server of exactly the keys that were on it, for any hash function
      and any number of replicas, collisions and wrap-around included. */
  lemma RemovalMovesOnlyItsKeys(hash: HashFunction, replicas: nat, cands: seq<string>, gone: string, key: nat, before: string, after: string)
    requires Serves(hash, replicas, cands, key, before)
    requires Serves(hash, replicas, Without(cands, gone), key, after)
    ensures before == after <==> before != gone
  {
    var rest := Without(cands, gone);
    if before != gone {
      RemovalKeepsServer(hash, replicas, cands, gone, key, before);
      ServerIsUnique(hash, replicas, rest, key, before, after);
    } else {
      assert after in rest;
    }
  }

  lemma RemovalKeepsServer(hash: HashFunction, replicas: nat, cands: seq<string>, gone: string, key: nat, e: string)
    requires Serves(hash, replicas, cands, key, e) && e != gone
    ensures Serves(hash, replicas, Without(cands, gone), key, e)
  {
    var h: nat, k: nat :| Clockwise(hash, replicas, cands, key, h) && Owns(hash, replicas, cands, h, k) && cands[k] == e;
    var k' := WithoutKeepsOwner(hash, replicas, cands, gone, h, k);
    forall h': nat | OnRing(hash, replicas, Without(cands, gone), h') ensures OnRing(hash, replicas, cands, h') {
      OnRingWithout(hash, replicas, cands, gone, h');
    }
  }

  // ------------------------------------------------------------ building it

  /** The nodes map after the first `r` replicas of `e` were written over `nodes`. */
  function WriteNodes(hash: HashFunction, nodes: map<nat, string>, e: string, r: nat): map<nat, string> {
    if r == 0 then nodes else WriteNodes(hash, nodes, e, r - 1)[hash(Label(e, r - 1)) := e]
  }

  function NodesOf(hash: HashFunction, replicas: nat, cands: seq<string>): map<nat, string> {
    if cands == [] then map[]
    else WriteNodes(hash, NodesOf(hash, replicas, cands[..|cands| - 1]), cands[|cands| - 1], replicas)
  }

  function WritePoints(hash: HashFunction, ring: seq<nat>, e: string, r: nat): seq<nat> {
    if r == 0 then ring else WritePoints(hash, ring, e, r - 1) + [hash(Label(e, r - 1))]
  }

  function PointsOf(hash: HashFunction, replicas: nat, cands: seq<string>): seq<nat> {
    if cands == [] then []
    else WritePoints(hash, PointsOf(hash, replicas, cands[..|cands| - 1]), cands[|cands| - 1], replicas)
  }

  lemma {:induction false} WriteNodesAre(hash: HashFunction, nodes: map<nat, string>, e: string, r: nat, h: nat)
    ensures var after := WriteNodes(hash, nodes, e, r);
            if Writes(hash, r, e, h) then h in after && after[h] == e
            else (h in after <==> h in nodes) && (h in nodes ==> after[h] == nodes[h])
  {
    if r > 0 {
      WriteNodesAre(hash, nodes, e, r - 1, h);
    }
  }

  lemma {:induction false} WritePointsAre(hash: HashFunction, ring: seq<nat>, e: string, r: nat, h: nat)
    ensures h in WritePoints(hash, ring, e, r) <==> h in ring || Writes(hash, r, e, h)
    ensures |WritePoints(hash, ring, e, r)| == |ring| + r
  {
    if r > 0 {
      WritePointsAre(hash, ring, e, r - 1, h);
    }
  }

  /** The points of the ring are the replica hashes. */
  lemma {:induction false} PointsAreOnRing(hash: HashFunction, replicas: nat, cands: seq<string>, h: nat)
    ensures h in PointsOf(hash, replicas, cands) <==> OnRing(hash, replicas, cands, h)
    ensures |PointsOf(hash, replicas, cands)| >= (if cands == [] then 0 else replicas)
  {
    if cands != [] {
      var n := |cands| - 1;
      PointsAreOnRing(hash, replicas, cands[..n], h);
      WritePointsAre(hash, PointsOf(hash, replicas, cands[..n]), cands[n], replicas, h);
    }
  }

  /** The last writer of a point owns it. */
  lemma {:induction false} NodesAreOwners(hash: HashFunction, replicas: nat, cands: seq<string>, h: nat) returns (k: nat)
    requires OnRing(hash, replicas, cands, h)
    ensures h in NodesOf(hash, replicas, cands)
    ensures Owns(hash, replicas, cands, h, k) && NodesOf(hash, replicas, cands)[h] == cands[k]
  {
    var n := |cands| - 1;
    WriteNodesAre(hash, NodesOf(hash, replicas, cands[..n]), cands[n], replicas, h);
    if Writes(hash, replicas, cands[n], h) {
      k := n;
    } else {
      k := NodesAreOwners(hash, replicas, cands[..n], h);
      assert forall j :: k < j < n ==> cands[..n][j] == cands[j];
    }
  }

  // ------------------------------------------------------------ sorting it

  ghost predicate Ascending(s: seq<nat>) {
    forall i, j :: 0 <= i < j < |s| ==> s[i] <= s[j]
  }

  function Inserted(s: seq<nat>, x: nat): seq<nat> {
    if s == [] || x <= s[0] then [x] + s else [s[0]] + Inserted(s[1..], x)
  }

  /** What `sort.Slice` makes of a slice of hashes. */
  function Sorted(s: seq<nat>): seq<nat> {
    if s == [] then [] else Inserted(Sorted(s[1..]), s[0])
  }

  lemma {:induction false} InsertedMembers(s: seq<nat>, x: nat)
    ensures multiset(Inserted(s, x)) == multiset(s) + multiset{x}
  {
    if s == [] || x <= s[0] {
    } else {
      InsertedMembers(s[1..], x);
      assert s == [s[0]] + s[1..];
    }
  }

  lemma {:induction false} InsertedAscends(s: seq<nat>, x: nat)
    requires Ascending(s)
    ensures Ascending(Inserted(s, x))
  {
    if s == [] || x <= s[0] {
    } else {
      var tail := Inserted(s[1..], x);
      InsertedAscends(s[1..], x);
      forall i | 0 <= i < |tail| ensures s[0] <= tail[i] {
        InsertedMembers(s[1..], x);
        assert tail[i] in multiset(s[1..]) + multiset{x};
        assert tail[i] == x || tail[i] in s[1..];
      }
    }
  }

  lemma {:induction false} SortedAscends(s: seq<nat>)
    ensures Ascending(Sorted(s)) && multiset(Sorted(s)) == multiset(s)
  {
    if s != [] {
      SortedAscends(s[1..]);
      InsertedAscends(Sorted(s[1..]), s[0]);
      InsertedMembers(Sorted(s[1..]), s[0]);
      assert s == [s[0]] + s[1..];
    }
  }

  lemma SortedMembers(s: seq<nat>, h: nat)
    ensures h in Sorted(s) <==> h in s
    ensures |Sorted(s)| == |s|
  {
    SortedAscends(s);
    assert h in multiset(Sorted(s)) <==> h in multiset(s);
    assert |multiset(Sorted(s))| == |Sorted(s)|;
  }

  /** The first index whose hash is at or after `key`, by `sort.Search`. */
  method Search(ring: seq<nat>, key: nat) returns (idx: nat)
    requires Ascending(ring)
    ensures idx <= |ring|
    ensures forall j :: 0 <= j < idx ==> ring[j] < key
    ensures forall j :: idx <= j < |ring| ==> ring[j] >= key
  {
    idx := 0;
    var hi := |ring|;
    while idx < hi
      invariant idx <= hi <= |ring|
      invariant forall j :: 0 <= j < idx ==> ring[j] < key
      invariant forall j :: hi <= j < |ring| ==> ring[j] >= key
    {
      var mid := (idx + hi) / 2;
      if ring[mid] >= key {
        hi := mid;
      } else {
        idx := mid + 1;
      }
    }
  }

  /** The point found by the search on the sorted ring is the first clockwise, and its node serves the key. */
  lemma SearchFindsServer(hash: HashFunction, replicas: nat, cands: seq<string>, key: nat, idx: nat)
    requires var ring := Sorted(PointsOf(hash, replicas, cands));
             && idx < |ring|
             && (forall j :: 0 <= j < idx ==> ring[j] < key)
             && (ring[idx] >= key || (idx == 0 && forall j :: 0 <= j < |ring| ==> ring[j] < key))
    ensures var h := Sorted(PointsOf(hash, replicas, cands))[idx];
            h in NodesOf(hash, replicas, cands) && Serves(hash, replicas, cands, key, NodesOf(hash, replicas, cands)[h])
  {
    var ring := Sorted(PointsOf(hash, replicas, cands));
    var h := ring[idx];
    SortedAscends(PointsOf(hash, replicas, cands));
    forall h': nat ensures h' in ring <==> OnRing(hash, replicas, cands, h') {
      PointsAreOnRing(hash, replicas, cands, h');
      SortedMembers(PointsOf(hash, replicas, cands), h');
    }
    assert Clockwise(hash, replicas, cands, key, h) by {
      forall h': nat | OnRing(hash, replicas, cands, h')
        ensures if h >= key then h' < key || h <= h' else h <= h' < key
      {
        assert h' in ring;
      }
    }
    var k := NodesAreOwners(hash, replicas, cands, h);
  }

  // ---------------------------------------------------------- the signature

  ghost predicate NulFree(cands: seq<string>) {
    forall e :: e in cands ==> NUL !in e
  }

  /** Lists of NUL-free endpoints have different signatures. */
  lemma SignatureIsInjective(cands: seq<string>, cands': seq<string>)
    requires cands != [] && cands' != [] && NulFree(cands) && NulFree(cands')
    requires Join(cands, NUL) == Join(cands', NUL)
    ensures cands == cands'
  {
    SplitJoin(cands, NUL);
    SplitJoin(cands', NUL);
  }

  /** With NUL in an endpoint two lists share a signature, and the ring of one answers with an endpoint
      that the other does not have. */
  lemma SignatureCollidesOnNul(hash: HashFunction, replicas: nat, key: nat, e: string)
    ensures var one, two := ["a" + [NUL] + "b"], ["a", "b"];
            && IsCandidateList(one) && IsCandidateList(two) && one != two
            && Join(one, NUL) == Join(two, NUL)
            && (Serves(hash, replicas, one, key, e) ==> e !in two)
  {
    var one, two := ["a" + [NUL] + "b"], ["a", "b"];
    assert two[1..] == ["b"];
    assert Join(two, NUL) == "a" + [NUL] + Join(["b"], NUL);
    assert one[0] != two[0] && one[0] != two[1];
    if Serves(hash, replicas, one, key, e) {
      var h: nat, k: nat :| Clockwise(hash, replicas, one, key, h) && Owns(hash, replicas, one, h, k) && one[k] == e;
      assert k == 0;
    }
  }

  // ------------------------------------------------------------ the balancer

  /** The list behind the ring that a pick over `cands` uses. */
  ghost function CachedList(hasRing: bool, cached: seq<string>, cands: seq<string>): seq<string> {
    if hasRing && Join(cached, NUL) == Join(cands, NUL) then cached else cands
  }

  class ConsistentHashBalancer {
    const hash: HashFunction
    const replicas: nat
    const fixedKey: string
    var ring: seq<nat>
    var nodes: map<nat, string>
    var ringSignature: string
    var next: nat
    /** The list the cached ring was built from. */
    ghost var cached: seq<string>

    /** The ring, if there is one, is that of the cached list. */
    ghost predicate RingValid()
      reads this`ring, this`nodes, this`ringSignature, this`cached
    {
      ring != [] ==>
        && cached != []
        && ringSignature == Join(cached, NUL)
        && ring == Sorted(PointsOf(hash, replicas, cached))
        && nodes == NodesOf(hash, replicas, cached)
    }

    ghost predicate Valid()
      reads this
    {
      replicas > 0 && next < COUNTER_RANGE && RingValid()
    }

    constructor (hash: HashFunction, replicas: int, fixedKey: string)
      ensures Valid() && ring == []
      ensures this.hash == hash && this.fixedKey == fixedKey && this.replicas == if replicas > 0 then replicas else 64
    {
      this.hash := hash;
      this.replicas := if replicas > 0 then replicas else 64;
      this.fixedKey := fixedKey;
      ring, nodes, ringSignature, next, cached := [], map[], "", 0, [];
    }

    /** The ring for a list: the cached one when the signature agrees, else a new one. */
    method RingFor(cands: seq<string>) returns (r: seq<nat>, n: map<nat, string>)
      requires Valid() && cands != []
      modifies this
      ensures Valid() && next == old(next)
      ensures r == ring && n == nodes && r != []
      ensures cached == CachedList(old(ring) != [], old(cached), cands)
    {
      var signature := Join(cands, NUL);
      if ringSignature == signature && |ring| > 0 {
        return ring, nodes;
      }
      n, r := map[], [];
      for k := 0 to |cands|
        invariant n == NodesOf(hash, replicas, cands[..k])
        invariant r == PointsOf(hash, replicas, cands[..k])
      {
        ghost var n0, r0 := n, r;
        for i := 0 to replicas
          invariant n == WriteNodes(hash, n0, cands[k], i)
          invariant r == WritePoints(hash, r0, cands[k], i)
        {
          var h := hash(Label(cands[k], i));
          n := n[h := cands[k]];
          r := r + [h];
        }
        assert cands[..k + 1][..k] == cands[..k];
      }
      assert cands[..|cands|] == cands;
      PointsAreOnRing(hash, replicas, cands, 0);
      SortedMembers(r, 0);
      r := Sorted(r);
      ringSignature, ring, nodes, cached := signature, r, n, cands;
    }

    /** The lookup of Pick: the server of the key's hash on the ring of the cached list. */
    method Locate(cands: seq<string>, key: string) returns (e: string)
      requires Valid() && cands != []
      modifies this
      ensures Valid() && next == old(next) && ring != []
      ensures cached == CachedList(old(ring) != [], old(cached), cands)
      ensures Serves(hash, replicas, cached, hash(key), e)
    {
      var ring, nodes := RingFor(cands);
      SortedAscends(PointsOf(hash, replicas, cached));
      var idx := Search(ring, hash(key));
      if idx == |ring| {
        idx := 0;
      }
      SearchFindsServer(hash, replicas, cached, hash(key), idx);
      e := nodes[ring[idx]];
    }

    /** `RoundRobinBalancer.Pick` on the embedded counter. */
    method PickNext(endpoints: seq<string>) returns (r: Result<string, PickError>)
      modifies this`next
      ensures var cands := Normalized(endpoints);
              if cands == [] then r == Err(NoEndpoint) && next == old(next)
              else r == Ok(cands[old(next) % |cands|]) && next == (old(next) + 1) % COUNTER_RANGE
    {
      var cands := NormalizeEndpoints(endpoints);
      if |cands| == 0 {
        return Err(NoEndpoint);
      }
      var idx := next;
      next := (next + 1) % COUNTER_RANGE;
      return Ok(cands[idx % |cands|]);
    }

    method Pick(cancelled: bool, contextKey: string, endpoints: seq<string>) returns (r: Result<string, PickError>)
      requires Valid()
      modifies this
      ensures Valid()
      ensures cancelled ==> r == Err(Cancelled) && cached == old(cached)
      ensures !cancelled && Normalized(endpoints) == [] ==> r == Err(NoEndpoint) && cached == old(cached)
      ensures !cancelled && Normalized(endpoints) != [] && contextKey == "" && fixedKey == "" ==>
                && cached == old(cached)
                && var twice := Normalized(Normalized(endpoints));
                   if twice == [] then r == Err(NoEndpoint) && next == old(next)
                   else r == Ok(twice[old(next) % |twice|]) && next == (old(next) + 1) % COUNTER_RANGE
      ensures !cancelled && Normalized(endpoints) != [] && (contextKey != "" || fixedKey != "") ==>
                && r.Ok?
                && ring != []
                && cached == CachedList(old(ring) != [], old(cached), Normalized(endpoints))
                && Serves(hash, replicas, cached, hash(if contextKey != "" then contextKey else fixedKey), r.value)
    {
      if cancelled {
        return Err(Cancelled);
      }
      var cands := NormalizeEndpoints(endpoints);
      if |cands| == 0 {
        return Err(NoEndpoint);
      }
      var key := if contextKey != "" then contextKey else fixedKey;
      if key == "" {
        r := PickNext(cands);
        return;
      }
      var e := Locate(cands, key);
      return Ok(e);
    }
  }

  /** The cached list after picks over `lists`, starting without a ring. */
  ghost function CachedAfter(lists: seq<seq<string>>): seq<string> {
    if lists == [] then []
    else
      var n := |lists| - 1;
      CachedList(n > 0, CachedAfter(lists[..n]), lists[n])
  }

  /** Cache transparency: in any run of picks over non-empty lists of NUL-free endpoints, each pick is made on
      the ring of its own list, as if the ring had been built afresh. */
  lemma {:induction false} CacheIsTransparent(lists: seq<seq<string>>)
    requires lists != [] && forall i :: 0 <= i < |lists| ==> lists[i] != [] && NulFree(lists[i])
    ensures CachedAfter(lists) == lists[|lists| - 1]
  {
    var n := |lists| - 1;
    if n > 0 {
      CacheIsTransparent(lists[..n]);
      if Join(lists[n - 1], NUL) == Join(lists[n], NUL) {
        SignatureIsInjective(lists[n - 1], lists[n]);
      }
    }
  }

  /** Where the last stretch of picks over lists with one signature began. */
  ghost function FirstAlike(lists: seq<seq<string>>): (k: nat)
    requires lists != []
    ensures k < |lists|
  {
    var n := |lists| - 1;
    if n > 0 && Join(lists[n - 1], NUL) == Join(lists[n], NUL) then FirstAlike(lists[..n]) else n
  }

  /** For any lists at all: a pick is made on the ring of the list that began the last stretch of equal signatures, so it
      is made on the ring of its own list exactly when the two are the same list. */
  lemma {:induction false} CacheIsTransparentExactly(lists: seq<seq<string>>)
    requires lists != []
    ensures CachedAfter(lists) == lists[FirstAlike(lists)]
    ensures Join(CachedAfter(lists), NUL) == Join(lists[|lists| - 1], NUL)
  {
    var n := |lists| - 1;
    if n > 0 {
      CacheIsTransparentExactly(lists[..n]);
    }
  }
}
