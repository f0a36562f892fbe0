/** The gateway's route table (gateway/gateway.go): routes kept sorted by decreasing prefix length, with the first match
    taken, against longest-prefix match on path segments. */
module Routes {
  import opened GoStrings

  /** A route, with the fields that matching does not look at as one value. */
  datatype Route = Route(verb: string, pathPrefix: string, settings: int)

  datatype RouteError = RouteRequired | RouteExists | NoRoute

  /** What normalisation makes of the other fields of a route, if it accepts them. */
  type Settings = Route -> Option<int>

  // ---------------------------------------------------------- normalisation

  function UpperChar(c: char): char {
    if 'a' <= c <= 'z' then (c as int - 32) as char else c
  }

  function ToUpper(s: string): string {
    seq(|s|, i requires 0 <= i < |s| => UpperChar(s[i]))
  }

  /** `cleanPrefix`. */
  function CleanPrefix(prefix: string): string {
    var p := TrimSpace(prefix);
    if p == "" then "" else TrimRight(if p[0] == '/' then p else "/" + p, '/')
  }

  function NormalPrefix(prefix: string): string {
    if CleanPrefix(prefix) == "" then "/" else CleanPrefix(prefix)
  }

  function NormalVerb(verb: string): string {
    ToUpper(TrimSpace(verb))
  }

  /** `normalizeRoute`. */
  function NormalRoute(route: Route, settings: Settings): Result<Route, RouteError> {
    var accepted := settings(route);
    if accepted.None? then Err(RouteRequired)
    else Ok(Route(NormalVerb(route.verb), NormalPrefix(route.pathPrefix), accepted.value))
  }

  /** The root, or a path that starts with a slash and ends in something else. */
  predicate IsNormal(prefix: string) {
    prefix == "/" || (|prefix| >= 2 && prefix[0] == '/' && prefix[|prefix| - 1] != '/')
  }

  lemma {:induction false} TrimRightEnd(s: string, c: char)
    ensures TrimRight(s, c) <= s && (TrimRight(s, c) == "" || TrimRight(s, c)[|TrimRight(s, c)| - 1] != c)
  {
    if s != "" && s[|s| - 1] == c {
      TrimRightEnd(s[..|s| - 1], c);
    }
  }

  lemma NormalPrefixIsNormal(prefix: string)
    ensures IsNormal(NormalPrefix(prefix))
  {
    var p := TrimSpace(prefix);
    if p != "" {
      TrimRightEnd(if p[0] == '/' then p else "/" + p, '/');
    }
  }

  // ---------------------------------------------------------------- matching

  /** `matchPathPrefix`. */
  predicate MatchPathPrefix(path: string, prefix: string) {
    prefix == "/" || path == prefix || TrimRight(prefix, '/') + "/" <= path
  }

  predicate Serves(route: Route, verb: string, path: string) {
    (route.verb == "" || route.verb == verb) && MatchPathPrefix(path, route.pathPrefix)
  }

  /** What a prefix means: every path, or the paths whose segments begin with those of the prefix. */
  predicate CoversSegments(path: string, prefix: string) {
    prefix == "/" || Split(prefix, '/') <= Split(path, '/')
  }

  lemma {:induction false} JoinConcat(a: seq<string>, b: seq<string>, sep: char)
    requires a != [] && b != []
    ensures Join(a + b, sep) == Join(a, sep) + ([sep] + Join(b, sep))
  {
    assert (a + b)[1..] == a[1..] + b;
    if |a| > 1 {
      JoinConcat(a[1..], b, sep);
      assert a[0] + [sep] + (Join(a[1..], sep) + ([sep] + Join(b, sep))) ==
             (a[0] + [sep] + Join(a[1..], sep)) + ([sep] + Join(b, sep));
    } else {
      assert a[1..] + b == b;
    }
  }

  lemma SplitConcat(a: string, b: string, sep: char)
    ensures Split(a + ([sep] + b), sep) == Split(a, sep) + Split(b, sep)
  {
    JoinSplit(a, sep);
    JoinSplit(b, sep);
    JoinConcat(Split(a, sep), Split(b, sep), sep);
    SplitJoin(Split(a, sep) + Split(b, sep), sep);
  }

  lemma SegmentsFromMatch(path: string, prefix: string)
    requires prefix + "/" <= path
    ensures Split(prefix, '/') <= Split(path, '/')
  {
    var rest := path[|prefix| + 1..];
    assert path == prefix + (['/'] + rest);
    SplitConcat(prefix, rest, '/');
  }

  lemma BeginsWith(path: string, prefix: string, more: string)
    requires path == prefix + (['/'] + more)
    ensures prefix + "/" <= path
  {
    assert path == (prefix + ['/']) + more && ['/'] == "/";
  }

  lemma MatchFromSegments(path: string, prefix: string)
    requires Split(prefix, '/') <= Split(path, '/')
    ensures path == prefix || prefix + "/" <= path
  {
    var p, rest := Split(prefix, '/'), Split(path, '/')[|Split(prefix, '/')|..];
    JoinSplit(prefix, '/');
    JoinSplit(path, '/');
    assert Split(path, '/') == p + rest;
    if rest == [] {
      assert p + rest == p;
    } else {
      JoinConcat(p, rest, '/');
      BeginsWith(path, prefix, Join(rest, '/'));
    }
  }

  /** The textual test on a normal prefix is the segment-wise one: `/a/b` covers `/a/b` and `/a/b/c`, not `/a/bc`. */
  lemma MatchIsSegmentPrefix(path: string, prefix: string)
    requires IsNormal(prefix)
    ensures MatchPathPrefix(path, prefix) <==> CoversSegments(path, prefix)
  {
    if prefix != "/" {
      if prefix + "/" <= path {
        SegmentsFromMatch(path, prefix);
      }
      if Split(prefix, '/') <= Split(path, '/') {
        MatchFromSegments(path, prefix);
      }
    }
  }

  /** Two normal prefixes of one length that match the same path are the same prefix. */
  lemma EquallyLongMatchesAreEqual(path: string, p: string, q: string)
    requires IsNormal(p) && IsNormal(q) && |p| == |q|
    requires MatchPathPrefix(path, p) && MatchPathPrefix(path, q)
    ensures p == q
  {
    if p != "/" && q != "/" {
      assert p <= path && q <= path;
      assert p == path[..|p|] && q == path[..|q|];
    }
  }

  // ----------------------------------------------------------------- sorting

  ghost predicate Ordered(table: seq<Route>) {
    forall i, j :: 0 <= i < j < |table| ==> |table[i].pathPrefix| >= |table[j].pathPrefix|
  }

  /** The routes with prefixes of one length, in table order. */
  function OfLength(table: seq<Route>, n: nat): seq<Route> {
    if table == [] then []
    else
      var last := table[|table| - 1];
      OfLength(table[..|table| - 1], n) + if |last.pathPrefix| == n then [last] else []
  }

  /** What a stable sort by decreasing prefix length promises. */
  ghost predicate IsStableSort(before: seq<Route>, after: seq<Route>) {
    Ordered(after) && SameByLength(after, before)
  }

  ghost predicate SameByLength(a: seq<Route>, b: seq<Route>) {
    forall n: nat :: OfLength(a, n) == OfLength(b, n)
  }

  function Inserted(table: seq<Route>, route: Route): seq<Route> {
    if table == [] then [route]
    else
      var last := table[|table| - 1];
      if |last.pathPrefix| >= |route.pathPrefix| then table + [route]
      else Inserted(table[..|table| - 1], route) + [last]
  }

  function StableSorted(routes: seq<Route>): seq<Route> {
    if routes == [] then [] else Inserted(StableSorted(routes[..|routes| - 1]), routes[|routes| - 1])
  }

  lemma {:induction false} InsertedMembers(table: seq<Route>, route: Route, r: Route)
    ensures r in Inserted(table, route) <==> r in table || r == route
  {
    if table != [] {
      var init, last := table[..|table| - 1], table[|table| - 1];
      assert table == init + [last];
      InsertedMembers(init, route, r);
    }
  }

  lemma {:induction false} InsertedOrdered(table: seq<Route>, route: Route)
    requires Ordered(table)
    ensures Ordered(Inserted(table, route))
  {
    if table != [] {
      var init, last := table[..|table| - 1], table[|table| - 1];
      if |last.pathPrefix| >= |route.pathPrefix| {
      } else {
        InsertedOrdered(init, route);
        forall r | r in Inserted(init, route) ensures |r.pathPrefix| >= |last.pathPrefix| {
          InsertedMembers(init, route, r);
        }
      }
    }
  }

  lemma {:induction false} InsertedOfLength(table: seq<Route>, route: Route, n: nat)
    ensures OfLength(Inserted(table, route), n) == OfLength(table, n) + if |route.pathPrefix| == n then [route] else []
  {
    if table == [] {
      assert [] + [route] == [route];
    } else {
      var init, last := table[..|table| - 1], table[|table| - 1];
      if |last.pathPrefix| >= |route.pathPrefix| {
      } else {
        InsertedOfLength(init, route, n);
      }
    }
  }

  lemma {:induction false} StableSortedIsStableSort(routes: seq<Route>)
    ensures IsStableSort(routes, StableSorted(routes))
  {
    if routes != [] {
      var init, last := routes[..|routes| - 1], routes[|routes| - 1];
      StableSortedIsStableSort(init);
      InsertedOrdered(StableSorted(init), last);
      forall n: nat ensures OfLength(StableSorted(routes), n) == OfLength(routes, n) {
        InsertedOfLength(StableSorted(init), last, n);
      }
    }
  }

  lemma {:induction false} OfLengthMember(table: seq<Route>, r: Route, n: nat)
    ensures r in OfLength(table, n) <==> r in table && |r.pathPrefix| == n
  {
    if table != [] {
      var init, last := table[..|table| - 1], table[|table| - 1];
      assert table == init + [last];
      OfLengthMember(init, r, n);
    }
  }

  lemma LastIsCounted(table: seq<Route>)
    ensures table != [] ==> OfLength(table, |table[|table| - 1].pathPrefix|) != []
  {
  }

  /** The promise determines the result: any two stable sorts of one table are equal. */
  lemma {:induction false} StableSortIsUnique(a: seq<Route>, b: seq<Route>)
    requires Ordered(a) && Ordered(b) && SameByLength(a, b)
    ensures a == b
  {
    BothEmpty(a, b);
    if a != [] {
      LastLengthsAgree(a, b);
      LastsAgree(a, b);
      StableSortIsUnique(a[..|a| - 1], b[..|b| - 1]);
      assert a == a[..|a| - 1] + [a[|a| - 1]] && b == b[..|b| - 1] + [b[|b| - 1]];
    }
  }

  lemma BothEmpty(a: seq<Route>, b: seq<Route>)
    requires SameByLength(a, b)
    ensures a == [] <==> b == []
  {
    LastIsCounted(a);
    LastIsCounted(b);
  }

  lemma SameMembers(a: seq<Route>, b: seq<Route>, r: Route)
    requires SameByLength(a, b)
    ensures r in a <==> r in b
  {
    OfLengthMember(a, r, |r.pathPrefix|);
    OfLengthMember(b, r, |r.pathPrefix|);
  }

  lemma LastLengthsAgree(a: seq<Route>, b: seq<Route>)
    requires a != [] && b != [] && Ordered(a) && Ordered(b) && SameByLength(a, b)
    ensures |a[|a| - 1].pathPrefix| == |b[|b| - 1].pathPrefix|
  {
    var x, y := a[|a| - 1], b[|b| - 1];
    SameMembers(a, b, x);
    SameMembers(a, b, y);
  }

  lemma LastsAgree(a: seq<Route>, b: seq<Route>)
    requires a != [] && b != [] && |a[|a| - 1].pathPrefix| == |b[|b| - 1].pathPrefix|
    requires SameByLength(a, b)
    ensures a[|a| - 1] == b[|b| - 1]
    ensures SameByLength(a[..|a| - 1], b[..|b| - 1])
  {
    var a', x, b', y := a[..|a| - 1], a[|a| - 1], b[..|b| - 1], b[|b| - 1];
    var m := |x.pathPrefix|;
    assert OfLength(a', m) + [x] == OfLength(a, m) == OfLength(b, m) == OfLength(b', m) + [y];
    SnocIsInjective(OfLength(a', m), x, OfLength(b', m), y);
    forall n: nat ensures OfLength(a', n) == OfLength(b', n) {
      if n != m {
        assert OfLength(a, n) == OfLength(a', n) && OfLength(b, n) == OfLength(b', n);
      }
    }
  }

  lemma SnocIsInjective<T>(s: seq<T>, x: T, t: seq<T>, y: T)
    requires s + [x] == t + [y]
    ensures s == t && x == y
  {
    assert |s + [x]| == |t + [y]|;
    assert s == (s + [x])[..|s|] && t == (t + [y])[..|t|];
    assert x == (s + [x])[|s|] && y == (t + [y])[|t|];
  }

  /** A sorted table is left as it is. */
  lemma OrderedIsStable(table: seq<Route>)
    requires Ordered(table)
    ensures StableSorted(table) == table
  {
    StableSortedIsStableSort(table);
    StableSortIsUnique(StableSorted(table), table);
  }

  lemma StableSortedMembers(routes: seq<Route>, r: Route)
    ensures r in StableSorted(routes) <==> r in routes
  {
    StableSortedIsStableSort(routes);
    SameMembers(StableSorted(routes), routes, r);
  }

  // --------------------------------------------------------------- operations

  /** `routeIndex`, as a search from the front. */
  function RouteIndex(table: seq<Route>, verb: string, prefix: string): (k: nat)
    ensures k <= |table|
    ensures k < |table| ==> HasKey(table[k], verb, prefix)
    ensures forall i :: 0 <= i < k ==> !HasKey(table[i], verb, prefix)
  {
    if table == [] || HasKey(table[0], verb, prefix) then 0
    else
      var k := RouteIndex(table[1..], verb, prefix);
      assert forall i :: 0 < i < k + 1 ==> table[i] == table[1..][i - 1];
      k + 1
  }

  predicate HasKey(route: Route, verb: string, prefix: string) {
    route.verb == verb && route.pathPrefix == prefix
  }

  predicate SameKey(a: Route, b: Route) {
    HasKey(a, b.verb, b.pathPrefix)
  }

  datatype Op =
    | Add(route: Route)
    | Update(route: Route)
    | Upsert(route: Route)
    | Remove(verb: string, prefix: string)
    | Set(routes: seq<Route>)

  function Added(table: seq<Route>, r: Route): Result<seq<Route>, RouteError> {
    if RouteIndex(table, r.verb, r.pathPrefix) < |table| then Err(RouteExists) else Ok(StableSorted(table + [r]))
  }

  function Updated(table: seq<Route>, r: Route): Result<seq<Route>, RouteError> {
    var k := RouteIndex(table, r.verb, r.pathPrefix);
    if k == |table| then Err(NoRoute) else Ok(StableSorted(table[k := r]))
  }

  function Upserted(table: seq<Route>, r: Route): seq<Route> {
    var k := RouteIndex(table, r.verb, r.pathPrefix);
    StableSorted(if k < |table| then table[k := r] else table + [r])
  }

  function Removed(table: seq<Route>, verb: string, prefix: string): Result<seq<Route>, RouteError> {
    var k := RouteIndex(table, NormalVerb(verb), NormalPrefix(prefix));
    if k == |table| then Err(NoRoute) else Ok(table[..k] + table[k + 1..])
  }

  function NormalRoutes(routes: seq<Route>, settings: Settings): Result<seq<Route>, RouteError> {
    if routes == [] then Ok([])
    else
      var init := NormalRoutes(routes[..|routes| - 1], settings);
      if init.Err? then init
      else
        var last := NormalRoute(routes[|routes| - 1], settings);
        if last.Err? then Err(last.error) else Ok(init.value + [last.value])
  }

  function Replaced(routes: seq<Route>, settings: Settings): Result<seq<Route>, RouteError> {
    var normal := NormalRoutes(routes, settings);
    if routes == [] then Err(RouteRequired) else if normal.Err? then normal else Ok(StableSorted(normal.value))
  }

  function Outcome(table: seq<Route>, op: Op, settings: Settings): Result<seq<Route>, RouteError> {
    match op
    case Add(route) =>
      var r := NormalRoute(route, settings);
      if r.Err? then Err(r.error) else Added(table, r.value)
    case Update(route) =>
      var r := NormalRoute(route, settings);
      if r.Err? then Err(r.error) else Updated(table, r.value)
    case Upsert(route) =>
      var r := NormalRoute(route, settings);
      if r.Err? then Err(r.error) else Ok(Upserted(table, r.value))
    case Remove(verb, prefix) => Removed(table, verb, prefix)
    case Set(routes) => Replaced(routes, settings)
  }

  function ErrorOf(r: Result<seq<Route>, RouteError>): Option<RouteError> {
    if r.Err? then Some(r.error) else None
  }

  /** An operation that fails leaves the table alone. */
  function Next(table: seq<Route>, op: Op, settings: Settings): seq<Route> {
    var r := Outcome(table, op, settings);
    if r.Err? then table else r.value
  }

  function Run(ops: seq<Op>, settings: Settings): seq<Route> {
    if ops == [] then [] else Next(Run(ops[..|ops| - 1], settings), ops[|ops| - 1], settings)
  }

  // -------------------------------------------------------- what runs preserve

  ghost predicate AllNormal(table: seq<Route>) {
    forall i :: 0 <= i < |table| ==> IsNormal(table[i].pathPrefix)
  }

  ghost predicate UniqueKeys(table: seq<Route>) {
    forall i, j :: 0 <= i < j < |table| ==> !SameKey(table[i], table[j])
  }

  lemma SortedIsNormal(routes: seq<Route>)
    requires AllNormal(routes)
    ensures Ordered(StableSorted(routes)) && AllNormal(StableSorted(routes))
  {
    StableSortedIsStableSort(routes);
    var sorted := StableSorted(routes);
    forall i | 0 <= i < |sorted| ensures IsNormal(sorted[i].pathPrefix) {
      StableSortedMembers(routes, sorted[i]);
    }
  }

  lemma {:induction false} NormalRoutesAreNormal(routes: seq<Route>, settings: Settings)
    ensures NormalRoutes(routes, settings).Ok? ==> AllNormal(NormalRoutes(routes, settings).value)
  {
    if routes != [] {
      NormalRoutesAreNormal(routes[..|routes| - 1], settings);
      NormalPrefixIsNormal(routes[|routes| - 1].pathPrefix);
    }
  }

  lemma StoreKeepsOrder(table: seq<Route>, r: Route)
    requires AllNormal(table) && IsNormal(r.pathPrefix)
    ensures Ordered(Upserted(table, r)) && AllNormal(Upserted(table, r))
    ensures Added(table, r).Ok? ==> Added(table, r).value == Upserted(table, r)
    ensures Updated(table, r).Ok? ==> Updated(table, r).value == Upserted(table, r)
  {
    var k := RouteIndex(table, r.verb, r.pathPrefix);
    SortedIsNormal(if k < |table| then table[k := r] else table + [r]);
  }

  lemma RemoveKeepsOrder(table: seq<Route>, verb: string, prefix: string)
    requires Ordered(table) && AllNormal(table) && Removed(table, verb, prefix).Ok?
    ensures Ordered(Removed(table, verb, prefix).value) && AllNormal(Removed(table, verb, prefix).value)
  {
  }

  lemma ReplaceKeepsOrder(routes: seq<Route>, settings: Settings)
    requires Replaced(routes, settings).Ok?
    ensures Ordered(Replaced(routes, settings).value) && AllNormal(Replaced(routes, settings).value)
  {
    NormalRoutesAreNormal(routes, settings);
    SortedIsNormal(NormalRoutes(routes, settings).value);
  }

  lemma StepKeepsOrder(table: seq<Route>, op: Op, settings: Settings)
    requires Ordered(table) && AllNormal(table)
    ensures Ordered(Next(table, op, settings)) && AllNormal(Next(table, op, settings))
  {
    if op.Remove? {
      if Removed(table, op.verb, op.prefix).Ok? {
        RemoveKeepsOrder(table, op.verb, op.prefix);
      }
    } else if op.Set? {
      if Replaced(op.routes, settings).Ok? {
        ReplaceKeepsOrder(op.routes, settings);
      }
    } else if settings(op.route).Some? {
      NormalPrefixIsNormal(op.route.pathPrefix);
      StoreKeepsOrder(table, NormalRoute(op.route, settings).value);
    }
  }

  /** After any run of operations the table is sorted by decreasing prefix length and its prefixes are normal. */
  lemma {:induction false} RunKeepsOrder(ops: seq<Op>, settings: Settings)
    ensures Ordered(Run(ops, settings)) && AllNormal(Run(ops, settings))
  {
    if ops != [] {
      RunKeepsOrder(ops[..|ops| - 1], settings);
      StepKeepsOrder(Run(ops[..|ops| - 1], settings), ops[|ops| - 1], settings);
    }
  }

  // ------------------------------------------------------------ longest match

  /** The first route that serves the request. */
  ghost predicate IsFirstMatch(table: seq<Route>, verb: string, path: string, k: nat) {
    k < |table| && Serves(table[k], verb, path) && forall i :: 0 <= i < k ==> !Serves(table[i], verb, path)
  }

  /** Route `k` serves the request, its prefix covers the path segment by segment, and no route with a longer prefix, nor
      an earlier one with the same prefix, serves it. */
  ghost predicate IsLongestMatch(table: seq<Route>, verb: string, path: string, k: nat) {
    && k < |table| && Serves(table[k], verb, path) && CoversSegments(path, table[k].pathPrefix)
    && forall i :: 0 <= i < |table| && Serves(table[i], verb, path) ==>
         |table[i].pathPrefix| < |table[k].pathPrefix| || (table[i].pathPrefix == table[k].pathPrefix && k <= i)
  }

  /** Route lookup is longest-prefix match: after any run of operations, the first match is the route with the longest
      matching prefix among those for the method, and of several with that prefix the first. */
  lemma FirstMatchIsLongest(ops: seq<Op>, settings: Settings, verb: string, path: string, k: nat)
    ensures var table := Run(ops, settings); IsFirstMatch(table, verb, path, k) <==> IsLongestMatch(table, verb, path, k)
  {
    RunKeepsOrder(ops, settings);
    var table := Run(ops, settings);
    if IsFirstMatch(table, verb, path, k) {
      MatchIsSegmentPrefix(path, table[k].pathPrefix);
      forall i | 0 <= i < |table| && Serves(table[i], verb, path)
        ensures |table[i].pathPrefix| < |table[k].pathPrefix| || (table[i].pathPrefix == table[k].pathPrefix && k <= i)
      {
        assert k <= i;
        if |table[i].pathPrefix| == |table[k].pathPrefix| {
          EquallyLongMatchesAreEqual(path, table[i].pathPrefix, table[k].pathPrefix);
        }
      }
    }
  }

  // -------------------------------------------------------------- unique keys

  ghost function KeyCount(table: seq<Route>, verb: string, prefix: string): nat {
    if table == [] then 0
    else KeyCount(table[..|table| - 1], verb, prefix) + if HasKey(table[|table| - 1], verb, prefix) then 1 else 0
  }

  lemma {:induction false} KeyCountOfLength(table: seq<Route>, verb: string, prefix: string)
    ensures KeyCount(OfLength(table, |prefix|), verb, prefix) == KeyCount(table, verb, prefix)
  {
    if table != [] {
      var init, last := table[..|table| - 1], table[|table| - 1];
      KeyCountOfLength(init, verb, prefix);
      if |last.pathPrefix| == |prefix| {
        assert (OfLength(init, |prefix|) + [last])[..|OfLength(init, |prefix|)|] == OfLength(init, |prefix|);
      } else {
        assert OfLength(table, |prefix|) == OfLength(init, |prefix|);
      }
    }
  }

  lemma {:induction false} CountedOnce(table: seq<Route>, i: nat)
    requires i < |table|
    ensures KeyCount(table, table[i].verb, table[i].pathPrefix) >= 1
  {
    if i < |table| - 1 {
      CountedOnce(table[..|table| - 1], i);
    }
  }

  lemma {:induction false} CountedTwice(table: seq<Route>, i: nat, j: nat)
    requires i < j < |table| && SameKey(table[i], table[j])
    ensures KeyCount(table, table[j].verb, table[j].pathPrefix) >= 2
  {
    var init := table[..|table| - 1];
    if j < |table| - 1 {
      CountedTwice(init, i, j);
    } else {
      CountedOnce(init, i);
    }
  }

  lemma {:induction false} UniqueIsCountedOnce(table: seq<Route>, verb: string, prefix: string)
    requires UniqueKeys(table)
    ensures KeyCount(table, verb, prefix) <= 1
    ensures KeyCount(table, verb, prefix) == 1 ==> exists i :: 0 <= i < |table| && HasKey(table[i], verb, prefix)
  {
    if table != [] {
      var init := table[..|table| - 1];
      UniqueIsCountedOnce(init, verb, prefix);
      assert forall i :: 0 <= i < |init| ==> init[i] == table[i];
    }
  }

  lemma SameCountsSameUniqueness(a: seq<Route>, b: seq<Route>)
    requires SameByLength(a, b) && UniqueKeys(a)
    ensures UniqueKeys(b)
  {
    forall i, j | 0 <= i < j < |b| ensures !SameKey(b[i], b[j]) {
      var verb, prefix := b[j].verb, b[j].pathPrefix;
      KeyCountOfLength(a, verb, prefix);
      KeyCountOfLength(b, verb, prefix);
      UniqueIsCountedOnce(a, verb, prefix);
      assert KeyCount(b, verb, prefix) <= 1;
      assert SameKey(b[i], b[j]) ==> KeyCount(b, verb, prefix) >= 2 by {
        if SameKey(b[i], b[j]) {
          CountedTwice(b, i, j);
        }
      }
    }
  }

  /** Sorting neither makes nor hides a repeated key. */
  lemma SortKeepsKeys(routes: seq<Route>)
    ensures UniqueKeys(StableSorted(routes)) <==> UniqueKeys(routes)
  {
    StableSortedIsStableSort(routes);
    if UniqueKeys(routes) {
      SameCountsSameUniqueness(routes, StableSorted(routes));
    }
    if UniqueKeys(StableSorted(routes)) {
      SameCountsSameUniqueness(StableSorted(routes), routes);
    }
  }

  lemma StoreKeepsKeys(table: seq<Route>, r: Route)
    requires UniqueKeys(table)
    ensures UniqueKeys(Upserted(table, r))
  {
    var k := RouteIndex(table, r.verb, r.pathPrefix);
    SortKeepsKeys(if k < |table| then table[k := r] else table + [r]);
  }

  /** Replacing the table does not check keys: they are unique afterwards exactly when the given routes have unique keys. */
  lemma ReplaceKeepsKeysExactly(routes: seq<Route>, settings: Settings)
    requires Replaced(routes, settings).Ok?
    ensures UniqueKeys(Replaced(routes, settings).value) <==> UniqueKeys(NormalRoutes(routes, settings).value)
  {
    SortKeepsKeys(NormalRoutes(routes, settings).value);
  }

  ghost predicate SetsUniqueKeys(op: Op, settings: Settings) {
    op.Set? && Replaced(op.routes, settings).Ok? ==> UniqueKeys(NormalRoutes(op.routes, settings).value)
  }

  lemma StepKeepsKeys(table: seq<Route>, op: Op, settings: Settings)
    requires UniqueKeys(table) && AllNormal(table) && SetsUniqueKeys(op, settings)
    ensures UniqueKeys(Next(table, op, settings))
  {
    if op.Set? {
      if Replaced(op.routes, settings).Ok? {
        ReplaceKeepsKeysExactly(op.routes, settings);
      }
    } else if !op.Remove? && settings(op.route).Some? {
      var r := NormalRoute(op.route, settings).value;
      NormalPrefixIsNormal(op.route.pathPrefix);
      StoreKeepsOrder(table, r);
      StoreKeepsKeys(table, r);
    }
  }

  /** Method-and-prefix keys stay unique over any run whose replacements have unique keys. */
  lemma {:induction false} RunKeepsKeys(ops: seq<Op>, settings: Settings)
    requires forall i :: 0 <= i < |ops| ==> SetsUniqueKeys(ops[i], settings)
    ensures UniqueKeys(Run(ops, settings))
  {
    if ops != [] {
      RunKeepsKeys(ops[..|ops| - 1], settings);
      RunKeepsOrder(ops[..|ops| - 1], settings);
      StepKeepsKeys(Run(ops[..|ops| - 1], settings), ops[|ops| - 1], settings);
    }
  }

  /** Storing a route is a map update: its key has the new route, every other key what it had. */
  lemma StoreIsUpdate(table: seq<Route>, r: Route, x: Route)
    requires UniqueKeys(table)
    ensures x in Upserted(table, r) <==> x == r || (x in table && !SameKey(x, r))
  {
    var k := RouteIndex(table, r.verb, r.pathPrefix);
    if k < |table| {
      StableSortedMembers(table[k := r], x);
      UpdatedMembers(table, k, r, x);
    } else {
      StableSortedMembers(table + [r], x);
    }
  }

  lemma UpdatedMembers(table: seq<Route>, k: nat, r: Route, x: Route)
    requires UniqueKeys(table) && k < |table| && SameKey(table[k], r)
    ensures x in table[k := r] <==> x == r || (x in table && !SameKey(x, r))
  {
    assert table[k := r][k] == r;
    if x in table && !SameKey(x, r) {
      var i :| 0 <= i < |table| && table[i] == x;
      assert table[k := r][i] == x;
    }
  }

  /** Removing a route removes its key and nothing else. */
  lemma RemoveIsDelete(table: seq<Route>, verb: string, prefix: string, x: Route)
    requires UniqueKeys(table) && Removed(table, verb, prefix).Ok?
    ensures x in Removed(table, verb, prefix).value <==> x in table && !HasKey(x, NormalVerb(verb), NormalPrefix(prefix))
  {
    var k := RouteIndex(table, NormalVerb(verb), NormalPrefix(prefix));
    assert table == table[..k] + [table[k]] + table[k + 1..];
  }

  /** Replacing a route in a sorted table leaves every route where it is. */
  lemma UpdateKeepsPlaces(table: seq<Route>, r: Route)
    requires Ordered(table) && Updated(table, r).Ok?
    ensures Updated(table, r).value == table[RouteIndex(table, r.verb, r.pathPrefix) := r]
  {
    OrderedIsStable(table[RouteIndex(table, r.verb, r.pathPrefix) := r]);
  }

  // ------------------------------------------------------------- the gateway

  lemma InsertedEarlier(table: seq<Route>, k: nat, route: Route)
    requires 0 < k <= |table| && |table[k - 1].pathPrefix| < |route.pathPrefix|
    ensures Inserted(table[..k], route) + table[k..] == Inserted(table[..k - 1], route) + table[k - 1..]
  {
    assert table[..k][..k - 1] == table[..k - 1];
    assert table[k - 1..] == [table[k - 1]] + table[k..];
  }

  class Gateway {
    var routes: seq<Route>

    constructor ()
      ensures routes == []
    {
      routes := [];
    }

    /** Stable insertion from the back, in place of the library's stable sort. */
    method SortRoutes()
      modifies this
      ensures routes == StableSorted(old(routes))
    {
      var unsorted := routes;
      routes := [];
      var n := 0;
      while n < |unsorted|
        invariant 0 <= n <= |unsorted|
        invariant routes == StableSorted(unsorted[..n])
      {
        Insert(unsorted[n]);
        assert unsorted[..n + 1][..n] == unsorted[..n];
        n := n + 1;
      }
      assert unsorted[..n] == unsorted;
    }

    method Insert(route: Route)
      modifies this
      ensures routes == Inserted(old(routes), route)
    {
      var k := |routes|;
      assert routes[..k] == routes && Inserted(routes, route) + routes[k..] == Inserted(routes, route);
      while k > 0 && |routes[k - 1].pathPrefix| < |route.pathPrefix|
        invariant 0 <= k <= |routes| && routes == old(routes)
        invariant Inserted(routes, route) == Inserted(routes[..k], route) + routes[k..]
      {
        InsertedEarlier(routes, k, route);
        k := k - 1;
      }
      assert Inserted(routes[..k], route) == routes[..k] + [route];
      routes := routes[..k] + [route] + routes[k..];
    }

    method FindRoute(verb: string, prefix: string) returns (k: nat)
      ensures k == RouteIndex(routes, verb, prefix)
    {
      k := 0;
      while k < |routes|
        invariant k <= |routes|
        invariant RouteIndex(routes, verb, prefix) == k + RouteIndex(routes[k..], verb, prefix)
      {
        if routes[k].verb == verb && routes[k].pathPrefix == prefix {
          return;
        }
        assert routes[k..][1..] == routes[k + 1..];
        k := k + 1;
      }
    }

    method AddRoute(route: Route, settings: Settings) returns (err: Option<RouteError>)
      modifies this
      ensures routes == Next(old(routes), Add(route), settings)
      ensures err == ErrorOf(Outcome(old(routes), Add(route), settings))
    {
      var normal := NormalRoute(route, settings);
      if normal.Err? {
        return Some(normal.error);
      }
      var k := FindRoute(normal.value.verb, normal.value.pathPrefix);
      if k < |routes| {
        return Some(RouteExists);
      }
      routes := routes + [normal.value];
      SortRoutes();
      err := None;
    }

    method UpdateRoute(route: Route, settings: Settings) returns (err: Option<RouteError>)
      modifies this
      ensures routes == Next(old(routes), Update(route), settings)
      ensures err == ErrorOf(Outcome(old(routes), Update(route), settings))
    {
      var normal := NormalRoute(route, settings);
      if normal.Err? {
        return Some(normal.error);
      }
      var k := FindRoute(normal.value.verb, normal.value.pathPrefix);
      if k == |routes| {
        return Some(NoRoute);
      }
      routes := routes[k := normal.value];
      SortRoutes();
      err := None;
    }

    method UpsertRoute(route: Route, settings: Settings) returns (err: Option<RouteError>)
      modifies this
      ensures routes == Next(old(routes), Upsert(route), settings)
      ensures err == ErrorOf(Outcome(old(routes), Upsert(route), settings))
    {
      var normal := NormalRoute(route, settings);
      if normal.Err? {
        return Some(normal.error);
      }
      var k := FindRoute(normal.value.verb, normal.value.pathPrefix);
      if k < |routes| {
        routes := routes[k := normal.value];
      } else {
        routes := routes + [normal.value];
      }
      SortRoutes();
      err := None;
    }

    method RemoveRoute(verb: string, prefix: string, settings: Settings) returns (ok: bool)
      modifies this
      ensures routes == Next(old(routes), Remove(verb, prefix), settings)
      ensures ok <==> Outcome(old(routes), Remove(verb, prefix), settings).Ok?
    {
      var k := FindRoute(NormalVerb(verb), NormalPrefix(prefix));
      if k == |routes| {
        return false;
      }
      routes := routes[..k] + routes[k + 1..];
      ok := true;
    }

    method SetRoutes(given: seq<Route>, settings: Settings) returns (err: Option<RouteError>)
      modifies this
      ensures routes == Next(old(routes), Set(given), settings)
      ensures err == ErrorOf(Outcome(old(routes), Set(given), settings))
    {
      if |given| == 0 {
        return Some(RouteRequired);
      }
      var normal := NormaliseAll(given, settings);
      if normal.Err? {
        return Some(normal.error);
      }
      routes := normal.value;
      SortRoutes();
      err := None;
    }

    method NormaliseAll(given: seq<Route>, settings: Settings) returns (r: Result<seq<Route>, RouteError>)
      ensures r == NormalRoutes(given, settings)
    {
      var out := [];
      var n := 0;
      while n < |given|
        invariant 0 <= n <= |given|
        invariant NormalRoutes(given[..n], settings) == Ok(out)
      {
        var next := NormalRoute(given[n], settings);
        assert given[..n + 1][..n] == given[..n];
        if next.Err? {
          FailedPrefixFails(given, n + 1, settings);
          return Err(next.error);
        }
        out := out + [next.value];
        n := n + 1;
      }
      assert given[..n] == given;
      r := Ok(out);
    }

    /** `match`. */
    method Match(verb: string, path: string) returns (k: Option<nat>)
      ensures k.Some? ==> IsFirstMatch(routes, verb, path, k.value)
      ensures k.None? ==> forall i :: 0 <= i < |routes| ==> !Serves(routes[i], verb, path)
    {
      for i := 0 to |routes|
        invariant forall j :: 0 <= j < i ==> !Serves(routes[j], verb, path)
      {
        var route := routes[i];
        if route.verb != "" && route.verb != verb {
          continue;
        }
        if MatchPathPrefix(path, route.pathPrefix) {
          return Some(i);
        }
      }
      k := None;
    }
  }

  lemma {:induction false} FailedPrefixFails(routes: seq<Route>, n: nat, settings: Settings)
    requires n <= |routes| && NormalRoutes(routes[..n], settings).Err?
    ensures NormalRoutes(routes, settings) == NormalRoutes(routes[..n], settings)
    decreases |routes|
  {
    if n < |routes| {
      var init := routes[..|routes| - 1];
      assert init[..n] == routes[..n];
      FailedPrefixFails(init, n, settings);
    } else {
      assert routes[..n] == routes;
    }
  }
}
