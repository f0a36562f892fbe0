/** What the operations on the route table mean (gateway/gateway.go): how a route's method and prefix are cleaned, when an
    operation fails, and which routes it leaves. */
module RouteOperations {
  import opened GoStrings
  import opened Routes

  // ---------------------------------------------------------- normalisation

  /** The given prefix is `core` with white space around it and slashes after it. */
  ghost predicate IsPrefixSpelling(given: string, core: string, l: string, slashes: string, r: string) {
    && given == l + (core + slashes) + r
    && AllSpace(l) && AllSpace(r) && AllChar(slashes, '/')
    && IsTrimmed(core + slashes) && (core == "" || core[|core| - 1] != '/')
  }

  /** White space around a prefix and slashes after it are dropped, a slash is put before it if there is none, and all else is
      kept; nothing but slashes is the root. */
  lemma NormalPrefixKeepsCore(given: string, core: string, l: string, slashes: string, r: string)
    requires IsPrefixSpelling(given, core, l, slashes, r)
    ensures NormalPrefix(given) == if core == "" then "/" else if core[0] == '/' then core else "/" + core
  {
    TrimSpaceOf(l, core + slashes, r);
    var p := core + slashes;
    if p != "" {
      if p[0] == '/' {
        TrimRightOf(core, slashes, '/');
      } else {
        assert "/" + p == ("/" + core) + slashes;
        TrimRightOf("/" + core, slashes, '/');
      }
    }
  }

  /** Every prefix is spelled so. */
  lemma EveryPrefixIsSpelled(given: string) returns (core: string, l: string, slashes: string, r: string)
    ensures IsPrefixSpelling(given, core, l, slashes, r)
  {
    l, r := TrimSpaceSplits(given);
    slashes := TrimRightSplits(TrimSpace(given), '/');
    core := TrimRight(TrimSpace(given), '/');
  }

  /** A method is trimmed and put in upper case, and not changed otherwise. */
  lemma NormalVerbIsUpper(verb: string)
    ensures |NormalVerb(verb)| == |TrimSpace(verb)|
    ensures forall i :: 0 <= i < |NormalVerb(verb)| ==> !('a' <= NormalVerb(verb)[i] <= 'z')
    ensures ToLower(NormalVerb(verb)) == ToLower(TrimSpace(verb))
  {
    LowerFormsAgree(NormalVerb(verb), TrimSpace(verb));
  }

  ghost predicate AllAccepted(routes: seq<Route>, settings: Settings) {
    forall i :: 0 <= i < |routes| ==> settings(routes[i]).Some?
  }

  ghost predicate IsNormalOf(r: Route, given: Route, settings: Settings) {
    && settings(given) == Some(r.settings)
    && r.verb == NormalVerb(given.verb) && r.pathPrefix == NormalPrefix(given.pathPrefix)
  }

  ghost predicate AreNormalOf(normal: seq<Route>, routes: seq<Route>, settings: Settings) {
    |normal| == |routes| && forall i :: 0 <= i < |routes| ==> IsNormalOf(normal[i], routes[i], settings)
  }

  lemma AcceptedSnoc(routes: seq<Route>, settings: Settings)
    requires routes != []
    ensures AllAccepted(routes, settings) <==> AllAccepted(routes[..|routes| - 1], settings) && settings(routes[|routes| - 1]).Some?
  {
    var n := |routes| - 1;
    forall i | 0 <= i < n ensures routes[..n][i] == routes[i] {}
  }

  lemma NormalSnoc(normal: seq<Route>, routes: seq<Route>, settings: Settings)
    requires routes != [] && AreNormalOf(normal, routes[..|routes| - 1], settings) && settings(routes[|routes| - 1]).Some?
    ensures AreNormalOf(normal + [NormalRoute(routes[|routes| - 1], settings).value], routes, settings)
  {
    var n := |routes| - 1;
    var longer := normal + [NormalRoute(routes[n], settings).value];
    forall i | 0 <= i < |routes| ensures IsNormalOf(longer[i], routes[i], settings) {
      if i < n {
        assert longer[i] == normal[i] && routes[i] == routes[..n][i];
      }
    }
  }

  /** Routes are accepted one by one, all or none, and in their order. */
  lemma {:induction false} NormalRoutesOneByOne(routes: seq<Route>, settings: Settings)
    ensures NormalRoutes(routes, settings).Ok? <==> AllAccepted(routes, settings)
    ensures NormalRoutes(routes, settings).Err? ==> NormalRoutes(routes, settings).error == RouteRequired
    ensures NormalRoutes(routes, settings).Ok? ==> AreNormalOf(NormalRoutes(routes, settings).value, routes, settings)
  {
    if routes != [] {
      var n := |routes| - 1;
      NormalRoutesOneByOne(routes[..n], settings);
      AcceptedSnoc(routes, settings);
      var init := NormalRoutes(routes[..n], settings);
      if init.Ok? && settings(routes[n]).Some? {
        NormalSnoc(init.value, routes, settings);
      }
    }
  }

  // -------------------------------------------------------- what is in a table

  ghost predicate HasRoute(table: seq<Route>, verb: string, prefix: string) {
    exists x :: x in table && x.verb == verb && x.pathPrefix == prefix
  }

  lemma IndexFindsRoute(table: seq<Route>, verb: string, prefix: string)
    ensures RouteIndex(table, verb, prefix) < |table| <==> HasRoute(table, verb, prefix)
  {
    var k := RouteIndex(table, verb, prefix);
    if k < |table| {
      assert table[k] in table;
    }
    if HasRoute(table, verb, prefix) {
      var x :| x in table && x.verb == verb && x.pathPrefix == prefix;
      var i :| 0 <= i < |table| && table[i] == x;
      assert HasKey(table[i], verb, prefix);
    }
  }

  /** Adding fails when the key is there, and else adds the route and keeps all others. */
  lemma AddIsInsertion(table: seq<Route>, given: Route, settings: Settings, x: Route)
    requires UniqueKeys(table)
    ensures var verb, prefix := NormalVerb(given.verb), NormalPrefix(given.pathPrefix);
            var r := Outcome(table, Add(given), settings);
            && (settings(given).None? ==> r == Err(RouteRequired))
            && (settings(given).Some? ==>
                  && (HasRoute(table, verb, prefix) ==> r == Err(RouteExists))
                  && (!HasRoute(table, verb, prefix) ==>
                        r.Ok? && (x in r.value <==> IsNormalOf(x, given, settings) || x in table)))
  {
    if settings(given).Some? {
      var r := NormalRoute(given, settings).value;
      IndexFindsRoute(table, r.verb, r.pathPrefix);
      StableSortedMembers(table + [r], x);
    }
  }

  /** Updating fails when the key is not there, and else replaces the route of that key alone. */
  lemma UpdateIsReplacement(table: seq<Route>, given: Route, settings: Settings, x: Route)
    requires UniqueKeys(table)
    ensures var verb, prefix := NormalVerb(given.verb), NormalPrefix(given.pathPrefix);
            var r := Outcome(table, Update(given), settings);
            && (settings(given).None? ==> r == Err(RouteRequired))
            && (settings(given).Some? ==>
                  && (!HasRoute(table, verb, prefix) ==> r == Err(NoRoute))
                  && (HasRoute(table, verb, prefix) ==>
                        r.Ok? && (x in r.value <==> IsNormalOf(x, given, settings) || (x in table && !(x.verb == verb && x.pathPrefix == prefix)))))
  {
    if settings(given).Some? {
      var r := NormalRoute(given, settings).value;
      IndexFindsRoute(table, r.verb, r.pathPrefix);
      StoreIsUpdate(table, r, x);
    }
  }

  /** Upserting fails only on a refused route, and leaves the route under its key and every other route. */
  lemma UpsertIsStore(table: seq<Route>, given: Route, settings: Settings, x: Route)
    requires UniqueKeys(table)
    ensures var verb, prefix := NormalVerb(given.verb), NormalPrefix(given.pathPrefix);
            var r := Outcome(table, Upsert(given), settings);
            && (settings(given).None? ==> r == Err(RouteRequired))
            && (settings(given).Some? ==>
                  r.Ok? && (x in r.value <==> IsNormalOf(x, given, settings) || (x in table && !(x.verb == verb && x.pathPrefix == prefix))))
  {
    if settings(given).Some? {
      StoreIsUpdate(table, NormalRoute(given, settings).value, x);
    }
  }

  /** Removing fails when the key is not there, and else removes the route of that key alone. */
  lemma RemoveIsDeletion(table: seq<Route>, verb: string, prefix: string, settings: Settings, x: Route)
    requires UniqueKeys(table)
    ensures var r := Outcome(table, Remove(verb, prefix), settings);
            && (!HasRoute(table, NormalVerb(verb), NormalPrefix(prefix)) ==> r == Err(NoRoute))
            && (HasRoute(table, NormalVerb(verb), NormalPrefix(prefix)) ==>
                  r.Ok? && (x in r.value <==> x in table && !(x.verb == NormalVerb(verb) && x.pathPrefix == NormalPrefix(prefix))))
  {
    IndexFindsRoute(table, NormalVerb(verb), NormalPrefix(prefix));
    if Removed(table, verb, prefix).Ok? {
      RemoveIsDelete(table, verb, prefix, x);
    }
  }

  lemma {:induction false} InsertedCounts(table: seq<Route>, route: Route)
    ensures multiset(Inserted(table, route)) == multiset(table) + multiset{route}
  {
    if table != [] {
      var n := |table| - 1;
      assert table == table[..n] + [table[n]];
      InsertedCounts(table[..n], route);
    }
  }

  lemma {:induction false} SortKeepsCounts(routes: seq<Route>)
    ensures multiset(StableSorted(routes)) == multiset(routes)
  {
    if routes != [] {
      var n := |routes| - 1;
      assert routes == routes[..n] + [routes[n]];
      SortKeepsCounts(routes[..n]);
      InsertedCounts(StableSorted(routes[..n]), routes[n]);
    }
  }

  /** Setting the table fails on an empty list or a refused route, and else leaves exactly the given routes, each normalised,
      as often as given, whatever was there. */
  lemma SetIsExactlyTheGiven(table: seq<Route>, routes: seq<Route>, settings: Settings) returns (normal: seq<Route>)
    ensures Outcome(table, Set(routes), settings).Ok? <==> routes != [] && AllAccepted(routes, settings)
    ensures Outcome(table, Set(routes), settings).Err? ==> Outcome(table, Set(routes), settings).error == RouteRequired
    ensures Outcome(table, Set(routes), settings).Ok? ==>
              AreNormalOf(normal, routes, settings) && multiset(Outcome(table, Set(routes), settings).value) == multiset(normal)
  {
    NormalRoutesOneByOne(routes, settings);
    var r := NormalRoutes(routes, settings);
    normal := if r.Ok? then r.value else [];
    assert Outcome(table, Set(routes), settings) ==
           if routes == [] then Err(RouteRequired) else if r.Err? then r else Ok(StableSorted(normal));
    SortKeepsCounts(normal);
  }

  // ------------------------------------------------------------- the lookup

  /** The route is for the method, or for any, and every segment of its prefix is a segment of the path, in order. */
  ghost predicate IsCandidate(route: Route, verb: string, path: string) {
    && (route.verb == "" || route.verb == verb)
    && (route.pathPrefix == "/" || Split(route.pathPrefix, '/') <= Split(path, '/'))
  }

  /** After any run of operations, the route that a request is given is the candidate with the longest prefix, the first of
      those with that prefix; and there is none only when there is no candidate. */
  lemma LookupIsLongestCandidate(ops: seq<Op>, settings: Settings, verb: string, path: string, k: nat)
    ensures var table := Run(ops, settings);
            && (IsFirstMatch(table, verb, path, k) <==>
                  && k < |table| && IsCandidate(table[k], verb, path)
                  && forall i :: 0 <= i < |table| && IsCandidate(table[i], verb, path) ==>
                       |table[i].pathPrefix| < |table[k].pathPrefix| || (table[i].pathPrefix == table[k].pathPrefix && k <= i))
            && ((forall i :: 0 <= i < |table| ==> !IsCandidate(table[i], verb, path)) <==>
                (forall i :: 0 <= i < |table| ==> !Serves(table[i], verb, path)))
  {
    var table := Run(ops, settings);
    RunKeepsOrder(ops, settings);
    forall i | 0 <= i < |table| ensures Serves(table[i], verb, path) <==> IsCandidate(table[i], verb, path) {
      MatchIsSegmentPrefix(path, table[i].pathPrefix);
    }
    FirstMatchIsLongest(ops, settings, verb, path, k);
  }
}
