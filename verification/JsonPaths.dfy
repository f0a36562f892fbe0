/** Reading and writing nested JSON objects by a path of names: the lens behind mapping targets
    (gateway/transcode.go). */
module JsonPaths {
  import opened GoStrings
  import opened TranscodeSchema

  type Path = seq<string>

  function Get(v: Json, p: Path): Option<Json> {
    if p == [] then Some(v)
    else if v.Object? && p[0] in v.fields then Get(v.fields[p[0]], p[1..])
    else None
  }

  function Child(v: Json, name: string): Json
    requires v.Object?
  {
    if name in v.fields then v.fields[name] else Object(map[])
  }

  /** Writing through objects, creating the missing ones; `None` when a value in the way is not an object. */
  function Put(v: Json, p: Path, w: Json): Option<Json>
    decreases |p|
  {
    if p == [] then Some(w)
    else if !v.Object? then None
    else
      match Put(Child(v, p[0]), p[1..], w)
      case None => None
      case Some(after) => Some(Object(v.fields[p[0] := after]))
  }

  ghost predicate Incomparable(p: Path, q: Path) {
    !(p <= q) && !(q <= p)
  }

  // -------------------------------------------------------------- lens laws

  /** Reading back what was written. */
  lemma {:induction false} GetPut(v: Json, p: Path, w: Json)
    requires Put(v, p, w).Some?
    ensures Get(Put(v, p, w).value, p) == Some(w)
    decreases |p|
  {
    if p != [] {
      GetPut(Child(v, p[0]), p[1..], w);
    }
  }

  /** Writing back what is there changes nothing. */
  lemma {:induction false} PutGet(v: Json, p: Path)
    requires Get(v, p).Some?
    ensures Put(v, p, Get(v, p).value) == Some(v)
    decreases |p|
  {
    if p != [] {
      PutGet(v.fields[p[0]], p[1..]);
      assert v.fields[p[0] := v.fields[p[0]]] == v.fields;
    }
  }

  /** The last write wins. */
  lemma {:induction false} PutPut(v: Json, p: Path, w: Json, w': Json)
    requires Put(v, p, w).Some?
    ensures Put(Put(v, p, w).value, p, w') == Put(v, p, w')
    decreases |p|
  {
    if p != [] {
      PutPut(Child(v, p[0]), p[1..], w, w');
      var after := Put(Child(v, p[0]), p[1..], w).value;
      var last := Put(Child(v, p[0]), p[1..], w');
      if last.Some? {
        assert v.fields[p[0] := after][p[0] := last.value] == v.fields[p[0] := last.value];
      }
    }
  }

  /** A write does not change what an incomparable path reads, nor whether it can be written. */
  lemma {:induction false} PutFrame(v: Json, p: Path, w: Json, q: Path, x: Json)
    requires Incomparable(p, q) && Put(v, p, w).Some?
    ensures Get(Put(v, p, w).value, q) == Get(v, q)
    ensures Put(Put(v, p, w).value, q, x).Some? <==> Put(v, q, x).Some?
    decreases |p|
  {
    if p[0] == q[0] {
      PutFrame(Child(v, p[0]), p[1..], w, q[1..], x);
    }
  }

  /** Incomparable writes commute. */
  lemma {:induction false} PutsCommute(v: Json, p: Path, w: Json, q: Path, x: Json)
    requires Incomparable(p, q) && Put(v, p, w).Some? && Put(v, q, x).Some?
    ensures Put(Put(v, p, w).value, q, x).Some?
    ensures Put(Put(v, p, w).value, q, x) == Put(Put(v, q, x).value, p, w)
    decreases |p|
  {
    if p[0] == q[0] {
      PutsCommute(Child(v, p[0]), p[1..], w, q[1..], x);
      PutTwice(v, p, w, q, x);
      PutTwice(v, q, x, p, w);
    } else {
      UpdatesCommute(v.fields, p[0], Put(Child(v, p[0]), p[1..], w).value, q[0], Put(Child(v, q[0]), q[1..], x).value);
    }
  }

  lemma UpdatesCommute(fields: map<string, Json>, a: string, x: Json, b: string, y: Json)
    requires a != b
    ensures fields[a := x][b := y] == fields[b := y][a := x]
  {
  }

  lemma PutTwice(v: Json, p: Path, w: Json, q: Path, x: Json)
    requires p != [] && q != [] && p[0] == q[0] && Put(v, p, w).Some?
    requires Put(Put(Child(v, p[0]), p[1..], w).value, q[1..], x).Some?
    ensures Put(Put(v, p, w).value, q, x) == Some(Object(v.fields[p[0] := Put(Put(Child(v, p[0]), p[1..], w).value, q[1..], x).value]))
  {
    var a := Put(Child(v, p[0]), p[1..], w).value;
    var b := Put(a, q[1..], x).value;
    assert v.fields[p[0] := a][p[0] := b] == v.fields[p[0] := b];
  }

  /** Any path can be written into the empty object. */
  lemma {:induction false} PutEmpty(p: Path, w: Json)
    ensures Put(Object(map[]), p, w).Some?
    decreases |p|
  {
    if p != [] {
      PutEmpty(p[1..], w);
    }
  }

  lemma {:induction false} PutSucceedsForAnyValue(v: Json, p: Path, w: Json, w': Json)
    ensures Put(v, p, w).Some? <==> Put(v, p, w').Some?
    decreases |p|
  {
    if p != [] && v.Object? {
      PutSucceedsForAnyValue(Child(v, p[0]), p[1..], w, w');
    }
  }

  // ------------------------------------------------------- comparable writes

  /** A write at or below one already made goes into the value that was written. */
  lemma {:induction false} PutBelow(v: Json, p: Path, w: Json, q: Path, x: Json)
    requires p <= q && Put(v, p, w).Some?
    ensures Put(Put(v, p, w).value, q, x) == match Put(w, q[|p|..], x) case None => None case Some(w') => Put(v, p, w')
    decreases |p|
  {
    if p == [] {
      assert q[0..] == q;
    } else {
      PutBelow(Child(v, p[0]), p[1..], w, q[1..], x);
      assert q[1..][|p[1..]|..] == q[|p|..];
      var after := Put(Child(v, p[0]), p[1..], w).value;
      var inner := Put(w, q[|p|..], x);
      if inner.Some? {
        PutSucceedsForAnyValue(Child(v, p[0]), p[1..], w, inner.value);
        var last := Put(Child(v, p[0]), p[1..], inner.value).value;
        assert v.fields[p[0] := after][p[0] := last] == v.fields[p[0] := last];
      }
    }
  }

  /** A write at or above one already made leaves nothing of it. */
  lemma {:induction false} PutAbove(v: Json, p: Path, w: Json, q: Path, x: Json)
    requires p <= q && Put(v, q, x).Some?
    ensures Put(v, p, w).Some? && Put(Put(v, q, x).value, p, w) == Put(v, p, w)
    decreases |p|
  {
    if p != [] {
      PutAbove(Child(v, p[0]), p[1..], w, q[1..], x);
      var after := Put(Child(v, q[0]), q[1..], x).value;
      var last := Put(Child(v, p[0]), p[1..], w).value;
      assert v.fields[p[0] := after][p[0] := last] == v.fields[p[0] := last];
    }
  }

  /** A write changes nothing exactly when the value is already there. */
  lemma PutChangesNothingExactly(v: Json, p: Path, w: Json)
    ensures Put(v, p, w) == Some(v) <==> Get(v, p) == Some(w)
  {
    if Put(v, p, w) == Some(v) {
      GetPut(v, p, w);
    } else if Get(v, p) == Some(w) {
      PutGet(v, p);
    }
  }

  /** The lower of two comparable writes is kept by the other order exactly when the upper one brings it along. */
  lemma ComparableWritesCommuteExactly(v: Json, p: Path, w: Json, q: Path, x: Json)
    requires p <= q && Put(v, q, x).Some?
    ensures Put(v, p, w).Some?
    ensures Put(Put(v, p, w).value, q, x) == Put(Put(v, q, x).value, p, w) <==> Get(w, q[|p|..]) == Some(x)
  {
    PutAbove(v, p, w, q, x);
    PutBelow(v, p, w, q, x);
    PutChangesNothingExactly(w, q[|p|..], x);
    var inner := Put(w, q[|p|..], x);
    if inner.Some? {
      PutSucceedsForAnyValue(v, p, w, inner.value);
      GetPut(v, p, w);
      GetPut(v, p, inner.value);
    }
  }

  // ---------------------------------------------------------- lists of writes

  /** A write, or a path that is left alone. */
  datatype Write = Write(path: Path, value: Option<Json>)

  function Step(v: Json, e: Write): Option<Json> {
    if e.value.None? then Some(v) else Put(v, e.path, e.value.value)
  }

  function Steps(v: Json, es: seq<Write>): Option<Json>
    decreases |es|
  {
    if es == [] then Some(v)
    else
      match Step(v, es[0])
      case None => None
      case Some(after) => Steps(after, es[1..])
  }

  /** No path is a prefix of another. */
  ghost predicate Apart(es: seq<Write>) {
    forall i, j :: 0 <= i < |es| && 0 <= j < |es| && i != j ==> Incomparable(es[i].path, es[j].path)
  }

  ghost predicate Fits(v: Json, e: Write) {
    Put(v, e.path, Null).Some?
  }

  ghost predicate AllFit(v: Json, es: seq<Write>) {
    forall i :: 0 <= i < |es| ==> Fits(v, es[i])
  }

  ghost predicate AwayFrom(es: seq<Write>, q: Path) {
    forall i :: 0 <= i < |es| ==> Incomparable(es[i].path, q)
  }

  lemma StepFrame(v: Json, e: Write, q: Path)
    requires Fits(v, e) && Incomparable(e.path, q)
    ensures Step(v, e).Some?
    ensures Get(Step(v, e).value, q) == Get(v, q)
    ensures Put(Step(v, e).value, q, Null).Some? <==> Put(v, q, Null).Some?
  {
    if e.value.Some? {
      PutSucceedsForAnyValue(v, e.path, Null, e.value.value);
      PutFrame(v, e.path, e.value.value, q, Null);
    }
  }

  lemma StepFits(v: Json, e: Write)
    requires Fits(v, e)
    ensures Step(v, e).Some?
  {
    if e.value.Some? {
      PutSucceedsForAnyValue(v, e.path, Null, e.value.value);
    }
  }

  lemma RestFits(v: Json, es: seq<Write>)
    requires es != [] && Apart(es) && AllFit(v, es)
    ensures Step(v, es[0]).Some?
    ensures Apart(es[1..]) && AllFit(Step(v, es[0]).value, es[1..])
  {
    StepFits(v, es[0]);
    forall i | 0 <= i < |es[1..]| ensures Fits(Step(v, es[0]).value, es[1..][i]) {
      assert Fits(v, es[i + 1]);
      StepFrame(v, es[0], es[i + 1].path);
    }
  }

  /** Writes with incomparable paths all succeed and leave every other path alone. */
  lemma {:induction false} StepsFrame(v: Json, es: seq<Write>, q: Path)
    requires Apart(es) && AllFit(v, es)
    ensures Steps(v, es).Some?
    ensures AwayFrom(es, q) ==> Get(Steps(v, es).value, q) == Get(v, q)
    decreases |es|
  {
    if es != [] {
      RestFits(v, es);
      StepsFrame(Step(v, es[0]).value, es[1..], q);
      if AwayFrom(es, q) {
        StepFrame(v, es[0], q);
      }
    }
  }

  /** Each written path reads back its own value. */
  lemma {:induction false} StepsReadBack(v: Json, es: seq<Write>, k: nat)
    requires Apart(es) && AllFit(v, es) && k < |es|
    ensures Steps(v, es).Some?
    ensures Get(Steps(v, es).value, es[k].path) == if es[k].value.Some? then es[k].value else Get(v, es[k].path)
    decreases |es|
  {
    RestFits(v, es);
    var after := Step(v, es[0]).value;
    if k == 0 {
      assert AwayFrom(es[1..], es[0].path);
      StepsFrame(after, es[1..], es[0].path);
      if es[0].value.Some? {
        GetPut(v, es[0].path, es[0].value.value);
      }
    } else {
      StepsReadBack(after, es[1..], k - 1);
      StepFrame(v, es[0], es[k].path);
    }
  }

  lemma StepsCommute(v: Json, a: Write, b: Write)
    requires Fits(v, a) && Fits(v, b) && Incomparable(a.path, b.path)
    ensures Step(v, a).Some? && Step(v, b).Some?
    ensures Step(Step(v, a).value, b) == Step(Step(v, b).value, a)
  {
    StepFits(v, a);
    StepFits(v, b);
    if a.value.Some? && b.value.Some? {
      PutsCommute(v, a.path, a.value.value, b.path, b.value.value);
    }
  }

  /** Writing twice, in either order. */
  lemma TwoSteps(v: Json, a: Write, b: Write)
    requires Step(v, a).Some?
    ensures Steps(v, [a, b]) == Step(Step(v, a).value, b)
  {
    assert [a, b][1..] == [b] && [b][1..] == [];
    var last := Step(Step(v, a).value, b);
    if last.Some? {
      assert Steps(last.value, []) == Some(last.value);
    }
  }

  /** The first write is at or above the second and brings its value along. */
  ghost predicate Carries(a: Write, b: Write) {
    a.value.Some? && b.value.Some? && a.path <= b.path && Get(a.value.value, b.path[|a.path|..]) == Some(b.value.value)
  }

  /** Two writes into a document that takes both can be exchanged exactly when one of them writes nothing, their paths
      are incomparable, or the upper one carries the lower one's value. */
  lemma TwoWritesCommuteExactly(v: Json, a: Write, b: Write)
    requires Fits(v, a) && Fits(v, b)
    ensures Steps(v, [a, b]) == Steps(v, [b, a]) <==>
            a.value.None? || b.value.None? || Incomparable(a.path, b.path) || Carries(a, b) || Carries(b, a)
  {
    StepFits(v, a);
    StepFits(v, b);
    TwoSteps(v, a, b);
    TwoSteps(v, b, a);
    if a.value.Some? && b.value.Some? {
      if Incomparable(a.path, b.path) {
        StepsCommute(v, a, b);
      } else {
        if a.path <= b.path {
          ComparableWritesCommuteExactly(v, a.path, a.value.value, b.path, b.value.value);
        }
        if b.path <= a.path {
          ComparableWritesCommuteExactly(v, b.path, b.value.value, a.path, a.value.value);
        }
      }
    }
  }

  /** Write `k` first, the others in their order. */
  function Moved(es: seq<Write>, k: nat): (r: seq<Write>)
    requires k < |es|
    ensures |r| == |es|
  {
    [es[k]] + (es[..k] + es[k + 1..])
  }

  lemma MovedKeeps(v: Json, es: seq<Write>, k: nat)
    requires k < |es| && Apart(es) && AllFit(v, es)
    ensures Apart(Moved(es, k)) && AllFit(v, Moved(es, k))
  {
    var moved := Moved(es, k);
    forall i | 0 <= i < |es| ensures moved[i] == es[MovedFrom(k, i)] {}
    forall i, j | 0 <= i < |es| && 0 <= j < |es| && i != j ensures Incomparable(moved[i].path, moved[j].path) {
      assert MovedFrom(k, i) != MovedFrom(k, j);
    }
  }

  function MovedFrom(k: nat, i: nat): nat {
    if i == 0 then k else if i <= k then i - 1 else i
  }

  /** Any write can be made first. */
  lemma {:induction false} MoveToFront(v: Json, es: seq<Write>, k: nat)
    requires k < |es| && Apart(es) && AllFit(v, es)
    ensures Steps(v, es) == Steps(v, Moved(es, k))
    decreases |es|
  {
    if k == 0 {
      assert Moved(es, k) == es;
    } else {
      var a, b := es[0], es[k];
      RestFits(v, es);
      MoveToFront(Step(v, a).value, es[1..], k - 1);
      assert Fits(v, a) && Fits(v, b) && Incomparable(a.path, b.path);
      StepsCommute(v, a, b);
      MovedShape(es, k);
    }
  }

  lemma MovedShape(es: seq<Write>, k: nat)
    requires 0 < k < |es|
    ensures var rest := es[1..k] + es[k + 1..];
            Moved(es[1..], k - 1) == [es[k]] + rest && Moved(es, k) == [es[k]] + ([es[0]] + rest)
  {
  }

  /** The order of writes with incomparable paths does not matter. */
  lemma {:induction false} OrderDoesNotMatter(v: Json, es: seq<Write>, es': seq<Write>)
    requires Apart(es) && AllFit(v, es) && multiset(es) == multiset(es')
    ensures Steps(v, es) == Steps(v, es')
    decreases |es'|
  {
    if es' == [] {
      EmptyMultiset(es);
    } else {
      var k := SameHead(es, es');
      MoveToFront(v, es, k);
      MovedKeeps(v, es, k);
      var moved := Moved(es, k);
      RestFits(v, moved);
      assert moved[1..] == es[..k] + es[k + 1..];
      OrderDoesNotMatter(Step(v, moved[0]).value, moved[1..], es'[1..]);
    }
  }
}
