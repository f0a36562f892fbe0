/** Building a payload in place (gateway/transcode.go): the payload and the documents it is read from are objects in memory
    that refer to each other. Mapping sources find objects of the documents, a write walks down from the payload's root,
    making missing objects on its way, and stores a copy of what was found at its end. */
module PayloadStore {
  import opened GoStrings
  import opened TranscodeSchema
  import opened TranscodeMapping

  type Ref = nat

  /** A value in memory: a scalar, a list, which is never changed in place, or a reference to an object. */
  datatype Slot = Scalar(json: Json) | List(items: seq<Slot>) | Link(ref: Ref)

  type Objects = map<Ref, map<string, Slot>>

  /** The objects and the next reference to give out. */
  datatype Store = Store(objects: Objects, next: Ref) {
    ghost predicate Valid() {
      forall r :: r in objects ==> r < next
    }
  }

  // ------------------------------------------------- what a slot stands for

  /** The slot stands for the JSON value. */
  ghost predicate Holds(o: Objects, slot: Slot, v: Json)
    decreases v
  {
    match v
    case Object(fields) =>
      && slot.Link? && slot.ref in o && o[slot.ref].Keys == fields.Keys
      && forall k :: k in fields ==> Holds(o, o[slot.ref][k], fields[k])
    case Array(items) =>
      && slot.List? && |slot.items| == |items|
      && forall i :: 0 <= i < |items| ==> Holds(o, slot.items[i], items[i])
    case _ => slot == Scalar(v)
  }

  /** The object `x` is part of what the slot stands for. */
  ghost predicate Reaches(o: Objects, slot: Slot, v: Json, x: Ref)
    requires Holds(o, slot, v)
    decreases v
  {
    match v
    case Object(fields) => slot.ref == x || exists k :: k in fields && Reaches(o, o[slot.ref][k], fields[k], x)
    case Array(items) => exists i :: 0 <= i < |items| && Reaches(o, slot.items[i], items[i], x)
    case _ => false
  }

  ghost predicate Disjoint(o: Objects, a: Slot, v: Json, b: Slot, w: Json)
    requires Holds(o, a, v) && Holds(o, b, w)
  {
    forall x :: Reaches(o, a, v, x) ==> !Reaches(o, b, w, x)
  }

  /** No object is part of two fields of the same object, so that a change through one does not show in the other. */
  ghost predicate Tree(o: Objects, slot: Slot, v: Json)
    decreases v
  {
    && Holds(o, slot, v)
    && (v.Object? ==>
          && (forall k :: k in v.fields ==>
                Tree(o, o[slot.ref][k], v.fields[k]) && !Reaches(o, o[slot.ref][k], v.fields[k], slot.ref))
          && (forall k, k' :: k in v.fields && k' in v.fields && k != k' ==>
                Disjoint(o, o[slot.ref][k], v.fields[k], o[slot.ref][k'], v.fields[k'])))
  }

  lemma {:induction false} ReachedIsThere(o: Objects, slot: Slot, v: Json, x: Ref)
    requires Holds(o, slot, v) && Reaches(o, slot, v, x)
    ensures x in o
    decreases v
  {
    match v
    case Object(fields) =>
      if slot.ref != x {
        var k :| k in fields && Reaches(o, o[slot.ref][k], fields[k], x);
        ReachedIsThere(o, o[slot.ref][k], fields[k], x);
      }
    case Array(items) =>
      var i :| 0 <= i < |items| && Reaches(o, slot.items[i], items[i], x);
      ReachedIsThere(o, slot.items[i], items[i], x);
    case _ =>
  }

  /** A slot stands for one value. */
  lemma {:induction false} HoldsOneValue(o: Objects, slot: Slot, v: Json, w: Json)
    requires Holds(o, slot, v) && Holds(o, slot, w)
    ensures v == w
    decreases v
  {
    match v
    case Object(fields) =>
      forall k | k in fields ensures fields[k] == w.fields[k] {
        HoldsOneValue(o, o[slot.ref][k], fields[k], w.fields[k]);
      }
      assert fields.Keys == w.fields.Keys;
      assert fields == w.fields;
    case Array(items) =>
      forall i | 0 <= i < |items| ensures items[i] == w.items[i] {
        HoldsOneValue(o, slot.items[i], items[i], w.items[i]);
      }
      assert items == w.items;
    case _ =>
  }

  // ------------------------------------------------------------- framing

  ghost predicate SameAt(o: Objects, o': Objects, x: Ref) {
    x in o && x in o' && o'[x] == o[x]
  }

  ghost predicate SameOn(o: Objects, o': Objects, slot: Slot, v: Json)
    requires Holds(o, slot, v)
  {
    forall x :: Reaches(o, slot, v, x) ==> SameAt(o, o', x)
  }

  ghost predicate ReachesSame(o: Objects, o': Objects, slot: Slot, v: Json)
    requires Holds(o, slot, v) && Holds(o', slot, v)
  {
    forall x :: Reaches(o', slot, v, x) <==> Reaches(o, slot, v, x)
  }

  lemma FieldSame(o: Objects, o': Objects, slot: Slot, v: Json, k: string)
    requires Holds(o, slot, v) && SameOn(o, o', slot, v) && v.Object? && k in v.fields
    ensures SameAt(o, o', slot.ref) && SameOn(o, o', o[slot.ref][k], v.fields[k])
  {
    assert Reaches(o, slot, v, slot.ref);
    forall x | Reaches(o, o[slot.ref][k], v.fields[k], x) ensures SameAt(o, o', x) {
      assert Reaches(o, slot, v, x);
    }
  }

  lemma ItemSame(o: Objects, o': Objects, slot: Slot, v: Json, i: nat)
    requires Holds(o, slot, v) && SameOn(o, o', slot, v) && v.Array? && i < |v.items|
    ensures SameOn(o, o', slot.items[i], v.items[i])
  {
    forall x | Reaches(o, slot.items[i], v.items[i], x) ensures SameAt(o, o', x) {
      assert Reaches(o, slot, v, x);
    }
  }

  /** What a slot stands for depends only on the objects it reaches. */
  lemma {:induction false} HoldsKept(o: Objects, o': Objects, slot: Slot, v: Json)
    requires Holds(o, slot, v) && SameOn(o, o', slot, v)
    ensures Holds(o', slot, v) && ReachesSame(o, o', slot, v)
    decreases v
  {
    match v
    case Object(fields) =>
      assert Reaches(o, slot, v, slot.ref);
      assert SameAt(o, o', slot.ref);
      forall k | k in fields
        ensures Holds(o', o[slot.ref][k], fields[k]) && ReachesSame(o, o', o[slot.ref][k], fields[k])
      {
        FieldSame(o, o', slot, v, k);
        HoldsKept(o, o', o[slot.ref][k], fields[k]);
      }
    case Array(items) =>
      forall i | 0 <= i < |items|
        ensures Holds(o', slot.items[i], items[i]) && ReachesSame(o, o', slot.items[i], items[i])
      {
        ItemSame(o, o', slot, v, i);
        HoldsKept(o, o', slot.items[i], items[i]);
      }
    case _ =>
  }

  lemma {:induction false} TreeKept(o: Objects, o': Objects, slot: Slot, v: Json)
    requires Tree(o, slot, v) && SameOn(o, o', slot, v)
    ensures Tree(o', slot, v) && ReachesSame(o, o', slot, v)
    decreases v
  {
    HoldsKept(o, o', slot, v);
    if v.Object? {
      assert Reaches(o, slot, v, slot.ref);
      assert SameAt(o, o', slot.ref);
      forall k | k in v.fields
        ensures Tree(o', o[slot.ref][k], v.fields[k]) && ReachesSame(o, o', o[slot.ref][k], v.fields[k])
      {
        FieldSame(o, o', slot, v, k);
        TreeKept(o, o', o[slot.ref][k], v.fields[k]);
      }
    }
  }

  ghost predicate Extends(o: Objects, o': Objects) {
    forall x :: x in o ==> SameAt(o, o', x)
  }

  lemma ExtendsSame(o: Objects, o': Objects, slot: Slot, v: Json)
    requires Holds(o, slot, v) && Extends(o, o')
    ensures SameOn(o, o', slot, v)
  {
    forall x | Reaches(o, slot, v, x) ensures SameAt(o, o', x) {
      ReachedIsThere(o, slot, v, x);
    }
  }

  // ------------------------------------------------------------ the sources

  datatype SlotLookup = Fails | Nothing | Finds(slot: Slot)

  /** `transcodeMappingValueAtPath` in memory: what it finds is part of the document, not a copy. */
  function SlotAt(o: Objects, current: Slot, parts: seq<string>): SlotLookup
    decreases |parts|, 0
  {
    if parts == [] then Finds(current)
    else
      var part := TrimSpace(parts[0]);
      if part == "" then Fails
      else if IsArraySegment(part) then
        var name := TrimSuffix(part, "[]");
        if name == "" || name == "body" then ItemSlotsAt(o, current, parts)
        else if current.Link? && current.ref in o && name in o[current.ref] then ItemSlotsAt(o, o[current.ref][name], parts)
        else Nothing
      else if current.Link? && current.ref in o && part in o[current.ref] then SlotAt(o, o[current.ref][part], parts[1..])
      else Nothing
  }

  function ItemSlotsAt(o: Objects, list: Slot, parts: seq<string>): SlotLookup
    requires parts != []
    decreases |parts| - 1, |if list.List? then list.items else []| + 1
  {
    if !list.List? then Nothing
    else if |parts| == 1 then Finds(list)
    else
      match ProjectSlots(o, list.items, parts[1..])
      case None => Fails
      case Some(out) => Finds(List(out))
  }

  function ProjectSlots(o: Objects, items: seq<Slot>, parts: seq<string>): Option<seq<Slot>>
    decreases |parts|, |items|
  {
    if items == [] then Some([])
    else
      match SlotAt(o, items[0], parts)
      case Fails => None
      case Nothing => ProjectSlots(o, items[1..], parts)
      case Finds(slot) =>
        match ProjectSlots(o, items[1..], parts)
        case None => None
        case Some(out) => Some([slot] + out)
  }

  /** All of what slot `b` reaches is part of what `a` stands for. */
  ghost predicate PartOf(o: Objects, b: Slot, w: Json, a: Slot, v: Json)
    requires Holds(o, b, w) && Holds(o, a, v)
  {
    forall x :: Reaches(o, b, w, x) ==> Reaches(o, a, v, x)
  }

  /** The lookup in memory finds what the lookup on values finds, inside the document. */
  ghost predicate Matches(o: Objects, found: SlotLookup, expected: Lookup, a: Slot, v: Json)
    requires Holds(o, a, v)
  {
    match expected
    case Broken => found == Fails
    case Missing => found == Nothing
    case Found(w) => found.Finds? && Holds(o, found.slot, w) && PartOf(o, found.slot, w, a, v)
  }

  lemma FieldIsPart(o: Objects, a: Slot, v: Json, k: string)
    requires Holds(o, a, v) && v.Object? && k in v.fields
    ensures PartOf(o, o[a.ref][k], v.fields[k], a, v)
  {
  }

  lemma ItemIsPart(o: Objects, a: Slot, v: Json, i: nat)
    requires Holds(o, a, v) && v.Array? && i < |v.items|
    ensures PartOf(o, a.items[i], v.items[i], a, v)
  {
  }

  lemma MatchesInside(o: Objects, found: SlotLookup, expected: Lookup, b: Slot, w: Json, a: Slot, v: Json)
    requires Holds(o, b, w) && Holds(o, a, v) && PartOf(o, b, w, a, v) && Matches(o, found, expected, b, w)
    ensures Matches(o, found, expected, a, v)
  {
  }

  lemma {:induction false} LookupMatches(o: Objects, a: Slot, v: Json, parts: seq<string>)
    requires Holds(o, a, v)
    ensures Matches(o, SlotAt(o, a, parts), ValueAt(v, parts), a, v)
    decreases |parts|, 0
  {
    if parts != [] {
      var part := TrimSpace(parts[0]);
      if part != "" {
        if IsArraySegment(part) {
          var name := TrimSuffix(part, "[]");
          if name == "" || name == "body" {
            ItemsMatch(o, a, v, parts);
          } else if v.Object? && name in v.fields {
            ItemsMatch(o, o[a.ref][name], v.fields[name], parts);
            FieldIsPart(o, a, v, name);
            MatchesInside(o, SlotAt(o, a, parts), ValueAt(v, parts), o[a.ref][name], v.fields[name], a, v);
          }
        } else if v.Object? && part in v.fields {
          LookupMatches(o, o[a.ref][part], v.fields[part], parts[1..]);
          FieldIsPart(o, a, v, part);
          MatchesInside(o, SlotAt(o, a, parts), ValueAt(v, parts), o[a.ref][part], v.fields[part], a, v);
        }
      }
    }
  }

  lemma {:induction false} ItemsMatch(o: Objects, list: Slot, v: Json, parts: seq<string>)
    requires Holds(o, list, v) && parts != []
    ensures Matches(o, ItemSlotsAt(o, list, parts), ItemsAt(v, parts), list, v)
    decreases |parts| - 1, |if list.List? then list.items else []| + 2
  {
    if v.Array? && |parts| > 1 {
      forall i | 0 <= i < |v.items| ensures PartOf(o, list.items[i], v.items[i], list, v) {
        ItemIsPart(o, list, v, i);
      }
      ProjectMatches(o, list.items, v.items, parts[1..], list, v);
    }
  }

  ghost predicate AllParts(o: Objects, items: seq<Slot>, vs: seq<Json>, a: Slot, v: Json)
    requires Holds(o, a, v)
  {
    && |items| == |vs|
    && forall i :: 0 <= i < |vs| ==> Holds(o, items[i], vs[i]) && PartOf(o, items[i], vs[i], a, v)
  }

  lemma PartsCons(o: Objects, slot: Slot, w: Json, items: seq<Slot>, vs: seq<Json>, a: Slot, v: Json)
    requires Holds(o, a, v) && Holds(o, slot, w) && PartOf(o, slot, w, a, v) && AllParts(o, items, vs, a, v)
    ensures AllParts(o, [slot] + items, [w] + vs, a, v)
  {
    forall i | 0 <= i < |[w] + vs|
      ensures Holds(o, ([slot] + items)[i], ([w] + vs)[i]) && PartOf(o, ([slot] + items)[i], ([w] + vs)[i], a, v)
    {
      if i > 0 {
        assert ([slot] + items)[i] == items[i - 1] && ([w] + vs)[i] == vs[i - 1];
      }
    }
  }

  lemma PartsTail(o: Objects, items: seq<Slot>, vs: seq<Json>, a: Slot, v: Json)
    requires Holds(o, a, v) && AllParts(o, items, vs, a, v) && items != []
    ensures Holds(o, items[0], vs[0]) && PartOf(o, items[0], vs[0], a, v) && AllParts(o, items[1..], vs[1..], a, v)
  {
  }

  lemma {:induction false} ProjectMatches(o: Objects, items: seq<Slot>, vs: seq<Json>, parts: seq<string>, a: Slot, v: Json)
    requires Holds(o, a, v) && AllParts(o, items, vs, a, v)
    ensures match Project(vs, parts)
            case None => ProjectSlots(o, items, parts) == None
            case Some(out) => ProjectSlots(o, items, parts).Some? && AllParts(o, ProjectSlots(o, items, parts).value, out, a, v)
    decreases |parts|, |items| + 1
  {
    if items != [] {
      PartsTail(o, items, vs, a, v);
      LookupMatches(o, items[0], vs[0], parts);
      MatchesInside(o, SlotAt(o, items[0], parts), ValueAt(vs[0], parts), items[0], vs[0], a, v);
      ProjectMatches(o, items[1..], vs[1..], parts, a, v);
      var rest := ProjectSlots(o, items[1..], parts);
      if ValueAt(vs[0], parts).Found? && rest.Some? {
        PartsCons(o, SlotAt(o, items[0], parts).slot, ValueAt(vs[0], parts).value, rest.value, Project(vs[1..], parts).value, a, v);
      }
    }
  }

  // ------------------------------------------------------------- the walk

  /** Where a walk ends: the object to store in and the name to store under. */
  datatype End = End(at: Ref, name: string)

  function WithChild(s: Store, at: Ref, name: string): Store
    requires at in s.objects
  {
    Store(s.objects[at := s.objects[at][name := Link(s.next)]][s.next := map[]], s.next + 1)
  }

  /** The walk of `setTranscodeMappingTarget`, with the objects that it makes on its way. */
  function Walk(s: Store, at: Ref, parts: seq<string>): (Store, Result<End, TargetError>)
    requires at in s.objects && parts != []
    decreases |parts|
  {
    var part := TrimSpace(parts[0]);
    if part == "" then (s, Err(EmptySegment))
    else if IsArraySegment(part) then
      var name := TrimSuffix(part, "[]");
      if name == "" then (s, Err(EmptyArraySegment))
      else if |parts| > 1 then (s, Err(ArrayNotTerminal))
      else (s, Ok(End(at, name)))
    else if |parts| == 1 then (s, Ok(End(at, part)))
    else if part !in s.objects[at] then Walk(WithChild(s, at, part), s.next, parts[1..])
    else
      var child := s.objects[at][part];
      if child.Link? && child.ref in s.objects then Walk(s, child.ref, parts[1..]) else (s, Err(Conflict))
  }

  /** Only objects that the slot reached have changed. */
  ghost predicate Within(o: Objects, o': Objects, slot: Slot, v: Json)
    requires Holds(o, slot, v)
  {
    forall x :: x in o ==> x in o' && (o'[x] == o[x] || Reaches(o, slot, v, x))
  }

  /** The slot reaches what it reached before, and new objects. */
  ghost predicate NothingTaken(o: Objects, slot: Slot, v: Json, o': Objects, v': Json)
    requires Holds(o, slot, v) && Holds(o', slot, v')
  {
    forall x :: Reaches(o', slot, v', x) ==> Reaches(o, slot, v, x) || x !in o
  }

  /** None of what the slot reaches was there before. */
  ghost predicate IsNew(o: Objects, o': Objects, slot: Slot, v: Json)
    requires Holds(o', slot, v)
  {
    forall x :: Reaches(o', slot, v, x) ==> x !in o
  }

  ghost predicate FieldOk(o: Objects, at: Ref, fields: Fields, k: string) {
    && at in o && k in fields && k in o[at]
    && Tree(o, o[at][k], fields[k]) && !Reaches(o, o[at][k], fields[k], at)
  }

  ghost predicate FieldsApart(o: Objects, at: Ref, fields: Fields, k: string, k': string) {
    FieldOk(o, at, fields, k) && FieldOk(o, at, fields, k') && Disjoint(o, o[at][k], fields[k], o[at][k'], fields[k'])
  }

  lemma TreeOfFields(o: Objects, at: Ref, fields: Fields)
    requires at in o && o[at].Keys == fields.Keys
    requires forall k :: k in fields ==> FieldOk(o, at, fields, k)
    requires forall k, k' :: k in fields && k' in fields && k != k' ==> FieldsApart(o, at, fields, k, k')
    ensures Tree(o, Link(at), Object(fields))
  {
    forall k | k in fields ensures Holds(o, o[at][k], fields[k]) {
      assert FieldOk(o, at, fields, k);
    }
    assert Holds(o, Link(at), Object(fields));
    forall k | k in fields ensures Tree(o, o[at][k], fields[k]) && !Reaches(o, o[at][k], fields[k], at) {
      assert FieldOk(o, at, fields, k);
    }
    forall k, k' | k in fields && k' in fields && k != k' ensures Disjoint(o, o[at][k], fields[k], o[at][k'], fields[k']) {
      assert FieldsApart(o, at, fields, k, k');
    }
  }

  lemma FieldsOfTree(o: Objects, at: Ref, fields: Fields, k: string)
    requires Tree(o, Link(at), Object(fields)) && k in fields
    ensures FieldOk(o, at, fields, k)
    ensures forall k' :: k' in fields && k' != k ==> Disjoint(o, o[at][k], fields[k], o[at][k'], fields[k'])
  {
  }

  /** One field of the object `at` now stands for `v`, by objects that are new or were that field's before; what the other
      fields reach has not changed. */
  ghost predicate OnlyField(o: Objects, o': Objects, at: Ref, fields: Fields, name: string, v: Json) {
    && Tree(o, Link(at), Object(fields))
    && at in o' && name in o'[at] && o'[at] == o[at][name := o'[at][name]]
    && Tree(o', o'[at][name], v)
    && (forall k :: k in fields && k != name ==> SameOn(o, o', o[at][k], fields[k]))
    && (forall x :: Reaches(o', o'[at][name], v, x) ==> x !in o || WasReached(o, at, fields, name, x))
  }

  ghost predicate WasReached(o: Objects, at: Ref, fields: Fields, name: string, x: Ref)
    requires Tree(o, Link(at), Object(fields))
  {
    name in fields && Reaches(o, o[at][name], fields[name], x)
  }

  lemma OtherField(o: Objects, o': Objects, at: Ref, fields: Fields, name: string, v: Json, k: string)
    requires OnlyField(o, o', at, fields, name, v) && k in fields && k != name
    ensures FieldOk(o', at, fields[name := v], k) && ReachesSame(o, o', o[at][k], fields[k])
    ensures Disjoint(o', o'[at][k], fields[k], o'[at][name], v)
  {
    FieldsOfTree(o, at, fields, k);
    TreeKept(o, o', o[at][k], fields[k]);
    forall x | Reaches(o', o'[at][k], fields[k], x) ensures !Reaches(o', o'[at][name], v, x) {
      ReachedIsThere(o, o[at][k], fields[k], x);
    }
  }

  lemma SetField(o: Objects, o': Objects, at: Ref, fields: Fields, name: string, v: Json)
    requires OnlyField(o, o', at, fields, name, v)
    ensures FieldOk(o', at, fields[name := v], name)
  {
    if name in fields {
      FieldsOfTree(o, at, fields, name);
    }
  }

  lemma FieldWritten(o: Objects, o': Objects, at: Ref, fields: Fields, name: string, v: Json)
    requires OnlyField(o, o', at, fields, name, v)
    ensures Tree(o', Link(at), Object(fields[name := v]))
    ensures NothingTaken(o, Link(at), Object(fields), o', Object(fields[name := v]))
  {
    var fields' := fields[name := v];
    forall k | k in fields' ensures FieldOk(o', at, fields', k) {
      if k == name { SetField(o, o', at, fields, name, v); } else { OtherField(o, o', at, fields, name, v, k); }
    }
    forall k, k' | k in fields' && k' in fields' && k != k'
      ensures FieldsApart(o', at, fields', k, k')
    {
      if k != name { OtherField(o, o', at, fields, name, v, k); }
      if k' != name { OtherField(o, o', at, fields, name, v, k'); }
      if k != name && k' != name { FieldsOfTree(o, at, fields, k); }
    }
    TreeOfFields(o', at, fields');
    forall x | Reaches(o', Link(at), Object(fields'), x) ensures Reaches(o, Link(at), Object(fields), x) || x !in o {
      WrittenReaches(o, o', at, fields, name, v, x);
    }
  }

  lemma WrittenReaches(o: Objects, o': Objects, at: Ref, fields: Fields, name: string, v: Json, x: Ref)
    requires OnlyField(o, o', at, fields, name, v) && Holds(o', Link(at), Object(fields[name := v]))
    requires Reaches(o', Link(at), Object(fields[name := v]), x)
    ensures Reaches(o, Link(at), Object(fields), x) || x !in o
  {
    var fields' := fields[name := v];
    if x != at {
      var k :| k in fields' && Reaches(o', o'[at][k], fields'[k], x);
      if k != name {
        OtherField(o, o', at, fields, name, v, k);
      }
    }
  }

  /** The end of the walk: the new value is stored. */
  lemma StoreIsOnlyField(o: Objects, mid: Objects, o': Objects, at: Ref, fields: Fields, name: string, slot: Slot, v: Json)
    requires Tree(o, Link(at), Object(fields)) && Extends(o, mid) && Tree(mid, slot, v) && IsNew(o, mid, slot, v)
    requires at in mid && o' == mid[at := mid[at][name := slot]]
    ensures OnlyField(o, o', at, fields, name, v)
  {
    assert SameAt(o, mid, at);
    forall x | Reaches(mid, slot, v, x) ensures SameAt(mid, o', x) {
      ReachedIsThere(mid, slot, v, x);
    }
    TreeKept(mid, o', slot, v);
    forall k | k in fields && k != name ensures SameOn(o, o', o[at][k], fields[k]) {
      FieldsOfTree(o, at, fields, k);
      forall x | Reaches(o, o[at][k], fields[k], x) ensures SameAt(o, o', x) {
        ReachedIsThere(o, o[at][k], fields[k], x);
        assert SameAt(o, mid, x);
      }
    }
  }

  /** On the way down: the change is inside an object that was there. */
  lemma ChangeBelowIsOnlyField(o: Objects, o': Objects, at: Ref, fields: Fields, name: string, v: Json)
    requires Tree(o, Link(at), Object(fields)) && name in fields
    requires Tree(o', o[at][name], v) && Within(o, o', o[at][name], fields[name])
    requires NothingTaken(o, o[at][name], fields[name], o', v)
    ensures OnlyField(o, o', at, fields, name, v)
  {
    FieldsOfTree(o, at, fields, name);
    assert o'[at] == o[at];
    forall k | k in fields && k != name ensures SameOn(o, o', o[at][k], fields[k]) {
      forall x | Reaches(o, o[at][k], fields[k], x) ensures SameAt(o, o', x) {
        ReachedIsThere(o, o[at][k], fields[k], x);
        assert Disjoint(o, o[at][name], fields[name], o[at][k], fields[k]);
      }
    }
  }

  /** On the way down: the change is inside a new object. */
  lemma ChangeInNewIsOnlyField(s: Store, o': Objects, at: Ref, fields: Fields, name: string, v: Json)
    requires s.Valid() && Tree(s.objects, Link(at), Object(fields))
    requires var made := WithChild(s, at, name).objects;
             && Holds(made, Link(s.next), Object(map[])) && Within(made, o', Link(s.next), Object(map[]))
             && Tree(o', Link(s.next), v) && NothingTaken(made, Link(s.next), Object(map[]), o', v)
    ensures OnlyField(s.objects, o', at, fields, name, v)
  {
    var o, made := s.objects, WithChild(s, at, name).objects;
    assert at in made && o'[at] == made[at] == o[at][name := Link(s.next)];
    forall k | k in fields && k != name ensures SameOn(o, o', o[at][k], fields[k]) {
      FieldsOfTree(o, at, fields, k);
      forall x | Reaches(o, o[at][k], fields[k], x) ensures SameAt(o, o', x) {
        ReachedIsThere(o, o[at][k], fields[k], x);
        assert x in made;
      }
    }
  }

  lemma WithinField(o: Objects, o': Objects, at: Ref, fields: Fields, name: string)
    requires Holds(o, Link(at), Object(fields)) && name in fields && Within(o, o', o[at][name], fields[name])
    ensures Within(o, o', Link(at), Object(fields))
  {
    FieldIsPart(o, Link(at), Object(fields), name);
  }

  lemma WithinNew(s: Store, o': Objects, at: Ref, fields: Fields, name: string)
    requires s.Valid() && Holds(s.objects, Link(at), Object(fields))
    requires var made := WithChild(s, at, name).objects;
             Holds(made, Link(s.next), Object(map[])) && Within(made, o', Link(s.next), Object(map[]))
    ensures Within(s.objects, o', Link(at), Object(fields))
  {
    var made := WithChild(s, at, name).objects;
    forall x | x in s.objects ensures x in o' && (o'[x] == s.objects[x] || Reaches(s.objects, Link(at), Object(fields), x)) {
      assert x in made;
    }
  }

  lemma NewChildIsTree(s: Store, at: Ref, name: string)
    requires s.Valid() && at in s.objects
    ensures var made := WithChild(s, at, name); made.Valid() && Tree(made.objects, Link(s.next), Object(map[]))
  {
  }

  /** A walk changes no object that its start does not reach, and ends at one that it does or that is new. */
  lemma {:induction false} WalkStaysInside(s: Store, at: Ref, parts: seq<string>, fields: Fields)
    requires s.Valid() && Tree(s.objects, Link(at), Object(fields)) && parts != []
    ensures var (after, end) := Walk(s, at, parts);
            && after.Valid() && Within(s.objects, after.objects, Link(at), Object(fields))
            && (end.Ok? ==> end.value.at in after.objects)
    decreases |parts|
  {
    var part := TrimSpace(parts[0]);
    if part != "" && !IsArraySegment(part) && |parts| > 1 {
      if part !in fields {
        NewChildIsTree(s, at, part);
        WalkStaysInside(WithChild(s, at, part), s.next, parts[1..], map[]);
        WithinNew(s, Walk(s, at, parts).0.objects, at, fields, part);
      } else if fields[part].Object? {
        WalkStaysInside(s, s.objects[at][part].ref, parts[1..], fields[part].fields);
        WithinField(s.objects, Walk(s, at, parts).0.objects, at, fields, part);
      }
    }
  }

  /** A failing walk fails as the write on values does. */
  lemma {:induction false} WalkFails(s: Store, at: Ref, parts: seq<string>, fields: Fields, v: Json)
    requires s.Valid() && Tree(s.objects, Link(at), Object(fields)) && parts != []
    requires Walk(s, at, parts).1.Err?
    ensures SetTarget(fields, parts, v) == Err(Walk(s, at, parts).1.error)
    decreases |parts|
  {
    var part := TrimSpace(parts[0]);
    if part != "" && !IsArraySegment(part) && |parts| > 1 {
      if part !in fields {
        NewChildIsTree(s, at, part);
        WalkFails(WithChild(s, at, part), s.next, parts[1..], map[], v);
      } else if fields[part].Object? {
        WalkFails(s, s.objects[at][part].ref, parts[1..], fields[part].fields, v);
      }
    }
  }

  /** The object `at` stood for one tree and stands for another, made of its own objects and of new ones; no others have
      changed. */
  ghost predicate Rewritten(o: Objects, o': Objects, at: Ref, fields: Fields, fields': Fields) {
    && Tree(o, Link(at), Object(fields)) && Tree(o', Link(at), Object(fields'))
    && Within(o, o', Link(at), Object(fields)) && NothingTaken(o, Link(at), Object(fields), o', Object(fields'))
  }

  lemma RewrittenHere(o: Objects, mid: Objects, o': Objects, at: Ref, fields: Fields, name: string, slot: Slot, v: Json)
    requires Tree(o, Link(at), Object(fields)) && Extends(o, mid) && Tree(mid, slot, v) && IsNew(o, mid, slot, v)
    requires at in mid && o' == mid[at := mid[at][name := slot]]
    ensures Rewritten(o, o', at, fields, fields[name := v])
  {
    StoreIsOnlyField(o, mid, o', at, fields, name, slot, v);
    FieldWritten(o, o', at, fields, name, v);
    forall x | x in o ensures x in o' && (o'[x] == o[x] || Reaches(o, Link(at), Object(fields), x)) {
      assert SameAt(o, mid, x);
    }
  }

  lemma RewrittenInNew(s: Store, o': Objects, at: Ref, fields: Fields, name: string, inner: Fields)
    requires s.Valid() && Tree(s.objects, Link(at), Object(fields))
    requires Rewritten(WithChild(s, at, name).objects, o', s.next, map[], inner)
    ensures Rewritten(s.objects, o', at, fields, fields[name := Object(inner)])
  {
    ChangeInNewIsOnlyField(s, o', at, fields, name, Object(inner));
    FieldWritten(s.objects, o', at, fields, name, Object(inner));
    WithinNew(s, o', at, fields, name);
  }

  lemma RewrittenBelow(o: Objects, o': Objects, at: Ref, fields: Fields, name: string, inner: Fields)
    requires Tree(o, Link(at), Object(fields)) && name in fields && fields[name].Object? && o[at][name].Link?
    requires Rewritten(o, o', o[at][name].ref, fields[name].fields, inner)
    ensures Rewritten(o, o', at, fields, fields[name := Object(inner)])
  {
    assert o[at][name] == Link(o[at][name].ref) && Object(fields[name].fields) == fields[name];
    ChangeBelowIsOnlyField(o, o', at, fields, name, Object(inner));
    FieldWritten(o, o', at, fields, name, Object(inner));
    WithinField(o, o', at, fields, name);
  }

  /** After the walk, and what else led from there to `mid`, the slot is stored where the walk ended. */
  ghost predicate StoresAtEnd(s: Store, at: Ref, parts: seq<string>, mid: Objects, slot: Slot, o': Objects)
    requires at in s.objects && parts != []
  {
    var (after, end) := Walk(s, at, parts);
    && end.Ok? && Extends(after.objects, mid) && end.value.at in mid
    && o' == mid[end.value.at := mid[end.value.at][end.value.name := slot]]
  }

  /** The walk and a store of something new at its end do to the payload what the write on values does. */
  lemma {:induction false} WalkWrites(s: Store, at: Ref, parts: seq<string>, fields: Fields, mid: Objects, slot: Slot, v: Json, o': Objects)
    requires s.Valid() && Tree(s.objects, Link(at), Object(fields)) && parts != []
    requires StoresAtEnd(s, at, parts, mid, slot, o')
    requires Tree(mid, slot, v) && IsNew(Walk(s, at, parts).0.objects, mid, slot, v)
    ensures SetTarget(fields, parts, v).Ok? && Rewritten(s.objects, o', at, fields, SetTarget(fields, parts, v).value)
    decreases |parts|
  {
    var part := TrimSpace(parts[0]);
    if IsArraySegment(part) || |parts| == 1 {
      RewrittenHere(s.objects, mid, o', at, fields, Walk(s, at, parts).1.value.name, slot, v);
    } else if part !in fields {
      NewChildIsTree(s, at, part);
      WalkWrites(WithChild(s, at, part), s.next, parts[1..], map[], mid, slot, v, o');
      RewrittenInNew(s, o', at, fields, part, SetTarget(map[], parts[1..], v).value);
    } else {
      WalkWrites(s, s.objects[at][part].ref, parts[1..], fields[part].fields, mid, slot, v, o');
      RewrittenBelow(s.objects, o', at, fields, part, SetTarget(fields[part].fields, parts[1..], v).value);
    }
  }

  // -------------------------------------------------------- other documents

  /** A document beside the payload. */
  ghost predicate Beside(o: Objects, root: Slot, payload: Json, doc: Slot, v: Json) {
    Holds(o, root, payload) && Holds(o, doc, v) && Disjoint(o, root, payload, doc, v)
  }

  /** A document beside the payload keeps its value when only what the payload reached has changed, and it stays beside it
      when the payload has taken nothing but new objects. */
  lemma DocumentKept(o: Objects, o': Objects, root: Slot, payload: Json, doc: Slot, v: Json)
    requires Beside(o, root, payload, doc, v) && Within(o, o', root, payload)
    ensures Holds(o', doc, v)
    ensures forall payload' :: Holds(o', root, payload') && NothingTaken(o, root, payload, o', payload') ==>
              Beside(o', root, payload', doc, v)
  {
    forall x | Reaches(o, doc, v, x) ensures x in o && SameAt(o, o', x) {
      ReachedIsThere(o, doc, v, x);
    }
    HoldsKept(o, o', doc, v);
  }

  lemma BesideExtends(o: Objects, o': Objects, root: Slot, payload: Json, doc: Slot, v: Json)
    requires Beside(o, root, payload, doc, v) && Extends(o, o')
    ensures Beside(o', root, payload, doc, v)
  {
    ExtendsSame(o, o', root, payload);
    ExtendsSame(o, o', doc, v);
    HoldsKept(o, o', root, payload);
    HoldsKept(o, o', doc, v);
  }

  lemma NewIsBeside(o: Objects, o': Objects, root: Slot, payload: Json, slot: Slot, v: Json)
    requires Holds(o, root, payload) && Extends(o, o') && Holds(o', slot, v) && IsNew(o, o', slot, v)
    ensures Beside(o', root, payload, slot, v)
  {
    ExtendsSame(o, o', root, payload);
    HoldsKept(o, o', root, payload);
    forall x | Reaches(o', root, payload, x) ensures !Reaches(o', slot, v, x) {
      ReachedIsThere(o, root, payload, x);
    }
  }

  // -------------------------------------------------------------- the copy

  /** A copy: it has the value, as a tree, and none of its objects was there before; those that were are unchanged. */
  ghost predicate Copied(o: Objects, o': Objects, copy: Slot, v: Json) {
    Extends(o, o') && Tree(o', copy, v) && IsNew(o, o', copy, v)
  }

  lemma ExtendsOn(a: Objects, b: Objects, c: Objects)
    requires Extends(a, b) && Extends(b, c)
    ensures Extends(a, c)
  {
    forall x | x in a ensures SameAt(a, c, x) {
      assert SameAt(a, b, x) && SameAt(b, c, x);
    }
  }

  lemma EmptyCopy(o: Objects, out: Ref)
    requires out !in o
    ensures Copied(o, o[out := map[]], Link(out), Object(map[]))
  {
  }

  /** One more field of an object is copied. */
  lemma CopiesField(start: Objects, o: Objects, mid: Objects, o': Objects, out: Ref, done: Fields, k: string, copy: Slot, v: Json)
    requires Copied(start, o, Link(out), Object(done)) && Copied(o, mid, copy, v)
    requires out in mid && o' == mid[out := mid[out][k := copy]]
    ensures Copied(start, o', Link(out), Object(done[k := v]))
  {
    RewrittenHere(o, mid, o', out, done, k, copy, v);
    assert Reaches(o, Link(out), Object(done), out);
    forall x | x in start ensures SameAt(start, o', x) {
      assert SameAt(start, o, x) && SameAt(o, mid, x);
    }
  }

  /** One more item of a list is copied. */
  lemma CopiesItem(start: Objects, o: Objects, o': Objects, out: seq<Slot>, done: seq<Json>, copy: Slot, v: Json)
    requires Copied(start, o, List(out), Array(done)) && Copied(o, o', copy, v)
    ensures Copied(start, o', List(out + [copy]), Array(done + [v]))
  {
    ExtendsOn(start, o, o');
    ExtendsSame(o, o', List(out), Array(done));
    HoldsKept(o, o', List(out), Array(done));
    var list, vs := List(out + [copy]), done + [v];
    forall i | 0 <= i < |vs| ensures Holds(o', list.items[i], vs[i]) {
      if i < |done| {
        assert Holds(o', List(out).items[i], done[i]);
      }
    }
    forall x | x in start ensures x in o {
      assert SameAt(start, o, x);
    }
    forall x | Reaches(o', list, Array(vs), x) ensures x !in start {
      var i :| 0 <= i < |vs| && Reaches(o', list.items[i], vs[i], x);
      if i < |done| {
        assert Reaches(o', List(out).items[i], done[i], x);
        assert Reaches(o', List(out), Array(done), x);
      }
    }
  }

  // ----------------------------------------------- the sources, in memory

  /** A document: where it is and the value it stands for. */
  datatype Doc = Doc(slot: Slot, value: Json)

  ghost predicate DocsHold(o: Objects, docs: seq<Doc>) {
    forall d :: d in docs ==> Holds(o, d.slot, d.value)
  }

  ghost predicate DocsBeside(o: Objects, root: Slot, payload: Json, docs: seq<Doc>) {
    forall d :: d in docs ==> Beside(o, root, payload, d.slot, d.value)
  }

  datatype Sources = Sources(body: Slot, path: Slot, query: Slot, header: Slot)

  datatype Rule = Rule(source: string, target: string, default: Option<Slot>)

  ghost predicate SourcesAre(sources: Sources, source: Source, docs: seq<Doc>) {
    && Doc(sources.body, source.body) in docs && Doc(sources.path, Object(source.path)) in docs
    && Doc(sources.query, Object(source.query)) in docs && Doc(sources.header, Object(source.header)) in docs
  }

  ghost predicate RuleIs(rule: Rule, m: Mapping, docs: seq<Doc>) {
    && rule.source == m.source && rule.target == m.target && (rule.default.Some? <==> m.default.Some?)
    && (rule.default.Some? ==> Doc(rule.default.value, m.default.value) in docs)
  }

  /** `transcodeMappingSourceValue` in memory. */
  function SourceSlot(o: Objects, sources: Sources, path: string): SlotLookup {
    if TrimSpace(path) == "" then Nothing
    else
      var parts := Split(TrimSpace(path), '.');
      if parts[0] == "body" then SlotAt(o, sources.body, parts[1..])
      else if parts[0] == "path" then SlotAt(o, sources.path, parts[1..])
      else if parts[0] == "query" then SlotAt(o, sources.query, parts[1..])
      else if parts[0] == "header" then SlotAt(o, sources.header, parts[1..])
      else Fails
  }

  /** A source finds in memory what it finds on values, beside the payload. */
  ghost predicate FindsBeside(o: Objects, root: Slot, payload: Json, found: SlotLookup, expected: Lookup) {
    match expected
    case Broken => found == Fails
    case Missing => found == Nothing
    case Found(w) => found.Finds? && Beside(o, root, payload, found.slot, w)
  }

  lemma DocLookup(o: Objects, root: Slot, payload: Json, docs: seq<Doc>, doc: Slot, v: Json, parts: seq<string>)
    requires DocsBeside(o, root, payload, docs) && Doc(doc, v) in docs
    ensures FindsBeside(o, root, payload, SlotAt(o, doc, parts), ValueAt(v, parts))
  {
    assert Beside(o, root, payload, Doc(doc, v).slot, Doc(doc, v).value);
    LookupMatches(o, doc, v, parts);
  }

  lemma SourceMatches(o: Objects, root: Slot, payload: Json, docs: seq<Doc>, sources: Sources, source: Source, path: string)
    requires DocsBeside(o, root, payload, docs) && SourcesAre(sources, source, docs)
    ensures FindsBeside(o, root, payload, SourceSlot(o, sources, path), SourceValue(source, path))
  {
    if TrimSpace(path) != "" {
      var parts := Split(TrimSpace(path), '.')[1..];
      DocLookup(o, root, payload, docs, sources.body, source.body, parts);
      DocLookup(o, root, payload, docs, sources.path, Object(source.path), parts);
      DocLookup(o, root, payload, docs, sources.query, Object(source.query), parts);
      DocLookup(o, root, payload, docs, sources.header, Object(source.header), parts);
    }
  }

  lemma DocsKept(o: Objects, o': Objects, root: Slot, payload: Json, docs: seq<Doc>)
    requires Holds(o, root, payload) && DocsBeside(o, root, payload, docs) && Within(o, o', root, payload)
    ensures DocsHold(o', docs)
    ensures forall payload' :: Holds(o', root, payload') && NothingTaken(o, root, payload, o', payload') ==>
              DocsBeside(o', root, payload', docs)
  {
    forall d | d in docs
      ensures Holds(o', d.slot, d.value)
      ensures forall payload' :: Holds(o', root, payload') && NothingTaken(o, root, payload, o', payload') ==>
                Beside(o', root, payload', d.slot, d.value)
    {
      DocumentKept(o, o', root, payload, d.slot, d.value);
    }
  }

  lemma DocsExtend(o: Objects, o': Objects, root: Slot, payload: Json, docs: seq<Doc>)
    requires DocsBeside(o, root, payload, docs) && Extends(o, o')
    ensures DocsBeside(o', root, payload, docs)
  {
    forall d | d in docs ensures Beside(o', root, payload, d.slot, d.value) {
      BesideExtends(o, o', root, payload, d.slot, d.value);
    }
  }

  // ------------------------------------------------------------- the payload

  class Payload {
    const root: Ref
    var objects: Objects
    var next: Ref
    /** The JSON object that the payload is. */
    ghost var contents: Fields

    ghost function View(): Store
      reads this
    {
      Store(objects, next)
    }

    ghost predicate Valid()
      reads this
    {
      View().Valid() && Tree(objects, Link(root), Object(contents))
    }

    /** An empty payload beside the documents there are. */
    constructor (documents: Objects, next: Ref, ghost docs: seq<Doc>)
      requires Store(documents, next).Valid() && DocsHold(documents, docs)
      ensures Valid() && contents == map[] && DocsBeside(objects, Link(root), Object(contents), docs)
    {
      root := next;
      objects := documents[next := map[]];
      this.next := next + 1;
      contents := map[];
      new;
      forall d | d in docs ensures Beside(objects, Link(root), Object(contents), d.slot, d.value) {
        assert Extends(documents, objects);
        ExtendsSame(documents, objects, d.slot, d.value);
        HoldsKept(documents, objects, d.slot, d.value);
        forall x | Reaches(objects, d.slot, d.value, x) ensures x in documents {
          ReachedIsThere(documents, d.slot, d.value, x);
        }
      }
    }

    /** `cloneTranscodeMappingDefault`. */
    method Clone(slot: Slot, ghost v: Json) returns (copy: Slot)
      requires View().Valid() && Holds(objects, slot, v)
      modifies this`objects, this`next
      ensures View().Valid() && Copied(old(objects), objects, copy, v)
      decreases v, 1
    {
      match slot
      case Scalar(_) => copy := slot;
      case List(items) => copy := CloneList(items, v);
      case Link(ref) => copy := CloneObject(ref, v);
    }

    method CloneObject(ref: Ref, ghost v: Json) returns (copy: Slot)
      requires View().Valid() && Holds(objects, Link(ref), v)
      modifies this`objects, this`next
      ensures View().Valid() && Copied(old(objects), objects, copy, v)
      decreases v, 0, 2
    {
      ghost var start := objects;
      var out := next;
      objects := objects[out := map[]];
      next := next + 1;
      EmptyCopy(start, out);
      CloneFields(ref, out, start, v);
      copy := Link(out);
    }

    method CloneFields(ref: Ref, out: Ref, ghost start: Objects, ghost v: Json)
      requires View().Valid() && Holds(start, Link(ref), v) && Copied(start, objects, Link(out), Object(map[]))
      modifies this`objects, this`next
      ensures View().Valid() && Copied(start, objects, Link(out), v)
      decreases v, 0, 1
    {
      assert SameAt(start, objects, ref);
      var todo := objects[ref].Keys;
      ghost var done: Fields := map[];
      while todo != {}
        invariant View().Valid() && Copied(start, objects, Link(out), Object(done))
        invariant todo <= v.fields.Keys && done.Keys == v.fields.Keys - todo
        invariant forall k :: k in done ==> done[k] == v.fields[k]
      {
        var k :| k in todo;
        CloneField(ref, k, out, start, done, v);
        done := done[k := v.fields[k]];
        todo := todo - {k};
      }
      assert done == v.fields;
    }

    method CloneField(ref: Ref, k: string, out: Ref, ghost start: Objects, ghost done: Fields, ghost v: Json)
      requires View().Valid() && Holds(start, Link(ref), v) && k in v.fields
      requires Copied(start, objects, Link(out), Object(done))
      modifies this`objects, this`next
      ensures View().Valid() && Copied(start, objects, Link(out), Object(done[k := v.fields[k]]))
      decreases v, 0, 0
    {
      ghost var here := objects;
      ExtendsSame(start, objects, Link(ref), v);
      HoldsKept(start, objects, Link(ref), v);
      var c := Clone(objects[ref][k], v.fields[k]);
      ghost var mid := objects;
      assert SameAt(here, mid, out);
      objects := objects[out := objects[out][k := c]];
      CopiesField(start, here, mid, objects, out, done, k, c, v.fields[k]);
    }

    method CloneList(items: seq<Slot>, ghost v: Json) returns (copy: Slot)
      requires View().Valid() && Holds(objects, List(items), v)
      modifies this`objects, this`next
      ensures View().Valid() && Copied(old(objects), objects, copy, v)
      decreases v, 0
    {
      ghost var start := objects;
      var out := [];
      for i := 0 to |items|
        invariant View().Valid() && |out| == i && Copied(start, objects, List(out), Array(v.items[..i]))
      {
        ghost var here := objects;
        ExtendsSame(start, objects, List(items), v);
        HoldsKept(start, objects, List(items), v);
        var c := Clone(items[i], v.items[i]);
        CopiesItem(start, here, objects, out, v.items[..i], c, v.items[i]);
        assert v.items[..i + 1] == v.items[..i] + [v.items[i]];
        out := out + [c];
      }
      assert v.items[..|items|] == v.items;
      copy := List(out);
    }

    /** The loop of `setTranscodeMappingTarget`. */
    method FollowPath(parts: seq<string>) returns (end: Result<End, TargetError>)
      requires root in objects && parts != []
      modifies this`objects, this`next
      ensures (View(), end) == Walk(old(View()), root, parts)
    {
      ghost var start := View();
      var current, i := root, 0;
      assert parts[0..] == parts;
      while i < |parts| - 1
        invariant 0 <= i < |parts| && current in objects
        invariant Walk(View(), current, parts[i..]) == Walk(start, root, parts)
      {
        assert parts[i..][0] == parts[i] && parts[i..][1..] == parts[i + 1..];
        var part := TrimSpace(parts[i]);
        if part == "" {
          return Err(EmptySegment);
        }
        if IsArraySegment(part) {
          return Err(if TrimSuffix(part, "[]") == "" then EmptyArraySegment else ArrayNotTerminal);
        }
        if part !in objects[current] {
          var child := next;
          objects := objects[current := objects[current][part := Link(child)]];
          objects := objects[child := map[]];
          next := next + 1;
          current := child;
        } else if objects[current][part].Link? && objects[current][part].ref in objects {
          current := objects[current][part].ref;
        } else {
          return Err(Conflict);
        }
        i := i + 1;
      }
      assert parts[i..][0] == parts[i];
      var part := TrimSpace(parts[i]);
      if part == "" {
        return Err(EmptySegment);
      }
      var name := if IsArraySegment(part) then TrimSuffix(part, "[]") else part;
      end := if name == "" then Err(EmptyArraySegment) else Ok(End(current, name));
    }

    /** `setTranscodeMappingTarget`: a copy of the value is stored where the walk ends, which does to the payload what the
        write on values does; nothing outside the payload is changed or taken into it. */
    method WriteTarget(parts: seq<string>, slot: Slot, ghost v: Json)
      returns (err: Option<TargetError>, ghost mid: Objects, ghost copy: Slot)
      requires Valid() && parts != [] && Beside(objects, Link(root), Object(contents), slot, v)
      modifies this
      ensures Within(old(objects), objects, Link(root), Object(old(contents)))
      ensures err.Some? ==> SetTarget(old(contents), parts, v) == Err(err.value)
      ensures err.None? ==> StoresAtEnd(old(View()), root, parts, mid, copy, objects)
      ensures err.None? ==> Copied(Walk(old(View()), root, parts).0.objects, mid, copy, v)
      ensures err.None? ==> Valid() && SetTarget(old(contents), parts, v) == Ok(contents)
      ensures err.None? ==> Rewritten(old(objects), objects, root, old(contents), contents)
    {
      ghost var start, before := View(), contents;
      WalkStaysInside(start, root, parts, before);
      var end := FollowPath(parts);
      mid, copy := objects, slot;
      if end.Err? {
        WalkFails(start, root, parts, before, v);
        return Some(end.error), mid, copy;
      }
      DocumentKept(start.objects, objects, Link(root), Object(before), slot, v);
      mid, copy := StoreCopy(parts, end.value, slot, start, v);
      err := None;
    }

    /** The end of `setTranscodeMappingTarget`. */
    method StoreCopy(ghost parts: seq<string>, end: End, slot: Slot, ghost start: Store, ghost v: Json)
      returns (ghost mid: Objects, ghost copy: Slot)
      requires start.Valid() && Tree(start.objects, Link(root), Object(contents)) && parts != []
      requires (View(), Ok(end)) == Walk(start, root, parts) && View().Valid() && end.at in objects && Holds(objects, slot, v)
      modifies this
      ensures StoresAtEnd(start, root, parts, mid, copy, objects)
      ensures Copied(Walk(start, root, parts).0.objects, mid, copy, v)
      ensures Valid() && SetTarget(old(contents), parts, v) == Ok(contents)
      ensures Rewritten(start.objects, objects, root, old(contents), contents)
    {
      ghost var here := objects;
      var cloned := Clone(slot, v);
      mid, copy := objects, cloned;
      assert SameAt(here, mid, end.at);
      objects := objects[end.at := objects[end.at][end.name := cloned]];
      WalkWrites(start, root, parts, contents, mid, cloned, v, objects);
      contents := SetTarget(contents, parts, v).value;
    }

    /** One mapping, in place. */
    method Apply(sources: Sources, rule: Rule, ghost docs: seq<Doc>, ghost source: Source, ghost m: Mapping)
      returns (err: Option<MappingError>)
      requires Valid() && DocsBeside(objects, Link(root), Object(contents), docs)
      requires SourcesAre(sources, source, docs) && RuleIs(rule, m, docs)
      modifies this
      ensures DocsHold(objects, docs)
      ensures err.None? ==> Valid() && DocsBeside(objects, Link(root), Object(contents), docs)
      ensures err.None? ==> Applied(source, old(contents), m) == Ok(contents)
      ensures err.Some? ==> Applied(source, old(contents), m) == Err(err.value)
    {
      if TrimSpace(rule.target) == "" {
        return None;
      }
      SourceMatches(objects, Link(root), Object(contents), docs, sources, source, rule.source);
      var found := SourceSlot(objects, sources, rule.source);
      match found
      case Fails => return Some(BadSource);
      case Nothing =>
        if rule.default.None? {
          return None;
        }
        ghost var d := Doc(rule.default.value, m.default.value);
        assert Beside(objects, Link(root), Object(contents), d.slot, d.value);
        var value := CloneDefault(rule.default.value, docs, m.default.value);
        err := Write(rule, value, docs, m.default.value);
      case Finds(slot) =>
        err := Write(rule, slot, docs, SourceValue(source, m.source).value);
    }

    method CloneDefault(slot: Slot, ghost docs: seq<Doc>, ghost v: Json) returns (copy: Slot)
      requires Valid() && DocsBeside(objects, Link(root), Object(contents), docs) && Holds(objects, slot, v)
      modifies this`objects, this`next
      ensures Valid() && DocsBeside(objects, Link(root), Object(contents), docs)
      ensures Beside(objects, Link(root), Object(contents), copy, v)
    {
      ghost var start := objects;
      copy := Clone(slot, v);
      ExtendsSame(start, objects, Link(root), Object(contents));
      TreeKept(start, objects, Link(root), Object(contents));
      DocsExtend(start, objects, Link(root), Object(contents), docs);
      NewIsBeside(start, objects, Link(root), Object(contents), copy, v);
    }

    method Write(rule: Rule, slot: Slot, ghost docs: seq<Doc>, ghost v: Json) returns (err: Option<MappingError>)
      requires Valid() && DocsBeside(objects, Link(root), Object(contents), docs)
      requires Beside(objects, Link(root), Object(contents), slot, v)
      modifies this
      ensures DocsHold(objects, docs)
      ensures err.None? ==> Valid() && DocsBeside(objects, Link(root), Object(contents), docs)
      ensures err.None? ==> SetTarget(old(contents), Split(TrimSpace(rule.target), '.'), v) == Ok(contents)
      ensures err.Some? ==> err.value.BadTarget?
      ensures err.Some? ==> SetTarget(old(contents), Split(TrimSpace(rule.target), '.'), v) == Err(err.value.error)
    {
      ghost var start, before := objects, contents;
      ghost var mid, copy;
      var failed;
      failed, mid, copy := WriteTarget(Split(TrimSpace(rule.target), '.'), slot, v);
      DocsKept(start, objects, Link(root), Object(before), docs);
      err := if failed.Some? then Some(BadTarget(failed.value)) else None;
    }
  }

  /** `transcodePayloadFromMappings`: the payload built in place is the one the mappings describe, and every document, those
      that the sources and defaults are read from among them, still has the value it had. */
  method PayloadFromMappings(documents: Objects, next: Ref, sources: Sources, rules: seq<Rule>,
                             ghost docs: seq<Doc>, ghost source: Source, ghost ms: seq<Mapping>)
    returns (payload: Payload, err: Option<MappingError>)
    requires Store(documents, next).Valid() && DocsHold(documents, docs) && SourcesAre(sources, source, docs)
    requires |rules| == |ms| && forall i :: 0 <= i < |ms| ==> RuleIs(rules[i], ms[i], docs)
    ensures err.None? ==> payload.Valid() && AppliedAll(source, map[], ms) == Ok(payload.contents)
    ensures err.Some? ==> AppliedAll(source, map[], ms) == Err(err.value)
    ensures DocsHold(payload.objects, docs)
  {
    payload := new Payload(documents, next, docs);
    err := None;
    for i := 0 to |rules|
      invariant fresh(payload) && payload.Valid() && err.None?
      invariant DocsBeside(payload.objects, Link(payload.root), Object(payload.contents), docs)
      invariant AppliedAll(source, map[], ms) == AppliedAll(source, payload.contents, ms[i..])
    {
      assert ms[i..][1..] == ms[i + 1..];
      err := payload.Apply(sources, rules[i], docs, source, ms[i]);
      if err.Some? {
        return;
      }
    }
  }

  // ------------------------------------------------------ what the copy is for

  /** Were what the source finds stored itself and not a copy of it, the next write through it would show in the source: after
      the mappings `body.x` to `a` and any value to `a.k`, the source path `body.x.k` finds that value. */
  lemma UncopiedObjectIsShared(s: Store, root: Ref, body: Slot, fields: Fields, x: string, a: string, k: string, w: Slot,
                               o1: Objects, o2: Objects)
    requires s.Valid() && root in s.objects && s.objects[root] == map[]
    requires Beside(s.objects, Link(root), Object(map[]), body, Object(fields))
    requires IsPlain([x]) && IsPlain([a, k]) && TrimSpace(x) in fields && fields[TrimSpace(x)].Object?
    requires SlotAt(s.objects, body, [x]).Finds?
    requires StoresAtEnd(s, root, [a], s.objects, SlotAt(s.objects, body, [x]).slot, o1)
    requires root in o1 && StoresAtEnd(Store(o1, s.next), root, [a, k], o1, w, o2)
    ensures TrimSpace(k) !in fields[TrimSpace(x)].fields ==> SlotAt(s.objects, body, [x, k]) == Nothing
    ensures SlotAt(o2, body, [x, k]) == Finds(w)
  {
    var name := TrimSpace(x);
    var c := s.objects[body.ref][name];
    assert [x][0] == x && [x][1..] == [] && [a, k][0] == a && [a, k][1..] == [k] && [x, k][1..] == [k] && [k][1..] == [];
    assert SlotAt(s.objects, c, []) == Finds(c);
    assert [a, k][1] == k && [k][0] == k;
    assert Holds(s.objects, c, fields[name]) && s.objects[c.ref].Keys == fields[name].fields.Keys;
    assert o1 == s.objects[root := map[TrimSpace(a) := c]];
    assert Reaches(s.objects, body, Object(fields), body.ref);
    assert Reaches(s.objects, c, fields[name], c.ref);
    assert Reaches(s.objects, body, Object(fields), c.ref);
    assert Reaches(s.objects, Link(root), Object(map[]), root);
    if c.ref == body.ref {
      HoldsOneValue(s.objects, body, Object(fields), fields[name]);
      NoObjectIsItsOwnField(fields, name);
    }
    assert Walk(Store(o1, s.next), c.ref, [k]) == (Store(o1, s.next), Ok(End(c.ref, TrimSpace(k))));
    assert o2 == o1[c.ref := o1[c.ref][TrimSpace(k) := w]];
    assert o2[body.ref] == s.objects[body.ref];
    assert SlotAt(o2, c, [k]) == SlotAt(o2, w, []);
  }

  lemma NoObjectIsItsOwnField(fields: Fields, name: string)
    requires name in fields
    ensures fields[name] != Object(fields)
  {
  }
}
