/** JSON values, body schemas and source paths of the transcoding gateway
    (gateway/transcode.go, gateway/gateway.go). */
module TranscodeSchema {
  import opened GoStrings

  /** A decoded JSON document. */
  datatype Json =
    | Null
    | Bool(b: bool)
    | Number(n: real)
    | Text(s: string)
    | Array(items: seq<Json>)
    | Object(fields: map<string, Json>)

  datatype Schema = Schema(kind: string, items: Option<Schema>, properties: map<string, Schema>, required: seq<string>)

  function Kind(schema: Schema): string {
    ToLower(TrimSpace(schema.kind))
  }

  predicate IsObjectKind(schema: Schema) {
    Kind(schema) == "" || Kind(schema) == "object"
  }

  // -------------------------------------------------- the value validator

  /** `validateTranscodeSchemaValue` accepts. */
  predicate Validates(value: Json, schema: Schema)
    decreases schema
  {
    if IsObjectKind(schema) then
      && value.Object?
      && (forall i :: 0 <= i < |schema.required| ==>
            TrimSpace(schema.required[i]) == "" || TrimSpace(schema.required[i]) in value.fields)
      && (forall name :: name in schema.properties && name in value.fields && value.fields[name] != Null ==>
            Validates(value.fields[name], schema.properties[name]))
    else if Kind(schema) == "array" then
      && value.Array?
      && (schema.items.Some? ==> forall i :: 0 <= i < |value.items| ==> Validates(value.items[i], schema.items.value))
    else if Kind(schema) == "integer" then value.Number? && value.n.Floor as real == value.n
    else if Kind(schema) == "number" then value.Number?
    else if Kind(schema) == "boolean" then value.Bool?
    else if Kind(schema) == "string" then value.Text?
    else true
  }

  // --------------------------------------------------- the path validators

  /** A segment ending in `[]` projects over an array. */
  predicate IsArraySegment(part: string) {
    HasSuffix(part, "[]")
  }

  /** The segment check of `validateTranscodeMappingPath`. */
  predicate AcceptsSegment(part: string) {
    TrimSpace(TrimSuffix(part, "[]")) != ""
  }

  predicate AcceptsSegments(parts: seq<string>) {
    forall i :: 0 <= i < |parts| ==> AcceptsSegment(parts[i])
  }

  /** `validateTranscodeMappingPath` accepts a source path. */
  predicate AcceptsSourcePath(path: string) {
    TrimSpace(path) == "" ||
    var parts := Split(TrimSpace(path), '.');
    && TrimSuffix(TrimSpace(parts[0]), "[]") in {"body", "path", "query", "header"}
    && AcceptsSegments(parts)
  }

  /** `validateTranscodeSchemaPath` accepts. */
  predicate AcceptsSchemaPath(schema: Schema, parts: seq<string>)
    decreases |parts|
  {
    if parts == [] then true
    else
      var part := TrimSpace(parts[0]);
      var name := TrimSuffix(part, "[]");
      if part == "" then false
      else if IsArraySegment(part) && name == "" then
        && Kind(schema) == "array"
        && (schema.items.Some? ==> AcceptsSchemaPath(schema.items.value, parts[1..]))
      else
        && IsObjectKind(schema)
        && name in schema.properties
        && var property := schema.properties[name];
           if IsArraySegment(part) then
             && Kind(property) == "array"
             && (property.items.Some? ==> AcceptsSchemaPath(property.items.value, parts[1..]))
           else AcceptsSchemaPath(property, parts[1..])
  }

  // ------------------------------------------------------------ the lookup

  datatype Lookup = Broken | Missing | Found(value: Json)

  /** `transcodeMappingValueAtPath`. */
  function ValueAt(current: Json, parts: seq<string>): Lookup
    decreases |parts|, 0
  {
    if parts == [] then Found(current)
    else
      var part := TrimSpace(parts[0]);
      if part == "" then Broken
      else if IsArraySegment(part) then
        var name := TrimSuffix(part, "[]");
        if name == "" || name == "body" then ItemsAt(current, parts)
        else if current.Object? && name in current.fields then ItemsAt(current.fields[name], parts)
        else Missing
      else if current.Object? && part in current.fields then ValueAt(current.fields[part], parts[1..])
      else Missing
  }

  /** The array branch: the items themselves, or the rest of the path projected over them. */
  function ItemsAt(arrayValue: Json, parts: seq<string>): Lookup
    requires parts != []
    decreases |parts| - 1, |if arrayValue.Array? then arrayValue.items else []| + 1
  {
    if !arrayValue.Array? then Missing
    else if |parts| == 1 then Found(arrayValue)
    else
      match Project(arrayValue.items, parts[1..])
      case None => Broken
      case Some(out) => Found(Array(out))
  }

  /** The values found in the items, in order; `None` when a lookup is broken. */
  function Project(items: seq<Json>, parts: seq<string>): Option<seq<Json>>
    decreases |parts|, |items|
  {
    if items == [] then Some([])
    else
      match ValueAt(items[0], parts)
      case Broken => None
      case Missing => Project(items[1..], parts)
      case Found(value) =>
        match Project(items[1..], parts)
        case None => None
        case Some(out) => Some([value] + out)
  }

  // -------------------------------------------------------------- soundness

  /** What a lookup may return: anything, null or a value of a schema, or an array of a shape. */
  datatype Shape = Anything | Nullable(schema: Schema) | ListOf(shape: Shape)

  ghost predicate HasShape(value: Json, shape: Shape)
    decreases shape, 0
  {
    match shape
    case Anything => true
    case Nullable(schema) => value == Null || Validates(value, schema)
    case ListOf(inner) => value.Array? && AllHaveShape(value.items, inner)
  }

  ghost predicate AllHaveShape(values: seq<Json>, shape: Shape)
    decreases shape, 1
  {
    forall i :: 0 <= i < |values| ==> HasShape(values[i], shape)
  }

  /** The shape that a schema promises at a path. */
  function ShapeAt(schema: Schema, parts: seq<string>): Shape
    requires AcceptsSchemaPath(schema, parts)
    decreases |parts|
  {
    if parts == [] then Nullable(schema)
    else
      var part := TrimSpace(parts[0]);
      var name := TrimSuffix(part, "[]");
      if IsArraySegment(part) then
        var list := if name == "" then schema else schema.properties[name];
        if |parts| == 1 then Nullable(list)
        else if list.items == None then ListOf(Anything)
        else ListOf(ShapeAt(list.items.value, parts[1..]))
      else ShapeAt(schema.properties[name], parts[1..])
  }

  lemma TrimKeepsArraySuffix(part: string)
    requires IsArraySegment(part)
    ensures TrimSpace(part) != ""
  {
    var n := |part|;
    assert part[n - 1] == part[n - 2..][1] == ']';
    LastSurvivesTrimLeft(part);
  }

  lemma {:induction false} LastSurvivesTrimLeft(s: string)
    requires s != "" && !IsSpace(s[|s| - 1])
    ensures TrimLeftSpace(s) != "" && TrimLeftSpace(s)[|TrimLeftSpace(s)| - 1] == s[|s| - 1]
  {
    if IsSpace(s[0]) {
      LastSurvivesTrimLeft(s[1..]);
    }
  }

  /** An accepted segment is not empty when the lookup trims it. */
  lemma AcceptedSegmentIsNotEmpty(part: string)
    requires AcceptsSegment(part)
    ensures TrimSpace(part) != ""
  {
    if IsArraySegment(part) {
      TrimKeepsArraySuffix(part);
    }
  }

  /** A lookup along accepted segments is never broken, whatever the document. */
  lemma {:induction false} AcceptedLookupIsNotBroken(current: Json, parts: seq<string>)
    requires AcceptsSegments(parts)
    ensures ValueAt(current, parts) != Broken
    decreases |parts|, 0
  {
    if parts != [] {
      var part := TrimSpace(parts[0]);
      AcceptedSegmentIsNotEmpty(parts[0]);
      if IsArraySegment(part) {
        var name := TrimSuffix(part, "[]");
        var arrayValue := if name == "" || name == "body" then current
                          else if current.Object? && name in current.fields then current.fields[name] else Null;
        if arrayValue.Array? && |parts| > 1 {
          AcceptedProjectIsNotBroken(arrayValue.items, parts[1..]);
        }
      } else if current.Object? && part in current.fields {
        AcceptedLookupIsNotBroken(current.fields[part], parts[1..]);
      }
    }
  }

  lemma {:induction false} AcceptedProjectIsNotBroken(items: seq<Json>, parts: seq<string>)
    requires AcceptsSegments(parts)
    ensures Project(items, parts).Some?
    decreases |parts|, |items| + 1
  {
    if items != [] {
      AcceptedLookupIsNotBroken(items[0], parts);
      AcceptedProjectIsNotBroken(items[1..], parts);
    }
  }

  /** Schema soundness: on a document that passed the value validator, a path that passed both path validators
      is never broken, and what it finds has the shape the schema promises there. */
  lemma {:induction false} SchemaSoundness(current: Json, schema: Schema, parts: seq<string>)
    requires current == Null || Validates(current, schema)
    requires AcceptsSchemaPath(schema, parts) && AcceptsSegments(parts)
    ensures ValueAt(current, parts) != Broken
    ensures ValueAt(current, parts).Found? ==> HasShape(ValueAt(current, parts).value, ShapeAt(schema, parts))
    decreases |parts|, 0
  {
    AcceptedLookupIsNotBroken(current, parts);
    if parts != [] {
      var part := TrimSpace(parts[0]);
      var name := TrimSuffix(part, "[]");
      if IsArraySegment(part) {
        if name == "" {
          ListSoundness(current, schema, parts);
        } else if name != "body" && current.Object? && name in current.fields {
          ListSoundness(current.fields[name], schema.properties[name], parts);
        }
      } else if current.Object? && part in current.fields {
        SchemaSoundness(current.fields[part], schema.properties[name], parts[1..]);
      }
    }
  }

  lemma {:induction false} ListSoundness(arrayValue: Json, list: Schema, parts: seq<string>)
    requires parts != [] && AcceptsSegments(parts)
    requires arrayValue == Null || Validates(arrayValue, list)
    requires Kind(list) == "array"
    requires list.items.Some? ==> AcceptsSchemaPath(list.items.value, parts[1..])
    ensures var shape := if |parts| == 1 then Nullable(list)
                         else if list.items == None then ListOf(Anything)
                         else ListOf(ShapeAt(list.items.value, parts[1..]));
            ItemsAt(arrayValue, parts).Found? ==> HasShape(ItemsAt(arrayValue, parts).value, shape)
    decreases |parts| - 1, 2
  {
    if arrayValue.Array? && |parts| > 1 && list.items.Some? {
      var items, item := arrayValue.items, list.items.value;
      forall i | 0 <= i < |items| ensures FindsShape(items[i], parts[1..], ShapeAt(item, parts[1..])) {
        SchemaSoundness(items[i], item, parts[1..]);
      }
      ProjectSoundness(items, parts[1..], ShapeAt(item, parts[1..]));
    }
  }

  ghost predicate FindsShape(value: Json, parts: seq<string>, shape: Shape) {
    ValueAt(value, parts).Found? ==> HasShape(ValueAt(value, parts).value, shape)
  }

  /** What is projected out of a list has the shape that the lookup has in each of its items. */
  lemma {:induction false} ProjectSoundness(items: seq<Json>, parts: seq<string>, shape: Shape)
    requires forall i :: 0 <= i < |items| ==> FindsShape(items[i], parts, shape)
    ensures Project(items, parts).Some? ==> AllHaveShape(Project(items, parts).value, shape)
    decreases |items|
  {
    if items != [] {
      assert FindsShape(items[0], parts, shape);
      ProjectSoundness(items[1..], parts, shape);
    }
  }

  // -------------------------------------------- what the schemas mean, kind by kind

  /** A step into a document and its schema at once. */
  datatype Hop = Field(name: string) | Item(index: nat)

  /** The value and the schema that the hops lead to. Absent and null fields, and properties and items without a schema,
      lead nowhere. */
  ghost function Site(value: Json, schema: Schema, hops: seq<Hop>): Option<(Json, Schema)>
    decreases |hops|
  {
    if hops == [] then Some((value, schema))
    else
      match hops[0]
      case Field(name) =>
        if IsObjectKind(schema) && name in schema.properties && value.Object? && name in value.fields && value.fields[name] != Null
        then Site(value.fields[name], schema.properties[name], hops[1..]) else None
      case Item(i) =>
        if Kind(schema) == "array" && schema.items.Some? && value.Array? && i < |value.items|
        then Site(value.items[i], schema.items.value, hops[1..]) else None
  }

  ghost predicate IsWholeNumber(r: real, k: int) {
    r == k as real
  }

  /** The value is of the JSON type that the kind names, an object with its required fields there. */
  ghost predicate OfKind(value: Json, schema: Schema) {
    var kind := Kind(schema);
    && (kind == "string" ==> value.Text?)
    && (kind == "number" ==> value.Number?)
    && (kind == "integer" ==> value.Number? && exists k: int :: IsWholeNumber(value.n, k))
    && (kind == "boolean" ==> value.Bool?)
    && (kind == "array" ==> value.Array?)
    && (kind == "object" || kind == "" ==>
          && value.Object?
          && forall name :: name in schema.required && TrimSpace(name) != "" ==> TrimSpace(name) in value.fields)
  }

  ghost predicate OfKindAt(value: Json, schema: Schema, hops: seq<Hop>) {
    Site(value, schema, hops).Some? ==> OfKind(Site(value, schema, hops).value.0, Site(value, schema, hops).value.1)
  }

  ghost predicate OfKindThroughout(value: Json, schema: Schema) {
    forall hops :: OfKindAt(value, schema, hops)
  }

  lemma ValidIsOfKind(value: Json, schema: Schema)
    requires Validates(value, schema)
    ensures OfKind(value, schema)
  {
    if Kind(schema) == "integer" {
      assert IsWholeNumber(value.n, value.n.Floor);
    }
  }

  lemma {:induction false} ValidIsOfKindAt(value: Json, schema: Schema, hops: seq<Hop>)
    requires Validates(value, schema)
    ensures OfKindAt(value, schema, hops)
    decreases |hops|
  {
    if hops == [] {
      ValidIsOfKind(value, schema);
    } else if Site(value, schema, hops).Some? {
      match hops[0]
      case Field(name) => ValidIsOfKindAt(value.fields[name], schema.properties[name], hops[1..]);
      case Item(i) => ValidIsOfKindAt(value.items[i], schema.items.value, hops[1..]);
    }
  }

  lemma SiteBelow(value: Json, schema: Schema, hop: Hop, hops: seq<Hop>)
    requires Site(value, schema, [hop]).Some?
    ensures var (w, t) := Site(value, schema, [hop]).value; Site(value, schema, [hop] + hops) == Site(w, t, hops)
  {
    assert [hop][1..] == [] && ([hop] + hops)[1..] == hops;
  }

  /** What the validator refuses is of the wrong kind somewhere. */
  lemma {:induction false} InvalidSite(value: Json, schema: Schema) returns (hops: seq<Hop>)
    requires !Validates(value, schema)
    ensures !OfKindAt(value, schema, hops)
    decreases schema
  {
    if !OfKind(value, schema) {
      return [];
    }
    if IsObjectKind(schema) {
      hops := InvalidField(value, schema);
    } else if Kind(schema) == "array" {
      hops := InvalidItem(value, schema);
    } else {
      WholeNumbersAreValid(value, schema);
      assert false;
    }
  }

  lemma {:induction false} InvalidField(value: Json, schema: Schema) returns (hops: seq<Hop>)
    requires !Validates(value, schema) && OfKind(value, schema) && IsObjectKind(schema)
    ensures !OfKindAt(value, schema, hops)
    decreases schema, 0
  {
    var name :| name in schema.properties && name in value.fields && value.fields[name] != Null
                && !Validates(value.fields[name], schema.properties[name]);
    hops := InvalidSite(value.fields[name], schema.properties[name]);
    assert [Field(name)][1..] == [];
    SiteBelow(value, schema, Field(name), hops);
    hops := [Field(name)] + hops;
  }

  lemma {:induction false} InvalidItem(value: Json, schema: Schema) returns (hops: seq<Hop>)
    requires !Validates(value, schema) && OfKind(value, schema) && Kind(schema) == "array"
    ensures !OfKindAt(value, schema, hops)
    decreases schema, 0
  {
    var i :| 0 <= i < |value.items| && !Validates(value.items[i], schema.items.value);
    hops := InvalidSite(value.items[i], schema.items.value);
    assert [Item(i)][1..] == [];
    SiteBelow(value, schema, Item(i), hops);
    hops := [Item(i)] + hops;
  }

  lemma WholeNumbersAreValid(value: Json, schema: Schema)
    requires OfKind(value, schema) && !IsObjectKind(schema) && Kind(schema) != "array"
    ensures Validates(value, schema)
  {
    if Kind(schema) == "integer" {
      var k: int :| IsWholeNumber(value.n, k);
      assert value.n.Floor == k;
    }
  }

  /** The validator accepts exactly the documents that are of the right JSON type wherever the schema names one: strings are
      texts, numbers numbers, integers whole numbers, booleans booleans, arrays arrays, item by item, and objects objects
      that hold their required fields, field by field. */
  lemma ValidatesExactly(value: Json, schema: Schema)
    ensures Validates(value, schema) <==> OfKindThroughout(value, schema)
  {
    if Validates(value, schema) {
      forall hops ensures OfKindAt(value, schema, hops) {
        ValidIsOfKindAt(value, schema, hops);
      }
    } else {
      var hops := InvalidSite(value, schema);
    }
  }

  /** The same for what a lookup may return. */
  ghost predicate HasKinds(value: Json, shape: Shape)
    decreases shape
  {
    match shape
    case Anything => true
    case Nullable(schema) => value == Null || OfKindThroughout(value, schema)
    case ListOf(inner) => value.Array? && forall i :: 0 <= i < |value.items| ==> HasKinds(value.items[i], inner)
  }

  lemma {:induction false} ShapeIsKinds(value: Json, shape: Shape)
    ensures HasShape(value, shape) <==> HasKinds(value, shape)
    decreases shape
  {
    match shape
    case Anything =>
    case Nullable(schema) => ValidatesExactly(value, schema);
    case ListOf(inner) =>
      if value.Array? {
        forall i | 0 <= i < |value.items| ensures HasShape(value.items[i], inner) <==> HasKinds(value.items[i], inner) {
          ShapeIsKinds(value.items[i], inner);
        }
      }
  }

  /** An accepted path into an accepted document finds a value of the JSON type that the schema names there. */
  lemma FoundHasItsKind(current: Json, schema: Schema, parts: seq<string>)
    requires Validates(current, schema) && AcceptsSchemaPath(schema, parts) && AcceptsSegments(parts)
    ensures ValueAt(current, parts).Found? ==> HasKinds(ValueAt(current, parts).value, ShapeAt(schema, parts))
  {
    SchemaSoundness(current, schema, parts);
    if ValueAt(current, parts).Found? {
      ShapeIsKinds(ValueAt(current, parts).value, ShapeAt(schema, parts));
    }
  }

  // --------------------------------------------------- which paths are accepted

  /** What one segment leads to: the schema of a property, or of the items of a list, which may have none. */
  ghost predicate StepsTo(schema: Schema, part: string, next: Option<Schema>) {
    var trimmed := TrimSpace(part);
    var name := TrimSuffix(trimmed, "[]");
    && trimmed != ""
    && if trimmed == "[]" then Kind(schema) == "array" && next == schema.items
       else
         && IsObjectKind(schema) && name in schema.properties
         && if name == trimmed then next == Some(schema.properties[name])
            else Kind(schema.properties[name]) == "array" && next == schema.properties[name].items
  }

  /** The schemas along a path: to its end, or to a list whose items have no schema. */
  ghost predicate IsTrail(schema: Schema, parts: seq<string>, trail: seq<Schema>) {
    && 1 <= |trail| <= |parts| + 1 && trail[0] == schema
    && (forall i :: 0 <= i < |trail| - 1 ==> StepsTo(trail[i], parts[i], Some(trail[i + 1])))
    && (|trail| <= |parts| ==> StepsTo(trail[|trail| - 1], parts[|trail| - 1], None))
  }

  lemma ArraySegmentName(part: string)
    requires IsArraySegment(part)
    ensures TrimSuffix(part, "[]") == "" <==> part == "[]"
    ensures TrimSuffix(part, "[]") != part
  {
  }

  lemma {:induction false} AcceptedHasTrail(schema: Schema, parts: seq<string>) returns (trail: seq<Schema>)
    requires AcceptsSchemaPath(schema, parts)
    ensures IsTrail(schema, parts, trail)
    decreases |parts|
  {
    if parts == [] {
      return [schema];
    }
    var part := TrimSpace(parts[0]);
    var name := TrimSuffix(part, "[]");
    if IsArraySegment(part) {
      ArraySegmentName(part);
    }
    var next := if part == "[]" then schema.items
                else if IsArraySegment(part) then schema.properties[name].items else Some(schema.properties[name]);
    assert StepsTo(schema, parts[0], next);
    if next.None? {
      return [schema];
    }
    trail := AcceptedHasTrail(next.value, parts[1..]);
    trail := [schema] + trail;
    TrailGrows(schema, parts, next.value, trail[1..]);
  }

  lemma TrailGrows(schema: Schema, parts: seq<string>, next: Schema, trail: seq<Schema>)
    requires parts != [] && StepsTo(schema, parts[0], Some(next)) && IsTrail(next, parts[1..], trail)
    ensures IsTrail(schema, parts, [schema] + trail)
  {
    var longer := [schema] + trail;
    forall i | 0 <= i < |longer| - 1 ensures StepsTo(longer[i], parts[i], Some(longer[i + 1])) {
      if i > 0 {
        assert StepsTo(trail[i - 1], parts[1..][i - 1], Some(trail[i]));
      }
    }
  }

  lemma {:induction false} TrailIsAccepted(schema: Schema, parts: seq<string>, trail: seq<Schema>)
    requires IsTrail(schema, parts, trail)
    ensures AcceptsSchemaPath(schema, parts)
    decreases |parts|
  {
    if parts != [] {
      var part := TrimSpace(parts[0]);
      if IsArraySegment(part) {
        ArraySegmentName(part);
      }
      if |trail| > 1 {
        assert StepsTo(trail[0], parts[0], Some(trail[1]));
        forall i | 0 <= i < |trail[1..]| - 1 ensures StepsTo(trail[1..][i], parts[1..][i], Some(trail[1..][i + 1])) {
          assert StepsTo(trail[i + 1], parts[i + 1], Some(trail[i + 2]));
        }
        TrailIsAccepted(trail[1], parts[1..], trail[1..]);
      }
    }
  }

  /** A path of any length is accepted exactly when the schema has a trail for it. */
  lemma AcceptedExactlyAlongTrails(schema: Schema, parts: seq<string>)
    ensures AcceptsSchemaPath(schema, parts) <==> exists trail :: IsTrail(schema, parts, trail)
  {
    if AcceptsSchemaPath(schema, parts) {
      var trail := AcceptedHasTrail(schema, parts);
    }
    if trail :| IsTrail(schema, parts, trail) {
      TrailIsAccepted(schema, parts, trail);
    }
  }

  // ------------------------------------------------------------- projections

  /** The indices are those at which the path finds something, in order. */
  ghost predicate AreHits(items: seq<Json>, parts: seq<string>, hits: seq<nat>) {
    && (forall j :: 0 <= j < |hits| ==> hits[j] < |items|)
    && (forall j, k :: 0 <= j < k < |hits| ==> hits[j] < hits[k])
    && (forall i :: 0 <= i < |items| ==> (i in hits <==> ValueAt(items[i], parts).Found?))
  }

  ghost predicate HitsHold(items: seq<Json>, parts: seq<string>, hits: seq<nat>, out: seq<Json>) {
    && |out| == |hits|
    && forall j :: 0 <= j < |hits| ==> hits[j] < |items| && ValueAt(items[hits[j]], parts) == Found(out[j])
  }

  /** A projection is what the path finds in the items, item by item and in their order. */
  lemma {:induction false} ProjectionIsHits(items: seq<Json>, parts: seq<string>) returns (hits: seq<nat>)
    requires Project(items, parts).Some?
    ensures AreHits(items, parts, hits) && HitsHold(items, parts, hits, Project(items, parts).value)
    decreases |items|
  {
    if items == [] {
      return [];
    }
    var rest := ProjectionIsHits(items[1..], parts);
    var moved := Map(j => j + 1, rest);
    hits := if ValueAt(items[0], parts).Found? then [0] + moved else moved;
    HitsMove(items, parts, rest, moved, hits);
    HeldHitsMove(items, parts, rest, moved, hits, Project(items[1..], parts).value, Project(items, parts).value);
  }

  lemma HeldHitsMove(items: seq<Json>, parts: seq<string>, rest: seq<nat>, moved: seq<nat>, hits: seq<nat>,
                     out: seq<Json>, out': seq<Json>)
    requires items != [] && HitsHold(items[1..], parts, rest, out)
    requires |moved| == |rest| && forall j :: 0 <= j < |rest| ==> moved[j] == rest[j] + 1
    requires var first := ValueAt(items[0], parts);
             hits == (if first.Found? then [0] + moved else moved) && out' == if first.Found? then [first.value] + out else out
    ensures HitsHold(items, parts, hits, out')
  {
    forall j | 0 <= j < |rest| ensures moved[j] < |items| && ValueAt(items[moved[j]], parts) == Found(out[j]) {
      assert items[1..][rest[j]] == items[moved[j]];
    }
    forall j | 0 <= j < |hits| ensures hits[j] < |items| && ValueAt(items[hits[j]], parts) == Found(out'[j]) {
      if ValueAt(items[0], parts).Found? && j > 0 {
        assert hits[j] == moved[j - 1] && out'[j] == out[j - 1];
      }
    }
  }

  lemma HitsMove(items: seq<Json>, parts: seq<string>, rest: seq<nat>, moved: seq<nat>, hits: seq<nat>)
    requires items != [] && AreHits(items[1..], parts, rest)
    requires |moved| == |rest| && forall j :: 0 <= j < |rest| ==> moved[j] == rest[j] + 1
    requires hits == if ValueAt(items[0], parts).Found? then [0] + moved else moved
    ensures AreHits(items, parts, hits)
  {
    forall i | 0 <= i < |items| ensures i in hits <==> ValueAt(items[i], parts).Found? {
      if i > 0 {
        assert items[i] == items[1..][i - 1];
        if i - 1 in rest {
          var j :| 0 <= j < |rest| && rest[j] == i - 1;
          assert moved[j] == i;
        }
      }
    }
  }
}
