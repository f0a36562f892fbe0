/** Building an RPC payload from mappings (gateway/transcode.go): sources are read by path, targets are written
    into nested objects. */
module TranscodeMapping {
  import opened GoStrings
  import opened TranscodeSchema
  import opened JsonPaths

  type Fields = map<string, Json>

  // ------------------------------------------------------------ the sources

  datatype Source = Source(body: Json, path: Fields, query: Fields, header: Fields)

  /** `transcodeMappingSourceValue`. */
  function SourceValue(source: Source, path: string): Lookup {
    if TrimSpace(path) == "" then Missing
    else
      var parts := Split(TrimSpace(path), '.');
      if parts[0] == "body" then ValueAt(source.body, parts[1..])
      else if parts[0] == "path" then ValueAt(Object(source.path), parts[1..])
      else if parts[0] == "query" then ValueAt(Object(source.query), parts[1..])
      else if parts[0] == "header" then ValueAt(Object(source.header), parts[1..])
      else Broken
  }

  datatype RequestBody = Empty | NotJson(text: string) | Parsed(value: Json)

  datatype BodyError = BodyRequired | BodyNotJson | BodyInvalid

  function BodyField(bodyField: string): string {
    if TrimSpace(bodyField) == "" then "body" else TrimSpace(bodyField)
  }

  /** `mergeTranscodeBody` into an empty object. */
  function MergedBody(body: RequestBody, bodyField: string, required: bool, schema: Option<Schema>): Result<Fields, BodyError> {
    match body
    case Empty => if required then Err(BodyRequired) else Ok(map[])
    case NotJson(text) => if schema.Some? then Err(BodyNotJson) else Ok(map[BodyField(bodyField) := Text(text)])
    case Parsed(value) =>
      if schema.Some? && !Validates(value, schema.value) then Err(BodyInvalid)
      else Ok(Placed(value, bodyField))
  }

  /** A parsed body is the object itself, or is put under the body field. */
  function Placed(value: Json, bodyField: string): Fields {
    if value.Object? && bodyField == "" then value.fields else map[BodyField(bodyField) := value]
  }

  lemma NoValueHoldsItself(name: string, value: Json)
    ensures Object(map[name := value]) != value
  {
    var wrapped := Object(map[name := value]);
    assert wrapped.fields[name] == value;
  }

  /** The document that source paths search is the document that was validated exactly when that is an object
      and no body field is configured. */
  lemma SearchedBodyIsValidatedBody(value: Json, bodyField: string)
    ensures Object(Placed(value, bodyField)) == value <==> value.Object? && bodyField == ""
  {
    NoValueHoldsItself(BodyField(bodyField), value);
  }

  /** The object that source paths rooted at `body` search; it stays empty when bodies are not merged. */
  function SourceBody(merge: bool, body: RequestBody, bodyField: string, required: bool, schema: Option<Schema>): Result<Fields, BodyError> {
    if merge then MergedBody(body, bodyField, required, schema) else Ok(map[])
  }

  /** What a schema promises of every path that passed both path validators. */
  ghost predicate KeepsPromise(fields: Fields, schema: Schema) {
    forall parts :: AcceptsSchemaPath(schema, parts) && AcceptsSegments(parts) ==>
      ValueAt(Object(fields), parts) != Broken && FindsShape(Object(fields), parts, ShapeAt(schema, parts))
  }

  /** The promise is kept exactly by the objects that the value validator accepts. */
  lemma PromiseIsKeptExactlyByValidObjects(fields: Fields, schema: Schema)
    ensures KeepsPromise(fields, schema) <==> Validates(Object(fields), schema)
  {
    if Validates(Object(fields), schema) {
      forall parts | AcceptsSchemaPath(schema, parts) && AcceptsSegments(parts)
        ensures ValueAt(Object(fields), parts) != Broken && FindsShape(Object(fields), parts, ShapeAt(schema, parts))
      {
        SchemaSoundness(Object(fields), schema, parts);
      }
    } else {
      assert AcceptsSchemaPath(schema, []) && AcceptsSegments([]);
      assert !FindsShape(Object(fields), [], ShapeAt(schema, []));
    }
  }

  /** Kinds that the value validator does not know pass everything. */
  predicate IsUnchecked(schema: Schema) {
    !IsObjectKind(schema) && Kind(schema) !in {"array", "integer", "number", "boolean", "string"}
  }

  /** No name other than `name` is required. */
  predicate RequiresOnly(schema: Schema, name: string) {
    forall i :: 0 <= i < |schema.required| ==> TrimSpace(schema.required[i]) == "" || TrimSpace(schema.required[i]) == name
  }

  /** When the promise is kept: always for an object without a body field; for no body at all when nothing is required;
      under a body field when nothing else is required and the value passes for that property too. */
  predicate IsSoundBody(merge: bool, body: RequestBody, bodyField: string, schema: Schema) {
    if !merge || !body.Parsed? then IsUnchecked(schema) || (IsObjectKind(schema) && RequiresOnly(schema, ""))
    else if body.value.Object? && bodyField == "" then true
    else
      var name := BodyField(bodyField);
      || IsUnchecked(schema)
      || (&& IsObjectKind(schema) && RequiresOnly(schema, name)
          && (name in schema.properties ==> Validates(body.value, schema.properties[name])))
  }

  lemma NoFieldsValidate(schema: Schema)
    ensures Validates(Object(map[]), schema) <==> IsUnchecked(schema) || (IsObjectKind(schema) && RequiresOnly(schema, ""))
  {
  }

  lemma OneFieldValidates(name: string, value: Json, schema: Schema)
    requires Validates(value, schema) && name != ""
    ensures Validates(Object(map[name := value]), schema) <==>
            || IsUnchecked(schema)
            || (&& IsObjectKind(schema) && RequiresOnly(schema, name)
                && (name in schema.properties ==> Validates(value, schema.properties[name])))
  {
    var fields := map[name := value];
    assert name in fields && fields[name] == value;
  }

  /** Soundness, exactly: whatever the request and the configuration, once the body is accepted every path keeps the
      schema's promise if and only if the body is a sound one. */
  lemma BodyIsSoundExactly(merge: bool, body: RequestBody, bodyField: string, required: bool, schema: Schema)
    requires SourceBody(merge, body, bodyField, required, Some(schema)).Ok?
    ensures KeepsPromise(SourceBody(merge, body, bodyField, required, Some(schema)).value, schema)
            <==> IsSoundBody(merge, body, bodyField, schema)
  {
    var fields := SourceBody(merge, body, bodyField, required, Some(schema)).value;
    PromiseIsKeptExactlyByValidObjects(fields, schema);
    if !merge || !body.Parsed? {
      NoFieldsValidate(schema);
    } else if !(body.value.Object? && bodyField == "") {
      OneFieldValidates(BodyField(bodyField), body.value, schema);
    }
  }

  lemma BodySourceIsLookup(source: Source, path: string, parts: seq<string>)
    requires TrimSpace(path) != "" && parts == Split(TrimSpace(path), '.') && parts[0] == "body"
    ensures SourceValue(source, path) == ValueAt(source.body, parts[1..])
  {
  }

  /** Soundness end to end: for an accepted body and a source path rooted at `body` that passed both path validators,
      the mapping source is never broken, and in a sound body it finds what the schema promises. */
  lemma BodySourceIsSound(merge: bool, body: RequestBody, bodyField: string, required: bool, schema: Schema,
                          path: string, source: Source, parts: seq<string>)
    requires SourceBody(merge, body, bodyField, required, Some(schema)).Ok?
    requires source.body == Object(SourceBody(merge, body, bodyField, required, Some(schema)).value)
    requires AcceptsSourcePath(path) && TrimSpace(path) != ""
    requires parts == Split(TrimSpace(path), '.') && parts[0] == "body" && AcceptsSchemaPath(schema, parts[1..])
    ensures SourceValue(source, path) != Broken
    ensures IsSoundBody(merge, body, bodyField, schema) && SourceValue(source, path).Found? ==>
            HasShape(SourceValue(source, path).value, ShapeAt(schema, parts[1..]))
  {
    BodySourceIsLookup(source, path, parts);
    AcceptedLookupIsNotBroken(source.body, parts[1..]);
    if IsSoundBody(merge, body, bodyField, schema) {
      BodyIsSoundExactly(merge, body, bodyField, required, schema);
      PromiseIsKeptExactlyByValidObjects(source.body.fields, schema);
      SchemaSoundness(source.body, schema, parts[1..]);
    }
  }

  /** The same with what is found named by its JSON type. */
  lemma BodySourceHasItsKind(merge: bool, body: RequestBody, bodyField: string, required: bool, schema: Schema,
                             path: string, source: Source, parts: seq<string>)
    requires SourceBody(merge, body, bodyField, required, Some(schema)).Ok? && IsSoundBody(merge, body, bodyField, schema)
    requires source.body == Object(SourceBody(merge, body, bodyField, required, Some(schema)).value)
    requires AcceptsSourcePath(path) && TrimSpace(path) != ""
    requires parts == Split(TrimSpace(path), '.') && parts[0] == "body" && AcceptsSchemaPath(schema, parts[1..])
    ensures SourceValue(source, path).Found? ==> HasKinds(SourceValue(source, path).value, ShapeAt(schema, parts[1..]))
  {
    BodySourceIsSound(merge, body, bodyField, required, schema, path, source, parts);
    if SourceValue(source, path).Found? {
      ShapeIsKinds(SourceValue(source, path).value, ShapeAt(schema, parts[1..]));
    }
  }

  /** Which bodies are accepted, with what error the others are refused, and what the accepted ones leave to search. */
  lemma BodyIsAcceptedExactly(merge: bool, body: RequestBody, bodyField: string, required: bool, schema: Option<Schema>)
    ensures var r := SourceBody(merge, body, bodyField, required, schema);
            var name := if AllSpace(bodyField) then "body" else TrimSpace(bodyField);
            if !merge then r == Ok(map[])
            else match body
              case Empty => r == if required then Err(BodyRequired) else Ok(map[])
              case NotJson(text) => r == if schema.Some? then Err(BodyNotJson) else Ok(map[name := Text(text)])
              case Parsed(value) =>
                if schema.Some? && !OfKindThroughout(value, schema.value) then r == Err(BodyInvalid)
                else if value.Object? && bodyField == "" then r == Ok(value.fields)
                else r == Ok(map[name := value])
  {
    TrimSpaceEmpty(bodyField);
    if body.Parsed? && schema.Some? {
      ValidatesExactly(body.value, schema.value);
    }
  }

  /** Leaving out a body that is not required gets past the schema: with a required name the accepted path `body` finds
      an object that the schema does not allow. */
  lemma EmptyBodyBreaksSoundness(schema: Schema, name: string)
    requires IsObjectKind(schema) && name in schema.required && TrimSpace(name) != ""
    ensures MergedBody(Empty, "", false, Some(schema)) == Ok(map[])
    ensures ValueAt(Object(map[]), []) == Found(Object(map[])) && !HasShape(Object(map[]), ShapeAt(schema, []))
  {
    var i :| 0 <= i < |schema.required| && schema.required[i] == name;
    NoFieldsValidate(schema);
  }

  /** The roots that the lookup knows; the path validator also lets them through with a `[]` suffix. */
  ghost predicate IsRoot(part: string) {
    part == "body" || part == "path" || part == "query" || part == "header"
  }

  /** A source path that passed the path validator is broken at run time exactly when its first segment is not
      spelled as a bare root, whatever the request holds. */
  lemma AcceptedSourceIsBrokenExactlyAtTheRoot(source: Source, path: string, parts: seq<string>)
    requires AcceptsSourcePath(path) && TrimSpace(path) != "" && parts == Split(TrimSpace(path), '.')
    ensures SourceValue(source, path) == Broken <==> !IsRoot(parts[0])
  {
    AcceptedLookupIsNotBroken(source.body, parts[1..]);
    AcceptedLookupIsNotBroken(Object(source.path), parts[1..]);
    AcceptedLookupIsNotBroken(Object(source.query), parts[1..]);
    AcceptedLookupIsNotBroken(Object(source.header), parts[1..]);
  }

  /** A path written as a root and names, with no white space around it, is looked up in what that root stands for. */
  lemma SourceReadsItsRoot(source: Source, root: string, names: seq<string>, path: string)
    requires IsRoot(root) && path == Join([root] + names, '.') && path != "" && IsTrimmed(path)
    requires forall part :: part in [root] + names ==> '.' !in part
    ensures root == "body" ==> SourceValue(source, path) == ValueAt(source.body, names)
    ensures root == "path" ==> SourceValue(source, path) == ValueAt(Object(source.path), names)
    ensures root == "query" ==> SourceValue(source, path) == ValueAt(Object(source.query), names)
    ensures root == "header" ==> SourceValue(source, path) == ValueAt(Object(source.header), names)
  {
    TrimSpaceFixed(path);
    SplitJoin([root] + names, '.');
    assert ([root] + names)[1..] == names;
  }

  /** Something other than white space is left of the segment without a `[]` at its end. */
  ghost predicate HasInk(part: string) {
    exists i :: 0 <= i < |part| - (if HasSuffix(part, "[]") then 2 else 0) && !IsSpace(part[i])
  }

  lemma SegmentIsAcceptedExactly(part: string)
    ensures AcceptsSegment(part) <==> HasInk(part)
  {
    var rest := TrimSuffix(part, "[]");
    TrimSpaceEmpty(rest);
    if HasInk(part) {
      var i :| 0 <= i < |part| - (if HasSuffix(part, "[]") then 2 else 0) && !IsSpace(part[i]);
      assert rest[i] == part[i];
    } else {
      forall i | 0 <= i < |rest| ensures IsSpace(rest[i]) {
        assert rest[i] == part[i];
      }
    }
  }

  /** The configuration check accepts a source path exactly when it starts at a root, bare or with `[]`, and no segment is
      blank. */
  lemma SourcePathIsAcceptedExactly(parts: seq<string>, path: string)
    requires parts != [] && path == Join(parts, '.') && path != "" && IsTrimmed(path)
    requires forall part :: part in parts ==> '.' !in part
    ensures AcceptsSourcePath(path) <==>
            IsRoot(TrimSuffix(TrimSpace(parts[0]), "[]")) && forall i :: 0 <= i < |parts| ==> HasInk(parts[i])
  {
    TrimSpaceFixed(path);
    SplitJoin(parts, '.');
    SegmentsAreAcceptedExactly(parts);
    AcceptedByParts(path, parts);
  }

  lemma SegmentsAreAcceptedExactly(parts: seq<string>)
    ensures AcceptsSegments(parts) <==> forall i :: 0 <= i < |parts| ==> HasInk(parts[i])
  {
    forall i | 0 <= i < |parts| ensures AcceptsSegment(parts[i]) <==> HasInk(parts[i]) {
      SegmentIsAcceptedExactly(parts[i]);
    }
  }

  lemma AcceptedByParts(path: string, parts: seq<string>)
    requires path != "" && TrimSpace(path) == path && Split(path, '.') == parts
    ensures AcceptsSourcePath(path) <==> IsRoot(TrimSuffix(TrimSpace(parts[0]), "[]")) && AcceptsSegments(parts)
  {
  }

  /** The root `body[]` is such a path. */
  lemma ProjectedRootIsAccepted(path: string, root: string)
    requires root == "body" && path == root + "[]"
    ensures AcceptsSourcePath(path) && TrimSpace(path) == path && Split(path, '.') == [path] && !IsRoot(path)
  {
    TrimSpaceFixed(path);
    TrimSpaceFixed(root);
    SplitOne(path, '.');
    assert HasSuffix(path, "[]") && TrimSuffix(path, "[]") == root;
  }

  /** With a body field the validated value moves one level down, and an accepted path finds a value that does
      not have the promised shape. */
  lemma BodyFieldBreaksSoundness(name: string, text: Schema, schema: Schema)
    requires name != "" && TrimSpace(name) == name && !IsArraySegment(name)
    requires Kind(text) == "string" && Kind(schema) == "object" && schema.properties == map[name := text] && schema.required == []
    ensures var value := Object(map[]);
            && Validates(value, schema) && Placed(value, name) == map[name := value]
            && AcceptsSegments([name]) && AcceptsSchemaPath(schema, [name])
            && ValueAt(Object(Placed(value, name)), [name]) == Found(value)
            && !HasShape(value, ShapeAt(schema, [name]))
  {
    var value := Object(map[]);
    assert [name][1..] == [];
    assert TrimSuffix(name, "[]") == name;
    assert AcceptsSchemaPath(text, []) && AcceptsSchemaPath(schema, [name]);
    assert ShapeAt(schema, [name]) == ShapeAt(text, []) == Nullable(text);
    assert ValueAt(Object(map[name := value]), [name]) == ValueAt(value, []);
  }

  // ------------------------------------------------------------ the targets

  datatype TargetError = EmptySegment | EmptyArraySegment | ArrayNotTerminal | Conflict

  /** `setTranscodeMappingTarget`: the object after the write. */
  function SetTarget(fields: Fields, parts: seq<string>, value: Json): Result<Fields, TargetError>
    requires parts != []
    decreases |parts|
  {
    var part := TrimSpace(parts[0]);
    if part == "" then Err(EmptySegment)
    else if IsArraySegment(part) then
      var name := TrimSuffix(part, "[]");
      if name == "" then Err(EmptyArraySegment)
      else if |parts| > 1 then Err(ArrayNotTerminal)
      else Ok(fields[name := value])
    else if |parts| == 1 then Ok(fields[part := value])
    else if part in fields && !fields[part].Object? then Err(Conflict)
    else
      var child := if part in fields then fields[part].fields else map[];
      match SetTarget(child, parts[1..], value)
      case Err(e) => Err(e)
      case Ok(after) => Ok(fields[part := Object(after)])
  }

  datatype Mapping = Mapping(source: string, target: string, default: Option<Json>)

  datatype MappingError = BadSource | BadTarget(error: TargetError)

  /** What one mapping contributes: nothing, a value, or an error of its source. */
  function Contribution(source: Source, m: Mapping): Result<Option<Json>, MappingError> {
    if TrimSpace(m.target) == "" then Ok(None)
    else
      match SourceValue(source, m.source)
      case Broken => Err(BadSource)
      case Missing => Ok(m.default)
      case Found(value) => Ok(Some(value))
  }

  function TargetParts(m: Mapping): (parts: seq<string>)
    ensures parts != []
  {
    Split(TrimSpace(m.target), '.')
  }

  /** The payload after one more mapping. */
  function Applied(source: Source, payload: Fields, m: Mapping): Result<Fields, MappingError> {
    match Contribution(source, m)
    case Err(e) => Err(e)
    case Ok(None) => Ok(payload)
    case Ok(Some(value)) =>
      match SetTarget(payload, TargetParts(m), value)
      case Err(e) => Err(BadTarget(e))
      case Ok(after) => Ok(after)
  }

  function AppliedAll(source: Source, payload: Fields, ms: seq<Mapping>): Result<Fields, MappingError>
    decreases |ms|
  {
    if ms == [] then Ok(payload)
    else
      match Applied(source, payload, ms[0])
      case Err(e) => Err(e)
      case Ok(after) => AppliedAll(source, after, ms[1..])
  }

  // -------------------------------------------- plain targets are a lens

  /** The names of a path without array segments. */
  function Names(parts: seq<string>): (names: Path)
    ensures |names| == |parts|
  {
    seq(|parts|, i requires 0 <= i < |parts| => TrimSpace(parts[i]))
  }

  ghost predicate IsPlain(parts: seq<string>) {
    forall i :: 0 <= i < |parts| ==> TrimSpace(parts[i]) != "" && !IsArraySegment(TrimSpace(parts[i]))
  }

  lemma NamesTail(parts: seq<string>)
    requires parts != []
    ensures Names(parts)[1..] == Names(parts[1..])
  {
  }

  /** On plain paths the lookup is reading by name. */
  lemma {:induction false} LookupIsGet(v: Json, parts: seq<string>)
    requires IsPlain(parts)
    ensures ValueAt(v, parts) == match Get(v, Names(parts)) case None => Missing case Some(w) => Found(w)
    decreases |parts|
  {
    if parts != [] {
      NamesTail(parts);
      if v.Object? && TrimSpace(parts[0]) in v.fields {
        LookupIsGet(v.fields[TrimSpace(parts[0])], parts[1..]);
      }
    }
  }

  /** On plain targets the write is writing by name, and its only error is a conflict. */
  lemma {:induction false} SetTargetIsPut(fields: Fields, parts: seq<string>, w: Json)
    requires parts != [] && IsPlain(parts)
    ensures match Put(Object(fields), Names(parts), w)
            case None => SetTarget(fields, parts, w) == Err(Conflict)
            case Some(after) => after.Object? && SetTarget(fields, parts, w) == Ok(after.fields)
    decreases |parts|
  {
    NamesTail(parts);
    var part := TrimSpace(parts[0]);
    if |parts| == 1 {
      assert Names(parts)[1..] == [];
      assert Put(Child(Object(fields), part), [], w) == Some(w);
    } else {
      var child := Child(Object(fields), part);
      if child.Object? {
        SetTargetIsPut(child.fields, parts[1..], w);
        assert Object(child.fields) == child;
      } else {
        assert Put(child, Names(parts[1..]), w) == None;
      }
    }
  }

  /** The list that a `[]` segment stands for: the field it names, or, for a bare `[]` and for `body[]`, the value itself. */
  ghost function ListAt(v: Json, before: Path, segment: string): Option<Json> {
    var name := TrimSuffix(TrimSpace(segment), "[]");
    Get(v, before + if name == "" || name == "body" then [] else [name])
  }

  lemma FirstSegmentIsList(v: Json, parts: seq<string>)
    requires parts != [] && TrimSpace(parts[0]) != "" && IsArraySegment(TrimSpace(parts[0]))
    ensures var list := ListAt(v, [], parts[0]);
            ValueAt(v, parts) == if list.None? then Missing else ItemsAt(list.value, parts)
  {
    var name := TrimSuffix(TrimSpace(parts[0]), "[]");
    if name == "" || name == "body" {
      assert Get(v, []) == Some(v);
    } else {
      assert [] + [name] == [name] && [name][1..] == [];
      if v.Object? && name in v.fields {
        assert Get(v.fields[name], []) == Some(v.fields[name]);
      }
    }
  }

  /** A `[]` segment after plain ones finds the list, or projects the rest of the path over its items. */
  lemma {:induction false} ArraySegmentLookup(v: Json, parts: seq<string>, n: nat)
    requires n < |parts| && IsPlain(parts[..n]) && TrimSpace(parts[n]) != "" && IsArraySegment(TrimSpace(parts[n]))
    ensures var list := ListAt(v, Names(parts[..n]), parts[n]);
            ValueAt(v, parts) ==
              if list.None? || !list.value.Array? then Missing
              else if n + 1 == |parts| then Found(list.value)
              else match Project(list.value.items, parts[n + 1..])
                   case None => Broken
                   case Some(out) => Found(Array(out))
    decreases n
  {
    var name := TrimSuffix(TrimSpace(parts[n]), "[]");
    var last := if name == "" || name == "body" then [] else [name];
    if n == 0 {
      assert Names(parts[..0]) + last == last;
      FirstSegmentIsList(v, parts);
    } else {
      NamesTail(parts[..n]);
      assert parts[..n][1..] == parts[1..][..n - 1] && parts[..n][0] == parts[0];
      assert parts[1..][n - 1] == parts[n] && parts[1..][n..] == parts[n + 1..];
      assert (Names(parts[..n]) + last)[1..] == Names(parts[1..][..n - 1]) + last;
      if v.Object? && TrimSpace(parts[0]) in v.fields {
        ArraySegmentLookup(v.fields[TrimSpace(parts[0])], parts[1..], n - 1);
      }
    }
  }

  // ------------------------------------------------------ targets of every form

  /** Plain segments, and at the end one that names something, with or without `[]`. */
  ghost predicate IsTarget(parts: seq<string>) {
    && parts != [] && IsPlain(parts[..|parts| - 1])
    && TrimSpace(parts[|parts| - 1]) != "" && TrimSpace(parts[|parts| - 1]) != "[]"
  }

  ghost function TargetPath(parts: seq<string>): Path
    requires parts != []
  {
    Names(parts[..|parts| - 1]) + [TrimSuffix(TrimSpace(parts[|parts| - 1]), "[]")]
  }

  /** A write to a target is writing by name, the `[]` at its end left off, and fails only in a conflict. */
  lemma {:induction false} TargetIsPut(fields: Fields, parts: seq<string>, w: Json)
    requires IsTarget(parts)
    ensures match Put(Object(fields), TargetPath(parts), w)
            case None => SetTarget(fields, parts, w) == Err(Conflict)
            case Some(after) => after.Object? && SetTarget(fields, parts, w) == Ok(after.fields)
    decreases |parts|
  {
    var part := TrimSpace(parts[0]);
    var n := |parts| - 1;
    if n == 0 {
      var name := TrimSuffix(part, "[]");
      assert TargetPath(parts) == [name] && [name][1..] == [];
      assert Put(Child(Object(fields), name), [], w) == Some(w);
      assert part != "[]" ==> name != "";
    } else {
      NamesTail(parts[..n]);
      assert parts[..n][1..] == parts[1..][..n - 1] && parts[..n][0] == parts[0] && parts[1..][n - 1] == parts[n];
      assert TargetPath(parts)[1..] == TargetPath(parts[1..]) && TargetPath(parts)[0] == part;
      var child := Child(Object(fields), part);
      if child.Object? {
        TargetIsPut(child.fields, parts[1..], w);
        assert Object(child.fields) == child;
      } else {
        assert Put(child, TargetPath(parts[1..]), w) == None;
      }
    }
  }

  lemma TargetGrows(parts: seq<string>)
    requires |parts| > 1 && IsTarget(parts[1..]) && TrimSpace(parts[0]) != "" && !IsArraySegment(TrimSpace(parts[0]))
    ensures IsTarget(parts)
  {
    var n := |parts| - 1;
    forall i | 0 <= i < n ensures TrimSpace(parts[..n][i]) != "" && !IsArraySegment(TrimSpace(parts[..n][i])) {
      if i > 0 {
        assert parts[1..][..n - 1][i - 1] == parts[i];
      }
    }
    assert parts[1..][n - 1] == parts[n];
  }

  /** Any other write fails. */
  lemma {:induction false} OnlyTargetsAreWritten(fields: Fields, parts: seq<string>, w: Json)
    requires parts != [] && !IsTarget(parts)
    ensures SetTarget(fields, parts, w).Err?
    decreases |parts|
  {
    var part := TrimSpace(parts[0]);
    var n := |parts| - 1;
    if n == 0 {
      assert IsPlain(parts[..0]);
      assert IsArraySegment(part) && TrimSuffix(part, "[]") == "" ==> part == "[]";
    } else if part != "" && !IsArraySegment(part) {
      assert !IsTarget(parts[1..]) by {
        if IsTarget(parts[1..]) { TargetGrows(parts); }
      }
      OnlyTargetsAreWritten(if part in fields && fields[part].Object? then fields[part].fields else map[], parts[1..], w);
    }
  }

  // --------------------------------------------------------- projection laws

  /** Sources can be read, targets are plain. */
  ghost predicate IsClean(source: Source, ms: seq<Mapping>) {
    forall i :: 0 <= i < |ms| ==> IsCleanMapping(source, ms[i])
  }

  ghost predicate IsCleanMapping(source: Source, m: Mapping) {
    Contribution(source, m).Ok? && IsPlain(TargetParts(m))
  }

  /** The write a clean mapping makes. */
  ghost function WriteOf(source: Source, m: Mapping): Write {
    Write(Names(TargetParts(m)), if Contribution(source, m).Ok? then Contribution(source, m).value else None)
  }

  ghost function WritesOf(source: Source, ms: seq<Mapping>): (es: seq<Write>)
    ensures |es| == |ms| && forall i :: 0 <= i < |ms| ==> es[i] == WriteOf(source, ms[i])
  {
    Map(m => WriteOf(source, m), ms)
  }

  /** No target is a prefix of another. */
  ghost predicate TargetsApart(ms: seq<Mapping>) {
    forall i, j :: 0 <= i < |ms| && 0 <= j < |ms| && i != j ==> Incomparable(Names(TargetParts(ms[i])), Names(TargetParts(ms[j])))
  }

  lemma AppliedIsStep(source: Source, payload: Fields, m: Mapping)
    requires IsCleanMapping(source, m)
    ensures match Step(Object(payload), WriteOf(source, m))
            case None => Applied(source, payload, m) == Err(BadTarget(Conflict))
            case Some(after) => after.Object? && Applied(source, payload, m) == Ok(after.fields)
  {
    if Contribution(source, m).value.Some? {
      SetTargetIsPut(payload, TargetParts(m), Contribution(source, m).value.value);
    }
  }

  /** On clean mappings building the payload is making their writes in order. */
  lemma {:induction false} AppliedAllIsSteps(source: Source, payload: Fields, ms: seq<Mapping>)
    requires IsClean(source, ms)
    ensures match Steps(Object(payload), WritesOf(source, ms))
            case None => AppliedAll(source, payload, ms) == Err(BadTarget(Conflict))
            case Some(after) => after.Object? && AppliedAll(source, payload, ms) == Ok(after.fields)
    decreases |ms|
  {
    if ms != [] {
      AppliedIsStep(source, payload, ms[0]);
      assert WritesOf(source, ms)[1..] == WritesOf(source, ms[1..]);
      var after := Step(Object(payload), WriteOf(source, ms[0]));
      if after.Some? {
        AppliedAllIsSteps(source, after.value.fields, ms[1..]);
        assert Object(after.value.fields) == after.value;
      }
    }
  }

  lemma WritesApart(source: Source, ms: seq<Mapping>)
    requires IsClean(source, ms) && TargetsApart(ms)
    ensures Apart(WritesOf(source, ms)) && AllFit(Object(map[]), WritesOf(source, ms))
  {
    forall i | 0 <= i < |ms| ensures Fits(Object(map[]), WritesOf(source, ms)[i]) {
      PutEmpty(WritesOf(source, ms)[i].path, Null);
    }
  }

  /** Projection laws: with readable sources and plain targets none of which is a prefix of another, building the
      payload succeeds, and reading target k back gives its source value or default, or nothing when the mapping
      contributed nothing. */
  lemma ProjectionReadsBack(source: Source, ms: seq<Mapping>, k: nat)
    requires IsClean(source, ms) && TargetsApart(ms) && k < |ms|
    ensures AppliedAll(source, map[], ms).Ok?
    ensures ValueAt(Object(AppliedAll(source, map[], ms).value), TargetParts(ms[k])) ==
            match Contribution(source, ms[k]).value case None => Missing case Some(w) => Found(w)
  {
    WritesApart(source, ms);
    AppliedAllIsSteps(source, map[], ms);
    StepsReadBack(Object(map[]), WritesOf(source, ms), k);
    assert IsCleanMapping(source, ms[k]);
    LookupIsGet(Object(AppliedAll(source, map[], ms).value), TargetParts(ms[k]));
  }

  /** The same in terms of the sources: a target reads back what its source found, else its default, else nothing. */
  lemma TargetReadsSourceOrDefault(source: Source, ms: seq<Mapping>, k: nat)
    requires forall i :: 0 <= i < |ms| ==> SourceValue(source, ms[i].source) != Broken && IsPlain(TargetParts(ms[i]))
    requires TargetsApart(ms) && k < |ms|
    ensures AppliedAll(source, map[], ms).Ok?
    ensures var written := ValueAt(Object(AppliedAll(source, map[], ms).value), TargetParts(ms[k]));
            && (SourceValue(source, ms[k].source).Found? ==> written == SourceValue(source, ms[k].source))
            && (SourceValue(source, ms[k].source).Missing? && ms[k].default.Some? ==> written == Found(ms[k].default.value))
            && (SourceValue(source, ms[k].source).Missing? && ms[k].default.None? ==> written == Missing)
  {
    forall i | 0 <= i < |ms| ensures IsCleanMapping(source, ms[i]) {
      assert TrimSpace(ms[i].target) == "" || Contribution(source, ms[i]).Ok?;
    }
    PlainTargetIsNotBlank(ms[k]);
    ProjectionReadsBack(source, ms, k);
  }

  lemma PlainTargetIsNotBlank(m: Mapping)
    requires IsPlain(TargetParts(m))
    ensures TrimSpace(m.target) != ""
  {
    assert TrimSpace(TargetParts(m)[0]) != "";
    assert TrimSpace("") == "" && Split("", '.') == [""];
  }

  /** A mapping with a blank target is skipped, whatever its source; any other stops the build when its source is broken. */
  lemma BlankTargetIsSkipped(source: Source, payload: Fields, m: Mapping)
    ensures AllSpace(m.target) ==> Applied(source, payload, m) == Ok(payload)
    ensures !AllSpace(m.target) && SourceValue(source, m.source) == Broken ==> Applied(source, payload, m) == Err(BadSource)
  {
    TrimSpaceEmpty(m.target);
  }

  /** Nothing else is in the payload: a plain path away from every target is missing. */
  lemma ProjectionHoldsNothingElse(source: Source, ms: seq<Mapping>, parts: seq<string>)
    requires IsClean(source, ms) && TargetsApart(ms) && IsPlain(parts) && parts != []
    requires forall i :: 0 <= i < |ms| ==> Incomparable(Names(TargetParts(ms[i])), Names(parts))
    ensures AppliedAll(source, map[], ms).Ok?
    ensures ValueAt(Object(AppliedAll(source, map[], ms).value), parts) == Missing
  {
    WritesApart(source, ms);
    AppliedAllIsSteps(source, map[], ms);
    StepsFrame(Object(map[]), WritesOf(source, ms), Names(parts));
    LookupIsGet(Object(AppliedAll(source, map[], ms).value), parts);
  }

  /** Reordering such mappings gives the same payload. */
  lemma ReorderingKeepsPayload(source: Source, ms: seq<Mapping>, ms': seq<Mapping>)
    requires IsClean(source, ms) && TargetsApart(ms) && multiset(ms) == multiset(ms')
    ensures AppliedAll(source, map[], ms) == AppliedAll(source, map[], ms')
  {
    forall i | 0 <= i < |ms'| ensures IsCleanMapping(source, ms'[i]) {
      assert ms'[i] in multiset(ms);
      assert ms'[i] in ms;
    }
    WritesApart(source, ms);
    MapMultiset(m => WriteOf(source, m), ms, ms');
    OrderDoesNotMatter(Object(map[]), WritesOf(source, ms), WritesOf(source, ms'));
    AppliedAllIsSteps(source, map[], ms);
    AppliedAllIsSteps(source, map[], ms');
  }

  /** Two clean mappings can be exchanged exactly when one of them contributes nothing, neither target is a prefix of the
      other, or the shorter target's value holds the other's value at the rest of the path. */
  lemma TwoMappingsCommuteExactly(source: Source, a: Mapping, b: Mapping)
    requires IsCleanMapping(source, a) && IsCleanMapping(source, b)
    ensures var x, y := WriteOf(source, a), WriteOf(source, b);
            AppliedAll(source, map[], [a, b]) == AppliedAll(source, map[], [b, a]) <==>
            x.value.None? || y.value.None? || Incomparable(x.path, y.path) || Carries(x, y) || Carries(y, x)
  {
    var x, y := WriteOf(source, a), WriteOf(source, b);
    PutEmpty(x.path, Null);
    PutEmpty(y.path, Null);
    TwoWritesCommuteExactly(Object(map[]), x, y);
    assert WritesOf(source, [a, b]) == [x, y] && WritesOf(source, [b, a]) == [y, x];
    AppliedAllIsSteps(source, map[], [a, b]);
    AppliedAllIsSteps(source, map[], [b, a]);
  }

  /** With a target that is a prefix of another the order decides between a conflict and a payload. */
  lemma PrefixTargetsDependOnOrder(a: string, b: string, w: Json)
    requires a != "" && b != "" && !IsArraySegment(a) && !IsArraySegment(b) && TrimSpace(a) == a && TrimSpace(b) == b
    requires !w.Object?
    ensures SetTarget(map[a := w], [a, b], w) == Err(Conflict)
    ensures SetTarget(map[], [a, b], w) == Ok(map[a := Object(map[b := w])])
    ensures SetTarget(map[a := Object(map[b := w])], [a], w) == Ok(map[a := w])
  {
    assert [a, b][1..] == [b];
    assert SetTarget(map[], [b], w) == Ok(map[b := w]);
    assert map[a := Object(map[b := w])][a := w] == map[a := w];
  }
}
