/** Parameter translator: one descriptor to one schema fragment, and a whole
    parameter set to the `properties` object of a configuration schema. */
module ParameterTranslator {
  import opened Wrappers
  import opened JsonValues
  import opened GraderTypes
  import opened Folds

  /** The schema of a required value of one JSON type, `{type: kind, required: true}`:
      each member of a git reference, and the envelope's `name`, `weight` and `condition`. */
  function RequiredOf(kind: string): Json {
    Obj([("type", Str(kind)), ("required", Bool(true))])
  }

  function IntOf(j: Option<Json>): Option<int> {
    if j.Some? && j.value.Int? then Some(j.value.n) else None
  }

  function InitialOf(j: Option<Json>): Option<Initial> {
    if j.Some? && j.value.Int? then Some(IntInitial(j.value.n))
    else if j.Some? && j.value.Str? then Some(StringInitial(j.value.s))
    else None
  }

  /** An optional attribute copied into a fragment as it is: `undefined` when absent. */
  function OptionalInt(o: Option<int>): (j: Json)
    ensures IntOf(Some(j)) == o
  {
    match o
    case Some(n) => Int(n)
    case None => Undefined
  }

  function OptionalInitial(o: Option<Initial>): (j: Json)
    ensures InitialOf(Some(j)) == o
  {
    match o
    case Some(IntInitial(n)) => Int(n)
    case Some(StringInitial(s)) => Str(s)
    case None => Undefined
  }

  /** The fixed fragment of a git reference parameter. */
  function GitReferenceSchema(): (j: Json)
    ensures j.Obj? && DistinctKeys(j.fields)
  {
    Obj([
      ("type", Str("object")),
      ("properties", Obj([
        ("repository", RequiredOf("string")),
        ("branch", RequiredOf("string")),
        ("sha", RequiredOf("string"))]))])
  }

  function IntSchema(property: Descriptor): (j: Json)
    ensures j.Obj? && DistinctKeys(j.fields)
  {
    Obj([
      ("type", Str("int")),
      ("minimum", OptionalInt(property.min)),
      ("maximum", OptionalInt(property.max)),
      ("multipleOf", OptionalInt(property.step)),
      ("default", OptionalInitial(property.initial)),
      ("required", Bool(true))])
  }

  function StringSchema(property: Descriptor): (j: Json)
    ensures j.Obj? && DistinctKeys(j.fields)
  {
    Obj([
      ("type", Str("string")),
      ("default", OptionalInitial(property.initial)),
      ("required", Bool(true))])
  }

  /** schemaPropertyToJsonSchema: `git`, `int` and `string` descriptors become
      object fragments without repeated keys; any other type is an error. */
  function SchemaPropertyToJsonSchema(property: Descriptor): (r: Result<Json, Error>)
    ensures r.Success? <==> IsSupportedKind(property.kind)
    ensures r.Failure? ==> r.error == TypeNotDefined
    ensures r.Success? ==> r.value.Obj? && DistinctKeys(r.value.fields)
  {
    if property.kind == "git" then Success(GitReferenceSchema())
    else if property.kind == "int" then Success(IntSchema(property))
    else if property.kind == "string" then Success(StringSchema(property))
    else Failure(TypeNotDefined)
  }

  /** A git parameter becomes an object schema with exactly the members
      `repository`, `branch` and `sha`, each a required string. */
  lemma GitFragment(property: Descriptor)
    requires property.kind == "git"
    ensures var j := SchemaPropertyToJsonSchema(property).value;
      && Keys(j.fields) == ["type", "properties"]
      && Member(j, "type") == Some(Str("object"))
      && Member(j, "properties").Some?
      && Member(j, "properties").value.Obj?
      && Keys(Member(j, "properties").value.fields) == ["repository", "branch", "sha"]
      && Path(j, ["properties", "repository"]) == Some(RequiredOf("string"))
      && Path(j, ["properties", "branch"]) == Some(RequiredOf("string"))
      && Path(j, ["properties", "sha"]) == Some(RequiredOf("string"))
  {
    var j := GitReferenceSchema();
    var f := j.fields;
    assert Keys(f) == ["type", "properties"];
    GetDistinct(f, 0);
    GetDistinct(f, 1);
    var g := f[1].1.fields;
    assert DistinctKeys(g) && Keys(g) == ["repository", "branch", "sha"];
    GetDistinct(g, 0);
    GetDistinct(g, 1);
    GetDistinct(g, 2);
    PathTwo(j, "properties", "repository");
    PathTwo(j, "properties", "branch");
    PathTwo(j, "properties", "sha");
  }

  /** An int parameter becomes a required `int` fragment whose bounds, step and
      default are the descriptor's attributes, copied as they are. */
  lemma IntFragment(property: Descriptor)
    requires property.kind == "int"
    ensures var j := SchemaPropertyToJsonSchema(property).value;
      && Keys(j.fields) == ["type", "minimum", "maximum", "multipleOf", "default", "required"]
      && Member(j, "type") == Some(Str("int"))
      && Member(j, "minimum") == Some(OptionalInt(property.min))
      && Member(j, "maximum") == Some(OptionalInt(property.max))
      && Member(j, "multipleOf") == Some(OptionalInt(property.step))
      && Member(j, "default") == Some(OptionalInitial(property.initial))
      && Member(j, "required") == Some(Bool(true))
  {
    var f := IntSchema(property).fields;
    assert Keys(f) == ["type", "minimum", "maximum", "multipleOf", "default", "required"];
    GetDistinct(f, 0);
    GetDistinct(f, 1);
    GetDistinct(f, 2);
    GetDistinct(f, 3);
    GetDistinct(f, 4);
    GetDistinct(f, 5);
  }

  /** A string parameter becomes a required `string` fragment with the
      descriptor's default and no bounds. */
  lemma StringFragment(property: Descriptor)
    requires property.kind == "string"
    ensures var j := SchemaPropertyToJsonSchema(property).value;
      && Keys(j.fields) == ["type", "default", "required"]
      && Member(j, "type") == Some(Str("string"))
      && Member(j, "default") == Some(OptionalInitial(property.initial))
      && Member(j, "required") == Some(Bool(true))
      && Member(j, "minimum").None? && Member(j, "maximum").None? && Member(j, "multipleOf").None?
  {
    var f := StringSchema(property).fields;
    ObjectLookups(f);
    assert f[0].0 == "type" && f[1].0 == "default" && f[2].0 == "required";
    assert Keys(f) == ["type", "default", "required"];
  }

  /** A git fragment is the same whatever else the descriptor carries. */
  lemma GitIgnoresAttributes(p: Descriptor, q: Descriptor)
    requires p.kind == "git" && q.kind == "git"
    ensures SchemaPropertyToJsonSchema(p) == SchemaPropertyToJsonSchema(q)
  {
  }

  // Reading a fragment back: the partner of the translator.

  /** The descriptor a fragment describes, as far as the fragment records it. */
  function DescriptorOf(fragment: Json): Option<Descriptor> {
    var t := Member(fragment, "type");
    if t == Some(Str("object")) then
      Some(Descriptor("git", None, None, None, None))
    else if t == Some(Str("int")) then
      Some(Descriptor("int",
        IntOf(Member(fragment, "minimum")),
        IntOf(Member(fragment, "maximum")),
        IntOf(Member(fragment, "multipleOf")),
        InitialOf(Member(fragment, "default"))))
    else if t == Some(Str("string")) then
      Some(Descriptor("string", None, None, None, InitialOf(Member(fragment, "default"))))
    else
      None
  }

  /** The part of a descriptor its fragment keeps: nothing but the type for
      `git`, all four attributes for `int`, only `initial` for `string`. */
  function Kept(p: Descriptor): Descriptor {
    if p.kind == "git" then Descriptor("git", None, None, None, None)
    else if p.kind == "int" then p
    else Descriptor(p.kind, None, None, None, p.initial)
  }

  /** Translating and reading back gives the kept part of the descriptor. */
  lemma TranslateRoundTrip(p: Descriptor)
    requires IsSupportedKind(p.kind)
    ensures DescriptorOf(SchemaPropertyToJsonSchema(p).value) == Some(Kept(p))
  {
    if p.kind == "git" {
      GitFragment(p);
    } else if p.kind == "int" {
      IntFragment(p);
    } else {
      StringFragment(p);
    }
  }

  /** One parameter, `[propertyName, schema]`, as the member it becomes. */
  function TranslateEntry(entry: (string, Descriptor)): (r: Result<(string, Json), Error>)
    ensures r.Success? <==> IsSupportedKind(entry.1.kind)
    ensures r.Failure? ==> r.error == TypeNotDefined
    ensures r.Success? ==> r.value.0 == entry.0 && SchemaPropertyToJsonSchema(entry.1) == Success(r.value.1)
  {
    var fragment :- SchemaPropertyToJsonSchema(entry.1);
    Success((entry.0, fragment))
  }

  /** convertConfigurableConfigSchemaToJsonSchema: the `reduce` visits the
      entries in order and puts each new member in front of the accumulated
      ones; the first descriptor that does not translate aborts the whole
      conversion. */
  function ConvertConfigurableConfigSchemaToJsonSchema(configSchema: Entries<Descriptor>): (r: Result<Fields, Error>)
    ensures r.Success? <==>
      forall i :: 0 <= i < |configSchema| ==> IsSupportedKind(configSchema[i].1.kind)
    ensures r.Failure? ==> r.error == TypeNotDefined
    ensures r.Success? ==> |r.value| == |configSchema|
  {
    PrependEachFirstError(configSchema, TranslateEntry);
    PrependEach(configSchema, TranslateEntry)
  }

  /** Member i of the result is entry n-1-i of the parameter set, under the same
      name and holding that entry's translation: nothing is dropped or renamed. */
  lemma {:induction false} ConvertReversed(configSchema: Entries<Descriptor>)
    requires ConvertConfigurableConfigSchemaToJsonSchema(configSchema).Success?
    ensures var props := ConvertConfigurableConfigSchemaToJsonSchema(configSchema).value;
      forall i :: 0 <= i < |props| ==>
        && props[i].0 == configSchema[|configSchema| - 1 - i].0
        && SchemaPropertyToJsonSchema(configSchema[|configSchema| - 1 - i].1) == Success(props[i].1)
  {
    var n := |configSchema|;
    var props := ConvertConfigurableConfigSchemaToJsonSchema(configSchema).value;
    PrependEachReversed(configSchema, TranslateEntry);
    forall i | 0 <= i < n
      ensures props[i].0 == configSchema[n - 1 - i].0
      ensures SchemaPropertyToJsonSchema(configSchema[n - 1 - i].1) == Success(props[i].1)
    {
      assert TranslateEntry(configSchema[n - 1 - i]) == Success(props[i]);
    }
  }

  /** The converted members have the parameters' names, and repeat a name only
      if the parameters do. */
  lemma {:induction false} ConvertKeys(configSchema: Entries<Descriptor>)
    requires ConvertConfigurableConfigSchemaToJsonSchema(configSchema).Success?
    ensures var props := ConvertConfigurableConfigSchemaToJsonSchema(configSchema).value;
      && (DistinctKeys(configSchema) ==> DistinctKeys(props))
      && forall k :: k in Keys(props) <==> k in Keys(configSchema)
  {
    ConvertReversed(configSchema);
    ReversedKeys(configSchema, ConvertConfigurableConfigSchemaToJsonSchema(configSchema).value);
  }

  /** With distinct parameter names, parameter i's name holds its translation. */
  lemma {:induction false} ConvertLookupAt(configSchema: Entries<Descriptor>, i: int)
    requires DistinctKeys(configSchema)
    requires ConvertConfigurableConfigSchemaToJsonSchema(configSchema).Success?
    requires 0 <= i < |configSchema|
    ensures var props := ConvertConfigurableConfigSchemaToJsonSchema(configSchema).value;
      Get(props, configSchema[i].0).Some? &&
      SchemaPropertyToJsonSchema(configSchema[i].1) == Success(Get(props, configSchema[i].0).value)
  {
    var props := ConvertConfigurableConfigSchemaToJsonSchema(configSchema).value;
    var j := |configSchema| - 1 - i;
    ConvertReversed(configSchema);
    ConvertKeys(configSchema);
    assert props[j].0 == configSchema[i].0;
    assert SchemaPropertyToJsonSchema(configSchema[i].1) == Success(props[j].1);
    GetDistinct(props, j);
  }

  /** With distinct parameter names, the converted members have the same names
      and each name holds the translation of its own descriptor. */
  lemma {:induction false} ConvertByName(configSchema: Entries<Descriptor>)
    requires DistinctKeys(configSchema)
    requires ConvertConfigurableConfigSchemaToJsonSchema(configSchema).Success?
    ensures var props := ConvertConfigurableConfigSchemaToJsonSchema(configSchema).value;
      && DistinctKeys(props)
      && (forall k :: k in Keys(props) <==> k in Keys(configSchema))
      && forall i :: 0 <= i < |configSchema| ==>
           Get(props, configSchema[i].0).Some? &&
           SchemaPropertyToJsonSchema(configSchema[i].1) == Success(Get(props, configSchema[i].0).value)
  {
    ConvertKeys(configSchema);
    forall i | 0 <= i < |configSchema|
      ensures var props := ConvertConfigurableConfigSchemaToJsonSchema(configSchema).value;
        Get(props, configSchema[i].0).Some? &&
        SchemaPropertyToJsonSchema(configSchema[i].1) == Success(Get(props, configSchema[i].0).value)
    {
      ConvertLookupAt(configSchema, i);
    }
  }
}
