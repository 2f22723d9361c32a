/** Schema assembler: the envelope schema of a grader configuration file, and
    the step that installs the generated rules as its `items.allOf`. */
module SchemaAssembler {
  import opened Wrappers
  import opened JsonValues
  import opened GraderTypes
  import opened ParameterTranslator
  import opened ConditionalComposer

  /** The properties every grader entry may have, whichever grader it names. */
  const ItemProperties: Json := Obj([
    ("name", RequiredOf("string")),
    ("weight", RequiredOf("integer")),
    ("condition", RequiredOf("integer")),
    ("context", Obj([("type", Str("string"))])),
    ("depends-on", Obj([("type", Str("array")), ("items", Obj([("type", Str("string"))]))]))])

  /** The rule the envelope starts with: a `pattern` constraint on the
      `configuration` of a junit-grader entry. */
  const JunitPlaceholder: Json :=
    GenerateGraderConfigConditional("junit-grader", Obj([("pattern", Str("[0-9]{5}(-[0-9]{4})?"))]))

  /** The envelope as the program declares it, before any rule is injected. */
  const InitialGraderConfigSchema: Json := Obj([
    ("type", Str("array")),
    ("items", Obj([
      ("type", Str("object")),
      ("properties", ItemProperties),
      ("allOf", Arr([JunitPlaceholder]))]))])

  /** `schema.items` is an object, so that `schema.items.allOf = …` is an assignment. */
  predicate ItemsIsObject(schema: Json) {
    schema.Obj? && Member(schema, "items").Some? && Member(schema, "items").value.Obj?
  }

  /** The envelope after `schema.items.allOf = allOfArr`. */
  function ReplaceItemsAllOf(schema: Json, allOfArr: seq<Json>): (r: Json)
    requires ItemsIsObject(schema)
  {
    var items := Member(schema, "items").value;
    Obj(Set(schema.fields, "items", Obj(Set(items.fields, "allOf", Arr(allOfArr)))))
  }

  /** The assignment installs the rules as `items.allOf`, keeps every member's
      place, leaves every other member of the envelope and of `items` as it was. */
  lemma ReplaceItemsAllOfEffect(schema: Json, allOfArr: seq<Json>)
    requires ItemsIsObject(schema)
    ensures var r := ReplaceItemsAllOf(schema, allOfArr);
      && ItemsIsObject(r)
      && Path(r, ["items", "allOf"]) == Some(Arr(allOfArr))
      && Keys(r.fields) == Keys(schema.fields)
      && Keys(Member(r, "items").value.fields) ==
           (var ks := Keys(Member(schema, "items").value.fields); if "allOf" in ks then ks else ks + ["allOf"])
      && (forall k :: k != "items" ==> Member(r, k) == Member(schema, k))
      && (forall k :: k != "allOf" ==> Path(r, ["items", k]) == Path(schema, ["items", k]))
  {
    var r := ReplaceItemsAllOf(schema, allOfArr);
    var items := Member(schema, "items").value;
    var items' := Obj(Set(items.fields, "allOf", Arr(allOfArr)));
    SetGet(schema.fields, "items", items');
    SetGet(items.fields, "allOf", Arr(allOfArr));
    SetKeys(schema.fields, "items", items');
    SetKeys(items.fields, "allOf", Arr(allOfArr));
    PathTwo(r, "items", "allOf");
    forall k | k != "items" ensures Member(r, k) == Member(schema, k) {
      SetGetOther(schema.fields, "items", items', k);
    }
    forall k | k != "allOf" ensures Path(r, ["items", k]) == Path(schema, ["items", k]) {
      PathTwo(r, "items", k);
      PathTwo(schema, "items", k);
      SetGetOther(items.fields, "allOf", Arr(allOfArr), k);
    }
  }

  /** A second assignment overwrites the first one entirely; in particular,
      injecting the same rules twice gives what injecting them once gives. */
  lemma ReplaceItemsAllOfTwice(schema: Json, first: seq<Json>, second: seq<Json>)
    requires ItemsIsObject(schema)
    ensures ItemsIsObject(ReplaceItemsAllOf(schema, first))
    ensures ReplaceItemsAllOf(ReplaceItemsAllOf(schema, first), second) == ReplaceItemsAllOf(schema, second)
  {
    var items := Member(schema, "items").value;
    var once := Obj(Set(items.fields, "allOf", Arr(first)));
    ReplaceItemsAllOfEffect(schema, first);
    SetGet(schema.fields, "items", once);
    SetTwice(items.fields, "allOf", Arr(first), Arr(second));
    SetTwice(schema.fields, "items", once, Obj(Set(items.fields, "allOf", Arr(second))));
  }

  /** The module-level envelope object. Only `items.allOf` is ever assigned;
      the other members are kept as fields of their own so that the model
      shows which parts of the object the program changes. */
  class GraderConfigSchema {
    var schemaType: Json
    var itemsType: Json
    var itemsProperties: Json
    var itemsAllOf: seq<Json>

    /** The object as a value. */
    function ToJson(): (j: Json)
      reads this
      ensures ItemsIsObject(j)
    {
      var j := Obj([
        ("type", schemaType),
        ("items", Obj([("type", itemsType), ("properties", itemsProperties), ("allOf", Arr(itemsAllOf))]))]);
      assert DistinctKeys(j.fields);
      GetDistinct(j.fields, 1);
      j
    }

    /** The envelope as declared. */
    constructor ()
      ensures ToJson() == InitialGraderConfigSchema
    {
      schemaType := Str("array");
      itemsType := Str("object");
      itemsProperties := ItemProperties;
      itemsAllOf := [JunitPlaceholder];
    }

    /** injectAllOf: `items.allOf` becomes the given rules, everything else
        stays, and the same object is returned. */
    method InjectAllOf(allOfArr: seq<Json>) returns (schema: GraderConfigSchema)
      modifies this
      ensures schema == this
      ensures itemsAllOf == allOfArr
      ensures schemaType == old(schemaType) && itemsType == old(itemsType)
      ensures itemsProperties == old(itemsProperties)
      ensures ToJson() == ReplaceItemsAllOf(old(ToJson()), allOfArr)
    {
      ghost var before := ToJson();
      itemsAllOf := allOfArr;
      schema := this;
      InjectAllOfValue(before, old(schemaType), itemsType, itemsProperties, old(itemsAllOf), allOfArr);
    }
  }

  /** The value-level effect of assigning `items.allOf` on an envelope of the
      shape the class keeps. */
  lemma InjectAllOfValue(before: Json, schemaType: Json, itemsType: Json, itemsProperties: Json, allOf: seq<Json>, allOfArr: seq<Json>)
    requires before == Obj([
      ("type", schemaType),
      ("items", Obj([("type", itemsType), ("properties", itemsProperties), ("allOf", Arr(allOf))]))])
    ensures ItemsIsObject(before)
    ensures ReplaceItemsAllOf(before, allOfArr) == Obj([
      ("type", schemaType),
      ("items", Obj([("type", itemsType), ("properties", itemsProperties), ("allOf", Arr(allOfArr))]))])
  {
    var f := before.fields;
    assert DistinctKeys(f);
    GetDistinct(f, 1);
    assert Member(before, "items").value == f[1].1;
    var g := f[1].1.fields;
    var allOf' := Arr(allOfArr);
    assert g[0].0 != "allOf" && g[1].0 != "allOf";
    assert g[1..][1..] == [g[2]];
    var g' := Set(g, "allOf", allOf');
    assert Set(g[1..][1..], "allOf", allOf') == [("allOf", allOf')];
    assert Set(g[1..], "allOf", allOf') == [g[1]] + Set(g[1..][1..], "allOf", allOf');
    assert g' == [g[0]] + Set(g[1..], "allOf", allOf');
    assert g' == [g[0], g[1], ("allOf", allOf')];
    assert f[0].0 != "items" && f[1..] == [f[1]];
    assert Set(f[1..], "items", Obj(g')) == [("items", Obj(g'))];
    assert Set(f, "items", Obj(g')) == [f[0], ("items", Obj(g'))];
  }

  /** The program's main step: generate the rules for the registry and inject
      them into the envelope. A failed generation leaves the envelope as it
      was and reports the first error. */
  method BuildGraderConfigSchema(envelope: GraderConfigSchema, fetch: string -> HttpOutcome)
    returns (r: Result<Json, Error>)
    modifies envelope
    ensures r.Success? <==> GraderConfigConditionals(GraderUrls, fetch).Success?
    ensures r.Failure? ==>
      && r.error == GraderConfigConditionals(GraderUrls, fetch).error
      && envelope.ToJson() == old(envelope.ToJson())
    ensures r.Success? ==>
      && r.value == envelope.ToJson()
      && r.value == ReplaceItemsAllOf(old(envelope.ToJson()), GraderConfigConditionals(GraderUrls, fetch).value)
  {
    var allOf := GenerateGraderConfigConditionals(GraderUrls, fetch);
    if allOf.Failure? {
      return Failure(allOf.error);
    }
    var finalSchema := envelope.InjectAllOf(allOf.value);
    return Success(finalSchema.ToJson());
  }

  /** Reading back the members of an envelope of the shape the class keeps. */
  lemma EnvelopeMembers(schemaType: Json, itemsType: Json, itemsProperties: Json, allOf: seq<Json>)
    ensures var envelope := Obj([
      ("type", schemaType),
      ("items", Obj([("type", itemsType), ("properties", itemsProperties), ("allOf", Arr(allOf))]))]);
      && Member(envelope, "type") == Some(schemaType)
      && Path(envelope, ["items", "type"]) == Some(itemsType)
      && Path(envelope, ["items", "properties"]) == Some(itemsProperties)
      && Path(envelope, ["items", "allOf"]) == Some(Arr(allOf))
  {
    var items := Obj([("type", itemsType), ("properties", itemsProperties), ("allOf", Arr(allOf))]);
    var envelope := Obj([("type", schemaType), ("items", items)]);
    assert DistinctKeys(envelope.fields);
    GetDistinct(envelope.fields, 0);
    GetDistinct(envelope.fields, 1);
    assert DistinctKeys(items.fields);
    GetDistinct(items.fields, 0);
    GetDistinct(items.fields, 1);
    GetDistinct(items.fields, 2);
    PathTwo(envelope, "items", "type");
    PathTwo(envelope, "items", "properties");
    PathTwo(envelope, "items", "allOf");
  }

  /** Starting from the declared envelope, injecting rules keeps the entry
      properties as declared and replaces the junit placeholder by the rules. */
  lemma FinalSchema(rules: seq<Json>)
    ensures ItemsIsObject(InitialGraderConfigSchema)
    ensures var final := ReplaceItemsAllOf(InitialGraderConfigSchema, rules);
      && Path(final, ["items", "allOf"]) == Some(Arr(rules))
      && Path(final, ["items", "properties"]) == Some(ItemProperties)
      && Path(final, ["items", "type"]) == Some(Str("object"))
      && Member(final, "type") == Some(Str("array"))
  {
    InjectAllOfValue(InitialGraderConfigSchema, Str("array"), Str("object"), ItemProperties, [JunitPlaceholder], rules);
    EnvelopeMembers(Str("array"), Str("object"), ItemProperties, rules);
  }
}
