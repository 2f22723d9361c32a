/** Grader schema adapter: a grader's configuration schema, as its endpoint
    returns it, becomes the JSON schema of that grader's `configuration`. */
module GraderSchemaAdapter {
  import opened Wrappers
  import opened JsonValues
  import opened GraderTypes
  import opened ParameterTranslator

  /** The members of the schema of a configurable grader. */
  function ConfigurableSchema(properties: Fields): (j: Json)
    ensures j.Obj? && DistinctKeys(j.fields)
  {
    Obj([("type", Str("object")), ("properties", Obj(properties)), ("required", Bool(true))])
  }

  /** configSchemaToJsonSchema: a non-configurable grader gets the empty
      schema `{}`; a configurable one a required object schema whose
      `properties` are its converted parameters. A parameter that does not
      translate makes the whole adaptation fail. */
  function ConfigSchemaToJsonSchema(configSchema: GraderSchema): (r: Result<Json, Error>)
    ensures configSchema.NonConfigurable? ==> r == Success(Obj([]))
    ensures configSchema.Configurable? ==>
      (r.Success? <==> ConvertConfigurableConfigSchemaToJsonSchema(configSchema.parameters).Success?)
    ensures r.Failure? ==> r.error == TypeNotDefined
    ensures r.Success? ==> r.value.Obj? && DistinctKeys(r.value.fields)
  {
    match configSchema
    case NonConfigurable => Success(Obj([]))
    case Configurable(parameters) =>
      var properties :- ConvertConfigurableConfigSchemaToJsonSchema(parameters);
      Success(ConfigurableSchema(properties))
  }

  /** The shape of a configurable grader's schema: exactly `type`, `properties`
      and `required`, with `type` "object", `required` true and `properties`
      the converted parameter set. */
  lemma {:induction false} ConfigurableShape(parameters: Entries<Descriptor>)
    requires ConvertConfigurableConfigSchemaToJsonSchema(parameters).Success?
    ensures var j := ConfigSchemaToJsonSchema(Configurable(parameters)).value;
      && Keys(j.fields) == ["type", "properties", "required"]
      && Member(j, "type") == Some(Str("object"))
      && Member(j, "properties") == Some(Obj(ConvertConfigurableConfigSchemaToJsonSchema(parameters).value))
      && Member(j, "required") == Some(Bool(true))
  {
    var f := ConfigurableSchema(ConvertConfigurableConfigSchemaToJsonSchema(parameters).value).fields;
    ObjectLookups(f);
    assert f[0].0 == "type" && f[1].0 == "properties" && f[2].0 == "required";
  }

  /** Only a non-configurable grader is given the empty schema: a configurable
      grader with no parameters still gets an object schema with no properties. */
  lemma EmptySchemaOnlyForNonConfigurable(configSchema: GraderSchema)
    requires ConfigSchemaToJsonSchema(configSchema).Success?
    ensures ConfigSchemaToJsonSchema(configSchema).value == Obj([]) <==> configSchema.NonConfigurable?
  {
    if configSchema.Configurable? {
      assert |ConfigSchemaToJsonSchema(configSchema).value.fields| == 3;
    }
  }

  /** With distinct parameter names, every parameter is a property of the
      adapted schema and holds the translation of its own descriptor. */
  lemma {:induction false} ConfigurableProperties(parameters: Entries<Descriptor>)
    requires DistinctKeys(parameters)
    requires ConfigSchemaToJsonSchema(Configurable(parameters)).Success?
    ensures var j := ConfigSchemaToJsonSchema(Configurable(parameters)).value;
      forall i :: 0 <= i < |parameters| ==>
        Path(j, ["properties", parameters[i].0]).Some? &&
        SchemaPropertyToJsonSchema(parameters[i].1) == Success(Path(j, ["properties", parameters[i].0]).value)
  {
    var j := ConfigSchemaToJsonSchema(Configurable(parameters)).value;
    var props := ConvertConfigurableConfigSchemaToJsonSchema(parameters).value;
    ConfigurableShape(parameters);
    ConvertByName(parameters);
    forall i | 0 <= i < |parameters|
      ensures Path(j, ["properties", parameters[i].0]) == Get(props, parameters[i].0)
    {
      PathTwo(j, "properties", parameters[i].0);
    }
  }

  /** retrieveGraderConfigSchema, with the request's outcome given: a request
      that fails and a response whose status is not ok (404 included: there is
      no fallback) are errors, as is a body that cannot be decoded; otherwise
      the decoded body is that grader's schema. */
  function RetrieveGraderConfigSchema(endpoint: string, outcome: HttpOutcome): (r: Result<GraderSchema, Error>)
    ensures r.Success? <==> outcome.Response? && IsOk(outcome.status) && outcome.body.Some?
    ensures r.Success? ==> r.value == outcome.body.value
    ensures outcome.RequestFailed? ==> r == Failure(InvalidRequest(outcome.message))
    ensures outcome.Response? && !IsOk(outcome.status) ==>
      r == Failure(InvalidResponse(endpoint, outcome.statusText))
    ensures outcome.Response? && IsOk(outcome.status) && outcome.body.None? ==>
      r == Failure(InvalidBody(endpoint))
  {
    match outcome
    case RequestFailed(message) => Failure(InvalidRequest(message))
    case Response(status, statusText, body) =>
      if !IsOk(status) then Failure(InvalidResponse(endpoint, statusText))
      else if body.None? then Failure(InvalidBody(endpoint))
      else Success(body.value)
  }
}
