/** Conditional composer: one `if`/`then` rule per registered grader, binding
    the schema of `configuration` to the value of `name`, gathered into the
    list that becomes the envelope's `allOf`. */
module ConditionalComposer {
  import opened Wrappers
  import opened JsonValues
  import opened GraderTypes
  import opened ParameterTranslator
  import opened GraderSchemaAdapter
  import opened Folds

  /** The registry of graders: grader name to configuration-schema endpoint, in
      declaration order. The tools on ports 3001 and 3002 are commented out in
      the registry and are not part of it. */
  const GraderUrls: Entries<string> := [
    ("javac-tool", "http://192.168.99.1:3003/config_schema"),
    ("io-grader", "http://192.168.99.1:3004/config_schema"),
    ("junit-grader", "http://192.168.99.1:3006/config_schema"),
    ("cpp-iograder", "http://192.168.99.1:3008/config_schema"),
    ("cpp-compilation", "http://192.168.99.1:3007/config_schema"),
    ("cppunit-grader", "http://192.168.99.1:3015/config_schema")]

  /** The value a rule's `if` requires of `name`. */
  function Discriminator(rule: Json): Option<Json> {
    Path(rule, ["if", "properties", "name", "const"])
  }

  /** The schema a rule's `then` imposes on `configuration`. */
  function Consequent(rule: Json): Option<Json> {
    Path(rule, ["then", "properties", "configuration"])
  }

  /** The members a rule has, at every level: `if: {properties: {name: {const}}}`
      and `then: {properties: {configuration}}`, and nothing else. So `if`
      tests only `name`, and `then` constrains only `configuration`. */
  predicate RuleLayout(rule: Json) {
    && ObjectWithKeys(Some(rule), ["if", "then"])
    && ObjectWithKeys(Member(rule, "if"), ["properties"])
    && ObjectWithKeys(Path(rule, ["if", "properties"]), ["name"])
    && ObjectWithKeys(Path(rule, ["if", "properties", "name"]), ["const"])
    && ObjectWithKeys(Member(rule, "then"), ["properties"])
    && ObjectWithKeys(Path(rule, ["then", "properties"]), ["configuration"])
  }

  /** generateGraderConfigConditional: `if` the entry's `name` is the
      grader's name, `then` its `configuration` must match the given schema. */
  function GenerateGraderConfigConditional(graderName: string, configurationSchema: Json): Json {
    Obj([
      ("if", Obj([("properties", Obj([("name", Obj([("const", Str(graderName))]))]))])),
      ("then", Obj([("properties", Obj([("configuration", configurationSchema)]))]))])
  }

  /** A built rule has the rule layout: its `if` tests only `name`, against
      that grader's name, and its `then` constrains only `configuration`, with
      the given schema. */
  lemma ConditionalShape(graderName: string, configurationSchema: Json)
    ensures var rule := GenerateGraderConfigConditional(graderName, configurationSchema);
      && RuleLayout(rule)
      && Discriminator(rule) == Some(Str(graderName))
      && Consequent(rule) == Some(configurationSchema)
  {
    var rule := GenerateGraderConfigConditional(graderName, configurationSchema);
    var antecedent, consequent := rule.fields[0].1, rule.fields[1].1;
    assert DistinctKeys(rule.fields);
    GetDistinct(rule.fields, 0);
    GetDistinct(rule.fields, 1);
    PathTwo(rule, "if", "properties");
    PathTwo(rule, "then", "properties");
    PathStep(rule, "if", ["properties", "name"]);
    assert ["if"] + ["properties", "name"] == ["if", "properties", "name"];
    PathTwo(antecedent, "properties", "name");
    PathStep(rule, "then", ["properties", "configuration"]);
    assert ["then"] + ["properties", "configuration"] == ["then", "properties", "configuration"];
    PathTwo(consequent, "properties", "configuration");
  }

  /** A rule is determined by its layout, the name it requires and the schema
      it imposes: any value with these three is the rule the builder makes. */
  lemma RuleDetermined(rule: Json, graderName: string, configurationSchema: Json)
    requires RuleLayout(rule)
    requires Discriminator(rule) == Some(Str(graderName))
    requires Consequent(rule) == Some(configurationSchema)
    ensures rule == GenerateGraderConfigConditional(graderName, configurationSchema)
  {
    TwoMembers(rule, "if", "then");
    var antecedent, consequent := Member(rule, "if").value, Member(rule, "then").value;
    OneMember(antecedent, "properties");
    OneMember(consequent, "properties");
    PathTwo(rule, "if", "properties");
    PathTwo(rule, "then", "properties");
    var tested, properties := Member(antecedent, "properties").value, Member(consequent, "properties").value;
    OneMember(tested, "name");
    OneMember(properties, "configuration");
    PathStep(rule, "if", ["properties", "name"]);
    assert ["if"] + ["properties", "name"] == ["if", "properties", "name"];
    PathTwo(antecedent, "properties", "name");
    var nameTest := Member(tested, "name").value;
    OneMember(nameTest, "const");
    PathStep(rule, "if", ["properties", "name", "const"]);
    assert ["if"] + ["properties", "name", "const"] == ["if", "properties", "name", "const"];
    PathStep(antecedent, "properties", ["name", "const"]);
    assert ["properties"] + ["name", "const"] == ["properties", "name", "const"];
    PathTwo(tested, "name", "const");
    PathStep(rule, "then", ["properties", "configuration"]);
    assert ["then"] + ["properties", "configuration"] == ["then", "properties", "configuration"];
    PathTwo(consequent, "properties", "configuration");
  }

  /** The rule of one registry entry: ask its grader's endpoint for its schema,
      adapt it, and bind it to that grader's name. */
  function GraderRule(entry: (string, string), fetch: string -> HttpOutcome): (r: Result<Json, Error>)
    ensures r.Success? ==> Discriminator(r.value) == Some(Str(entry.0))
  {
    var schema :- RetrieveGraderConfigSchema(entry.1, fetch(entry.1));
    var configuration :- ConfigSchemaToJsonSchema(schema);
    ConditionalShape(entry.0, configuration);
    Success(GenerateGraderConfigConditional(entry.0, configuration))
  }

  /** The step of the loop as a value: an entry to its rule, for one fetch. */
  function RuleFor(fetch: string -> HttpOutcome): ((string, string)) -> Result<Json, Error> {
    entry => GraderRule(entry, fetch)
  }

  /** What generateGraderConfigConditionals computes: the entries are visited
      in order, each new rule goes in front of the collected ones, and the
      first entry whose rule cannot be built aborts the whole run. */
  function GraderConfigConditionals(graderUrls: Entries<string>, fetch: string -> HttpOutcome): (r: Result<seq<Json>, Error>)
    ensures r.Success? <==> forall i :: 0 <= i < |graderUrls| ==> GraderRule(graderUrls[i], fetch).Success?
    ensures r.Success? ==> |r.value| == |graderUrls|
  {
    PrependEach(graderUrls, RuleFor(fetch))
  }

  /** generateGraderConfigConditionals: the loop over the registry, with
      retrieval given as `fetch`. */
  method GenerateGraderConfigConditionals(graderUrls: Entries<string>, fetch: string -> HttpOutcome)
    returns (r: Result<seq<Json>, Error>)
    ensures r == GraderConfigConditionals(graderUrls, fetch)
  {
    var graderConditionals: seq<Json> := [];
    var i := 0;
    while i < |graderUrls|
      invariant 0 <= i <= |graderUrls|
      invariant GraderConfigConditionals(graderUrls[..i], fetch) == Success(graderConditionals)
    {
      var (graderName, graderUrl) := graderUrls[i];
      var retrieved := RetrieveGraderConfigSchema(graderUrl, fetch(graderUrl));
      var configuration := if retrieved.Success? then ConfigSchemaToJsonSchema(retrieved.value) else Failure(retrieved.error);
      PrependEachStep(graderUrls, RuleFor(fetch), i);
      assert GraderRule(graderUrls[i], fetch) ==
        if configuration.Failure? then Failure(configuration.error)
        else Success(GenerateGraderConfigConditional(graderName, configuration.value));
      if configuration.Failure? {
        PrependEachFailureExtends(graderUrls, RuleFor(fetch), i + 1, configuration.error);
        return Failure(configuration.error);
      }
      graderConditionals := [GenerateGraderConfigConditional(graderName, configuration.value)] + graderConditionals;
      i := i + 1;
    }
    assert graderUrls[..i] == graderUrls;
    return Success(graderConditionals);
  }

  /** Rule i of the result belongs to registry entry n-1-i: the output lists
      the graders in reverse registry order. */
  lemma {:induction false} ConditionalsReversed(graderUrls: Entries<string>, fetch: string -> HttpOutcome)
    requires GraderConfigConditionals(graderUrls, fetch).Success?
    ensures var rules := GraderConfigConditionals(graderUrls, fetch).value;
      && |rules| == |graderUrls|
      && forall i :: 0 <= i < |rules| ==>
           GraderRule(graderUrls[|graderUrls| - 1 - i], fetch) == Success(rules[i])
  {
    PrependEachReversed(graderUrls, RuleFor(fetch));
  }

  lemma {:induction false} RuleAt(graderUrls: Entries<string>, fetch: string -> HttpOutcome, i: int)
    requires GraderConfigConditionals(graderUrls, fetch).Success?
    requires 0 <= i < |graderUrls|
    ensures GraderRule(graderUrls[|graderUrls| - 1 - i], fetch) == Success(GraderConfigConditionals(graderUrls, fetch).value[i])
  {
    ConditionalsReversed(graderUrls, fetch);
  }

  /** A failed run reports the error of the first entry, in registry order,
      whose rule cannot be built. */
  lemma {:induction false} ConditionalsFirstError(graderUrls: Entries<string>, fetch: string -> HttpOutcome)
    requires GraderConfigConditionals(graderUrls, fetch).Failure?
    ensures exists i ::
      && 0 <= i < |graderUrls|
      && GraderRule(graderUrls[i], fetch) == Failure(GraderConfigConditionals(graderUrls, fetch).error)
      && forall j :: 0 <= j < i ==> GraderRule(graderUrls[j], fetch).Success?
  {
    PrependEachFirstError(graderUrls, RuleFor(fetch));
  }

  /** Rule i requires the name of registry entry n-1-i. */
  lemma {:induction false} ConditionalsNamed(graderUrls: Entries<string>, fetch: string -> HttpOutcome)
    requires GraderConfigConditionals(graderUrls, fetch).Success?
    ensures var rules := GraderConfigConditionals(graderUrls, fetch).value;
      forall i :: 0 <= i < |rules| ==> Discriminator(rules[i]) == Some(Str(graderUrls[|graderUrls| - 1 - i].0))
  {
    forall i | 0 <= i < |graderUrls|
      ensures Discriminator(GraderConfigConditionals(graderUrls, fetch).value[i]) == Some(Str(graderUrls[|graderUrls| - 1 - i].0))
    {
      RuleNameAt(graderUrls, fetch, i);
    }
  }

  /** In a registry without repeated names, the rules require pairwise
      different names: rule i requires the name of entry n-1-i. */
  lemma {:induction false} ConditionalsDiscriminate(graderUrls: Entries<string>, fetch: string -> HttpOutcome)
    requires DistinctKeys(graderUrls)
    requires GraderConfigConditionals(graderUrls, fetch).Success?
    ensures var rules := GraderConfigConditionals(graderUrls, fetch).value;
      forall i :: 0 <= i < |rules| ==> Discriminator(rules[i]) == Some(Str(graderUrls[|graderUrls| - 1 - i].0))
    ensures var rules := GraderConfigConditionals(graderUrls, fetch).value;
      forall i, j :: 0 <= i < j < |rules| ==> Discriminator(rules[i]) != Discriminator(rules[j])
  {
    ConditionalsNamed(graderUrls, fetch);
    DistinctDiscriminators(graderUrls, GraderConfigConditionals(graderUrls, fetch).value);
  }

  lemma {:induction false} RuleNameAt(graderUrls: Entries<string>, fetch: string -> HttpOutcome, i: int)
    requires GraderConfigConditionals(graderUrls, fetch).Success?
    requires 0 <= i < |graderUrls|
    ensures Discriminator(GraderConfigConditionals(graderUrls, fetch).value[i]) == Some(Str(graderUrls[|graderUrls| - 1 - i].0))
  {
    RuleAt(graderUrls, fetch, i);
  }

  /** Rules that require the names of a registry's entries in reverse order
      require pairwise different names when the registry has no repeated name. */
  lemma {:induction false} DistinctDiscriminators(graderUrls: Entries<string>, rules: seq<Json>)
    requires DistinctKeys(graderUrls) && |rules| == |graderUrls|
    requires forall i :: 0 <= i < |rules| ==> Discriminator(rules[i]) == Some(Str(graderUrls[|graderUrls| - 1 - i].0))
    ensures forall i, j :: 0 <= i < j < |rules| ==> Discriminator(rules[i]) != Discriminator(rules[j])
  {
    var n := |graderUrls|;
    forall i, j | 0 <= i < j < n ensures Discriminator(rules[i]) != Discriminator(rules[j]) {
      assert graderUrls[n - 1 - j].0 != graderUrls[n - 1 - i].0;
    }
  }

  /** An entry's rule exists exactly when its endpoint's schema is retrieved
      and adapted; otherwise the rule fails with the retrieval error, or with
      the translator's error when only the adaptation fails. */
  lemma RuleErrors(entry: (string, string), fetch: string -> HttpOutcome)
    ensures var retrieved := RetrieveGraderConfigSchema(entry.1, fetch(entry.1));
      && (GraderRule(entry, fetch).Success? <==> retrieved.Success? && ConfigSchemaToJsonSchema(retrieved.value).Success?)
      && (retrieved.Failure? ==> GraderRule(entry, fetch) == Failure(retrieved.error))
      && (retrieved.Success? && GraderRule(entry, fetch).Failure? ==> GraderRule(entry, fetch) == Failure(TypeNotDefined))
  {
  }

  lemma RuleShape(entry: (string, string), fetch: string -> HttpOutcome, rule: Json)
    requires GraderRule(entry, fetch) == Success(rule)
    ensures RuleLayout(rule)
    ensures Consequent(rule) == Some(ConfigSchemaToJsonSchema(RetrieveGraderConfigSchema(entry.1, fetch(entry.1)).value).value)
  {
    var schema := RetrieveGraderConfigSchema(entry.1, fetch(entry.1)).value;
    assert rule == GenerateGraderConfigConditional(entry.0, ConfigSchemaToJsonSchema(schema).value);
    ConditionalShape(entry.0, ConfigSchemaToJsonSchema(schema).value);
  }

  /** Rule `rule` tests only `name` and constrains only `configuration`,
      with the adapted schema the endpoint `url` returned. */
  predicate ConstrainsConfiguration(rule: Json, url: string, fetch: string -> HttpOutcome) {
    var retrieved := RetrieveGraderConfigSchema(url, fetch(url));
    && RuleLayout(rule)
    && retrieved.Success?
    && ConfigSchemaToJsonSchema(retrieved.value).Success?
    && Consequent(rule) == Some(ConfigSchemaToJsonSchema(retrieved.value).value)
  }

  lemma {:induction false} RuleShapeAt(graderUrls: Entries<string>, fetch: string -> HttpOutcome, i: int)
    requires GraderConfigConditionals(graderUrls, fetch).Success?
    requires 0 <= i < |graderUrls|
    ensures ConstrainsConfiguration(GraderConfigConditionals(graderUrls, fetch).value[i], graderUrls[|graderUrls| - 1 - i].1, fetch)
  {
    RuleAt(graderUrls, fetch, i);
    RuleShape(graderUrls[|graderUrls| - 1 - i], fetch, GraderConfigConditionals(graderUrls, fetch).value[i]);
  }

  /** Every rule tests only `name` and constrains only `configuration`, with
      the adapted schema its grader's endpoint returned. */
  lemma {:induction false} ConditionalsConstrainConfiguration(graderUrls: Entries<string>, fetch: string -> HttpOutcome)
    requires GraderConfigConditionals(graderUrls, fetch).Success?
    ensures var rules := GraderConfigConditionals(graderUrls, fetch).value;
      forall i :: 0 <= i < |rules| ==> ConstrainsConfiguration(rules[i], graderUrls[|graderUrls| - 1 - i].1, fetch)
  {
    forall i | 0 <= i < |graderUrls|
      ensures ConstrainsConfiguration(GraderConfigConditionals(graderUrls, fetch).value[i], graderUrls[|graderUrls| - 1 - i].1, fetch)
    {
      RuleShapeAt(graderUrls, fetch, i);
    }
  }

  /** The registry as declared: six graders with distinct names. */
  lemma RegistryShape()
    ensures |GraderUrls| == 6 && DistinctKeys(GraderUrls)
    ensures Keys(GraderUrls) == ["javac-tool", "io-grader", "junit-grader", "cpp-iograder", "cpp-compilation", "cppunit-grader"]
  {
  }

  /** When every endpoint of the declared registry answers, the allOf list has
      six rules, the last registered grader's first and the first registered
      grader's last. */
  lemma RegistryConditionals(fetch: string -> HttpOutcome)
    requires GraderConfigConditionals(GraderUrls, fetch).Success?
    ensures var rules := GraderConfigConditionals(GraderUrls, fetch).value;
      && |rules| == 6
      && Discriminator(rules[0]) == Some(Str("cppunit-grader"))
      && Discriminator(rules[1]) == Some(Str("cpp-compilation"))
      && Discriminator(rules[2]) == Some(Str("cpp-iograder"))
      && Discriminator(rules[3]) == Some(Str("junit-grader"))
      && Discriminator(rules[4]) == Some(Str("io-grader"))
      && Discriminator(rules[5]) == Some(Str("javac-tool"))
  {
    RegistryShape();
    ConditionalsDiscriminate(GraderUrls, fetch);
  }
}
