# Grader configuration schema builder, modelled in Dafny

`index.js` builds the JSON schema a grader configuration file must satisfy.
A grader configuration file is a list of steps, and each step names a grader and gives it a `configuration`.
The program works in four stages:

1. It asks every grader in a fixed registry for that grader's configuration schema.
2. It translates each declared parameter (`git`, `int` or `string`) into a schema fragment.
3. It wraps each grader's fragments into one `if name == <grader> then configuration: <schema>` rule.
4. It installs the list of rules as `items.allOf` of a fixed envelope schema.

The model follows the program's own structure, one module per stage:

- `Wrappers`: `Option` and `Result`. `Result` supports `:-`, which models the way a thrown error aborts the rest of the computation.
- `JsonValues`: JavaScript values.
  - An object is a list of members in insertion order, because both `reduce` and the loop reverse the order, and the order shows in the printed schema.
  - `Undefined` stands for a member copied from an attribute the descriptor does not have. The member is present, with the value `undefined`.
  - Also defined here: lookup (`Get`, `Member`, `Path`), assignment (`Set`) and their laws.
- `GraderTypes`: parameter descriptors, grader schemas (`{parameters: 0}` or a map of descriptors), the outcome of asking an endpoint, and the errors a run can end with.
- `Folds`: the accumulation both the conversion and the rule generation perform. It visits the entries in order, puts each new image in front of the collected ones, and aborts at the first failure.
- `ParameterTranslator`: `schemaPropertyToJsonSchema` and `convertConfigurableConfigSchemaToJsonSchema`.
- `GraderSchemaAdapter`: `configSchemaToJsonSchema` and `retrieveGraderConfigSchema`.
- `ConditionalComposer`: the registry, `generateGraderConfigConditional`, and `generateGraderConfigConditionals`. The last is a `while` loop proved against the fold.
- `SchemaAssembler`: the envelope declared at the top of the file, as a class whose `InjectAllOf` assigns `items.allOf` in place, and the program's main step.

Retrieval is a parameter. `fetch: string -> HttpOutcome` gives, for each endpoint, either a failed request or a response. A response carries its status, its status text and its body, already decoded. `ok` is a status from 200 to 299.

## Notes on index.js

- The translator tests for the type `int` and emits `type: 'int'` (index.js:62-64). It does not use the JSON Schema type name `integer`.
- Line 79 builds its message from the name `type`, which is not bound. The error actually thrown is therefore a ReferenceError that does not name the offending type. The model's `TypeNotDefined` carries no type for this reason.
- Any status that is not ok is fatal, 404 included (index.js:159-162). There is no fallback to "non-configurable".
- The rules come out in reverse registry order, because each new rule is put in front (index.js:137-146).
- The envelope declares no `configuration` property, no enumeration of grader names and no `additionalProperties` (index.js:6-40). Its initial `allOf` holds one junit-grader rule, a `pattern` constraint on `configuration`.

## Model

| member | source | states |
|---|---|---|
| ParameterTranslator.SchemaPropertyToJsonSchema | index.js:43-80 | translation succeeds exactly for the types `git`, `int` and `string`; any other type fails with the unbound-name error; a fragment is an object without repeated keys |
| ParameterTranslator.GitFragment | index.js:44-61 | a git parameter becomes an object schema with exactly `repository`, `branch` and `sha`, each a required string |
| ParameterTranslator.GitIgnoresAttributes | index.js:44-61 | the git fragment does not depend on any other attribute of the descriptor |
| ParameterTranslator.IntFragment | index.js:62-70 | an int parameter becomes a required `int` fragment whose `minimum`, `maximum`, `multipleOf` and `default` are `min`, `max`, `step` and `initial` unchanged (`undefined` when absent), in that member order |
| ParameterTranslator.StringFragment | index.js:71-76 | a string parameter becomes a required `string` fragment with `initial` as its default and no bounds or step |
| ParameterTranslator.OptionalInt | index.js:65-67 | copying an optional number into a fragment can be read back as the same optional number |
| ParameterTranslator.OptionalInitial | index.js:68-68 | copying an optional initial value (number or string) can be read back as the same value |
| ParameterTranslator.TranslateRoundTrip | index.js:43-77 | reading a fragment back yields the descriptor's type and the attributes the fragment keeps: none for git, all four for int, `initial` for string |
| ParameterTranslator.TranslateEntry | index.js:98-99 | one `[name, descriptor]` entry becomes a member with the same name holding the descriptor's translation, or fails as the descriptor does |
| ParameterTranslator.ConvertConfigurableConfigSchemaToJsonSchema | index.js:97-104 | the conversion succeeds exactly when every parameter's type is supported, and then has one member per parameter; otherwise the whole conversion fails with the unbound-name error |
| ParameterTranslator.ConvertReversed | index.js:98-101 | member i is parameter n-1-i under the same name, holding that parameter's translation (the spread puts each new member first) |
| ParameterTranslator.ConvertKeys | index.js:98-101 | the converted members have exactly the parameters' names, and repeat a name only if the parameters do |
| ParameterTranslator.ConvertByName | index.js:97-104 | with distinct parameter names the result has distinct names and the same name set, and each name holds the translation of its own descriptor |
| Folds.PrependEach | index.js:98-101 | the accumulation succeeds exactly when every element does, with one image per element |
| Folds.PrependEachReversed | index.js:139-145 | image i is the image of element n-1-i |
| Folds.PrependEachFirstError | index.js:139-147 | a failure is the failure of the first element, in order, that fails, and all earlier elements succeed |
| Folds.PrependEachFailureExtends | index.js:139-147 | once a prefix has failed, the whole sequence fails with the same error |
| GraderSchemaAdapter.ConfigSchemaToJsonSchema | index.js:106-118 | a non-configurable grader gets `{}`; a configurable one succeeds exactly when its parameters convert; failures carry the translator's error; results have no repeated keys |
| GraderSchemaAdapter.ConfigurableShape | index.js:111-117 | a configurable grader's schema has exactly `type: 'object'`, `properties` (the converted parameters) and `required: true`, in that order |
| GraderSchemaAdapter.EmptySchemaOnlyForNonConfigurable | index.js:107-117 | the result is `{}` if and only if that grader is non-configurable; a configurable grader with no parameters still gets an object schema |
| GraderSchemaAdapter.ConfigurableProperties | index.js:113-115 | every parameter of a configurable grader appears as `properties.<name>` holding its own translation |
| GraderSchemaAdapter.RetrieveGraderConfigSchema | index.js:155-162 | retrieval succeeds exactly for an ok response with a decodable body, and then returns that body; a failed request, a non-ok status (404 included) and an undecodable body each give their own error |
| ConditionalComposer.ConditionalShape | index.js:121-130 | at every level the rule has exactly the members `if: {properties: {name: {const}}}` and `then: {properties: {configuration}}`; the `const` is that grader's name and `configuration` holds the given schema |
| ConditionalComposer.RuleDetermined | index.js:121-130 | any value with the rule layout, a given required name and a given consequent is exactly the rule the builder makes for them, so the builder's contract leaves nothing out |
| ConditionalComposer.GraderRule | index.js:139-145 | a built rule requires `name` to equal the entry's grader name |
| ConditionalComposer.RuleErrors | index.js:139-145 | an entry's rule exists exactly when retrieval and adaptation succeed; a failed retrieval is reported as is, and a failed adaptation as the translator's error |
| ConditionalComposer.RuleShape | index.js:139-145 | a built rule has the rule layout (it tests only `name` and constrains only `configuration`), with the adapted schema of what the entry's endpoint returned |
| ConditionalComposer.GraderConfigConditionals | index.js:134-148 | the rules exist exactly when every entry's rule does, with one rule per entry |
| ConditionalComposer.GenerateGraderConfigConditionals | index.js:134-148 | the loop returns what the fold specifies, including the error of the first failing grader |
| ConditionalComposer.ConditionalsReversed | index.js:138-146 | rule i belongs to registry entry n-1-i |
| ConditionalComposer.ConditionalsFirstError | index.js:138-147 | a failed run reports the error of the first grader, in registry order, whose rule could not be built |
| ConditionalComposer.ConditionalsNamed | index.js:138-146 | rule i requires the name of registry entry n-1-i |
| ConditionalComposer.ConditionalsDiscriminate | index.js:121-146 | with distinct grader names, rule i requires the name of entry n-1-i, and no two rules require the same name |
| ConditionalComposer.ConditionalsConstrainConfiguration | index.js:121-146 | every rule tests only `name` and constrains only `configuration`; its own grader's retrieval and adaptation succeeded, and `configuration` holds that adapted schema |
| ConditionalComposer.RegistryShape | index.js:82-91 | the registry holds six graders with distinct names, in declaration order |
| ConditionalComposer.RegistryConditionals | index.js:82-148 | for the declared registry, a successful run gives six rules, from cppunit-grader first to javac-tool last |
| SchemaAssembler.ReplaceItemsAllOfEffect | index.js:150-153 | assigning `items.allOf` installs the rules, keeps every member's place and leaves every other member of the envelope and of `items` unchanged |
| SchemaAssembler.ReplaceItemsAllOfTwice | index.js:150-153 | a second injection overwrites the first; injecting the same rules twice equals injecting them once |
| SchemaAssembler.InjectAllOfValue | index.js:150-153 | on an envelope of the declared shape, injection replaces exactly the `allOf` list |
| SchemaAssembler.EnvelopeMembers | index.js:6-40 | the envelope's `type`, `items.type`, `items.properties` and `items.allOf` read back as given |
| SchemaAssembler.FinalSchema | index.js:6-40 | after injection into the declared envelope, `items.allOf` is the rules (the junit placeholder is gone), and `type`, `items.type` and the step properties are as declared |
| SchemaAssembler.GraderConfigSchema.constructor | index.js:6-40 | the envelope object starts as declared |
| SchemaAssembler.GraderConfigSchema.InjectAllOf | index.js:150-153 | only `items.allOf` changes, it becomes the given rules, and the same object is returned |
| SchemaAssembler.BuildGraderConfigSchema | index.js:168-201 | success exactly when rule generation succeeds; the envelope then holds the generated rules; on failure the envelope is unchanged and the first error is reported |

## Left out

- Network and decoding: `node-fetch` and `response.json()` are not modelled. Their combined outcome per endpoint is the `fetch` parameter, assumed to give the same answer each time it is asked about an endpoint.
- GraderSchemaAdapter.RetrieveGraderConfigSchema: every body the model's grader schema cannot hold is one `InvalidBody` error. The program treats such bodies in several ways:
  - A body that is not JSON makes it rethrow the parser's own error.
  - An attribute value outside the model's types succeeds in the program and is copied into the fragment (see the next line on attribute values).
  - A descriptor that is not an object, such as the number 5, has no `type`, so it reaches line 79 and ends in that line's ReferenceError.
  - A `parameters` that is missing or `null`, or a descriptor that is `null`, fails with a TypeError at `Object.entries` or at `property.type`.
- Asynchrony: the `async` functions, `await` and the immediately invoked async function are modelled as sequential calls, since every retrieval is awaited before the next begins.
- Output: `console.dir` of the final schema and `console.log` of a caught error are left out. `BuildGraderConfigSchema` returns the schema or the error instead.
- `fs`, `js-yaml` and `Ajv` are imported, but they are used only in commented-out code. Reading and validating a configuration file is not part of this model.
- Loose equality: `property.type == 'git'` and `parameters == 0` compare with `==`. The model treats `type` as a string and `parameters` as either 0 or a map of descriptors. Other values that are loosely equal to 0, such as `"0"` or `[]`, are not modelled.
- Numbers and attribute values: `min`, `max` and `step` are optional integers, and `initial` is an optional integer or string. Fractional numbers are not modelled.
  - The program copies each of these attributes into the fragment unchanged, whatever value it holds (index.js:65-68).
  - So `null`, a string or a boolean as `min`, `max` or `step`, or anything but a number or a string as `initial`, succeeds in the program and appears as that value in the fragment.
  - The model does not represent those values. A body holding them is an `InvalidBody` in the model.
- Key order: `Object.entries` lists integer-like keys before all others. The model keeps plain insertion order for every key.
- Repeated names: a decoded JSON object has no repeated keys, so the lemmas about names assume distinct names. On a sequence with repeated names, the model's conversion would keep every copy.
- The loop's `[graderName, graderUrl]` is assigned without a declaration, so it creates global variables. That side effect is not modelled.
- The two registry entries that are commented out (ports 3001 and 3002) are not part of the registry.
