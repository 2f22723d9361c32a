/** The data the pipeline works on: grader parameter descriptors, grader
    configuration schemas as a grader's endpoint describes them, the outcome of
    asking an endpoint, and the errors that abort a run. */
module GraderTypes {
  import opened Wrappers
  import opened JsonValues

  /** The `initial` attribute of a descriptor: a number for `int`
      parameters, a string for `string` ones. */
  datatype Initial = IntInitial(n: int) | StringInitial(s: string)

  /** One declared parameter: `{type, min?, max?, step?, initial?}`. */
  datatype Descriptor = Descriptor(
    kind: string,
    min: Option<int>,
    max: Option<int>,
    step: Option<int>,
    initial: Option<Initial>)

  /** The three parameter types the translator knows. */
  predicate IsSupportedKind(kind: string) {
    kind == "git" || kind == "int" || kind == "string"
  }

  /** A grader's configuration schema: `{parameters: 0}` marks a grader that
      takes no configuration; otherwise `parameters` maps names to descriptors. */
  datatype GraderSchema =
    | NonConfigurable
    | Configurable(parameters: Entries<Descriptor>)

  /** What asking an endpoint yields: a rejected request, or a response with
      its status, status text and decoded body (`None` when the body is not
      readable as a grader schema). */
  datatype HttpOutcome =
    | RequestFailed(message: string)
    | Response(status: int, statusText: string, body: Option<GraderSchema>)

  /** `response.ok` of the fetch interface: a status in the range 200-299. */
  predicate IsOk(status: int) {
    200 <= status <= 299
  }

  datatype Error =
    /** Evaluating the error message for an unknown parameter type reads the name
        `type`, which is not bound, so the thrown error is a ReferenceError that
        does not name the offending type. */
    | TypeNotDefined
    /** "Invalid request to server: <message>". */
    | InvalidRequest(message: string)
    /** "Invalid response from server <endpoint>: <statusText>". */
    | InvalidResponse(endpoint: string, statusText: string)
    /** The body of an ok response could not be decoded. */
    | InvalidBody(endpoint: string)
}
