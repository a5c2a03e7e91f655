/**
 * The records of the bundle runner that the assertion engine and the curl
 * builder read and produce.
 */
module Models {
  import opened Js

  datatype Options = Options(
    follow: bool,
    verifySSL: bool,
    keepRawJSON: bool,
    showHeaders: bool,
    rawParams: bool,
    stopOnFailure: bool)

  datatype Param = Param(name: string, value: Json)

  /** The fully merged description of one request. */
  datatype HttpRequest = HttpRequest(
    baseUrl: Option<string>,
    url: string,
    httpMethod: string,
    params: seq<Param>,
    headers: Option<Dict<string>>,  // None when the field is undefined
    body: Json)                     // JUndefined when the field is undefined

  datatype RequestSpec = RequestSpec(
    name: string,
    httpRequest: HttpRequest,
    expectJson: bool,
    options: Options,
    tests: Json)

  /**
   * A response as the assertion engine reads it: `status` is a number or
   * undefined, `headers` an object (or undefined for an error placeholder),
   * `json` the parsed body.
   */
  datatype ResponseData = ResponseData(status: Json, body: string, headers: Json, json: Json)

  /** `message` is "" where the source leaves it out. */
  datatype TestResult = TestResult(pass: bool, op: string, expected: Json, received: Json, message: string)

  /** `skipped` is false where the source leaves it undefined. */
  datatype SpecResult = SpecResult(
    spec: Option<string>,
    skipped: bool,
    results: seq<TestResult>,
    subResults: seq<SpecResult>)
}
