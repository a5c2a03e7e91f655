/**
 * The assertion engine of src/runTests.ts: a `Tests` specification is
 * evaluated against a `ResponseData` and yields a `SpecResult` tree.
 *
 * The functions EvalAll, EvalTest and EvalObject (with their loop helpers)
 * state what runAllTests, runTest and runObjectTests compute; the methods
 * RunAllTests, RunTest, RunObjectTests and RunOp do it the way the source
 * does, pushing into result lists inside loops, and are proved equal to them.
 *
 * `fuel` is the call-stack budget: every call of runAllTests, runTest or
 * runObjectTests uses one unit, and a call made with none left throws, as a
 * JavaScript stack overflow does.
 */
module RunTests {
  import opened Js
  import opened Models

  /** The library functions the engine calls but that are not part of this model. */
  datatype Host = Host(
    stringify: Json -> string,              // JSON.stringify
    jsonPath: (Json, string) -> Outcome<Json>, // jp.value: a value, or a thrown error's description
    parse: string -> Option<Json>,          // JSON.parse: None when it throws
    regexCompiles: (Json, Json) -> bool,    // `new RegExp(pattern, flags)` does not throw
    regexTest: (Json, Json, string) -> bool, // RegExp.prototype.test
    isDict: Json -> bool,                   // isDict of src/utils/typeUtils
    mergePrefixBasedTests: Json -> Json)    // mergePrefixBasedTests of src/mergeData

  const StackOverflow := "RangeError: Maximum call stack size exceeded"
  const NullPropertyError := "TypeError: Cannot read properties of null"
  const NullKeysError := "TypeError: Cannot convert undefined or null to object"
  const InvalidRegex := "SyntaxError: Invalid regular expression"
  const SizeMessage := "$size val is not num or valid JSON"
  const DictMessage := "recursive tests must be dicts"
  const UnknownExpected := "one of $eq, $ne etc."
  const UnknownMessage := "To compare objects, use $eq"

  const KnownOps: set<string> := {"$eq", "$ne", "$lt", "$gt", "$lte", "$gte", "$size", "$exists",
    "$type", "$regex", "$sw", "$ew", "$co", "$options", "$tests", "$skip"}

  /** What one operator adds to the node being built. */
  datatype Contribution = Contribution(results: seq<TestResult>, subResults: seq<SpecResult>)

  const NoContribution := Contribution([], [])

  function Single(t: TestResult): Outcome<Contribution> {
    Ok(Contribution([t], []))
  }

  /** `acc` followed by what `o` contributes, or the exception `o` threw. */
  function Then(acc: Contribution, o: Outcome<Contribution>): Outcome<Contribution> {
    match o
    case Throw(e) => Throw(e)
    case Ok(c) => Ok(Contribution(acc.results + c.results, acc.subResults + c.subResults))
  }

  /** `acc` followed by the nodes `o` yields, or the exception `o` threw. */
  function Prepend(acc: seq<SpecResult>, o: Outcome<seq<SpecResult>>): Outcome<seq<SpecResult>> {
    match o
    case Throw(e) => Throw(e)
    case Ok(rs) => Ok(acc + rs)
  }

  lemma ThenNothing(o: Outcome<Contribution>)
    ensures Then(NoContribution, o) == o
  {
    if o.Ok? {
      assert [] + o.value.results == o.value.results;
      assert [] + o.value.subResults == o.value.subResults;
    }
  }

  lemma PrependNothing(o: Outcome<seq<SpecResult>>)
    ensures Prepend([], o) == o
  {
    if o.Ok? {
      assert [] + o.value == o.value;
    }
  }

  lemma ThenThen(acc: Contribution, c: Contribution, o: Outcome<Contribution>)
    ensures Then(acc, Then(c, o))
         == Then(Contribution(acc.results + c.results, acc.subResults + c.subResults), o)
  {
    if o.Ok? {
      assert acc.results + (c.results + o.value.results) == (acc.results + c.results) + o.value.results;
      assert acc.subResults + (c.subResults + o.value.subResults)
          == (acc.subResults + c.subResults) + o.value.subResults;
    }
  }

  lemma PrependPrepend(acc: seq<SpecResult>, r: SpecResult, o: Outcome<seq<SpecResult>>)
    ensures Prepend(acc, Prepend([r], o)) == Prepend(acc + [r], o)
  {
    if o.Ok? {
      assert acc + ([r] + o.value) == (acc + [r]) + o.value;
    }
  }

  /** hasFailure: some result of the node or of a node below it fails. */
  predicate HasFailure(r: SpecResult)
    decreases r
  {
    (exists i :: 0 <= i < |r.results| && !r.results[i].pass) ||
    (exists j :: 0 <= j < |r.subResults| && HasFailure(r.subResults[j]))
  }

  /** getStringIfNotScalar: values whose `typeof` is "object" (null included) become their JSON text. */
  function Scalar(h: Host, v: Json): (r: Json)
    ensures TypeOf(r) != "object"
    ensures TypeOf(v) != "object" ==> r == v
    ensures TypeOf(v) == "object" ==> r.JStr?
  {
    if TypeOf(v) == "object" then JStr(h.stringify(v)) else v
  }

  /** getType */
  function GetType(v: Json): (t: string)
    ensures t in {"null", "array", "object", "undefined", "boolean", "number", "string"}
    ensures t == "null" <==> v.JNull?
    ensures t == "array" <==> v.JArr?
    ensures t == "object" <==> v.JObj?
    ensures !v.JNull? && !v.JArr? ==> t == TypeOf(v)
  {
    if v.JNull? then "null" else if v.JArr? then "array" else TypeOf(v)
  }

  /**
   * JavaScript's `<` on two strings: lexicographic order of the characters.
   * JavaScript orders UTF-16 code units; this orders Unicode scalar values,
   * and the two agree except where a character outside the Basic
   * Multilingual Plane meets one in U+E000..U+FFFF.
   */
  predicate StrLess(a: string, b: string) {
    if a == [] then b != []
    else if b == [] then false
    else if a[0] != b[0] then a[0] < b[0]
    else StrLess(a[1..], b[1..])
  }

  /**
   * JavaScript's `a < b`: both sides go through ToPrimitive (objects and
   * arrays become their String text); two strings compare as strings,
   * anything else compares as numbers, and a side that is NaN makes it false.
   */
  predicate Less(a: Json, b: Json) {
    var pa, pb := ToPrimitive(a), ToPrimitive(b);
    if pa.JStr? && pb.JStr? then StrLess(pa.s, pb.s)
    else
      var x, y := ToNumber(pa), ToNumber(pb);
      x.Some? && y.Some? && x.value < y.value
  }

  /** JavaScript's `a <= b`, by the same conversions as `Less`. */
  predicate LessEq(a: Json, b: Json) {
    var pa, pb := ToPrimitive(a), ToPrimitive(b);
    if pa.JStr? && pb.JStr? then StrLess(pa.s, pb.s) || pa.s == pb.s
    else
      var x, y := ToNumber(pa), ToNumber(pb);
      x.Some? && y.Some? && x.value <= y.value
  }

  predicate StartsWith(s: string, p: string) {
    |p| <= |s| && s[..|p|] == p
  }

  predicate EndsWith(s: string, p: string) {
    |p| <= |s| && s[|s| - |p|..] == p
  }

  predicate Includes(s: string, p: string) {
    StartsWith(s, p) || (s != [] && Includes(s[1..], p))
  }

  /** The length `$size` compares: key count, string length or array length. */
  function ReceivedLength(v: Json): (r: Json)
    ensures r.JNum? || r.JUndefined?
  {
    match v
    case JArr(items) => JNum(|items|)
    case JObj(entries) => JNum(|entries|)
    case JStr(s) => JNum(|s|)
    case _ => JUndefined
  }

  /** The response a `$tests` operator evaluates its nested tests against. */
  function SyntheticResponse(received: Json): ResponseData {
    ResponseData(JUndefined, "", JObj([]), received)
  }

  function JsonPathMessage(key: string, detail: string): string {
    "Error while evaluating JSONPath " + key + ": " + detail
  }

  /** The node runAllTests records for a json key whose JSONPath lookup threw. */
  function JsonErrorNode(spec: string, expected: Json, detail: string, skip: bool): SpecResult {
    SpecResult(
      Some(spec),
      skip || ((expected.JArr? || expected.JObj?) && Truthy(Prop(expected, "$skip"))),
      [TestResult(false, spec, expected, JStr(""), JsonPathMessage(spec, detail))],
      [])
  }

  function HeaderReceived(headers: Json, spec: string): Json {
    if Truthy(headers) then Prop(headers, spec) else JStr("")
  }

  // ---------------------------------------------------------------------
  // Specification functions
  // ---------------------------------------------------------------------

  /** runAllTests */
  function EvalAll(h: Host, fuel: nat, tests: Json, resp: ResponseData, stopOnFailure: bool,
                   rootSpec: Option<string>, skip: bool): (r: Outcome<SpecResult>)
    ensures r.Ok? ==> r.value.spec == rootSpec && !r.value.skipped && r.value.results == []
    decreases fuel, 0, 0
  {
    if fuel == 0 then Throw(StackOverflow)
    else if !Truthy(tests) then Ok(SpecResult(rootSpec, false, [], []))
    else
      match StatusPart(h, fuel - 1, tests, resp, skip)
      case Throw(e) => Throw(e)
      case Ok(sts) =>
        if stopOnFailure && HasFailure(SpecResult(rootSpec, false, [], sts)) then
          Ok(SpecResult(rootSpec, false, [], sts))
        else
          match AfterStatus(h, fuel - 1, tests, resp, skip)
          case Throw(e) => Throw(e)
          case Ok(rest) => Ok(SpecResult(rootSpec, false, [], sts + rest))
  }

  /** The status check of runAllTests: no node, or the one runTest yields. */
  function StatusPart(h: Host, fuel: nat, tests: Json, resp: ResponseData, skip: bool): Outcome<seq<SpecResult>>
    decreases fuel, 3, 0
  {
    var status := Prop(tests, "status");
    if !Truthy(status) then Ok([])
    else
      match EvalTest(h, fuel, "status", status, resp.status, skip)
      case Throw(e) => Throw(e)
      case Ok(sr) => Ok([sr])
  }

  /** The header, json and body parts of runAllTests, in that order. */
  function AfterStatus(h: Host, fuel: nat, tests: Json, resp: ResponseData, skip: bool): Outcome<seq<SpecResult>>
    decreases fuel, 3, 0
  {
    match HeaderResults(h, fuel, Enumerate(Prop(tests, "headers")), resp.headers, skip)
    case Throw(e) => Throw(e)
    case Ok(hs) =>
      match JsonResults(h, fuel, Enumerate(Prop(tests, "json")), resp.json, skip)
      case Throw(e) => Throw(e)
      case Ok(js) =>
        var body := Prop(tests, "body");
        if !Truthy(body) then Ok(hs + js)
        else
          match EvalTest(h, fuel, "body", body, JStr(resp.body), skip)
          case Throw(e) => Throw(e)
          case Ok(br) => Ok(hs + js + [br])
  }

  /** The header loop of runAllTests. */
  function HeaderResults(h: Host, fuel: nat, es: seq<Entry>, headers: Json, skip: bool): Outcome<seq<SpecResult>>
    decreases fuel, 2, |es|
  {
    if es == [] then Ok([])
    else
      match EvalTest(h, fuel, es[0].key, es[0].val, HeaderReceived(headers, es[0].key), skip)
      case Throw(e) => Throw(e)
      case Ok(first) => Prepend([first], HeaderResults(h, fuel, es[1..], headers, skip))
  }

  /** The json loop of runAllTests, with its try/catch around the JSONPath lookup. */
  function JsonResults(h: Host, fuel: nat, es: seq<Entry>, json: Json, skip: bool): Outcome<seq<SpecResult>>
    decreases fuel, 2, |es|
  {
    if es == [] then Ok([])
    else
      match JsonNode(h, fuel, es[0].key, es[0].val, json, skip)
      case Throw(e) => Throw(e)
      case Ok(node) => Prepend([node], JsonResults(h, fuel, es[1..], json, skip))
  }

  /** One json key: its JSONPath lookup, and runTest on what it finds. */
  function JsonNode(h: Host, fuel: nat, spec: string, expected: Json, json: Json, skip: bool): Outcome<SpecResult>
    decreases fuel, 1, 0
  {
    match h.jsonPath(json, spec)
    case Throw(detail) => Ok(JsonErrorNode(spec, expected, detail, skip))
    case Ok(received) => EvalTest(h, fuel, spec, expected, received, skip)
  }

  /** runTest */
  function EvalTest(h: Host, fuel: nat, spec: string, expected: Json, received: Json, skip: bool): (r: Outcome<SpecResult>)
    ensures r.Ok? ==> r.value.spec == Some(spec)
    ensures r.Ok? && skip ==> r.value.skipped
    decreases fuel, 0, 0
  {
    if fuel == 0 then Throw(StackOverflow)
    else if expected.JArr? || expected.JObj? then EvalObject(h, fuel - 1, expected, received, spec, skip)
    else
      var e := Scalar(h, expected);
      var r := Scalar(h, received);
      Ok(SpecResult(Some(spec), skip, [TestResult(e == r, ":", e, r, "")], []))
  }

  /** runObjectTests */
  function EvalObject(h: Host, fuel: nat, opVals: Json, receivedObject: Json, spec: string, skip: bool): (r: Outcome<SpecResult>)
    ensures r.Ok? ==> r.value.spec == Some(spec)
    ensures r.Ok? ==> r.value.skipped == (skip || Truthy(Prop(opVals, "$skip")))
    decreases fuel, 0, 0
  {
    if fuel == 0 then Throw(StackOverflow)
    else if opVals.JNull? || opVals.JUndefined? then Throw(NullPropertyError)
    else
      var skipped := skip || Truthy(Prop(opVals, "$skip"));
      match ObjectOps(h, fuel - 1, opVals, receivedObject, spec, skipped, Enumerate(opVals))
      case Throw(e) => Throw(e)
      case Ok(c) => Ok(SpecResult(Some(spec), skipped, c.results, c.subResults))
  }

  /** The operator loop of runObjectTests. */
  function ObjectOps(h: Host, fuel: nat, opVals: Json, receivedObject: Json, spec: string, skipped: bool,
                     es: seq<Entry>): Outcome<Contribution>
    decreases fuel, 2, |es|
  {
    if es == [] then Ok(NoContribution)
    else
      match OpOutcome(h, fuel, opVals, receivedObject, spec, skipped, es[0].key, es[0].val)
      case Throw(e) => Throw(e)
      case Ok(c) => Then(c, ObjectOps(h, fuel, opVals, receivedObject, spec, skipped, es[1..]))
  }

  /** The operator keys runObjectTests recognises, and every other key. */
  datatype Operator =
    | Eq | Ne | Lt | Gt | Lte | Gte | Size | Exists | Type | Regex | Sw | Ew | Co
    | OptionsKey | TestsKey | SkipKey | Unknown

  function OperatorOf(op: string): (r: Operator)
    ensures r == Unknown <==> op !in KnownOps
  {
    if op == "$eq" then Eq
    else if op == "$ne" then Ne
    else if op == "$lt" then Lt
    else if op == "$gt" then Gt
    else if op == "$lte" then Lte
    else if op == "$gte" then Gte
    else if op == "$size" then Size
    else if op == "$exists" then Exists
    else if op == "$type" then Type
    else if op == "$regex" then Regex
    else if op == "$sw" then Sw
    else if op == "$ew" then Ew
    else if op == "$co" then Co
    else if op == "$options" then OptionsKey
    else if op == "$tests" then TestsKey
    else if op == "$skip" then SkipKey
    else Unknown
  }

  /**
   * One pass of the operator loop of runObjectTests, for the operator `op`
   * with operand `opVal`: `$size` and `$tests` may evaluate nested tests,
   * every other operator is decided on the spot by DirectOutcome.
   */
  function OpOutcome(h: Host, fuel: nat, opVals: Json, receivedObject: Json, spec: string, skipped: bool,
                     op: string, opVal: Json): Outcome<Contribution>
    decreases fuel, 1, 1
  {
    var operator := OperatorOf(op);
    if operator == Size then SizeOutcome(h, fuel, receivedObject, spec, Scalar(h, opVal), Scalar(h, receivedObject))
    else if operator == TestsKey && h.isDict(opVal) then
      match EvalAll(h, fuel, h.mergePrefixBasedTests(opVal), SyntheticResponse(receivedObject), false, Some(spec), skipped)
      case Throw(e) => Throw(e)
      case Ok(res) => Ok(Contribution(res.results, res.subResults))
    else DirectOutcome(h, opVals, receivedObject, op, opVal)
  }

  /** The operators that never evaluate nested tests (`$tests` here only when its operand is not a dict). */
  function DirectOutcome(h: Host, opVals: Json, receivedObject: Json, op: string, opVal: Json): Outcome<Contribution>
    requires OperatorOf(op) != Size
  {
    var expected := Scalar(h, opVal);
    var received := Scalar(h, receivedObject);
    match OperatorOf(op)
    case Eq => Single(TestResult(received == expected, op, expected, received, ""))
    case Ne => Single(TestResult(received != expected, op, expected, received, ""))
    case Lt => Single(TestResult(Less(received, expected), op, expected, received, ""))
    case Gt => Single(TestResult(Less(expected, receivedObject), op, expected, received, ""))
    case Lte => Single(TestResult(LessEq(receivedObject, expected), op, expected, received, ""))
    case Gte => Single(TestResult(LessEq(expected, receivedObject), op, expected, received, ""))
    case Exists => Single(TestResult(JBool(received != JUndefined) == expected, op, expected, received, ""))
    case Type =>
      var receivedType := GetType(receivedObject);
      Single(TestResult(expected == JStr(receivedType), op, expected,
                        JStr(ToJsString(received) + " (type " + receivedType + ")"), ""))
    case Regex =>
      var options := Prop(opVals, "$options");
      if !h.regexCompiles(expected, options) then Throw(InvalidRegex)
      else Single(TestResult(received.JStr? && h.regexTest(expected, options, received.s), op, expected, received, ""))
    case Sw => Single(TestResult(received.JStr? && StartsWith(received.s, ToJsString(expected)), op, expected, received, ""))
    case Ew => Single(TestResult(received.JStr? && EndsWith(received.s, ToJsString(expected)), op, expected, received, ""))
    case Co => Single(TestResult(received.JStr? && Includes(received.s, ToJsString(expected)), op, expected, received, ""))
    case OptionsKey => Ok(NoContribution)
    case TestsKey => Single(TestResult(false, op, expected, received, DictMessage))
    case SkipKey => Ok(NoContribution)
    case Unknown => Single(TestResult(false, "", JStr(UnknownExpected), JStr(op), UnknownMessage))
  }

  /** The `$size` branch, with its try/catch around JSON.parse and the nested runObjectTests. */
  function SizeOutcome(h: Host, fuel: nat, receivedObject: Json, spec: string, expected: Json, received: Json): Outcome<Contribution>
    decreases fuel, 1, 0
  {
    if receivedObject.JNull? then Throw(NullKeysError)
    else
      var receivedLen := ReceivedLength(receivedObject);
      if expected.JNum? then Single(TestResult(receivedLen == expected, "$size", expected, received, ""))
      else
        match h.parse(ToJsString(expected))
        case None => Single(TestResult(false, "$size", expected, received, SizeMessage))
        case Some(parsed) =>
          match EvalObject(h, fuel, parsed, receivedLen, spec, false)
          case Throw(_) => Single(TestResult(false, "$size", parsed, received, SizeMessage))
          case Ok(res) => Ok(Contribution(res.results, res.subResults))
  }

  // ---------------------------------------------------------------------
  // The engine as the source runs it
  // ---------------------------------------------------------------------

  method RunAllTests(h: Host, fuel: nat, tests: Json, resp: ResponseData, stopOnFailure: bool,
                     rootSpec: Option<string>, skip: bool) returns (o: Outcome<SpecResult>)
    ensures o == EvalAll(h, fuel, tests, resp, stopOnFailure, rootSpec, skip)
    decreases fuel, 0
  {
    if fuel == 0 { return Throw(StackOverflow); }
    var res := SpecResult(rootSpec, false, [], []);
    if !Truthy(tests) { return Ok(res); }

    var status := Prop(tests, "status");
    if Truthy(status) {
      var statusResults := RunTest(h, fuel - 1, "status", status, resp.status, skip);
      if statusResults.Throw? { return Throw(statusResults.error); }
      res := res.(subResults := res.subResults + [statusResults.value]);
      assert res.subResults == [statusResults.value];
    }
    assert StatusPart(h, fuel - 1, tests, resp, skip) == Ok(res.subResults);
    if stopOnFailure && HasFailure(res) { return Ok(res); }
    var rest := RunAfterStatus(h, fuel - 1, tests, resp, skip);
    if rest.Throw? { return Throw(rest.error); }
    res := res.(subResults := res.subResults + rest.value);
    return Ok(res);
  }

  /** The header, json and body parts of runAllTests. */
  method RunAfterStatus(h: Host, fuel: nat, tests: Json, resp: ResponseData, skip: bool)
    returns (o: Outcome<seq<SpecResult>>)
    ensures o == AfterStatus(h, fuel, tests, resp, skip)
    decreases fuel, 3
  {
    var headerResults := RunHeaderTests(h, fuel, Enumerate(Prop(tests, "headers")), resp.headers, skip);
    if headerResults.Throw? { return Throw(headerResults.error); }
    var subResults := headerResults.value;
    var jsonResults := RunJsonTests(h, fuel, Enumerate(Prop(tests, "json")), resp.json, skip);
    if jsonResults.Throw? { return Throw(jsonResults.error); }
    subResults := subResults + jsonResults.value;
    var body := Prop(tests, "body");
    if Truthy(body) {
      var bodyResults := RunTest(h, fuel, "body", body, JStr(resp.body), skip);
      if bodyResults.Throw? { return Throw(bodyResults.error); }
      subResults := subResults + [bodyResults.value];
    }
    return Ok(subResults);
  }

  /** One step of the header loop, at position `i`. */
  lemma HeaderResultsAt(h: Host, fuel: nat, es: seq<Entry>, headers: Json, skip: bool, i: nat)
    requires i < |es|
    ensures HeaderResults(h, fuel, es[i..], headers, skip)
         == match EvalTest(h, fuel, es[i].key, es[i].val, HeaderReceived(headers, es[i].key), skip)
            case Throw(e) => Throw(e)
            case Ok(first) => Prepend([first], HeaderResults(h, fuel, es[i + 1..], headers, skip))
  {
    assert es[i..][1..] == es[i + 1..];
  }

  /** One step of the json loop, at position `i`. */
  lemma JsonResultsAt(h: Host, fuel: nat, es: seq<Entry>, json: Json, skip: bool, i: nat)
    requires i < |es|
    ensures JsonResults(h, fuel, es[i..], json, skip)
         == match JsonNode(h, fuel, es[i].key, es[i].val, json, skip)
            case Throw(e) => Throw(e)
            case Ok(node) => Prepend([node], JsonResults(h, fuel, es[i + 1..], json, skip))
  {
    assert es[i..][1..] == es[i + 1..];
  }

  /** The header loop of runAllTests. */
  method RunHeaderTests(h: Host, fuel: nat, headerTests: seq<Entry>, headers: Json, skip: bool)
    returns (o: Outcome<seq<SpecResult>>)
    ensures o == HeaderResults(h, fuel, headerTests, headers, skip)
    decreases fuel, 2
  {
    var subResults: seq<SpecResult> := [];
    var i := 0;
    assert headerTests[i..] == headerTests;
    PrependNothing(HeaderResults(h, fuel, headerTests, headers, skip));
    while i < |headerTests|
      invariant 0 <= i <= |headerTests|
      invariant HeaderResults(h, fuel, headerTests, headers, skip)
             == Prepend(subResults, HeaderResults(h, fuel, headerTests[i..], headers, skip))
    {
      var spec := headerTests[i].key;
      var expected := headerTests[i].val;
      var headerResults := RunTest(h, fuel, spec, expected, HeaderReceived(headers, spec), skip);
      HeaderResultsAt(h, fuel, headerTests, headers, skip, i);
      if headerResults.Throw? { return Throw(headerResults.error); }
      PrependPrepend(subResults, headerResults.value, HeaderResults(h, fuel, headerTests[i + 1..], headers, skip));
      subResults := subResults + [headerResults.value];
      i := i + 1;
    }
    assert headerTests[i..] == [];
    assert subResults + [] == subResults;
    return Ok(subResults);
  }

  /** The json loop of runAllTests: a JSONPath error becomes a failing node and the loop goes on. */
  method RunJsonTests(h: Host, fuel: nat, jsonTests: seq<Entry>, json: Json, skip: bool)
    returns (o: Outcome<seq<SpecResult>>)
    ensures o == JsonResults(h, fuel, jsonTests, json, skip)
    decreases fuel, 2
  {
    var subResults: seq<SpecResult> := [];
    var i := 0;
    assert jsonTests[i..] == jsonTests;
    PrependNothing(JsonResults(h, fuel, jsonTests, json, skip));
    while i < |jsonTests|
      invariant 0 <= i <= |jsonTests|
      invariant JsonResults(h, fuel, jsonTests, json, skip)
             == Prepend(subResults, JsonResults(h, fuel, jsonTests[i..], json, skip))
    {
      var spec := jsonTests[i].key;
      var expected := jsonTests[i].val;
      JsonResultsAt(h, fuel, jsonTests, json, skip, i);
      var lookup := h.jsonPath(json, spec);
      if lookup.Throw? {
        var node := JsonErrorNode(spec, expected, lookup.error, skip);
        PrependPrepend(subResults, node, JsonResults(h, fuel, jsonTests[i + 1..], json, skip));
        subResults := subResults + [node];
        i := i + 1;
        continue;
      }
      var jsonResults := RunTest(h, fuel, spec, expected, lookup.value, skip);
      if jsonResults.Throw? { return Throw(jsonResults.error); }
      PrependPrepend(subResults, jsonResults.value, JsonResults(h, fuel, jsonTests[i + 1..], json, skip));
      subResults := subResults + [jsonResults.value];
      i := i + 1;
    }
    assert jsonTests[i..] == [];
    assert subResults + [] == subResults;
    return Ok(subResults);
  }

  method RunTest(h: Host, fuel: nat, spec: string, expected: Json, received: Json, skip: bool)
    returns (o: Outcome<SpecResult>)
    ensures o == EvalTest(h, fuel, spec, expected, received, skip)
    decreases fuel, 0
  {
    if fuel == 0 { return Throw(StackOverflow); }
    if expected.JArr? || expected.JObj? {
      o := RunObjectTests(h, fuel - 1, expected, received, spec, skip);
      return;
    }
    var e := Scalar(h, expected);
    var r := Scalar(h, received);
    var pass := e == r;
    return Ok(SpecResult(Some(spec), skip, [TestResult(pass, ":", e, r, "")], []));
  }

  method RunObjectTests(h: Host, fuel: nat, opVals: Json, receivedObject: Json, spec: string, skip: bool)
    returns (o: Outcome<SpecResult>)
    ensures o == EvalObject(h, fuel, opVals, receivedObject, spec, skip)
    decreases fuel, 0
  {
    if fuel == 0 {
      o := Throw(StackOverflow);
    } else if opVals.JNull? || opVals.JUndefined? {
      o := Throw(NullPropertyError);
    } else {
      o := RunObjectNode(h, fuel, opVals, receivedObject, spec, skip);
    }
  }

  /** runObjectTests once `opVals` is known to have properties: the skip mark, then the operator loop. */
  method RunObjectNode(h: Host, fuel: nat, opVals: Json, receivedObject: Json, spec: string, skip: bool)
    returns (o: Outcome<SpecResult>)
    requires fuel > 0 && !opVals.JNull? && !opVals.JUndefined?
    ensures o == EvalObject(h, fuel, opVals, receivedObject, spec, skip)
    decreases fuel - 1, 4
  {
    var skipped := skip || Truthy(Prop(opVals, "$skip"));
    var c := RunOps(h, fuel - 1, opVals, receivedObject, spec, skipped, Enumerate(opVals));
    if c.Throw? {
      o := Throw(c.error);
    } else {
      o := Ok(SpecResult(Some(spec), skipped, c.value.results, c.value.subResults));
    }
  }

  /** One step of the operator loop, at position `i`. */
  lemma ObjectOpsAt(h: Host, fuel: nat, opVals: Json, receivedObject: Json, spec: string, skipped: bool,
                    ops: seq<Entry>, i: nat)
    requires i < |ops|
    ensures ObjectOps(h, fuel, opVals, receivedObject, spec, skipped, ops[i..])
         == match OpOutcome(h, fuel, opVals, receivedObject, spec, skipped, ops[i].key, ops[i].val)
            case Throw(e) => Throw(e)
            case Ok(c) => Then(c, ObjectOps(h, fuel, opVals, receivedObject, spec, skipped, ops[i + 1..]))
  {
    assert ops[i..][1..] == ops[i + 1..];
  }

  /** The operator loop of runObjectTests. */
  method RunOps(h: Host, fuel: nat, opVals: Json, receivedObject: Json, spec: string, skipped: bool, ops: seq<Entry>)
    returns (o: Outcome<Contribution>)
    ensures o == ObjectOps(h, fuel, opVals, receivedObject, spec, skipped, ops)
    decreases fuel, 3
  {
    var results: seq<TestResult> := [];
    var subResults: seq<SpecResult> := [];
    var i := 0;
    assert ops[i..] == ops;
    ThenNothing(ObjectOps(h, fuel, opVals, receivedObject, spec, skipped, ops));
    while i < |ops|
      invariant 0 <= i <= |ops|
      invariant ObjectOps(h, fuel, opVals, receivedObject, spec, skipped, ops)
             == Then(Contribution(results, subResults),
                     ObjectOps(h, fuel, opVals, receivedObject, spec, skipped, ops[i..]))
    {
      var c := RunOp(h, fuel, opVals, receivedObject, spec, skipped, ops[i].key, ops[i].val);
      ObjectOpsAt(h, fuel, opVals, receivedObject, spec, skipped, ops, i);
      if c.Throw? { return Throw(c.error); }
      ThenThen(Contribution(results, subResults), c.value,
               ObjectOps(h, fuel, opVals, receivedObject, spec, skipped, ops[i + 1..]));
      results := results + c.value.results;
      subResults := subResults + c.value.subResults;
      i := i + 1;
    }
    assert ops[i..] == [];
    assert results + [] == results && subResults + [] == subResults;
    return Ok(Contribution(results, subResults));
  }

  /**
   * The body of the operator loop of runObjectTests, for one operator. The
   * two operators that evaluate nested tests run them through the methods;
   * every other operator computes its result directly, as OpOutcome states.
   */
  method RunOp(h: Host, fuel: nat, opVals: Json, receivedObject: Json, spec: string, skipped: bool,
               op: string, opVal: Json) returns (o: Outcome<Contribution>)
    ensures o == OpOutcome(h, fuel, opVals, receivedObject, spec, skipped, op, opVal)
    decreases fuel, 2
  {
    var operator := OperatorOf(op);
    if operator == Size {
      o := RunSize(h, fuel, receivedObject, spec, Scalar(h, opVal), Scalar(h, receivedObject));
    } else if operator == TestsKey && h.isDict(opVal) {
      var recursiveTests := h.mergePrefixBasedTests(opVal);
      var res := RunAllTests(h, fuel, recursiveTests, SyntheticResponse(receivedObject), false, Some(spec), skipped);
      if res.Throw? { return Throw(res.error); }
      o := Ok(Contribution(res.value.results, res.value.subResults));
    } else {
      o := DirectOutcome(h, opVals, receivedObject, op, opVal);
    }
  }

  /** The `$size` branch of the operator loop. */
  method RunSize(h: Host, fuel: nat, receivedObject: Json, spec: string, expected: Json, received: Json)
    returns (o: Outcome<Contribution>)
    ensures o == SizeOutcome(h, fuel, receivedObject, spec, expected, received)
    decreases fuel, 1
  {
    if receivedObject.JNull? {
      o := Throw(NullKeysError);
    } else if expected.JNum? {
      o := Single(TestResult(ReceivedLength(receivedObject) == expected, "$size", expected, received, ""));
    } else {
      var parsed := h.parse(ToJsString(expected));
      if parsed.None? {
        o := Single(TestResult(false, "$size", expected, received, SizeMessage));
      } else {
        var res := RunObjectTests(h, fuel, parsed.value, ReceivedLength(receivedObject), spec, false);
        if res.Throw? {
          o := Single(TestResult(false, "$size", parsed.value, received, SizeMessage));
        } else {
          o := Ok(Contribution(res.value.results, res.value.subResults));
        }
      }
    }
  }
}
