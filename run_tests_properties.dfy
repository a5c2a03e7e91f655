/**
 * What runAllTests, runTest and runObjectTests promise, stated over the
 * specification functions of module RunTests (the methods there are proved
 * equal to them, so every property here holds of the methods too).
 */
module RunTestsProperties {
  import opened Js
  import opened Models
  import opened RunTests

  // ---------------------------------------------------------------------
  // hasFailure
  // ---------------------------------------------------------------------

  /** Every result of a node and of the nodes below it, depth first. */
  function AllResults(r: SpecResult): seq<TestResult>
    decreases r, 1
  {
    r.results + AllResultsOf(r.subResults)
  }

  function AllResultsOf(rs: seq<SpecResult>): seq<TestResult>
    decreases rs, 0
  {
    if rs == [] then [] else AllResults(rs[0]) + AllResultsOf(rs[1..])
  }

  predicate SomeFails(ts: seq<TestResult>) {
    exists i :: 0 <= i < |ts| && !ts[i].pass
  }

  lemma SomeFailsAppend(a: seq<TestResult>, b: seq<TestResult>)
    ensures SomeFails(a + b) <==> SomeFails(a) || SomeFails(b)
  {
    if SomeFails(a + b) {
      var i :| 0 <= i < |a + b| && !(a + b)[i].pass;
      if i >= |a| {
        assert b[i - |a|] == (a + b)[i];
      }
    }
    if SomeFails(a) {
      var i :| 0 <= i < |a| && !a[i].pass;
      assert (a + b)[i] == a[i];
    }
    if SomeFails(b) {
      var i :| 0 <= i < |b| && !b[i].pass;
      assert (a + b)[|a| + i] == b[i];
    }
  }

  /** hasFailure is true exactly when some result anywhere in the tree fails. */
  lemma {:induction false} HasFailureIff(r: SpecResult)
    ensures HasFailure(r) <==> SomeFails(AllResults(r))
    decreases r, 1
  {
    HasFailureOfIff(r.subResults);
    SomeFailsAppend(r.results, AllResultsOf(r.subResults));
  }

  lemma {:induction false} HasFailureOfIff(rs: seq<SpecResult>)
    ensures (exists j :: 0 <= j < |rs| && HasFailure(rs[j])) <==> SomeFails(AllResultsOf(rs))
    decreases rs, 0
  {
    if rs != [] {
      HasFailureIff(rs[0]);
      HasFailureOfIff(rs[1..]);
      SomeFailsAppend(AllResults(rs[0]), AllResultsOf(rs[1..]));
      if exists j :: 0 <= j < |rs| && HasFailure(rs[j]) {
        var j :| 0 <= j < |rs| && HasFailure(rs[j]);
        if j > 0 {
          assert rs[1..][j - 1] == rs[j];
        }
      }
      if exists j :: 0 <= j < |rs[1..]| && HasFailure(rs[1..][j]) {
        var j :| 0 <= j < |rs[1..]| && HasFailure(rs[1..][j]);
        assert rs[j + 1] == rs[1..][j];
      }
    }
  }

  // ---------------------------------------------------------------------
  // The order and shape of the nodes runAllTests yields
  // ---------------------------------------------------------------------

  function SpecNames(rs: seq<SpecResult>): (names: seq<Option<string>>)
    ensures |names| == |rs|
    ensures forall i :: 0 <= i < |rs| ==> names[i] == rs[i].spec
  {
    if rs == [] then [] else [rs[0].spec] + SpecNames(rs[1..])
  }

  function KeyNames(es: seq<Entry>): (names: seq<Option<string>>)
    ensures |names| == |es|
    ensures forall i :: 0 <= i < |es| ==> names[i] == Some(es[i].key)
  {
    if es == [] then [] else [Some(es[0].key)] + KeyNames(es[1..])
  }

  lemma {:induction false} SpecNamesAppend(a: seq<SpecResult>, b: seq<SpecResult>)
    ensures SpecNames(a + b) == SpecNames(a) + SpecNames(b)
    decreases |a|
  {
    if a != [] {
      assert (a + b)[1..] == a[1..] + b;
      SpecNamesAppend(a[1..], b);
    } else {
      assert a + b == b;
    }
  }

  /** The header loop yields one node per header key, in key order, named after the key. */
  lemma {:induction false} HeaderResultsShape(h: Host, fuel: nat, es: seq<Entry>, headers: Json, skip: bool)
    ensures var r := HeaderResults(h, fuel, es, headers, skip);
      r.Ok? ==> SpecNames(r.value) == KeyNames(es) && (skip ==> forall i :: 0 <= i < |r.value| ==> r.value[i].skipped)
    decreases |es|
  {
    if es != [] {
      HeaderResultsShape(h, fuel, es[1..], headers, skip);
      var first := EvalTest(h, fuel, es[0].key, es[0].val, HeaderReceived(headers, es[0].key), skip);
      var r := HeaderResults(h, fuel, es, headers, skip);
      if r.Ok? {
        var rest := HeaderResults(h, fuel, es[1..], headers, skip);
        assert r.value == [first.value] + rest.value;
        assert SpecNames(r.value) == [first.value.spec] + SpecNames(rest.value);
        assert KeyNames(es) == [Some(es[0].key)] + KeyNames(es[1..]);
      }
    }
  }

  /** The json loop yields one node per json key, in key order, named after the key. */
  lemma {:induction false} JsonResultsShape(h: Host, fuel: nat, es: seq<Entry>, json: Json, skip: bool)
    ensures var r := JsonResults(h, fuel, es, json, skip);
      r.Ok? ==> SpecNames(r.value) == KeyNames(es) && (skip ==> forall i :: 0 <= i < |r.value| ==> r.value[i].skipped)
    decreases |es|
  {
    if es != [] {
      JsonResultsShape(h, fuel, es[1..], json, skip);
      var first := JsonNode(h, fuel, es[0].key, es[0].val, json, skip);
      var r := JsonResults(h, fuel, es, json, skip);
      if r.Ok? {
        var rest := JsonResults(h, fuel, es[1..], json, skip);
        assert r.value == [first.value] + rest.value;
        assert SpecNames(r.value) == [first.value.spec] + SpecNames(rest.value);
        assert KeyNames(es) == [Some(es[0].key)] + KeyNames(es[1..]);
      }
    }
  }

  /** A json key whose JSONPath lookup throws gets one failing node that carries the error message. */
  lemma {:induction false} JsonPathErrorNode(h: Host, fuel: nat, es: seq<Entry>, json: Json, skip: bool, j: nat)
    requires j < |es| && h.jsonPath(json, es[j].key).Throw?
    ensures var r := JsonResults(h, fuel, es, json, skip);
            var detail := h.jsonPath(json, es[j].key).error;
      r.Ok? ==> (j < |r.value| && r.value[j] == JsonErrorNode(es[j].key, es[j].val, detail, skip)
                 && r.value[j].results == [TestResult(false, es[j].key, es[j].val, JStr(""),
                      "Error while evaluating JSONPath " + es[j].key + ": " + detail)])
    decreases j
  {
    JsonResultsShape(h, fuel, es, json, skip);
    if j > 0 {
      JsonPathErrorNode(h, fuel, es[1..], json, skip, j - 1);
      assert es[1..][j - 1] == es[j];
    }
  }

  /**
   * JSONPath errors never stop the json loop: when every lookup throws, the
   * loop still yields a node for every key, and each of them fails.
   */
  lemma {:induction false} JsonPathErrorsContinue(h: Host, fuel: nat, es: seq<Entry>, json: Json, skip: bool)
    requires forall i :: 0 <= i < |es| ==> h.jsonPath(json, es[i].key).Throw?
    ensures var r := JsonResults(h, fuel, es, json, skip);
      r.Ok? && |r.value| == |es| && forall i :: 0 <= i < |es| ==> HasFailure(r.value[i])
    decreases |es|
  {
    if es != [] {
      assert forall i :: 0 <= i < |es[1..]| ==> es[1..][i] == es[i + 1];
      JsonPathErrorsContinue(h, fuel, es[1..], json, skip);
      var first := JsonErrorNode(es[0].key, es[0].val, h.jsonPath(json, es[0].key).error, skip);
      assert !first.results[0].pass;
      assert JsonNode(h, fuel, es[0].key, es[0].val, json, skip) == Ok(first);
      var r := JsonResults(h, fuel, es, json, skip);
      var rest := JsonResults(h, fuel, es[1..], json, skip);
      assert r.value == [first] + rest.value;
      forall i | 0 <= i < |es|
        ensures HasFailure(r.value[i])
      {
        if i > 0 {
          assert r.value[i] == rest.value[i - 1];
        }
      }
    }
  }

  lemma AppendAssoc<T>(a: seq<T>, b: seq<T>, c: seq<T>, d: seq<T>)
    ensures a + (b + c + d) == a + b + c + d
  {
  }

  function StatusNames(tests: Json): seq<Option<string>> {
    if Truthy(Prop(tests, "status")) then [Some("status")] else []
  }

  function BodyNames(tests: Json): seq<Option<string>> {
    if Truthy(Prop(tests, "body")) then [Some("body")] else []
  }

  /** The header, json and body nodes come in that order, one per key. */
  lemma AfterStatusOrder(h: Host, fuel: nat, tests: Json, resp: ResponseData, skip: bool)
    ensures var r := AfterStatus(h, fuel, tests, resp, skip);
      r.Ok? ==> (SpecNames(r.value) == KeyNames(Enumerate(Prop(tests, "headers")))
                                      + KeyNames(Enumerate(Prop(tests, "json"))) + BodyNames(tests))
  {
    var r := AfterStatus(h, fuel, tests, resp, skip);
    if r.Ok? {
      var hr := HeaderResults(h, fuel, Enumerate(Prop(tests, "headers")), resp.headers, skip);
      var jr := JsonResults(h, fuel, Enumerate(Prop(tests, "json")), resp.json, skip);
      HeaderResultsShape(h, fuel, Enumerate(Prop(tests, "headers")), resp.headers, skip);
      JsonResultsShape(h, fuel, Enumerate(Prop(tests, "json")), resp.json, skip);
      var bs := BodyNodes(h, fuel, tests, resp, skip);
      SpecNamesAppend(hr.value, jr.value);
      SpecNamesAppend(hr.value + jr.value, bs);
    }
  }

  /** The body node of a run whose header, json and body checks all returned. */
  function BodyNodes(h: Host, fuel: nat, tests: Json, resp: ResponseData, skip: bool): (bs: seq<SpecResult>)
    requires AfterStatus(h, fuel, tests, resp, skip).Ok?
    ensures var hr := HeaderResults(h, fuel, Enumerate(Prop(tests, "headers")), resp.headers, skip);
            var jr := JsonResults(h, fuel, Enumerate(Prop(tests, "json")), resp.json, skip);
            hr.Ok? && jr.Ok? && AfterStatus(h, fuel, tests, resp, skip).value == hr.value + jr.value + bs
    ensures SpecNames(bs) == BodyNames(tests)
    ensures skip ==> AllSkipped(bs)
  {
    var body := Prop(tests, "body");
    if !Truthy(body) then []
    else [EvalTest(h, fuel, "body", body, JStr(resp.body), skip).value]
  }

  /** A skipped run yields only skipped header, json and body nodes. */
  lemma AfterStatusSkipped(h: Host, fuel: nat, tests: Json, resp: ResponseData)
    ensures var r := AfterStatus(h, fuel, tests, resp, true);
      r.Ok? ==> AllSkipped(r.value)
  {
    var r := AfterStatus(h, fuel, tests, resp, true);
    if r.Ok? {
      var hr := HeaderResults(h, fuel, Enumerate(Prop(tests, "headers")), resp.headers, true);
      var jr := JsonResults(h, fuel, Enumerate(Prop(tests, "json")), resp.json, true);
      HeaderResultsShape(h, fuel, Enumerate(Prop(tests, "headers")), resp.headers, true);
      JsonResultsShape(h, fuel, Enumerate(Prop(tests, "json")), resp.json, true);
      var bs := BodyNodes(h, fuel, tests, resp, true);
      AllSkippedAppend(hr.value, jr.value);
      AllSkippedAppend(hr.value + jr.value, bs);
    }
  }

  predicate AllSkipped(rs: seq<SpecResult>) {
    forall i :: 0 <= i < |rs| ==> rs[i].skipped
  }

  lemma AllSkippedAppend(a: seq<SpecResult>, b: seq<SpecResult>)
    requires AllSkipped(a) && AllSkipped(b)
    ensures AllSkipped(a + b)
  {
    forall i | 0 <= i < |a + b|
      ensures (a + b)[i].skipped
    {
      if i >= |a| {
        assert (a + b)[i] == b[i - |a|];
      }
    }
  }

  /**
   * runAllTests: absent tests give an empty node; otherwise the sub-results
   * are the status node, then one node per header key, one per json key and
   * the body node, in that order, unless stopOnFailure cut the list short
   * after a failed status check.
   */
  lemma SubResultOrder(h: Host, fuel: nat, tests: Json, resp: ResponseData, stopOnFailure: bool,
                       rootSpec: Option<string>, skip: bool)
    ensures var r := EvalAll(h, fuel, tests, resp, stopOnFailure, rootSpec, skip);
      r.Ok? && !Truthy(tests) ==> r.value == SpecResult(rootSpec, false, [], [])
    ensures var r := EvalAll(h, fuel, tests, resp, stopOnFailure, rootSpec, skip);
      r.Ok? && Truthy(tests) ==>
        SpecNames(r.value.subResults) == StatusNames(tests) + KeyNames(Enumerate(Prop(tests, "headers")))
                                         + KeyNames(Enumerate(Prop(tests, "json"))) + BodyNames(tests)
        || (stopOnFailure && HasFailure(r.value) && SpecNames(r.value.subResults) == StatusNames(tests))
  {
    var r := EvalAll(h, fuel, tests, resp, stopOnFailure, rootSpec, skip);
    if fuel == 0 || !Truthy(tests) {
      return;
    }
    var sp := StatusPart(h, fuel - 1, tests, resp, skip);
    if sp.Throw? {
      return;
    }
    var sts := sp.value;
    assert SpecNames(sts) == StatusNames(tests);
    if stopOnFailure && HasFailure(SpecResult(rootSpec, false, [], sts)) {
      assert r == Ok(SpecResult(rootSpec, false, [], sts));
      return;
    }
    var rest := AfterStatus(h, fuel - 1, tests, resp, skip);
    if rest.Throw? {
      return;
    }
    assert r == Ok(SpecResult(rootSpec, false, [], sts + rest.value));
    AfterStatusOrder(h, fuel - 1, tests, resp, skip);
    SpecNamesAppend(sts, rest.value);
    var hk := KeyNames(Enumerate(Prop(tests, "headers")));
    var jk := KeyNames(Enumerate(Prop(tests, "json")));
    AppendAssoc(StatusNames(tests), hk, jk, BodyNames(tests));
  }

  /**
   * With stopOnFailure, a status check that fails ends runAllTests: the
   * node holds the status node alone. A status check that passes does not.
   */
  lemma StopAfterFailedStatus(h: Host, fuel: nat, tests: Json, resp: ResponseData, rootSpec: Option<string>,
                              skip: bool)
    requires fuel > 0 && Truthy(tests) && Truthy(Prop(tests, "status"))
    ensures var st := EvalTest(h, fuel - 1, "status", Prop(tests, "status"), resp.status, skip);
      st.Ok? && HasFailure(st.value) ==>
        EvalAll(h, fuel, tests, resp, true, rootSpec, skip) == Ok(SpecResult(rootSpec, false, [], [st.value]))
    ensures var st := EvalTest(h, fuel - 1, "status", Prop(tests, "status"), resp.status, skip);
      st.Ok? && !HasFailure(st.value) ==>
        EvalAll(h, fuel, tests, resp, true, rootSpec, skip) == EvalAll(h, fuel, tests, resp, false, rootSpec, skip)
  {
    var st := EvalTest(h, fuel - 1, "status", Prop(tests, "status"), resp.status, skip);
    if st.Ok? {
      var node := SpecResult(rootSpec, false, [], [st.value]);
      assert StatusPart(h, fuel - 1, tests, resp, skip) == Ok([st.value]);
      assert node.subResults[0] == st.value;
      if !HasFailure(st.value) {
        assert !HasFailure(node) by {
          forall j | 0 <= j < |node.subResults|
            ensures !HasFailure(node.subResults[j])
          {
            assert node.subResults[j] == st.value;
          }
        }
      }
    }
  }

  /** A skipped run marks every node it yields as skipped. */
  lemma SkipMarksEveryNode(h: Host, fuel: nat, tests: Json, resp: ResponseData, stopOnFailure: bool,
                           rootSpec: Option<string>)
    ensures var r := EvalAll(h, fuel, tests, resp, stopOnFailure, rootSpec, true);
      r.Ok? ==> forall i :: 0 <= i < |r.value.subResults| ==> r.value.subResults[i].skipped
  {
    var r := EvalAll(h, fuel, tests, resp, stopOnFailure, rootSpec, true);
    if r.Ok? && fuel > 0 && Truthy(tests) {
      var sts := StatusPart(h, fuel - 1, tests, resp, true).value;
      if !(stopOnFailure && HasFailure(SpecResult(rootSpec, false, [], sts))) {
        var rest := AfterStatus(h, fuel - 1, tests, resp, true);
        AfterStatusSkipped(h, fuel - 1, tests, resp);
        assert r.value.subResults == sts + rest.value;
        AllSkippedAppend(sts, rest.value);
      }
    }
  }

  // ---------------------------------------------------------------------
  // runTest
  // ---------------------------------------------------------------------

  /**
   * An assertion that is not an object or array gives one result with op
   * ":", which passes when the two values are equal after objects (and
   * null) on the received side have been replaced by their JSON text.
   */
  lemma ScalarAssertion(h: Host, fuel: nat, spec: string, expected: Json, received: Json, skip: bool)
    requires fuel > 0 && !expected.JArr? && !expected.JObj?
    ensures var r := EvalTest(h, fuel, spec, expected, received, skip);
      r.Ok? && r.value.subResults == [] && |r.value.results| == 1 && r.value.results[0].op == ":"
      && r.value.skipped == skip && r.value.results[0].message == ""
    ensures var t := EvalTest(h, fuel, spec, expected, received, skip).value.results[0];
      TypeOf(expected) != "object" && TypeOf(received) != "object" ==> (t.pass <==> expected == received)
    ensures var t := EvalTest(h, fuel, spec, expected, received, skip).value.results[0];
      TypeOf(expected) != "object" && TypeOf(received) == "object" ==>
        (t.pass <==> expected == JStr(h.stringify(received)))
    ensures var t := EvalTest(h, fuel, spec, expected, received, skip).value.results[0];
      expected.JNull? ==> (t.pass <==> JStr(h.stringify(JNull)) == Scalar(h, received))
    ensures var t := EvalTest(h, fuel, spec, expected, received, skip).value.results[0];
      t.pass <==> Scalar(h, expected) == Scalar(h, received)
  {
  }

  // ---------------------------------------------------------------------
  // runObjectTests
  // ---------------------------------------------------------------------

  /** The op of each result, in order. */
  function Ops(ts: seq<TestResult>): (ops: seq<string>)
    ensures |ops| == |ts|
    ensures forall i :: 0 <= i < |ts| ==> ops[i] == ts[i].op
  {
    if ts == [] then [] else [ts[0].op] + Ops(ts[1..])
  }

  /**
   * The ops of the results an operator list yields when no operator
   * evaluates nested tests or compiles a pattern: `$options` and `$skip`
   * yield none, an unknown key yields one with op "", every other operator
   * one under its own name.
   */
  function ResultOps(es: seq<Entry>): seq<string> {
    if es == [] then [] else ResultOp(es[0].key) + ResultOps(es[1..])
  }

  function ResultOp(op: string): seq<string> {
    var operator := OperatorOf(op);
    if operator == OptionsKey || operator == SkipKey then []
    else if operator == Unknown then [""]
    else [op]
  }

  /** One operator that decides on the spot: no throw, no nesting, the result ResultOp names. */
  lemma DirectOpResult(h: Host, opVals: Json, receivedObject: Json, op: string, opVal: Json)
    requires OperatorOf(op) != Size && OperatorOf(op) != TestsKey && OperatorOf(op) != Regex
    ensures var c := DirectOutcome(h, opVals, receivedObject, op, opVal);
      c.Ok? && c.value.subResults == [] && Ops(c.value.results) == ResultOp(op)
  {
    var c := DirectOutcome(h, opVals, receivedObject, op, opVal);
    var operator := OperatorOf(op);
    if operator == OptionsKey || operator == SkipKey {
      assert c == Ok(NoContribution);
    } else {
      assert c.Ok? && |c.value.results| == 1 && c.value.subResults == [];
      assert c.value.results[0].op == (if operator == Unknown then "" else op);
    }
  }

  predicate DirectOnly(es: seq<Entry>) {
    forall i :: 0 <= i < |es| ==> OperatorOf(es[i].key) != Size && OperatorOf(es[i].key) != TestsKey
                                  && OperatorOf(es[i].key) != Regex
  }

  lemma OpsAppend(a: seq<TestResult>, b: seq<TestResult>)
    ensures Ops(a + b) == Ops(a) + Ops(b)
  {
    assert forall i :: 0 <= i < |a + b| ==> Ops(a + b)[i] == (Ops(a) + Ops(b))[i];
  }

  /**
   * The operator loop over operators that decide on the spot never throws
   * and never nests: it yields exactly one result per operator other than
   * `$options` and `$skip`, in order.
   */
  lemma {:induction false} DirectOpsResults(h: Host, fuel: nat, opVals: Json, receivedObject: Json, spec: string,
                                            skipped: bool, es: seq<Entry>)
    requires DirectOnly(es)
    ensures var r := ObjectOps(h, fuel, opVals, receivedObject, spec, skipped, es);
      r.Ok? && r.value.subResults == [] && Ops(r.value.results) == ResultOps(es)
    decreases |es|
  {
    if es != [] {
      assert DirectOnly(es[1..]) by {
        assert forall i :: 0 <= i < |es[1..]| ==> es[1..][i] == es[i + 1];
      }
      DirectOpsResults(h, fuel, opVals, receivedObject, spec, skipped, es[1..]);
      var c := OpOutcome(h, fuel, opVals, receivedObject, spec, skipped, es[0].key, es[0].val);
      var rest := ObjectOps(h, fuel, opVals, receivedObject, spec, skipped, es[1..]);
      assert c == DirectOutcome(h, opVals, receivedObject, es[0].key, es[0].val);
      DirectOpResult(h, opVals, receivedObject, es[0].key, es[0].val);
      OpsAppend(c.value.results, rest.value.results);
      assert ObjectOps(h, fuel, opVals, receivedObject, spec, skipped, es) == Then(c.value, rest);
    }
  }

  /** `$options` and `$skip` add nothing to the node. */
  lemma ControlKeys(h: Host, fuel: nat, opVals: Json, receivedObject: Json, spec: string, skipped: bool,
                    op: string, opVal: Json)
    requires op == "$options" || op == "$skip"
    ensures OpOutcome(h, fuel, opVals, receivedObject, spec, skipped, op, opVal) == Ok(NoContribution)
  {
    assert OperatorOf(op) == OptionsKey || OperatorOf(op) == SkipKey;
  }

  /** Any other key outside the known operators adds one failing result naming it. */
  lemma UnknownKey(h: Host, fuel: nat, opVals: Json, receivedObject: Json, spec: string, skipped: bool,
                   op: string, opVal: Json)
    requires op !in KnownOps
    ensures OpOutcome(h, fuel, opVals, receivedObject, spec, skipped, op, opVal)
         == Single(TestResult(false, "", JStr("one of $eq, $ne etc."), JStr(op), "To compare objects, use $eq"))
  {
    assert OperatorOf(op) == Unknown;
  }

  /** The pass flag of the single result an operator that decides on the spot yields. */
  function PassOf(h: Host, fuel: nat, receivedObject: Json, op: string, opVal: Json): bool {
    var o := OpOutcome(h, fuel, JObj([Entry(op, opVal)]), receivedObject, "", false, op, opVal);
    o.Ok? && |o.value.results| == 1 && o.value.results[0].pass
  }

  /** `$eq` passes exactly when the scalar assertion would, and `$ne` exactly when it would not. */
  lemma EqMatchesScalar(h: Host, fuel: nat, receivedObject: Json, opVal: Json, spec: string, skip: bool)
    requires fuel > 0 && !opVal.JArr? && !opVal.JObj?
    ensures PassOf(h, fuel, receivedObject, "$eq", opVal)
        == EvalTest(h, fuel, spec, opVal, receivedObject, skip).value.results[0].pass
    ensures PassOf(h, fuel, receivedObject, "$ne", opVal) == !PassOf(h, fuel, receivedObject, "$eq", opVal)
  {
  }

  /** `$exists: b` passes exactly when b says whether the value is defined; any other operand fails. */
  lemma ExistsSemantics(h: Host, fuel: nat, receivedObject: Json, opVal: Json)
    ensures opVal.JBool? ==>
      (PassOf(h, fuel, receivedObject, "$exists", opVal) <==> (opVal.b <==> receivedObject != JUndefined))
    ensures !opVal.JBool? ==> !PassOf(h, fuel, receivedObject, "$exists", opVal)
  {
  }

  /** `$type` passes exactly when the operand names getType of the value, and reports that type. */
  lemma TypeSemantics(h: Host, fuel: nat, receivedObject: Json, t: string)
    ensures PassOf(h, fuel, receivedObject, "$type", JStr(t)) <==> t == GetType(receivedObject)
    ensures var o := OpOutcome(h, fuel, JObj([Entry("$type", JStr(t))]), receivedObject, "", false, "$type", JStr(t));
      o.Ok? && o.value.results[0].received
        == JStr(ToJsString(Scalar(h, receivedObject)) + " (type " + GetType(receivedObject) + ")")
  {
  }

  /**
   * `$sw`, `$ew` and `$co` fail on a value that is neither a string nor an
   * object (whose JSON text they would test instead).
   */
  lemma StringOpsNeedString(h: Host, fuel: nat, receivedObject: Json, opVal: Json)
    requires TypeOf(receivedObject) != "string" && TypeOf(receivedObject) != "object"
    ensures !PassOf(h, fuel, receivedObject, "$sw", opVal)
    ensures !PassOf(h, fuel, receivedObject, "$ew", opVal)
    ensures !PassOf(h, fuel, receivedObject, "$co", opVal)
  {
    StringOpNeedsString(h, fuel, receivedObject, "$sw", opVal);
    StringOpNeedsString(h, fuel, receivedObject, "$ew", opVal);
    StringOpNeedsString(h, fuel, receivedObject, "$co", opVal);
  }

  lemma StringOpNeedsString(h: Host, fuel: nat, receivedObject: Json, op: string, opVal: Json)
    requires TypeOf(receivedObject) != "string" && TypeOf(receivedObject) != "object"
    requires op == "$sw" || op == "$ew" || op == "$co"
    ensures !PassOf(h, fuel, receivedObject, op, opVal)
  {
    assert OperatorOf(op) in {Sw, Ew, Co};
  }

  /** On a string value `$sw`, `$ew` and `$co` test prefix, suffix and substring. */
  lemma StringOpsOnString(h: Host, fuel: nat, s: string, opVal: Json)
    ensures PassOf(h, fuel, JStr(s), "$sw", opVal) <==> StartsWith(s, ToJsString(Scalar(h, opVal)))
    ensures PassOf(h, fuel, JStr(s), "$ew", opVal) <==> EndsWith(s, ToJsString(Scalar(h, opVal)))
    ensures PassOf(h, fuel, JStr(s), "$co", opVal) <==> Includes(s, ToJsString(Scalar(h, opVal)))
  {
    PrefixOpOnString(h, fuel, s, opVal);
    SuffixOpOnString(h, fuel, s, opVal);
    SubstringOpOnString(h, fuel, s, opVal);
  }

  lemma PrefixOpOnString(h: Host, fuel: nat, s: string, opVal: Json)
    ensures PassOf(h, fuel, JStr(s), "$sw", opVal) <==> StartsWith(s, ToJsString(Scalar(h, opVal)))
  {
    assert OperatorOf("$sw") == Sw;
  }

  lemma SuffixOpOnString(h: Host, fuel: nat, s: string, opVal: Json)
    ensures PassOf(h, fuel, JStr(s), "$ew", opVal) <==> EndsWith(s, ToJsString(Scalar(h, opVal)))
  {
    assert OperatorOf("$ew") == Ew;
  }

  lemma SubstringOpOnString(h: Host, fuel: nat, s: string, opVal: Json)
    ensures PassOf(h, fuel, JStr(s), "$co", opVal) <==> Includes(s, ToJsString(Scalar(h, opVal)))
  {
    assert OperatorOf("$co") == Co;
  }

  /** On two numbers the four ordering operators compare received against expected. */
  lemma OrderingOnNumbers(h: Host, fuel: nat, n: int, m: int)
    ensures PassOf(h, fuel, JNum(n), "$lt", JNum(m)) <==> n < m
    ensures PassOf(h, fuel, JNum(n), "$gt", JNum(m)) <==> n > m
    ensures PassOf(h, fuel, JNum(n), "$lte", JNum(m)) <==> n <= m
    ensures PassOf(h, fuel, JNum(n), "$gte", JNum(m)) <==> n >= m
  {
    OrderingPasses(h, fuel, JNum(n), JNum(m));
  }

  /** What each ordering operator compares: `$lt` the scalar forms, the other three the received value itself. */
  lemma OrderingPasses(h: Host, fuel: nat, receivedObject: Json, opVal: Json)
    ensures PassOf(h, fuel, receivedObject, "$lt", opVal) == Less(Scalar(h, receivedObject), Scalar(h, opVal))
    ensures PassOf(h, fuel, receivedObject, "$gt", opVal) == Less(Scalar(h, opVal), receivedObject)
    ensures PassOf(h, fuel, receivedObject, "$lte", opVal) == LessEq(receivedObject, Scalar(h, opVal))
    ensures PassOf(h, fuel, receivedObject, "$gte", opVal) == LessEq(Scalar(h, opVal), receivedObject)
  {
    OrderingPass(h, fuel, receivedObject, "$lt", Lt, opVal);
    OrderingPass(h, fuel, receivedObject, "$gt", Gt, opVal);
    OrderingPass(h, fuel, receivedObject, "$lte", Lte, opVal);
    OrderingPass(h, fuel, receivedObject, "$gte", Gte, opVal);
  }

  lemma OrderingPass(h: Host, fuel: nat, receivedObject: Json, op: string, operator: Operator, opVal: Json)
    requires OperatorOf(op) == operator && operator in {Lt, Gt, Lte, Gte}
    ensures PassOf(h, fuel, receivedObject, op, opVal) ==
      var expected, received := Scalar(h, opVal), Scalar(h, receivedObject);
      match operator
      case Lt => Less(received, expected)
      case Gt => Less(expected, receivedObject)
      case Lte => LessEq(receivedObject, expected)
      case _ => LessEq(expected, receivedObject)
  {
    var o := OpOutcome(h, fuel, JObj([Entry(op, opVal)]), receivedObject, "", false, op, opVal);
    assert o == DirectOutcome(h, JObj([Entry(op, opVal)]), receivedObject, op, opVal);
  }

  /**
   * Against a string operand, `$lt` compares the JSON text of an object or
   * array value, while `$gt`, `$lte` and `$gte` compare its `String` form
   * ("[object Object]", or the comma-joined elements of an array).
   */
  lemma OrderingAsymmetry(h: Host, fuel: nat, receivedObject: Json, e: string)
    requires receivedObject.JArr? || receivedObject.JObj?
    ensures PassOf(h, fuel, receivedObject, "$lt", JStr(e)) <==> StrLess(h.stringify(receivedObject), e)
    ensures var t := ToJsString(receivedObject);
            PassOf(h, fuel, receivedObject, "$gt", JStr(e)) <==> StrLess(e, t)
    ensures var t := ToJsString(receivedObject);
            PassOf(h, fuel, receivedObject, "$lte", JStr(e)) <==> StrLess(t, e) || t == e
    ensures var t := ToJsString(receivedObject);
            PassOf(h, fuel, receivedObject, "$gte", JStr(e)) <==> StrLess(e, t) || e == t
  {
    OrderingPasses(h, fuel, receivedObject, JStr(e));
  }

  /** An object is greater than "A" and at most "abc", because "[object Object]" sits between them. */
  lemma ObjectAgainstStrings(h: Host, fuel: nat, entries: seq<Entry>)
    ensures PassOf(h, fuel, JObj(entries), "$gt", JStr("A"))
    ensures PassOf(h, fuel, JObj(entries), "$lte", JStr("abc"))
    ensures !PassOf(h, fuel, JObj(entries), "$gte", JStr("abc"))
  {
    assert ToJsString(JObj(entries)) == "[object Object]";
    assert StrLess("A", "[object Object]");
    assert StrLess("[object Object]", "abc");
    assert !StrLess("abc", "[object Object]");
    OrderingAsymmetry(h, fuel, JObj(entries), "A");
    OrderingAsymmetry(h, fuel, JObj(entries), "abc");
  }

  /**
   * A string received value and a number operand compare as numbers: the
   * string's numeric value when it has one, and never when it reads as NaN.
   */
  lemma OrderingStringAgainstNumber(h: Host, fuel: nat, s: string, m: int)
    ensures StringToNumber(s).Some? ==>
      var n := StringToNumber(s).value;
      (PassOf(h, fuel, JStr(s), "$lt", JNum(m)) <==> n < m) &&
      (PassOf(h, fuel, JStr(s), "$gt", JNum(m)) <==> n > m) &&
      (PassOf(h, fuel, JStr(s), "$lte", JNum(m)) <==> n <= m) &&
      (PassOf(h, fuel, JStr(s), "$gte", JNum(m)) <==> n >= m)
    ensures StringToNumber(s).None? ==>
      !PassOf(h, fuel, JStr(s), "$lt", JNum(m)) && !PassOf(h, fuel, JStr(s), "$gt", JNum(m)) &&
      !PassOf(h, fuel, JStr(s), "$lte", JNum(m)) && !PassOf(h, fuel, JStr(s), "$gte", JNum(m))
  {
    OrderingPasses(h, fuel, JStr(s), JNum(m));
  }

  /** The string form of a number compares with numbers as the number itself does. */
  lemma OrderingNumeralAgainstNumber(h: Host, fuel: nat, n: int, m: int)
    ensures PassOf(h, fuel, JStr(IntToString(n)), "$lt", JNum(m)) <==> n < m
    ensures PassOf(h, fuel, JStr(IntToString(n)), "$gt", JNum(m)) <==> n > m
    ensures PassOf(h, fuel, JStr(IntToString(n)), "$lte", JNum(m)) <==> n <= m
    ensures PassOf(h, fuel, JStr(IntToString(n)), "$gte", JNum(m)) <==> n >= m
  {
    NumberOfIntString(n);
    OrderingStringAgainstNumber(h, fuel, IntToString(n), m);
  }

  /** `$size` with a number compares it with the key count, string length or array length. */
  lemma SizeWithNumber(h: Host, fuel: nat, receivedObject: Json, n: int)
    requires receivedObject.JArr? || receivedObject.JObj? || receivedObject.JStr?
    ensures PassOf(h, fuel, receivedObject, "$size", JNum(n)) <==> n == Length(receivedObject)
  {
    assert OperatorOf("$size") == Size;
    var o := OpOutcome(h, fuel, JObj([Entry("$size", JNum(n))]), receivedObject, "", false, "$size", JNum(n));
    assert o == SizeOutcome(h, fuel, receivedObject, "", JNum(n), Scalar(h, receivedObject));
    assert o == Single(TestResult(ReceivedLength(receivedObject) == JNum(n), "$size", JNum(n), Scalar(h, receivedObject), ""));
  }

  function Length(v: Json): int {
    match v
    case JArr(items) => |items|
    case JObj(entries) => |entries|
    case JStr(s) => |s|
    case _ => -1
  }

  /** `$size` on null throws out of runObjectTests; on any other value without a length it fails. */
  lemma SizeWithoutLength(h: Host, fuel: nat, opVals: Json, receivedObject: Json, spec: string, skipped: bool, n: int)
    requires !(receivedObject.JArr? || receivedObject.JObj? || receivedObject.JStr?)
    ensures receivedObject.JNull? ==>
      OpOutcome(h, fuel, opVals, receivedObject, spec, skipped, "$size", JNum(n)) == Throw(NullKeysError)
    ensures !PassOf(h, fuel, receivedObject, "$size", JNum(n))
  {
    assert OperatorOf("$size") == Size;
    var o := OpOutcome(h, fuel, JObj([Entry("$size", JNum(n))]), receivedObject, "", false, "$size", JNum(n));
    assert o == SizeOutcome(h, fuel, receivedObject, "", JNum(n), Scalar(h, receivedObject));
    assert OpOutcome(h, fuel, opVals, receivedObject, spec, skipped, "$size", JNum(n))
        == SizeOutcome(h, fuel, receivedObject, spec, JNum(n), Scalar(h, receivedObject));
  }

  /**
   * `$size` with a non-number parses the operand's text as JSON and runs the
   * parsed tests against the length, adding their results to the current
   * node; text that does not parse, or tests that throw, give one failing
   * result with the `$size` message.
   */
  lemma SizeWithTests(h: Host, fuel: nat, opVals: Json, receivedObject: Json, spec: string, skipped: bool, opVal: Json)
    requires !receivedObject.JNull? && !opVal.JNum?
    ensures var o := OpOutcome(h, fuel, opVals, receivedObject, spec, skipped, "$size", opVal);
            var parsed := h.parse(ToJsString(Scalar(h, opVal)));
      parsed.None? ==> o == Single(TestResult(false, "$size", Scalar(h, opVal), Scalar(h, receivedObject),
                                              "$size val is not num or valid JSON"))
    ensures var o := OpOutcome(h, fuel, opVals, receivedObject, spec, skipped, "$size", opVal);
            var parsed := h.parse(ToJsString(Scalar(h, opVal)));
      parsed.Some? ==>
        match EvalObject(h, fuel, parsed.value, ReceivedLength(receivedObject), spec, false)
        case Ok(res) => o == Ok(Contribution(res.results, res.subResults))
        case Throw(_) => o == Single(TestResult(false, "$size", parsed.value, Scalar(h, receivedObject),
                                                "$size val is not num or valid JSON"))
  {
    assert OperatorOf("$size") == Size;
    assert !Scalar(h, opVal).JNum?;
    assert OpOutcome(h, fuel, opVals, receivedObject, spec, skipped, "$size", opVal)
        == SizeOutcome(h, fuel, receivedObject, spec, Scalar(h, opVal), Scalar(h, receivedObject));
  }

  /**
   * `$size: {"$gt": k}` on an array: when JSON.parse gives back the object
   * JSON.stringify wrote, the node gets one `$gt` result comparing the
   * array's length with k.
   */
  lemma SizeGreaterThan(h: Host, fuel: nat, opVals: Json, items: seq<Json>, spec: string, skipped: bool, k: int)
    requires fuel >= 1
    requires h.parse(h.stringify(JObj([Entry("$gt", JNum(k))]))) == Some(JObj([Entry("$gt", JNum(k))]))
    ensures OpOutcome(h, fuel, opVals, JArr(items), spec, skipped, "$size", JObj([Entry("$gt", JNum(k))]))
         == Single(TestResult(|items| > k, "$gt", JNum(k), JNum(|items|), ""))
  {
    var tests := JObj([Entry("$gt", JNum(k))]);
    assert OperatorOf("$size") == Size && OperatorOf("$gt") == Gt;
    assert Prop(tests, "$skip") == JUndefined;
    assert Enumerate(tests) == [Entry("$gt", JNum(k))];
    var gt := OpOutcome(h, fuel - 1, tests, JNum(|items|), spec, false, "$gt", JNum(k));
    assert gt == Single(TestResult(|items| > k, "$gt", JNum(k), JNum(|items|), ""));
    assert [Entry("$gt", JNum(k))][1..] == [];
    var t := TestResult(|items| > k, "$gt", JNum(k), JNum(|items|), "");
    assert ObjectOps(h, fuel - 1, tests, JNum(|items|), spec, false, Enumerate(tests)) == Then(gt.value, Ok(NoContribution));
    assert gt.value == Contribution([t], []);
    assert [t] + [] == [t];
    var none: seq<SpecResult> := [];
    assert none + none == none;
    assert Then(gt.value, Ok(NoContribution)) == Ok(Contribution([t], []));
    assert EvalObject(h, fuel, tests, JNum(|items|), spec, false)
        == Ok(SpecResult(Some(spec), false, [TestResult(|items| > k, "$gt", JNum(k), JNum(|items|), "")], []));
  }

  /** `$regex` with a pattern that does not compile throws out of runObjectTests. */
  lemma InvalidRegexThrows(h: Host, fuel: nat, opVals: Json, receivedObject: Json, spec: string, skipped: bool,
                           opVal: Json)
    requires !h.regexCompiles(Scalar(h, opVal), Prop(opVals, "$options"))
    ensures OpOutcome(h, fuel, opVals, receivedObject, spec, skipped, "$regex", opVal) == Throw(InvalidRegex)
  {
    assert OperatorOf("$regex") == Regex;
  }

  /**
   * `$tests` with a dict runs the nested tests against the value as the
   * response's json, with the node's skip flag, and adds their nodes (never
   * any result of their own) to the current node; with anything else it
   * adds one failing result.
   */
  lemma TestsSplice(h: Host, fuel: nat, opVals: Json, receivedObject: Json, spec: string, skipped: bool, opVal: Json)
    ensures var o := OpOutcome(h, fuel, opVals, receivedObject, spec, skipped, "$tests", opVal);
      h.isDict(opVal) ==>
        match EvalAll(h, fuel, h.mergePrefixBasedTests(opVal), SyntheticResponse(receivedObject), false, Some(spec), skipped)
        case Ok(res) => o == Ok(Contribution([], res.subResults))
        case Throw(e) => o == Throw(e)
    ensures var o := OpOutcome(h, fuel, opVals, receivedObject, spec, skipped, "$tests", opVal);
      !h.isDict(opVal) ==>
        o == Single(TestResult(false, "$tests", Scalar(h, opVal), Scalar(h, receivedObject), "recursive tests must be dicts"))
  {
    if h.isDict(opVal) {
      TestsWithDict(h, fuel, opVals, receivedObject, spec, skipped, opVal);
    } else {
      assert OperatorOf("$tests") == TestsKey;
    }
  }

  lemma TestsWithDict(h: Host, fuel: nat, opVals: Json, receivedObject: Json, spec: string, skipped: bool, opVal: Json)
    requires h.isDict(opVal)
    ensures var o := OpOutcome(h, fuel, opVals, receivedObject, spec, skipped, "$tests", opVal);
        match EvalAll(h, fuel, h.mergePrefixBasedTests(opVal), SyntheticResponse(receivedObject), false, Some(spec), skipped)
        case Ok(res) => o == Ok(Contribution([], res.subResults))
        case Throw(e) => o == Throw(e)
  {
    assert OperatorOf("$tests") == TestsKey;
  }
}
