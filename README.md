# zzapi core in Dafny

zzapi runs the HTTP requests of a *bundle* (a YAML file of request
definitions) and checks each response against a nested test
specification. This project models three parts of it and proves
properties of them:

- **The assertion engine** (`src/runTests.ts`). `runAllTests` evaluates the
  `status`, `headers`, `json` and `body` tests of a request against a
  response. `runTest` compares a scalar or hands an operator object to
  `runObjectTests`. `runObjectTests` applies the operators `$eq`, `$ne`,
  `$lt`, `$gt`, `$lte`, `$gte`, `$size`, `$exists`, `$type`, `$regex`,
  `$sw`, `$ew`, `$co` and `$tests`, and the control keys `$skip` and
  `$options`. Together they build a `SpecResult` tree.
  - `RunTests` holds functions (`EvalAll`, `EvalTest`, `EvalObject`) that
    state what these compute.
  - It also holds methods (`RunAllTests`, `RunTest`, `RunObjectTests`,
    `RunOp`, …) that push into result lists in loops, as the source does.
    Each method is proved equal to its function.
  - `RunTestsProperties` proves what the engine promises: node order,
    stop-on-failure, skip marking, JSONPath errors and the meaning of every
    operator.
- **The Postman importer** (`src/convertPostman.ts`).
  - `ConvertPostman` models the placeholder rewrite from `{{name}}` to
    `$(name)`, and its walk over a parsed JSON body.
  - It models the conversion of one Postman request: URL, headers, query
    parameters and body.
  - `RequestTable` is a class whose `requests` field the folder walk
    updates in place.
  - It models the schema check of a collection, and the key check and
    variable copy of an environment.
- **The curl command builder** (`src/constructCurl.ts`). `GetCurlRequest`
  builds the command as written, with a loop over the headers. As written,
  the raw-mode flag it hands to the parameter formatter is always
  undefined (see Findings). `CurlCommand` is the command with the request's
  `rawParams` option passed on. `ConstructCurl` proves the layout of the
  command for any raw-mode flag: the method first, one `-H` per header,
  `-d` iff there is a body, `-L` iff follow, `-k` iff SSL is not verified,
  and the quoted URL last.

Shared modules:

- `Js` holds JavaScript values (`Json`), insertion-ordered dictionaries
  (`Dict`), thrown errors (`Outcome`), truthiness, `typeof`, string
  conversion, `join`, ASCII case mapping, and the ToPrimitive and ToNumber
  conversions that `<` and its relatives apply.
- `Models` holds the records of `src/models.ts`.

Most library code that these files call but do not define is a parameter.
The exception is `getStringIfNotScalar`, which has a body here (see Left
out). The engine's `Host` stands for JSON.stringify, JSON.parse, jsonpath, RegExp,
`isDict` and `mergePrefixBasedTests`. The importer's `parse` stands for
JSON.parse. The curl builder's `CurlHost` stands for `getBody`, `getURL`
and `getParamsForUrl`.

## Model

| member | source | states |
|---|---|---|
| RunTests.Scalar | src/runTests.ts:74-75 | getStringIfNotScalar: a value whose typeof is "object" (object, array, null) becomes a string; every other value is returned unchanged; the result is never of type "object" |
| RunTests.GetType | src/runTests.ts:202-210 | getType is "null" exactly for null, "array" exactly for arrays, "object" exactly for objects, and the typeof name for every other value |
| RunTests.ReceivedLength | src/runTests.ts:117-122 | the length `$size` compares is a number or undefined |
| RunTests.OperatorOf | src/runTests.ts:104-195 | an operator key falls to the final else branch exactly when it is none of the sixteen known keys |
| RunTests.EvalAll | src/runTests.ts:12-67 | a node returned by runAllTests carries rootSpec as its spec, is not marked skipped and holds no results of its own |
| RunTests.EvalTest | src/runTests.ts:69-79 | the node of runTest is named by its spec and is marked skipped when skip is set |
| RunTests.EvalObject | src/runTests.ts:89-97 | the node of runObjectTests is named by its spec and is skipped exactly when skip is set or `$skip` is truthy |
| RunTests.RunAllTests | src/runTests.ts:12-67 | the step-by-step runAllTests returns exactly the node (or the exception) of EvalAll |
| RunTests.RunAfterStatus | src/runTests.ts:31-64 | the header loop, the json loop and the body test return exactly the node list AfterStatus specifies |
| RunTests.RunHeaderTests | src/runTests.ts:31-37 | the headers loop returns one node per header test in order, as HeaderResults specifies, stopping at the first exception |
| RunTests.RunJsonTests | src/runTests.ts:39-56 | the json loop returns one node per JSONPath test in order, as JsonResults specifies, an evaluation error giving a failed node instead of stopping |
| RunTests.RunTest | src/runTests.ts:69-79 | runTest returns exactly EvalTest: operator objects go to runObjectTests, scalars are compared after getStringIfNotScalar |
| RunTests.RunObjectTests | src/runTests.ts:89-200 | runObjectTests returns exactly EvalObject |
| RunTests.RunObjectNode | src/runTests.ts:93-200 | once the operator object has properties, the node carries the spec, the skip mark and the results of the operator loop, exactly as EvalObject gives them |
| RunTests.RunOps | src/runTests.ts:98-197 | the for...in loop over the operators concatenates their results and sub-results in key order, as ObjectOps specifies |
| RunTests.RunOp | src/runTests.ts:99-196 | one operator's contribution is exactly OpOutcome |
| RunTests.RunSize | src/runTests.ts:116-138 | the `$size` branch is exactly SizeOutcome |
| RunTestsProperties.HasFailureIff | src/runTests.ts:8-10 | hasFailure holds exactly when some test result anywhere in the tree fails |
| RunTestsProperties.HasFailureOfIff | src/runTests.ts:8-10 | some sub-result has a failure exactly when some result in the flattened list of those sub-results fails |
| RunTestsProperties.HeaderResultsShape | src/runTests.ts:31-37 | the header loop yields one node per header key, named by the key and in key order, all skipped when skip is set |
| RunTestsProperties.JsonResultsShape | src/runTests.ts:39-56 | the json loop yields one node per JSONPath key, named by the key and in key order, all skipped when skip is set |
| RunTestsProperties.JsonPathErrorNode | src/runTests.ts:42-51 | a JSONPath key whose evaluation throws gets, at its own position, a node with one failing result whose message is the text of the thrown Error, "Error while evaluating JSONPath <key>: <description>" |
| RunTestsProperties.JsonPathErrorsContinue | src/runTests.ts:42-52 | errors do not stop the loop: when every key throws, every key still gets a failing node |
| RunTestsProperties.AfterStatusOrder | src/runTests.ts:31-64 | after the status node come the header nodes, the json nodes and the body node, in that order, one per key |
| RunTestsProperties.BodyNodes | src/runTests.ts:58-64 | the body test adds one node named "body" when tests.body is truthy and none otherwise |
| RunTestsProperties.AfterStatusSkipped | src/runTests.ts:31-64 | with skip set, every header, json and body node is marked skipped |
| RunTestsProperties.SubResultOrder | src/runTests.ts:19-66 | absent tests give an empty node; otherwise the nodes are status, headers, json, body in that order, or only the status node when stopOnFailure cut the run after a failure |
| RunTestsProperties.StopAfterFailedStatus | src/runTests.ts:22-29 | with stopOnFailure, a failed status check returns the status node alone, and a passed one changes nothing |
| RunTestsProperties.SkipMarksEveryNode | src/runTests.ts:12-67 | a skipped run marks every node it yields as skipped |
| RunTestsProperties.ScalarAssertion | src/runTests.ts:69-79 | a scalar assertion yields one result with op ":" that passes exactly when the getStringIfNotScalar forms of the two values are equal: equal values when neither is of type "object", the JSON text of a received object, and for an expected null the text "null" |
| RunTestsProperties.DirectOpResult | src/runTests.ts:104-196 | every operator other than `$size`, `$regex` and `$tests` adds no sub-result and exactly the results listed by ResultOp: none for `$skip` and `$options`, one for the others |
| RunTestsProperties.DirectOpsResults | src/runTests.ts:98-197 | a run of such operators yields their results in key order and never a sub-result |
| RunTestsProperties.ControlKeys | src/runTests.ts:160-185 | `$options` and `$skip` add nothing to the node |
| RunTestsProperties.UnknownKey | src/runTests.ts:186-195 | an unknown key adds the failing result "To compare objects, use $eq" with the key as received |
| RunTestsProperties.EqMatchesScalar | src/runTests.ts:104-107 | `$eq` passes exactly when the equivalent scalar assertion does, and `$ne` exactly when `$eq` fails |
| RunTestsProperties.ExistsSemantics | src/runTests.ts:139-141 | `$exists: b` passes exactly when b says whether the value is defined; a non-boolean operand never passes |
| RunTestsProperties.TypeSemantics | src/runTests.ts:142-145 | `$type` passes exactly when the operand is getType of the value, and reports "<value> (type <type>)" as received |
| RunTestsProperties.StringOpsNeedString | src/runTests.ts:154-159 | `$sw`, `$ew` and `$co` never pass on a value that is neither a string nor an object |
| RunTestsProperties.StringOpNeedsString | src/runTests.ts:154-159 | the same for each of the three operators on its own |
| RunTestsProperties.StringOpsOnString | src/runTests.ts:154-159 | on a string, `$sw`, `$ew` and `$co` pass exactly for prefix, suffix and substring of the operand's string form |
| RunTestsProperties.PrefixOpOnString | src/runTests.ts:154-155 | on a string, `$sw` passes exactly when the operand is a prefix |
| RunTestsProperties.SuffixOpOnString | src/runTests.ts:156-157 | on a string, `$ew` passes exactly when the operand is a suffix |
| RunTestsProperties.SubstringOpOnString | src/runTests.ts:158-159 | on a string, `$co` passes exactly when the operand occurs in it |
| Js.ToPrimitive | src/runTests.ts:110-115 | the conversion `>`, `<=` and `>=` apply first: an object or array becomes its String form, every other value stays as it is, and the result is never an object or array |
| Js.NumberOfIntString | src/runTests.ts:108-115 | reading a number's decimal text back as a number gives the number |
| RunTestsProperties.OrderingPasses | src/runTests.ts:97-115 | `$lt` applies `<` to the getStringIfNotScalar forms of value and operand, while `$gt`, `$lte` and `$gte` apply `>`, `<=` and `>=` to the received value itself |
| RunTestsProperties.OrderingOnNumbers | src/runTests.ts:108-115 | on two numbers `$lt`, `$gt`, `$lte` and `$gte` are <, >, <= and >= |
| RunTestsProperties.OrderingAsymmetry | src/runTests.ts:108-115 | against a string operand, `$lt` compares an object or array value's JSON text, while `$gt`, `$lte` and `$gte` compare its String form ("[object Object]" or the joined elements), each in both directions |
| RunTestsProperties.ObjectAgainstStrings | src/runTests.ts:110-115 | an object passes `$gt: "A"` and `$lte: "abc"` but not `$gte: "abc"` |
| RunTestsProperties.OrderingStringAgainstNumber | src/runTests.ts:108-115 | a string value against a number operand compares the string's numeric value, and all four operators fail when the string reads as NaN |
| RunTestsProperties.OrderingNumeralAgainstNumber | src/runTests.ts:108-115 | the decimal text of a number orders against numbers as the number does: `$lt`, `$gt`, `$lte` and `$gte` pass exactly when `<`, `>`, `<=` and `>=` hold between the two integers |
| RunTestsProperties.SizeWithNumber | src/runTests.ts:116-124 | `$size: n` on a string, array or object passes exactly when n is its length or key count |
| RunTestsProperties.SizeWithoutLength | src/runTests.ts:116-124 | `$size` on null throws (Object.keys of null), and on any other value without a length never passes |
| RunTestsProperties.SizeWithTests | src/runTests.ts:125-138 | a non-number `$size` operand is parsed as JSON and its operators are run against the length, their results joining the current node; a parse failure or a throw gives the failing result "$size val is not num or valid JSON" |
| RunTestsProperties.SizeGreaterThan | src/runTests.ts:116-138 | `$size: {$gt: k}` on an array gives one result, op "$gt", expected k, received the length, passing exactly when the length exceeds k |
| RunTestsProperties.InvalidRegexThrows | src/runTests.ts:146-148 | a pattern or flags that RegExp refuses make `$regex` throw out of runObjectTests |
| RunTestsProperties.TestsSplice | src/runTests.ts:162-183 | `$tests` with a dict runs the nested tests against the value as the response's json and adds their nodes, never a result of its own; anything else gives the failing result "recursive tests must be dicts" |
| RunTestsProperties.TestsWithDict | src/runTests.ts:168-182 | the dict case of `$tests` on its own |
| ConvertPostman.WordRun | src/convertPostman.ts:4 | the length of the longest run of `\w` characters at the start of a string |
| ConvertPostman.Placeholder | src/convertPostman.ts:4 | a match of the pattern at the start of a string is "{{", a non-empty word and "}}" |
| ConvertPostman.PlaceholderFound | src/convertPostman.ts:4 | conversely, every "{{" + word + "}}" at the start of a string is a match |
| ConvertPostman.Pieces | src/convertPostman.ts:4-8 | every string splits into literal characters and `{{word}}` placeholders that concatenate back to it |
| ConvertPostman.ReformatByPieces | src/convertPostman.ts:6-8 | reformatVariables replaces each `{{word}}` of that split by `$(word)` and keeps every other character |
| ConvertPostman.PiecesMissNothing | src/convertPostman.ts:4-8 | the split misses no placeholder: the text from any kept character on does not start with a `{{word}}` match |
| ConvertPostman.PiecesSuffix | src/convertPostman.ts:4-8 | the pieces from any position on are exactly the split of the text they write |
| ConvertPostman.ReformatWithoutPlaceholder | src/convertPostman.ts:6-8 | a string without "{{" is returned unchanged |
| ConvertPostman.ReformatLiteralPrefix | src/convertPostman.ts:6-8 | text without '{' in front of a string passes through unchanged |
| ConvertPostman.ReformatLeadingPlaceholder | src/convertPostman.ts:6-8 | `{{w}}` followed by text b becomes `$(w)` followed by the rewrite of b |
| ConvertPostman.RewriteInPlace | src/convertPostman.ts:11-20 | reformatVariablesInObject throws exactly on a non-empty string, rewrites every string inside an object or array, and leaves other values alone |
| ConvertPostman.RewriteMembers | src/convertPostman.ts:12-19 | the loops over the members of an array or object produce the value with every reachable string rewritten |
| ConvertPostman.ReformatVariablesInObject | src/convertPostman.ts:11-20 | the method's result is exactly RewriteInPlace |
| ConvertPostman.RewriteKeepsSkeleton | src/convertPostman.ts:11-20 | the rewrite keeps every key, boolean, number, null and the shape of arrays and objects |
| ConvertPostman.RewriteReformatsStrings | src/convertPostman.ts:11-20 | the strings of the rewritten value, in order, are the reformatted strings of the original |
| ConvertPostman.RewriteItemStrings | src/convertPostman.ts:12-19 | the same for the members of an array |
| ConvertPostman.RewriteEntryStrings | src/convertPostman.ts:12-19 | the same for the values of an object |
| ConvertPostman.UrlLiteral | src/convertPostman.ts:30-39 | with no '{' in its parts, the URL is protocol + "://" + host joined by "." + "/" + path joined by "/", or without the protocol part when there is none |
| ConvertPostman.UrlWithProtocol | src/convertPostman.ts:34-35 | with a protocol, the URL is that protocol, ":/" and the rewrite of the rest |
| ConvertPostman.UrlStringIsSlash | src/convertPostman.ts:30-38 | a URL given as a plain string has no host or path parts and becomes "/" |
| ConvertPostman.HeadersAbsent | src/convertPostman.ts:41-50 | a name that no header carries is not in the headers |
| ConvertPostman.HeadersLastWins | src/convertPostman.ts:44-45 | a repeated header name keeps the reformatted value of its last occurrence |
| ConvertPostman.ContentTypeOf | src/convertPostman.ts:41-49 | the content type is "" when no header is named content-type in any letter case |
| ConvertPostman.ContentTypeIsLast | src/convertPostman.ts:46-48 | otherwise it is the raw value of the last such header |
| ConvertPostman.ValuesFor | src/convertPostman.ts:52-66 | the values given for a key are none exactly when no query parameter has that key |
| ConvertPostman.FirstTruthy | src/convertPostman.ts:56 | the position of the first truthy value, every value before it being falsy |
| ConvertPostman.CollectedAppend | src/convertPostman.ts:54-64 | adding one more value for a key is one step of the query loop |
| ConvertPostman.FoldQueryCollects | src/convertPostman.ts:52-66 | a key's parameter is absent when no query has it; otherwise it is the list of its values from the first truthy one on, when a later value follows it, and else the last value alone |
| ConvertPostman.JsonBodyParsed | src/convertPostman.ts:68-72 | a raw body marked JSON (by language or content type) that parses to an object or array becomes that value with every string rewritten and nothing else changed |
| ConvertPostman.RawBodyFallback | src/convertPostman.ts:68-79 | a raw body not marked JSON, one that does not parse, or one that parses to a non-empty string becomes the reformatted raw text |
| ConvertPostman.UnsupportedBody | src/convertPostman.ts:80-81 | a body of another mode becomes "UNSUPPORTED body type <mode>, could not convert." |
| ConvertPostman.ContentTypeDecidesParsing | src/convertPostman.ts:41-72 | a last content-type header of "application/json" makes a raw body that parses to an object be taken as JSON |
| ConvertPostman.SubPrefix | src/convertPostman.ts:88 | a folder extends the key prefix by its name and "/" |
| ConvertPostman.PutAllUntouched | src/convertPostman.ts:25 | writing requests under other names leaves a key's request as it was |
| ConvertPostman.PutAllLastWins | src/convertPostman.ts:25 | of several requests written under one name, the last one stays |
| ConvertPostman.FolderKeys | src/convertPostman.ts:85-94 | a folder walk writes the requests of the tree in depth-first order, each under its folder path and its name |
| ConvertPostman.ItemKeys | src/convertPostman.ts:86-92 | one element writes its folder's requests, its own request, or nothing |
| ConvertPostman.CollectHeaders | src/convertPostman.ts:41-50 | the header loop builds the header dictionary and the content type |
| ConvertPostman.CollectParams | src/convertPostman.ts:52-66 | the query loop builds the parameter dictionary |
| ConvertPostman.ChooseBody | src/convertPostman.ts:68-82 | the body branch yields exactly BodyOf |
| ConvertPostman.RequestTable.constructor | src/convertPostman.ts:105-107 | a new bundle has no requests |
| ConvertPostman.RequestTable.AddRequest | src/convertPostman.ts:22-83 | addRequest writes the converted request under prefix + name and changes no other key |
| ConvertPostman.RequestTable.AddRequestsFromFolder | src/convertPostman.ts:85-94 | addRequestsFromFolder writes exactly the folder's entries, in order, over what was there |
| ConvertPostman.ConvertCollection | src/convertPostman.ts:96-109 | a collection whose info.schema is not the v2.1.0 URL is refused; otherwise the bundle's requests are those of the whole tree with an empty prefix |
| ConvertPostman.VariablesOf | src/convertPostman.ts:149-152 | the values loop can only fail with a TypeError |
| ConvertPostman.ConvertEnvironment | src/convertPostman.ts:132-152 | the key loop and the values loop return exactly EnvironmentOf |
| ConvertPostman.HasEssentialKeys | src/convertPostman.ts:137-142 | the loop over the essential keys succeeds exactly when name, _postman_variable_scope and values are all own keys |
| ConvertPostman.ConvertValues | src/convertPostman.ts:149-152 | the values loop returns exactly VariablesOf |
| ConvertPostman.VariablesThrowSticks | src/convertPostman.ts:150-152 | once an item throws, later items change nothing |
| ConvertPostman.VariablesThrow | src/convertPostman.ts:150-152 | the values loop throws exactly when some item is null or undefined |
| ConvertPostman.VariablesStored | src/convertPostman.ts:150-152 | otherwise each item is written as key to value, in order |
| ConvertPostman.EnvironmentRefused | src/convertPostman.ts:137-142 | an environment is refused as not exported exactly when it is neither null nor undefined and lacks one of name, _postman_variable_scope and values |
| ConvertPostman.EnvironmentAccepted | src/convertPostman.ts:144-152 | an environment with the three keys and proper items is accepted under its name, each key holding the value of its last item |
| ConstructCurl.HeaderFlags | src/constructCurl.ts:8-10 | one `-H` flag per header |
| ConstructCurl.GetCurlRequest | src/constructCurl.ts:4-37 | the method with its header loop returns exactly the command as written, whose parameter formatter is handed undefined as the raw-mode flag |
| ConstructCurl.CurlCommand | src/constructCurl.ts:4-37 | the corrected command, with the request's rawParams passed on, starts with "curl -X " and the upper-cased method and ends with the quoted URL formatted in that raw mode |
| ConstructCurl.SegmentsJoin | src/constructCurl.ts:33-34 | the command is its segments joined in order |
| ConstructCurl.SegmentsLayout | src/constructCurl.ts:5-34 | the segments are "curl", the method flag, the header flags, then the body, follow and insecure flags when present, and the quoted URL; 3 + headers + optional flags in all |
| ConstructCurl.SegmentKinds | src/constructCurl.ts:5-31 | every segment is one of seven kinds, told apart by its first characters |
| ConstructCurl.HeaderSegmentKind | src/constructCurl.ts:9 | a header segment starts with " -H '" |
| ConstructCurl.UrlSegmentKind | src/constructCurl.ts:27-31 | the last segment starts with " '" |
| ConstructCurl.OneHeaderFlagPerHeader | src/constructCurl.ts:6-11 | a segment starts with " -H " exactly when it is at a header's position; no -H appears when headers are undefined |
| ConstructCurl.BodyFlagIffBody | src/constructCurl.ts:12-15 | some segment is a " -d " flag exactly when the body is defined |
| ConstructCurl.FollowFlagIffFollow | src/constructCurl.ts:17-20 | " -L" appears exactly when follow is set |
| ConstructCurl.InsecureFlagIffNoVerify | src/constructCurl.ts:22-25 | " -k" appears exactly when verifySSL is off |
| ConstructCurl.CommandStartsWithMethod | src/constructCurl.ts:5-34 | for any raw-mode flag, the command starts with "curl -X " and the method in upper case |
| ConstructCurl.CommandEndsWithUrl | src/constructCurl.ts:27-34 | for any raw-mode flag, the command ends with the quoted URL whose parameters are formatted with that flag |
| ConstructCurl.AsWrittenIgnoresRawParams | src/constructCurl.ts:30 | the command as written does not depend on rawParams at all |
| ConstructCurl.RawParamsDropped | src/constructCurl.ts:30 | a parameter formatter that honours raw mode gives a different URL, so the command as written differs from the intended one |

## Left out

- File reads, the YAML output of both importers, their comment banners and the "globals" hint line are not modelled. The environment result records whether the scope is "globals".
- JSON.parse, JSON.stringify, jsonpath, RegExp, `isDict`, `mergePrefixBasedTests`, `getBody`, `getURL` and `getParamsForUrl` are parameters. Their own code is not part of this model. Their signatures are assumed from the calls.
- Numbers are integers; floating point is not modelled. `<`, `>`, `<=` and `>=` follow JavaScript's conversions: objects and arrays become their String form, two strings compare as strings, anything else compares as numbers, and NaN makes the comparison false. ToNumber of a string reads blank text as 0 and an optionally signed run of decimal digits as its value. Every other numeral (fractions, exponents, hexadecimal, binary, octal, `Infinity`) is read as NaN.
- Strings are sequences of Unicode scalar values, while JavaScript strings are sequences of UTF-16 code units. Two consequences follow. String order agrees with JavaScript's except where a character above U+FFFF meets one in U+E000..U+FFFF. The length `$size` compares counts a character above U+FFFF once, where JavaScript counts two.
- `getStringIfNotScalar` (imported from src/utils/typeUtils, which is not part of this model) is given a body inferred from its name and its call sites at src/runTests.ts:74-75 and 99-100, not from its code: a value whose `typeof` is "object" (null, arrays, objects) becomes its JSON.stringify text, and every other value is returned unchanged. `RunTests.Scalar` is that body. The lemmas about scalar assertions, `$eq`/`$ne` and `$lt` (ScalarAssertion, EqMatchesScalar, OrderingPasses, OrderingAsymmetry) rest on it.
- The message of a JSONPath error node is the Error object that getValueForJSONTests throws. It is modelled as that Error's message text.
- `for...in` visits keys in insertion order. JavaScript's move of integer-like keys to the front is not modelled.
- Case mapping (`toLowerCase`, `toUpperCase`) is ASCII only.
- `TestResult.message` is "" where the source leaves it out. `SpecResult.skipped` is false where the source leaves it undefined or sets it to a falsy non-boolean. The truthy `$skip` value of a JSONPath error node is collapsed to a boolean.
- `executionTime` and `rawHeaders` of a response are not read by the engine and are left out of `ResponseData`.
- Recursion depth is the `fuel` parameter, the call-stack budget. A call with none left throws a RangeError, as a stack overflow does. A real stack's size is not modelled.
- `RunTests` splits the loops of runAllTests and runObjectTests into helper methods, so that each loop is proved on its own.
- `reformatVariablesInObject` is modelled on values. The importer only applies it to a fresh `JSON.parse` result, so there is no aliasing to lose. That it throws on a non-empty string assumes the module's strict mode. Outside strict mode the assignment would be silently ignored.
- Postman input is typed. An absent protocol is "", and absent host, path, header and query lists are empty. A host given as one string and path elements given as objects are not modelled. Nor are throws from reading a property of an undefined request, body or header field.
- Object keys that collide with `Object.prototype` members (`constructor`, `__proto__`) are treated as ordinary keys.
- Thrown TypeErrors in the importers carry the message "TypeError" only.
- ConvertPostman.UrlLiteral: states the URL text only when no part contains '{'. Elsewhere the placeholder rewrite applies to the joined text, as ReformatByPieces states.
- ConstructCurl.HeaderFlags: states only the count of flags. Their text is stated by SegmentsLayout and HeaderSegmentKind.

## Findings

| source | as written | input that shows it | evidently intended | confidence | as-written member | corrected member |
|---|---|---|---|---|---|---|
| src/constructCurl.ts:30 | the URL's parameters are formatted with `request.options.raw`, a field `Options` does not have, so the formatter always receives undefined | any request with `options.rawParams` true whose parameters raw and encoded formatting render differently, e.g. RawRequest with RawAwareHost | pass `request.options.rawParams`, the option that selects raw parameter formatting (src/models.ts:18) | not executed | ConstructCurl.RawParamsDropped | ConstructCurl.CurlCommand |
