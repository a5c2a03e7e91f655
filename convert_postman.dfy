/**
 * The Postman importer: turns an already-parsed Postman Collection v2.1.0
 * tree into the `requests` of a bundle, and an already-parsed exported
 * Postman environment into a variable set.
 *
 * `JSON.parse` of a raw body is a parameter `parse` (a result or a thrown
 * SyntaxError); reading files and writing YAML are not part of this model.
 */
module ConvertPostman {
  import opened Js

  // ---------------------------------------------------------------------
  // `{{name}}` placeholders become `$(name)`

  /** A character of the regular-expression class `\w`. */
  predicate IsWordChar(c: char) {
    ('a' <= c <= 'z') || ('A' <= c <= 'Z') || ('0' <= c <= '9') || c == '_'
  }

  /** A match of `\w+`. */
  predicate IsWord(w: string) {
    w != [] && forall i :: 0 <= i < |w| ==> IsWordChar(w[i])
  }

  /** The length of the longest run of word characters that starts `t`. */
  function WordRun(t: string): (n: nat)
    ensures n <= |t|
    ensures forall i :: 0 <= i < n ==> IsWordChar(t[i])
    ensures n < |t| ==> !IsWordChar(t[n])
  {
    if t != [] && IsWordChar(t[0]) then 1 + WordRun(t[1..]) else 0
  }

  /**
   * Whether `t` starts with a match of `\{\{(\w+)\}\}`, and if so the length
   * of the captured name.
   */
  function Placeholder(t: string): (r: Option<nat>)
    ensures r.Some? ==> 4 + r.value <= |t| && t[..2] == "{{" && IsWord(t[2..2 + r.value])
                        && t[2 + r.value..4 + r.value] == "}}"
  {
    if |t| >= 2 && t[0] == '{' && t[1] == '{' then
      var n := WordRun(t[2..]);
      if 1 <= n && 4 + n <= |t| && t[2 + n] == '}' && t[3 + n] == '}' then Some(n) else None
    else None
  }

  /**
   * Every `{{name}}` at the start of `t` is found: `\w+` is greedy, and a
   * shorter run would be followed by a word character instead of `}`.
   */
  lemma PlaceholderFound(t: string, n: nat)
    requires 4 + n <= |t| && t[..2] == "{{" && IsWord(t[2..2 + n]) && t[2 + n..4 + n] == "}}"
    ensures Placeholder(t) == Some(n)
  {
    var s := t[2..];
    assert t[0] == '{' && t[1] == '{';
    assert forall i :: 0 <= i < n ==> s[i] == t[2..2 + n][i];
    assert s[n] == '}';
    WordRunOf(s, n);
  }

  /** The run of word characters ends at the first character that is not one. */
  lemma {:induction false} WordRunOf(s: string, n: nat)
    requires n <= |s|
    requires forall i :: 0 <= i < n ==> IsWordChar(s[i])
    requires n < |s| ==> !IsWordChar(s[n])
    ensures WordRun(s) == n
    decreases n
  {
    if n > 0 {
      WordRunOf(s[1..], n - 1);
    }
  }

  /**
   * `text.replace(/\{\{(\w+)\}\}/g, "$($1)")`: the global match scans from
   * left to right, resuming after each match.
   */
  function Reformat(t: string): string
    decreases |t|
  {
    if t == [] then []
    else match Placeholder(t)
      case Some(n) => "$(" + t[2..2 + n] + ")" + Reformat(t[4 + n..])
      case None => [t[0]] + Reformat(t[1..])
  }

  /** A piece of a text: a character kept as it is, or a placeholder name. */
  datatype Piece = Keep(c: char) | Var(name: string)

  /** The text as written: placeholders in the `{{name}}` form. */
  function AsWritten(ps: seq<Piece>): string {
    if ps == [] then ""
    else (match ps[0] case Keep(c) => [c] case Var(w) => "{{" + w + "}}") + AsWritten(ps[1..])
  }

  /** The text as the bundle writes it: placeholders in the `$(name)` form. */
  function AsBundle(ps: seq<Piece>): string {
    if ps == [] then ""
    else (match ps[0] case Keep(c) => [c] case Var(w) => "$(" + w + ")") + AsBundle(ps[1..])
  }

  /** Every placeholder in `ps` names a run of word characters. */
  predicate WordNames(ps: seq<Piece>) {
    forall i :: 0 <= i < |ps| && ps[i].Var? ==> IsWord(ps[i].name)
  }

  /** The pieces the scan of `Reformat` cuts `t` into. */
  function Pieces(t: string): (ps: seq<Piece>)
    ensures AsWritten(ps) == t
    ensures WordNames(ps)
    decreases |t|
  {
    if t == [] then []
    else match Placeholder(t)
      case Some(n) =>
        PlaceholderSplit(t, n);
        [Var(t[2..2 + n])] + Pieces(t[4 + n..])
      case None =>
        assert t == [t[0]] + t[1..];
        [Keep(t[0])] + Pieces(t[1..])
  }

  lemma PlaceholderSplit(t: string, n: nat)
    requires Placeholder(t) == Some(n)
    ensures t == "{{" + t[2..2 + n] + "}}" + t[4 + n..]
  {
  }

  /**
   * Writing `t` and its reformatted text are the same pieces: every
   * `{{w}}` the scan finds becomes `$(w)` and every other character stays.
   */
  lemma {:induction false} ReformatByPieces(t: string)
    ensures t == AsWritten(Pieces(t))
    ensures Reformat(t) == AsBundle(Pieces(t))
    ensures WordNames(Pieces(t))
    decreases |t|
  {
    if t != [] {
      match Placeholder(t)
      case Some(n) =>
        ReformatByPieces(t[4 + n..]);
        assert ([Var(t[2..2 + n])] + Pieces(t[4 + n..]))[1..] == Pieces(t[4 + n..]);
      case None =>
        ReformatByPieces(t[1..]);
        assert ([Keep(t[0])] + Pieces(t[1..]))[1..] == Pieces(t[1..]);
    }
  }

  /**
   * The scan misses no placeholder: at every character it keeps, the text
   * from there on does not start with one.
   */
  lemma PiecesMissNothing(t: string, i: nat)
    requires i < |Pieces(t)| && Pieces(t)[i].Keep?
    ensures Placeholder(AsWritten(Pieces(t)[i..])).None?
  {
    var u := AsWritten(Pieces(t)[i..]);
    PiecesSuffix(t, i);
    assert Pieces(u)[0] == Pieces(t)[i];
    KeepHead(u);
  }

  /** The pieces from the i-th on are the pieces of what they write. */
  lemma {:induction false} PiecesSuffix(t: string, i: nat)
    requires i <= |Pieces(t)|
    ensures Pieces(AsWritten(Pieces(t)[i..])) == Pieces(t)[i..]
    decreases |t|
  {
    var ps := Pieces(t);
    if i > 0 {
      var rest := PiecesTail(t);
      assert ps[i..] == ps[1..][i - 1..];
      PiecesSuffix(rest, i - 1);
    } else {
      assert ps[i..] == ps;
    }
  }

  /** What the scan has left after the first piece of `t`. */
  lemma PiecesTail(t: string) returns (rest: string)
    requires t != []
    ensures |rest| < |t| && Pieces(t)[1..] == Pieces(rest)
  {
    match Placeholder(t)
    case Some(n) =>
      rest := t[4 + n..];
      assert ([Var(t[2..2 + n])] + Pieces(rest))[1..] == Pieces(rest);
    case None =>
      rest := t[1..];
      assert ([Keep(t[0])] + Pieces(rest))[1..] == Pieces(rest);
  }

  lemma KeepHead(u: string)
    requires |Pieces(u)| > 0 && Pieces(u)[0].Keep?
    ensures Placeholder(u).None?
  {
  }

  /** No two consecutive `{` characters. */
  predicate NoOpenPair(t: string) {
    forall i :: 0 <= i < |t| - 1 ==> !(t[i] == '{' && t[i + 1] == '{')
  }

  /** A text without `{{` is left unchanged. */
  lemma {:induction false} ReformatWithoutPlaceholder(t: string)
    requires NoOpenPair(t)
    ensures Reformat(t) == t
    decreases |t|
  {
    if t != [] {
      assert Placeholder(t).None?;
      assert NoOpenPair(t[1..]) by {
        forall i | 0 <= i < |t[1..]| - 1 ensures !(t[1..][i] == '{' && t[1..][i + 1] == '{') {
          assert t[1..][i] == t[i + 1] && t[1..][i + 1] == t[i + 2];
        }
      }
      ReformatWithoutPlaceholder(t[1..]);
    }
  }

  /** A leading part without `{` is copied as it is. */
  lemma {:induction false} ReformatLiteralPrefix(a: string, b: string)
    requires forall i :: 0 <= i < |a| ==> a[i] != '{'
    ensures Reformat(a + b) == a + Reformat(b)
    decreases |a|
  {
    if a != [] {
      var rest := a[1..] + b;
      assert a + b == [a[0]] + rest;
      ReformatKeeps(a[0], rest);
      assert forall i :: 0 <= i < |a[1..]| ==> a[1..][i] == a[i + 1];
      ReformatLiteralPrefix(a[1..], b);
      assert [a[0]] + a[1..] == a;
      ConcatAssoc([a[0]], a[1..], Reformat(b));
    } else {
      assert a + b == b;
    }
  }

  lemma ConcatAssoc(x: string, y: string, z: string)
    ensures x + (y + z) == (x + y) + z
  {
  }

  /** A character other than `{` is copied, and the scan goes on after it. */
  lemma ReformatKeeps(c: char, rest: string)
    requires c != '{'
    ensures Reformat([c] + rest) == [c] + Reformat(rest)
  {
    var t := [c] + rest;
    assert t[0] == c && Placeholder(t) == None;
    assert t[1..] == rest;
  }

  /** A leading `{{w}}` becomes `$(w)`, and the scan resumes right after it. */
  lemma ReformatLeadingPlaceholder(w: string, b: string)
    requires IsWord(w)
    ensures Reformat("{{" + w + "}}" + b) == "$(" + w + ")" + Reformat(b)
  {
    var t := "{{" + w + "}}" + b;
    var n := |w|;
    assert t[..2] == "{{" && t[2..2 + n] == w && t[2 + n..4 + n] == "}}";
    PlaceholderFound(t, n);
    assert t[4 + n..] == b;
  }

  // ---------------------------------------------------------------------
  // Rewriting every string of a parsed JSON body

  /**
   * Every string reachable in `v` reformatted; keys and all other values as
   * they are.
   */
  function RewriteAll(v: Json): Json
    decreases v
  {
    match v
    case JStr(s) => JStr(Reformat(s))
    case JArr(items) => JArr(seq(|items|, i requires 0 <= i < |items| => RewriteAll(items[i])))
    case JObj(es) => JObj(seq(|es|, i requires 0 <= i < |es| => Entry(es[i].key, RewriteAll(es[i].val))))
    case _ => v
  }

  /** The error of assigning to an index of a string in strict mode. */
  const ReadOnlyIndexError := "TypeError: Cannot assign to read only property '0' of string"

  /**
   * `reformatVariablesInObject(object)`: its `for...in` visits the keys of an
   * object or array, rewrites each string member and recurses into each
   * member whose `typeof` is "object" (objects, arrays and null). A
   * non-empty string has index keys too; assigning to them throws, since the
   * module's code runs in strict mode. Other values have no keys.
   */
  function RewriteInPlace(v: Json): (r: Outcome<Json>)
    ensures r.Throw? <==> v.JStr? && v.s != ""
    ensures r.Ok? && (v.JArr? || v.JObj?) ==> r.value == RewriteAll(v)
    ensures r.Ok? && !(v.JArr? || v.JObj?) ==> r.value == v
  {
    match v
    case JArr(_) => Ok(RewriteAll(v))
    case JObj(_) => Ok(RewriteAll(v))
    case JStr(s) => if s == "" then Ok(v) else Throw(ReadOnlyIndexError)
    case _ => Ok(v)
  }

  /** The member loop of `reformatVariablesInObject`, on an object or array. */
  method RewriteMembers(v: Json) returns (w: Json)
    ensures w == RewriteAll(v)
    decreases v
  {
    match v {
      case JStr(s) =>
        w := JStr(Reformat(s));
      case JArr(items) =>
        var out: seq<Json> := [];
        var i := 0;
        while i < |items|
          invariant 0 <= i <= |items|
          invariant |out| == i
          invariant forall j :: 0 <= j < i ==> out[j] == RewriteAll(items[j])
        {
          var item := RewriteMembers(items[i]);
          out := out + [item];
          i := i + 1;
        }
        w := JArr(out);
      case JObj(es) =>
        var out: seq<Entry> := [];
        var i := 0;
        while i < |es|
          invariant 0 <= i <= |es|
          invariant |out| == i
          invariant forall j :: 0 <= j < i ==> out[j] == Entry(es[j].key, RewriteAll(es[j].val))
        {
          var member := RewriteMembers(es[i].val);
          out := out + [Entry(es[i].key, member)];
          i := i + 1;
        }
        w := JObj(out);
      case _ =>
        w := v;
    }
  }

  /** `reformatVariablesInObject` applied to a freshly parsed value. */
  method ReformatVariablesInObject(v: Json) returns (r: Outcome<Json>)
    ensures r == RewriteInPlace(v)
  {
    if v.JArr? || v.JObj? {
      var w := RewriteMembers(v);
      r := Ok(w);
    } else if v.JStr? && v.s != "" {
      r := Throw(ReadOnlyIndexError);
    } else {
      r := Ok(v);
    }
  }

  /** `v` with every string replaced by "": what a rewrite of strings keeps. */
  function Skeleton(v: Json): Json
    decreases v
  {
    match v
    case JStr(_) => JStr("")
    case JArr(items) => JArr(seq(|items|, i requires 0 <= i < |items| => Skeleton(items[i])))
    case JObj(es) => JObj(seq(|es|, i requires 0 <= i < |es| => Entry(es[i].key, Skeleton(es[i].val))))
    case _ => v
  }

  /** The strings of `v`, depth first, in enumeration order. */
  function Strings(v: Json): seq<string>
    decreases v, 1
  {
    match v
    case JStr(s) => [s]
    case JArr(items) => ItemStrings(items)
    case JObj(es) => EntryStrings(es)
    case _ => []
  }

  function ItemStrings(items: seq<Json>): seq<string>
    decreases items, 0
  {
    if items == [] then [] else Strings(items[0]) + ItemStrings(items[1..])
  }

  function EntryStrings(es: seq<Entry>): seq<string>
    decreases es, 0
  {
    if es == [] then [] else Strings(es[0].val) + EntryStrings(es[1..])
  }

  function ReformatEach(ss: seq<string>): (r: seq<string>)
    ensures |r| == |ss|
    ensures forall i :: 0 <= i < |ss| ==> r[i] == Reformat(ss[i])
  {
    if ss == [] then [] else [Reformat(ss[0])] + ReformatEach(ss[1..])
  }

  /** The rewrite keeps every key, every array length and every non-string value. */
  lemma {:induction false} RewriteKeepsSkeleton(v: Json)
    ensures Skeleton(RewriteAll(v)) == Skeleton(v)
    decreases v
  {
    match v
    case JArr(items) =>
      forall i | 0 <= i < |items| ensures Skeleton(RewriteAll(items[i])) == Skeleton(items[i]) {
        RewriteKeepsSkeleton(items[i]);
      }
    case JObj(es) =>
      forall i | 0 <= i < |es| ensures Skeleton(RewriteAll(es[i].val)) == Skeleton(es[i].val) {
        RewriteKeepsSkeleton(es[i].val);
      }
    case _ =>
  }

  /** The rewrite reformats every string, in place and in order. */
  lemma {:induction false} RewriteReformatsStrings(v: Json)
    ensures Strings(RewriteAll(v)) == ReformatEach(Strings(v))
    decreases v, 1
  {
    match v
    case JArr(items) =>
      var out := seq(|items|, i requires 0 <= i < |items| => RewriteAll(items[i]));
      assert RewriteAll(v) == JArr(out);
      RewriteItemStrings(items, out);
    case JObj(es) =>
      var out := seq(|es|, i requires 0 <= i < |es| => Entry(es[i].key, RewriteAll(es[i].val)));
      assert RewriteAll(v) == JObj(out);
      RewriteEntryStrings(es, out);
    case _ =>
  }

  lemma ReformatEachAppend(a: seq<string>, b: seq<string>)
    ensures ReformatEach(a + b) == ReformatEach(a) + ReformatEach(b)
  {
  }

  lemma {:induction false} RewriteItemStrings(items: seq<Json>, out: seq<Json>)
    requires |out| == |items|
    requires forall i :: 0 <= i < |items| ==> out[i] == RewriteAll(items[i])
    ensures ItemStrings(out) == ReformatEach(ItemStrings(items))
    decreases items, 0
  {
    if items != [] {
      RewriteReformatsStrings(items[0]);
      RewriteItemStrings(items[1..], out[1..]);
      ReformatEachAppend(Strings(items[0]), ItemStrings(items[1..]));
    }
  }

  lemma {:induction false} RewriteEntryStrings(es: seq<Entry>, out: seq<Entry>)
    requires |out| == |es|
    requires forall i :: 0 <= i < |es| ==> out[i] == Entry(es[i].key, RewriteAll(es[i].val))
    ensures EntryStrings(out) == ReformatEach(EntryStrings(es))
    decreases es, 0
  {
    if es != [] {
      RewriteReformatsStrings(es[0].val);
      RewriteEntryStrings(es[1..], out[1..]);
      ReformatEachAppend(Strings(es[0].val), EntryStrings(es[1..]));
    }
  }

  // ---------------------------------------------------------------------
  // The Postman collection tree, as far as the importer reads it

  datatype PmHeader = PmHeader(key: string, value: string)

  /** `value` is None when the query parameter has a null or no value. */
  datatype PmQuery = PmQuery(key: string, value: Option<string>)

  /**
   * A URL is an object of parts or a plain string; an absent protocol, host
   * or path part is "" or empty.
   */
  datatype PmUrl =
    | UrlString(raw: string)
    | UrlObject(protocol: string, host: seq<string>, path: seq<string>, query: seq<PmQuery>)

  /** `language` is `options.raw.language` when present. */
  datatype PmBody = PmBody(mode: string, raw: string, language: Option<string>)

  /** An absent header list is the empty list. */
  datatype PmRequest = PmRequest(httpMethod: string, url: Option<PmUrl>, header: seq<PmHeader>, body: Option<PmBody>)

  /**
   * An element of an `item` list: a folder when it has an `item` list
   * (whatever else it has), otherwise a request when it has a `request`,
   * otherwise neither.
   */
  datatype PmItem =
    | PmFolder(name: string, item: seq<PmItem>)
    | PmRequestItem(name: string, request: PmRequest)
    | PmOther(name: string)

  /** `schema` is `info.schema`, None when either is absent. */
  datatype Collection = Collection(schema: Option<string>, item: seq<PmItem>)

  /** A bundle query parameter: one value, or the list of a repeated key's values. */
  datatype ParamValue = Single(value: Option<string>) | Multi(values: seq<Option<string>>)

  /** A bundle request; None marks a field the importer does not set. */
  datatype Converted = Converted(
    httpMethod: string,
    url: Option<string>,
    headers: Option<Dict<string>>,
    params: Option<Dict<ParamValue>>,
    body: Option<Json>)

  // ---------------------------------------------------------------------
  // One request

  /** `r.url` is truthy. */
  predicate UrlPresent(u: Option<PmUrl>) {
    u.Some? && (u.value.UrlObject? || u.value.raw != "")
  }

  /** The parts a string URL lacks read as absent. */
  function Protocol(u: PmUrl): string { if u.UrlObject? then u.protocol else "" }
  function Host(u: PmUrl): seq<string> { if u.UrlObject? then u.host else [] }
  function Path(u: PmUrl): seq<string> { if u.UrlObject? then u.path else [] }
  function Query(u: PmUrl): seq<PmQuery> { if u.UrlObject? then u.query else [] }

  function UrlText(u: PmUrl): string {
    var host := Join(Host(u), ".");
    var path := Join(Path(u), "/");
    if Protocol(u) != "" then Reformat(Protocol(u) + "://" + host + "/" + path)
    else Reformat(host + "/" + path)
  }

  /** The bundle URL of a request, when its parts hold no `{` character. */
  lemma UrlLiteral(u: PmUrl)
    requires forall i :: 0 <= i < |Protocol(u)| ==> Protocol(u)[i] != '{'
    requires forall i :: 0 <= i < |Join(Host(u), ".")| ==> Join(Host(u), ".")[i] != '{'
    requires forall i :: 0 <= i < |Join(Path(u), "/")| ==> Join(Path(u), "/")[i] != '{'
    ensures Protocol(u) != "" ==> UrlText(u) == Protocol(u) + "://" + Join(Host(u), ".") + "/" + Join(Path(u), "/")
    ensures Protocol(u) == "" ==> UrlText(u) == Join(Host(u), ".") + "/" + Join(Path(u), "/")
  {
    var t := if Protocol(u) != "" then Protocol(u) + "://" + Join(Host(u), ".") + "/" + Join(Path(u), "/")
             else Join(Host(u), ".") + "/" + Join(Path(u), "/");
    assert forall i :: 0 <= i < |t| ==> t[i] != '{';
    ReformatLiteralPrefix(t, "");
    assert t + "" == t;
  }

  /** A protocol keeps its place in front, whatever the host and path hold. */
  lemma UrlWithProtocol(u: PmUrl)
    requires Protocol(u) != ""
    requires forall i :: 0 <= i < |Protocol(u)| ==> Protocol(u)[i] != '{'
    ensures UrlText(u) == Protocol(u) + ":/" + Reformat("/" + Join(Host(u), ".") + "/" + Join(Path(u), "/"))
  {
    var rest := "/" + Join(Host(u), ".") + "/" + Join(Path(u), "/");
    var lead := Protocol(u) + ":/";
    assert Protocol(u) + "://" + Join(Host(u), ".") + "/" + Join(Path(u), "/") == lead + rest;
    ReformatLiteralPrefix(lead, rest);
  }

  /** A URL given as a string has no parts, so it becomes "/". */
  lemma UrlStringIsSlash(s: string)
    ensures UrlText(UrlString(s)) == "/"
  {
    ReformatWithoutPlaceholder("/");
    assert "" + "/" + "" == "/";
  }

  /** The headers object the header loop builds. */
  function HeadersOf(hs: seq<PmHeader>): Dict<string> {
    if hs == [] then [] else Put(HeadersOf(hs[..|hs| - 1]), hs[|hs| - 1].key, Reformat(hs[|hs| - 1].value))
  }

  /** Header `j` is the last one named `k`. */
  predicate LastNamed(hs: seq<PmHeader>, j: int, k: string) {
    0 <= j < |hs| && hs[j].key == k && forall i :: j < i < |hs| ==> hs[i].key != k
  }

  /** A key no header has is absent from the headers object. */
  lemma {:induction false} HeadersAbsent(hs: seq<PmHeader>, k: string)
    requires forall i :: 0 <= i < |hs| ==> hs[i].key != k
    ensures Get(HeadersOf(hs), k) == None
    decreases |hs|
  {
    if hs != [] {
      var prev := hs[..|hs| - 1];
      assert forall i :: 0 <= i < |prev| ==> prev[i] == hs[i];
      HeadersAbsent(prev, k);
      GetPut(HeadersOf(prev), hs[|hs| - 1].key, Reformat(hs[|hs| - 1].value), k);
    }
  }

  /** A key holds the reformatted value of the last header that has it. */
  lemma {:induction false} HeadersLastWins(hs: seq<PmHeader>, j: nat, k: string)
    requires LastNamed(hs, j, k)
    ensures Get(HeadersOf(hs), k) == Some(Reformat(hs[j].value))
    decreases |hs|
  {
    var prev := hs[..|hs| - 1];
    var last := hs[|hs| - 1];
    GetPut(HeadersOf(prev), last.key, Reformat(last.value), k);
    if j < |hs| - 1 {
      assert prev[j] == hs[j];
      assert forall i :: j < i < |prev| ==> prev[i] == hs[i];
      HeadersLastWins(prev, j, k);
    }
  }

  predicate IsContentType(h: PmHeader) {
    ToLower(h.key) == "content-type"
  }

  /** The content type the header loop records: "" until a header named content-type in any case. */
  function ContentTypeOf(hs: seq<PmHeader>): (ct: string)
    ensures (forall i :: 0 <= i < |hs| ==> !IsContentType(hs[i])) ==> ct == ""
  {
    if hs == [] then ""
    else
      var prev := hs[..|hs| - 1];
      assert forall i :: 0 <= i < |prev| ==> prev[i] == hs[i];
      if IsContentType(hs[|hs| - 1]) then hs[|hs| - 1].value else ContentTypeOf(prev)
  }

  /** The content type is the value, as written, of the last header named content-type. */
  lemma {:induction false} ContentTypeIsLast(hs: seq<PmHeader>, j: nat)
    requires j < |hs| && IsContentType(hs[j])
    requires forall i :: j < i < |hs| ==> !IsContentType(hs[i])
    ensures ContentTypeOf(hs) == hs[j].value
    decreases |hs|
  {
    if j < |hs| - 1 {
      var prev := hs[..|hs| - 1];
      assert prev[j] == hs[j];
      assert forall i :: j < i < |prev| ==> prev[i] == hs[i];
      ContentTypeIsLast(prev, j);
    }
  }

  /** A parameter value is truthy: a non-empty string, or a list. */
  predicate ParamTruthy(p: ParamValue) {
    p.Multi? || (p.value.Some? && p.value.value != "")
  }

  /**
   * One step of the query loop for a key whose current value is `current`:
   * a truthy value collects the new one into a list; otherwise the new value
   * replaces it.
   */
  function Step(current: Option<ParamValue>, v: Option<string>): ParamValue {
    match current
    case Some(p) =>
      if !ParamTruthy(p) then Single(v)
      else if p.Multi? then Multi(p.values + [v])
      else Multi([p.value, v])
    case None => Single(v)
  }

  function AddParam(params: Dict<ParamValue>, q: PmQuery): Dict<ParamValue> {
    Put(params, q.key, Step(Get(params, q.key), q.value))
  }

  /** The params object the query loop builds. */
  function FoldQuery(qs: seq<PmQuery>): Dict<ParamValue> {
    if qs == [] then [] else AddParam(FoldQuery(qs[..|qs| - 1]), qs[|qs| - 1])
  }

  /** The values of the query parameters named `k`, in order. */
  function ValuesFor(qs: seq<PmQuery>, k: string): (vs: seq<Option<string>>)
    ensures vs == [] <==> forall i :: 0 <= i < |qs| ==> qs[i].key != k
  {
    if qs == [] then []
    else
      var prev := qs[..|qs| - 1];
      assert forall i :: 0 <= i < |prev| ==> prev[i] == qs[i];
      ValuesFor(prev, k) + (if qs[|qs| - 1].key == k then [qs[|qs| - 1].value] else [])
  }

  predicate ValueTruthy(v: Option<string>) {
    v.Some? && v.value != ""
  }

  /** The index of the first truthy value; |vs| when there is none. */
  function FirstTruthy(vs: seq<Option<string>>): (p: nat)
    ensures p <= |vs|
    ensures p < |vs| ==> ValueTruthy(vs[p])
    ensures forall i :: 0 <= i < p ==> !ValueTruthy(vs[i])
  {
    if vs == [] then 0 else if ValueTruthy(vs[0]) then 0 else 1 + FirstTruthy(vs[1..])
  }

  /**
   * What a key's values end up as: once a truthy value is followed by
   * another value, the list of all values from that truthy one on;
   * otherwise the last value alone.
   */
  function Collected(vs: seq<Option<string>>): ParamValue
    requires vs != []
  {
    var p := FirstTruthy(vs);
    if p < |vs| - 1 then Multi(vs[p..]) else Single(vs[|vs| - 1])
  }

  lemma {:induction false} FirstTruthyAppend(vs: seq<Option<string>>, v: Option<string>)
    ensures FirstTruthy(vs + [v]) == if FirstTruthy(vs) < |vs| then FirstTruthy(vs) else if ValueTruthy(v) then |vs| else |vs| + 1
  {
    if vs != [] {
      assert (vs + [v])[0] == vs[0] && (vs + [v])[1..] == vs[1..] + [v];
      FirstTruthyAppend(vs[1..], v);
    } else {
      assert [] + [v] == [v] && [v][1..] == [];
    }
  }

  /** Collecting one more value is one step of the query loop. */
  lemma CollectedAppend(vs: seq<Option<string>>, v: Option<string>)
    requires vs != []
    ensures Collected(vs + [v]) == Step(Some(Collected(vs)), v)
  {
    FirstTruthyAppend(vs, v);
    var p := FirstTruthy(vs);
    if p < |vs| - 1 {
      assert (vs + [v])[p..] == vs[p..] + [v];
    } else if p == |vs| - 1 {
      assert (vs + [v])[p..] == [vs[|vs| - 1], v];
    }
  }

  /**
   * A key that appears once keeps its single value; a key that repeats
   * after a truthy value becomes the list of values from that one on.
   */
  lemma {:induction false} FoldQueryCollects(qs: seq<PmQuery>, k: string)
    ensures Get(FoldQuery(qs), k) == if ValuesFor(qs, k) == [] then None else Some(Collected(ValuesFor(qs, k)))
    decreases |qs|
  {
    if qs != [] {
      var prev := qs[..|qs| - 1];
      var q := qs[|qs| - 1];
      var before := FoldQuery(prev);
      FoldQueryCollects(prev, k);
      assert FoldQuery(qs) == Put(before, q.key, Step(Get(before, q.key), q.value));
      GetPut(before, q.key, Step(Get(before, q.key), q.value), k);
      if q.key == k {
        var vs := ValuesFor(prev, k);
        assert ValuesFor(qs, k) == vs + [q.value];
        if vs != [] {
          CollectedAppend(vs, q.value);
        } else {
          assert ValuesFor(qs, k) == [q.value];
          assert FirstTruthy([q.value]) >= 0;
          assert Collected([q.value]) == Single(q.value);
        }
      } else {
        assert ValuesFor(qs, k) == ValuesFor(prev, k) + [];
        assert ValuesFor(prev, k) + [] == ValuesFor(prev, k);
        assert Get(FoldQuery(qs), k) == Get(before, k);
      }
    }
  }

  /** The bundle body of a request whose body is set. */
  function BodyOf(b: PmBody, contentType: string, parse: string -> Outcome<Json>): Json {
    if b.mode == "raw" then
      if b.language == Some("json") || contentType == "application/json" then
        match parse(b.raw)
        case Ok(v) =>
          (match RewriteInPlace(v)
           case Ok(w) => w
           case Throw(_) => JStr(Reformat(b.raw)))
        case Throw(_) => JStr(Reformat(b.raw))
      else JStr(Reformat(b.raw))
    else JStr("UNSUPPORTED body type " + b.mode + ", could not convert.")
  }

  /** A body marked as JSON that parses to an object or array is kept parsed, with its strings rewritten. */
  lemma JsonBodyParsed(b: PmBody, contentType: string, parse: string -> Outcome<Json>)
    requires b.mode == "raw" && (b.language == Some("json") || contentType == "application/json")
    requires parse(b.raw).Ok? && (parse(b.raw).value.JObj? || parse(b.raw).value.JArr?)
    ensures BodyOf(b, contentType, parse) == RewriteAll(parse(b.raw).value)
    ensures Skeleton(BodyOf(b, contentType, parse)) == Skeleton(parse(b.raw).value)
  {
    RewriteKeepsSkeleton(parse(b.raw).value);
  }

  /**
   * A raw body falls back to its reformatted text when it is not marked as
   * JSON, when it does not parse, or when it parses to a non-empty string.
   */
  lemma RawBodyFallback(b: PmBody, contentType: string, parse: string -> Outcome<Json>)
    requires b.mode == "raw"
    requires !(b.language == Some("json") || contentType == "application/json")
             || parse(b.raw).Throw?
             || (parse(b.raw).value.JStr? && parse(b.raw).value.s != "")
    ensures BodyOf(b, contentType, parse) == JStr(Reformat(b.raw))
  {
  }

  /** Any mode other than raw is reported, whatever the body holds. */
  lemma UnsupportedBody(b: PmBody, contentType: string, parse: string -> Outcome<Json>)
    requires b.mode != "raw"
    ensures BodyOf(b, contentType, parse) == JStr("UNSUPPORTED body type " + b.mode + ", could not convert.")
  {
  }

  /** What `addRequest` stores for a request. */
  function RequestOf(r: PmRequest, parse: string -> Outcome<Json>): Converted {
    Converted(
      r.httpMethod,
      if UrlPresent(r.url) then Some(UrlText(r.url.value)) else None,
      if |r.header| > 0 then Some(HeadersOf(r.header)) else None,
      if UrlPresent(r.url) && |Query(r.url.value)| > 0 then Some(FoldQuery(Query(r.url.value))) else None,
      if r.body.Some? then Some(BodyOf(r.body.value, ContentTypeOf(r.header), parse)) else None)
  }

  /**
   * The content-type header is found in any case and decides, with the
   * body's language, whether a raw body is parsed.
   */
  lemma ContentTypeDecidesParsing(r: PmRequest, parse: string -> Outcome<Json>, j: nat)
    requires j < |r.header| && IsContentType(r.header[j]) && r.header[j].value == "application/json"
    requires forall i :: j < i < |r.header| ==> !IsContentType(r.header[i])
    requires r.body.Some? && r.body.value.mode == "raw"
    requires parse(r.body.value.raw).Ok? && parse(r.body.value.raw).value.JObj?
    ensures RequestOf(r, parse).body == Some(RewriteAll(parse(r.body.value.raw).value))
  {
    ContentTypeIsLast(r.header, j);
  }

  // ---------------------------------------------------------------------
  // Folders

  /** The prefix of a sub-folder's requests; both branches of the source give `prefix + name + "/"`. */
  function SubPrefix(prefix: string, name: string): (p: string)
    ensures p == prefix + name + "/"
  {
    if prefix != "" then prefix + name + "/" else name + "/"
  }

  /** The (key, request) pairs `addRequestsFromFolder` stores, in order. */
  function FolderEntries(prefix: string, items: seq<PmItem>, parse: string -> Outcome<Json>): seq<(string, Converted)>
    decreases items, 1
  {
    if items == [] then []
    else FolderEntries(prefix, items[..|items| - 1], parse) + ItemEntries(prefix, items[|items| - 1], parse)
  }

  function ItemEntries(prefix: string, e: PmItem, parse: string -> Outcome<Json>): seq<(string, Converted)>
    decreases e, 0
  {
    if e.PmFolder? then FolderEntries(SubPrefix(prefix, e.name), e.item, parse)
    else if e.PmRequestItem? then [(prefix + e.name, RequestOf(e.request, parse))]
    else []
  }

  /** `d[k] = v` for each pair in turn. */
  function PutAll<V>(d: Dict<V>, kvs: seq<(string, V)>): Dict<V>
    decreases |kvs|
  {
    if kvs == [] then d else PutAll(Put(d, kvs[0].0, kvs[0].1), kvs[1..])
  }

  lemma {:induction false} PutAllAppend<V>(d: Dict<V>, a: seq<(string, V)>, b: seq<(string, V)>)
    ensures PutAll(d, a + b) == PutAll(PutAll(d, a), b)
    decreases |a|
  {
    if a != [] {
      assert (a + b)[0] == a[0] && (a + b)[1..] == a[1..] + b;
      PutAllAppend(Put(d, a[0].0, a[0].1), a[1..], b);
    } else {
      assert a + b == b;
    }
  }

  /** A key none of the pairs has keeps its old value. */
  lemma {:induction false} PutAllUntouched<V>(d: Dict<V>, kvs: seq<(string, V)>, k: string)
    requires forall i :: 0 <= i < |kvs| ==> kvs[i].0 != k
    ensures Get(PutAll(d, kvs), k) == Get(d, k)
    decreases |kvs|
  {
    if kvs != [] {
      assert forall i :: 0 <= i < |kvs[1..]| ==> kvs[1..][i] == kvs[i + 1];
      PutAllUntouched(Put(d, kvs[0].0, kvs[0].1), kvs[1..], k);
      GetPut(d, kvs[0].0, kvs[0].1, k);
    }
  }

  /** A key holds the value of the last pair that has it: a later request of the same name replaces an earlier one. */
  lemma {:induction false} PutAllLastWins<V>(d: Dict<V>, kvs: seq<(string, V)>, j: nat, k: string)
    requires j < |kvs| && kvs[j].0 == k
    requires forall i :: j < i < |kvs| ==> kvs[i].0 != k
    ensures Get(PutAll(d, kvs), k) == Some(kvs[j].1)
    decreases |kvs|
  {
    var rest := kvs[1..];
    assert forall i :: 0 <= i < |rest| ==> rest[i] == kvs[i + 1];
    if j > 0 {
      PutAllLastWins(Put(d, kvs[0].0, kvs[0].1), rest, j - 1, k);
    } else {
      PutAllUntouched(Put(d, kvs[0].0, kvs[0].1), rest, k);
      GetPut(d, kvs[0].0, kvs[0].1, k);
    }
  }

  /** A request found in the tree: the folders above it, its name and the request. */
  datatype Found = Found(folders: seq<string>, name: string, request: PmRequest)

  /** The requests of a tree, depth first; elements that are neither folder nor request are skipped. */
  function TreeRequests(items: seq<PmItem>): seq<Found>
    decreases items, 1
  {
    if items == [] then [] else TreeRequests(items[..|items| - 1]) + ItemRequests(items[|items| - 1])
  }

  function ItemRequests(e: PmItem): seq<Found>
    decreases e, 0
  {
    if e.PmFolder? then
      var inner := TreeRequests(e.item);
      seq(|inner|, i requires 0 <= i < |inner| => Found([e.name] + inner[i].folders, inner[i].name, inner[i].request))
    else if e.PmRequestItem? then [Found([], e.name, e.request)]
    else []
  }

  /** The names of the folders on a path, each followed by "/". */
  function FolderPath(folders: seq<string>): string {
    if folders == [] then "" else folders[0] + "/" + FolderPath(folders[1..])
  }

  /** The stored key of each found request is the prefix, its folder path and its name. */
  function Keyed(prefix: string, fs: seq<Found>, parse: string -> Outcome<Json>): seq<(string, Converted)> {
    seq(|fs|, i requires 0 <= i < |fs| => (prefix + FolderPath(fs[i].folders) + fs[i].name, RequestOf(fs[i].request, parse)))
  }

  /**
   * Every request of the tree is stored, in depth-first order, under the key
   * `prefix + folder/…/folder/ + name`.
   */
  lemma {:induction false} FolderKeys(prefix: string, items: seq<PmItem>, parse: string -> Outcome<Json>)
    ensures FolderEntries(prefix, items, parse) == Keyed(prefix, TreeRequests(items), parse)
    decreases items, 1
  {
    if items != [] {
      var prev := items[..|items| - 1];
      var e := items[|items| - 1];
      FolderKeys(prefix, prev, parse);
      ItemKeys(prefix, e, parse);
      var a := TreeRequests(prev);
      var b := ItemRequests(e);
      assert TreeRequests(items) == a + b;
      KeyedAppend(prefix, a, b, parse);
    }
  }

  lemma KeyedAppend(prefix: string, a: seq<Found>, b: seq<Found>, parse: string -> Outcome<Json>)
    ensures Keyed(prefix, a + b, parse) == Keyed(prefix, a, parse) + Keyed(prefix, b, parse)
  {
  }

  lemma {:induction false} ItemKeys(prefix: string, e: PmItem, parse: string -> Outcome<Json>)
    ensures ItemEntries(prefix, e, parse) == Keyed(prefix, ItemRequests(e), parse)
    decreases e, 0
  {
    if e.PmFolder? {
      var sub := prefix + e.name + "/";
      FolderKeys(sub, e.item, parse);
      var inner := TreeRequests(e.item);
      var outer := ItemRequests(e);
      forall i | 0 <= i < |inner|
        ensures Keyed(prefix, outer, parse)[i] == Keyed(sub, inner, parse)[i]
      {
        var f := [e.name] + inner[i].folders;
        assert f[1..] == inner[i].folders;
        assert FolderPath(f) == e.name + "/" + FolderPath(inner[i].folders);
        assert prefix + FolderPath(f) + inner[i].name == sub + FolderPath(inner[i].folders) + inner[i].name;
      }
    } else if e.PmRequestItem? {
      assert FolderPath([]) == "";
      assert prefix + "" + e.name == prefix + e.name;
    }
  }

  // ---------------------------------------------------------------------
  // The loops of `addRequest`

  /** The header loop: the headers object and the content type it records. */
  method CollectHeaders(hs: seq<PmHeader>) returns (headers: Dict<string>, contentType: string)
    ensures headers == HeadersOf(hs)
    ensures contentType == ContentTypeOf(hs)
  {
    headers := [];
    contentType := "";
    var i := 0;
    while i < |hs|
      invariant 0 <= i <= |hs|
      invariant headers == HeadersOf(hs[..i])
      invariant contentType == ContentTypeOf(hs[..i])
    {
      var h := hs[i];
      assert hs[..i + 1][..i] == hs[..i];
      headers := Put(headers, h.key, Reformat(h.value));
      if ToLower(h.key) == "content-type" {
        contentType := h.value;
      }
      i := i + 1;
    }
    assert hs[..|hs|] == hs;
  }

  /** The query loop: a repeated key turns its value into a list and pushes onto it. */
  method CollectParams(qs: seq<PmQuery>) returns (params: Dict<ParamValue>)
    ensures params == FoldQuery(qs)
  {
    params := [];
    var i := 0;
    while i < |qs|
      invariant 0 <= i <= |qs|
      invariant params == FoldQuery(qs[..i])
    {
      var q := qs[i];
      assert qs[..i + 1][..i] == qs[..i];
      match Get(params, q.key) {
        case Some(p) =>
          if !ParamTruthy(p) {
            params := Put(params, q.key, Single(q.value));
          } else if p.Multi? {
            params := Put(params, q.key, Multi(p.values + [q.value]));
          } else {
            params := Put(params, q.key, Multi([p.value, q.value]));
          }
        case None =>
          params := Put(params, q.key, Single(q.value));
      }
      i := i + 1;
    }
    assert qs[..|qs|] == qs;
  }

  /** The body: parsed and rewritten when marked as JSON, else reformatted text, else reported. */
  method ChooseBody(b: PmBody, contentType: string, parse: string -> Outcome<Json>) returns (body: Json)
    ensures body == BodyOf(b, contentType, parse)
  {
    if b.mode == "raw" {
      if b.language == Some("json") || contentType == "application/json" {
        match parse(b.raw) {
          case Ok(v) =>
            var w := ReformatVariablesInObject(v);
            if w.Ok? {
              body := w.value;
            } else {
              body := JStr(Reformat(b.raw));
            }
          case Throw(_) =>
            body := JStr(Reformat(b.raw));
        }
      } else {
        body := JStr(Reformat(b.raw));
      }
    } else {
      body := JStr("UNSUPPORTED body type " + b.mode + ", could not convert.");
    }
  }

  // ---------------------------------------------------------------------
  // The requests dictionary

  /** The `requests` object of the bundle being built, shared by the recursive walk. */
  class RequestTable {
    var requests: Dict<Converted>

    constructor ()
      ensures requests == []
    {
      requests := [];
    }

    /** `addRequest(prefix, element, requests)`. */
    method AddRequest(prefix: string, name: string, r: PmRequest, parse: string -> Outcome<Json>)
      modifies this
      ensures requests == Put(old(requests), prefix + name, RequestOf(r, parse))
    {
      var url: Option<string> := None;
      if UrlPresent(r.url) {
        url := Some(UrlText(r.url.value));
      }

      var headers: Option<Dict<string>> := None;
      var contentType := "";
      if |r.header| > 0 {
        var hs;
        hs, contentType := CollectHeaders(r.header);
        headers := Some(hs);
      }

      var params: Option<Dict<ParamValue>> := None;
      if UrlPresent(r.url) && |Query(r.url.value)| > 0 {
        var ps := CollectParams(Query(r.url.value));
        params := Some(ps);
      }

      var body: Option<Json> := None;
      if r.body.Some? {
        var b := ChooseBody(r.body.value, contentType, parse);
        body := Some(b);
      }

      requests := Put(requests, prefix + name, Converted(r.httpMethod, url, headers, params, body));
    }

    /** `addRequestsFromFolder(prefix, item, requests)`. */
    method AddRequestsFromFolder(prefix: string, items: seq<PmItem>, parse: string -> Outcome<Json>)
      modifies this
      ensures requests == PutAll(old(requests), FolderEntries(prefix, items, parse))
      decreases items
    {
      var i := 0;
      while i < |items|
        invariant 0 <= i <= |items|
        invariant requests == PutAll(old(requests), FolderEntries(prefix, items[..i], parse))
      {
        var e := items[i];
        ghost var done := FolderEntries(prefix, items[..i], parse);
        ghost var before := requests;
        assert FolderEntries(prefix, items[..i + 1], parse) == done + ItemEntries(prefix, e, parse) by {
          assert items[..i + 1][..i] == items[..i];
        }
        PutAllAppend(old(requests), done, ItemEntries(prefix, e, parse));
        if e.PmFolder? {
          AddRequestsFromFolder(SubPrefix(prefix, e.name), e.item, parse);
        } else if e.PmRequestItem? {
          AddRequest(prefix, e.name, e.request, parse);
          assert PutAll(before, [(prefix + e.name, RequestOf(e.request, parse))]) == requests;
        }
        i := i + 1;
      }
      assert items[..|items|] == items;
    }
  }

  // ---------------------------------------------------------------------
  // Collections and environments

  const CollectionSchema := "https://schema.getpostman.com/json/collection/v2.1.0/collection.json"
  const NotCollection := "Not a Postman v2.1.0 collection. Cannot import"

  /** The requests of a collection, or the error for a collection of another version. */
  method ConvertCollection(c: Collection, parse: string -> Outcome<Json>) returns (o: Outcome<Dict<Converted>>)
    ensures c.schema != Some(CollectionSchema) ==> o == Throw(NotCollection)
    ensures c.schema == Some(CollectionSchema) ==> o == Ok(PutAll([], FolderEntries("", c.item, parse)))
  {
    if c.schema != Some(CollectionSchema) {
      return Throw(NotCollection);
    }
    var table := new RequestTable();
    table.AddRequestsFromFolder("", c.item, parse);
    o := Ok(table.requests);
  }

  const EssentialKeys: seq<string> := ["name", "_postman_variable_scope", "values"]
  const NotEnvironment := "Did you select an exported postman environment?"

  /** The error of reading a property of null or undefined, or calling what is not a function. */
  const TypeError := "TypeError"

  /**
   * `v.hasOwnProperty(k)` for the essential keys: only an object can have
   * them (arrays and strings own just "length" and their indices).
   */
  predicate HasOwn(v: Json, k: string) {
    v.JObj? && exists i :: 0 <= i < |v.entries| && v.entries[i].key == k
  }

  /** The variable set of an environment: its name, its variables, and whether it holds globals. */
  datatype VariableSet = VariableSet(envName: string, vars: Dict<Json>, globals: bool)

  /** `variables[name][item.key] = item.value` for each item in turn; null or undefined items throw. */
  function VariablesOf(items: seq<Json>): (r: Outcome<Dict<Json>>)
    ensures r.Throw? ==> r.error == TypeError
  {
    if items == [] then Ok([])
    else
      var prev := items[..|items| - 1];
      var item := items[|items| - 1];
      assert forall i :: 0 <= i < |prev| ==> prev[i] == items[i];
      match VariablesOf(prev)
      case Throw(e) => Throw(e)
      case Ok(d) =>
        if item.JNull? || item.JUndefined? then Throw(TypeError)
        else Ok(Put(d, ToJsString(Prop(item, "key")), Prop(item, "value")))
  }

  /** The variable set of an exported environment, or the reason it is refused. */
  function EnvironmentOf(env: Json): Outcome<VariableSet> {
    if env.JNull? || env.JUndefined? then Throw(TypeError)
    else if !(HasOwn(env, "name") && HasOwn(env, "_postman_variable_scope") && HasOwn(env, "values")) then
      Throw(NotEnvironment)
    else
      var values := Prop(env, "values");
      if !values.JArr? then Throw(TypeError)
      else match VariablesOf(values.items)
        case Throw(e) => Throw(e)
        case Ok(vars) =>
          Ok(VariableSet(ToJsString(Prop(env, "name")), vars, Prop(env, "_postman_variable_scope") == JStr("globals")))
  }

  /** `convertEnvironment` up to the YAML text: the key check, then the values loop. */
  method ConvertEnvironment(env: Json) returns (o: Outcome<VariableSet>)
    ensures o == EnvironmentOf(env)
  {
    if env.JNull? || env.JUndefined? {
      return Throw(TypeError);
    }
    var essential := HasEssentialKeys(env);
    if !essential {
      return Throw(NotEnvironment);
    }
    var name := ToJsString(Prop(env, "name"));
    var values := Prop(env, "values");
    if !values.JArr? {
      return Throw(TypeError);
    }
    var vars := ConvertValues(values.items);
    if vars.Throw? {
      return Throw(vars.error);
    }
    o := Ok(VariableSet(name, vars.value, Prop(env, "_postman_variable_scope") == JStr("globals")));
  }

  /** The loop over the essential keys: whether the environment has all three as own keys. */
  method HasEssentialKeys(env: Json) returns (b: bool)
    ensures b <==> HasOwn(env, "name") && HasOwn(env, "_postman_variable_scope") && HasOwn(env, "values")
  {
    var k := 0;
    while k < |EssentialKeys|
      invariant 0 <= k <= |EssentialKeys|
      invariant forall j :: 0 <= j < k ==> HasOwn(env, EssentialKeys[j])
    {
      if !HasOwn(env, EssentialKeys[k]) {
        return false;
      }
      k := k + 1;
    }
    assert HasOwn(env, EssentialKeys[0]) && HasOwn(env, EssentialKeys[1]) && HasOwn(env, EssentialKeys[2]);
    return true;
  }

  /** The loop over the environment's values. */
  method ConvertValues(items: seq<Json>) returns (o: Outcome<Dict<Json>>)
    ensures o == VariablesOf(items)
  {
    var vars: Dict<Json> := [];
    var i := 0;
    while i < |items|
      invariant 0 <= i <= |items|
      invariant VariablesOf(items[..i]) == Ok(vars)
    {
      var item := items[i];
      assert items[..i + 1][..i] == items[..i];
      if item.JNull? || item.JUndefined? {
        assert VariablesOf(items[..i + 1]).Throw?;
        VariablesThrowSticks(items, i + 1);
        return Throw(TypeError);
      }
      vars := Put(vars, ToJsString(Prop(item, "key")), Prop(item, "value"));
      i := i + 1;
    }
    assert items[..|items|] == items;
    o := Ok(vars);
  }

  /** Once an item throws, the whole loop throws with the same error. */
  lemma {:induction false} VariablesThrowSticks(items: seq<Json>, n: nat)
    requires n <= |items|
    requires VariablesOf(items[..n]).Throw?
    ensures VariablesOf(items) == VariablesOf(items[..n])
    decreases |items| - n
  {
    if n < |items| {
      assert items[..n + 1][..n] == items[..n];
      VariablesThrowSticks(items, n + 1);
    } else {
      assert items[..n] == items;
    }
  }

  /** A null or undefined item. */
  predicate Nullish(v: Json) {
    v.JNull? || v.JUndefined?
  }

  /** The values loop throws exactly when an item is null or undefined. */
  lemma {:induction false} VariablesThrow(items: seq<Json>)
    ensures VariablesOf(items).Throw? <==> exists i :: 0 <= i < |items| && Nullish(items[i])
    decreases |items|
  {
    if items != [] {
      var prev := items[..|items| - 1];
      assert forall i :: 0 <= i < |prev| ==> prev[i] == items[i];
      VariablesThrow(prev);
      if Nullish(items[|items| - 1]) {
        assert exists i :: 0 <= i < |items| && Nullish(items[i]);
      }
    }
  }

  /** The (key, value) pair each item of `values` stores. */
  function VariablePairs(items: seq<Json>): (pairs: seq<(string, Json)>)
    ensures |pairs| == |items|
  {
    seq(|items|, i requires 0 <= i < |items| => (ToJsString(Prop(items[i], "key")), Prop(items[i], "value")))
  }

  /**
   * Without null items, the variables are every item's value stored under
   * its key in turn, so the last item with a key decides its value.
   */
  lemma {:induction false} VariablesStored(items: seq<Json>)
    requires forall i :: 0 <= i < |items| ==> !Nullish(items[i])
    ensures VariablesOf(items) == Ok(PutAll([], VariablePairs(items)))
    decreases |items|
  {
    if items != [] {
      var prev := items[..|items| - 1];
      var item := items[|items| - 1];
      assert forall i :: 0 <= i < |prev| ==> prev[i] == items[i];
      VariablesStored(prev);
      var pair := (ToJsString(Prop(item, "key")), Prop(item, "value"));
      assert VariablePairs(items) == VariablePairs(prev) + [pair];
      PutAllAppend([], VariablePairs(prev), [pair]);
    }
  }

  /** An environment is refused as not exported by Postman exactly when it is an object-like value missing an essential key. */
  lemma EnvironmentRefused(env: Json)
    ensures EnvironmentOf(env) == Throw(NotEnvironment) <==>
              !Nullish(env) && exists k :: k in EssentialKeys && !HasOwn(env, k)
  {
    if !Nullish(env) && HasOwn(env, "name") && HasOwn(env, "_postman_variable_scope") && HasOwn(env, "values") {
      var values := Prop(env, "values");
      if values.JArr? {
        VariablesThrow(values.items);
      }
      assert forall k :: k in EssentialKeys ==> HasOwn(env, k);
    } else if !Nullish(env) {
      if !HasOwn(env, "name") { assert "name" in EssentialKeys; }
      else if !HasOwn(env, "_postman_variable_scope") { assert "_postman_variable_scope" in EssentialKeys; }
      else { assert "values" in EssentialKeys; }
    }
  }

  /**
   * An environment object with the essential keys, a `values` array and no
   * null items converts; its variable set is named after `name` and holds
   * every item's value under its key, the last item with a key winning.
   */
  lemma EnvironmentAccepted(env: Json, j: nat, k: string)
    requires HasOwn(env, "name") && HasOwn(env, "_postman_variable_scope") && HasOwn(env, "values")
    requires Prop(env, "values").JArr?
    requires forall i :: 0 <= i < |Prop(env, "values").items| ==> !Nullish(Prop(env, "values").items[i])
    requires j < |Prop(env, "values").items|
    requires ToJsString(Prop(Prop(env, "values").items[j], "key")) == k
    requires forall i :: j < i < |Prop(env, "values").items| ==> ToJsString(Prop(Prop(env, "values").items[i], "key")) != k
    ensures EnvironmentOf(env).Ok?
    ensures EnvironmentOf(env).value.envName == ToJsString(Prop(env, "name"))
    ensures Get(EnvironmentOf(env).value.vars, k) == Some(Prop(Prop(env, "values").items[j], "value"))
  {
    var items := Prop(env, "values").items;
    VariablesStored(items);
    PutAllLastWins([], VariablePairs(items), j, k);
  }
}
