/**
 * The curl serialiser: a `curl` command line for a fully merged request.
 *
 * `getBody`, `getURL` and `getParamsForUrl` live in a module outside this
 * model; they are the fields of a `CurlHost`, about which nothing is assumed.
 */
module ConstructCurl {
  import opened Js
  import opened Models

  datatype CurlHost = CurlHost(
    getBody: Json -> string,
    getURL: (Option<string>, string, string) -> string,
    /** The second argument is the raw-mode flag, `undefined` when absent. */
    getParamsForUrl: (seq<Param>, Json) -> string)

  /** The strings joined end to end. */
  function Concat(ss: seq<string>): string {
    if ss == [] then "" else Concat(ss[..|ss| - 1]) + ss[|ss| - 1]
  }

  lemma {:induction false} ConcatAppend(a: seq<string>, b: seq<string>)
    ensures Concat(a + b) == Concat(a) + Concat(b)
    decreases |b|
  {
    if b == [] {
      assert a + b == a;
    } else {
      assert (a + b)[..|a + b| - 1] == a + b[..|b| - 1];
      ConcatAppend(a, b[..|b| - 1]);
    }
  }

  function HeaderFlag(name: string, value: string): string {
    " -H '" + name + ": " + value + "'"
  }

  /** One `-H` flag per header, in enumeration order. */
  function HeaderFlags(headers: Dict<string>): (fs: seq<string>)
    ensures |fs| == |headers|
  {
    seq(|headers|, i requires 0 <= i < |headers| => HeaderFlag(headers[i].0, headers[i].1))
  }

  function MethodFlag(req: HttpRequest): string {
    " -X " + ToUpper(req.httpMethod)
  }

  /** One `-H` flag per header, in enumeration order; none when headers are undefined. */
  function HeaderSegments(req: HttpRequest): seq<string> {
    if req.headers.Some? then HeaderFlags(req.headers.value) else []
  }

  function BodyFlag(h: CurlHost, req: HttpRequest): string {
    if req.body != JUndefined then " -d '" + h.getBody(req.body) + "'" else ""
  }

  function FollowFlag(o: Options): string {
    if o.follow then " -L" else ""
  }

  function VerifySSLFlag(o: Options): string {
    if !o.verifySSL then " -k" else ""
  }

  /** The quoted URL, its query built with `raw` as the raw-mode flag. */
  function UrlArgument(h: CurlHost, r: RequestSpec, raw: Json): string {
    var req := r.httpRequest;
    " '" + h.getURL(req.baseUrl, req.url, h.getParamsForUrl(req.params, raw)) + "'"
  }

  /** The command line, its URL query built with `raw` as the raw-mode flag. */
  function Command(h: CurlHost, r: RequestSpec, raw: Json): string {
    "curl" + MethodFlag(r.httpRequest) + Concat(HeaderSegments(r.httpRequest)) + BodyFlag(h, r.httpRequest)
    + FollowFlag(r.options) + VerifySSLFlag(r.options) + UrlArgument(h, r, raw)
  }

  /**
   * The command as intended: the raw-mode flag is taken from the `rawParams`
   * option, so the URL at its end honours it.
   */
  function CurlCommand(h: CurlHost, r: RequestSpec): (cmd: string)
    ensures StartsWith(cmd, "curl -X " + ToUpper(r.httpRequest.httpMethod))
    ensures var u := UrlArgument(h, r, JBool(r.options.rawParams));
            |u| <= |cmd| && cmd[|cmd| - |u|..] == u
  {
    CommandStartsWithMethod(h, r, JBool(r.options.rawParams));
    CommandEndsWithUrl(h, r, JBool(r.options.rawParams));
    Command(h, r, JBool(r.options.rawParams))
  }

  /** The command as the source builds it: it reads `options.raw`, which `Options` does not have. */
  function CurlCommandAsWritten(h: CurlHost, r: RequestSpec): string {
    Command(h, r, JUndefined)
  }

  /**
   * `getCurlRequest` as written: the raw-mode flag it hands to
   * `getParamsForUrl` is `options.raw`, which is always undefined.
   */
  method GetCurlRequest(h: CurlHost, request: RequestSpec) returns (finalCurl: string)
    ensures finalCurl == CurlCommandAsWritten(h, request)
  {
    var req := request.httpRequest;
    var methodFlag := " -X " + ToUpper(req.httpMethod);
    var headersFlag := "";
    if req.headers.Some? {
      var headers := req.headers.value;
      var i := 0;
      while i < |headers|
        invariant 0 <= i <= |headers|
        invariant headersFlag == Concat(HeaderFlags(headers)[..i])
      {
        assert HeaderFlags(headers)[..i + 1][..i] == HeaderFlags(headers)[..i];
        headersFlag := headersFlag + HeaderFlag(headers[i].0, headers[i].1);
        i := i + 1;
      }
      assert HeaderFlags(headers)[..|headers|] == HeaderFlags(headers);
    }
    var bodyFlag := "";
    if req.body != JUndefined {
      bodyFlag := bodyFlag + " -d '" + h.getBody(req.body) + "'";
      assert bodyFlag == BodyFlag(h, req);
    }
    var followRedirectFlag := "";
    if request.options.follow {
      followRedirectFlag := " -L";
    }
    var verifySSLFlag := "";
    if !request.options.verifySSL {
      verifySSLFlag := " -k";
    }
    var url := " '" + h.getURL(req.baseUrl, req.url, h.getParamsForUrl(req.params, JUndefined)) + "'";
    finalCurl := "curl" + methodFlag + headersFlag + bodyFlag + followRedirectFlag + verifySSLFlag + url;
  }

  /** A flag that may be absent, as a list of zero or one segment. */
  function Optional(s: string): seq<string> {
    if s == "" then [] else [s]
  }

  /**
   * The segments of the command line in their fixed order: program, method,
   * headers, body, follow, insecure, URL.
   */
  function Segments(h: CurlHost, r: RequestSpec, raw: Json): seq<string> {
    ["curl", MethodFlag(r.httpRequest)] + HeaderSegments(r.httpRequest) + Optional(BodyFlag(h, r.httpRequest))
    + Optional(FollowFlag(r.options)) + Optional(VerifySSLFlag(r.options)) + [UrlArgument(h, r, raw)]
  }

  lemma ConcatOne(s: string)
    ensures Concat([s]) == s
  {
    assert [s][..0] == [];
  }

  lemma ConcatOptional(s: string)
    ensures Concat(Optional(s)) == s
  {
    if s != "" {
      ConcatOne(s);
    }
  }

  /** The command is its segments joined in order. */
  lemma SegmentsJoin(h: CurlHost, r: RequestSpec, raw: Json)
    ensures Concat(Segments(h, r, raw)) == Command(h, r, raw)
  {
    var a := ["curl", MethodFlag(r.httpRequest)];
    var hs := HeaderSegments(r.httpRequest);
    var b := Optional(BodyFlag(h, r.httpRequest));
    var f := Optional(FollowFlag(r.options));
    var k := Optional(VerifySSLFlag(r.options));
    var u := [UrlArgument(h, r, raw)];
    ConcatAppend(a, hs);
    ConcatAppend(a + hs, b);
    ConcatAppend(a + hs + b, f);
    ConcatAppend(a + hs + b + f, k);
    ConcatAppend(a + hs + b + f + k, u);
    assert Concat(a) == "curl" + MethodFlag(r.httpRequest) by {
      assert a[..1] == ["curl"];
      ConcatOne("curl");
    }
    ConcatOne(UrlArgument(h, r, raw));
    ConcatOptional(BodyFlag(h, r.httpRequest));
    ConcatOptional(FollowFlag(r.options));
    ConcatOptional(VerifySSLFlag(r.options));
  }

  /** Each part of the command stated on its own. */
  lemma SegmentsLayout(h: CurlHost, r: RequestSpec, raw: Json)
    ensures var segs := Segments(h, r, raw);
            var nh := if r.httpRequest.headers.Some? then |r.httpRequest.headers.value| else 0;
            var nb := if r.httpRequest.body != JUndefined then 1 else 0;
            var nf := if r.options.follow then 1 else 0;
            var nk := if !r.options.verifySSL then 1 else 0;
            && |segs| == 3 + nh + nb + nf + nk
            && segs[0] == "curl"
            && segs[1] == " -X " + ToUpper(r.httpRequest.httpMethod)
            && (forall i :: 0 <= i < nh ==>
                  segs[2 + i] == HeaderFlag(r.httpRequest.headers.value[i].0, r.httpRequest.headers.value[i].1))
            && (nb == 1 ==> segs[2 + nh] == " -d '" + h.getBody(r.httpRequest.body) + "'")
            && (nf == 1 ==> segs[2 + nh + nb] == " -L")
            && (nk == 1 ==> segs[2 + nh + nb + nf] == " -k")
            && segs[|segs| - 1] == UrlArgument(h, r, raw)
  {
  }

  /** Segments start with distinct marks, so each flag can be recognised. */
  predicate StartsWith(s: string, p: string) {
    |p| <= |s| && s[..|p|] == p
  }

  /** The number of header segments. */
  function HeaderCount(req: HttpRequest): nat {
    if req.headers.Some? then |req.headers.value| else 0
  }

  /** Every segment is one of the seven kinds, told apart by its first characters. */
  lemma SegmentKinds(h: CurlHost, r: RequestSpec, raw: Json, i: nat)
    requires i < |Segments(h, r, raw)|
    ensures var s := Segments(h, r, raw)[i];
            var nh := HeaderCount(r.httpRequest);
            var nb := |Optional(BodyFlag(h, r.httpRequest))|;
            var nf := |Optional(FollowFlag(r.options))|;
            var nk := |Optional(VerifySSLFlag(r.options))|;
            && (i == 0 ==> s == "curl")
            && (i == 1 ==> |s| >= 4 && s[..4] == " -X " && s[2] == 'X')
            && (2 <= i < 2 + nh ==> |s| >= 5 && s[..5] == " -H '" && s[1] == '-' && s[2] == 'H')
            && (nb == 1 && i == 2 + nh ==> |s| >= 5 && s[..5] == " -d '" && s[1] == '-' && s[2] == 'd')
            && (nf == 1 && i == 2 + nh + nb ==> s == " -L")
            && (nk == 1 && i == 2 + nh + nb + nf ==> s == " -k")
            && (i == 2 + nh + nb + nf + nk ==> |s| >= 3 && s[..2] == " '" && s[1] == '\'')
            && i <= 2 + nh + nb + nf + nk
  {
    SegmentsLayout(h, r, raw);
    var req := r.httpRequest;
    var nh := HeaderCount(req);
    var nb := |Optional(BodyFlag(h, req))|;
    if i == 1 {
      Leading(" -X ", ToUpper(req.httpMethod), "", "", "");
      assert " -X " + ToUpper(req.httpMethod) + "" + "" + "" == " -X " + ToUpper(req.httpMethod);
    } else if 2 <= i < 2 + nh {
      HeaderSegmentKind(h, r, raw, i);
    } else if nb == 1 && i == 2 + nh {
      Leading(" -d '", h.getBody(req.body), "'", "", "");
      assert " -d '" + h.getBody(req.body) + "'" + "" + "" == " -d '" + h.getBody(req.body) + "'";
    } else {
      UrlSegmentKind(h, r, raw);
    }
  }

  /** A header segment starts with ` -H '`. */
  lemma HeaderSegmentKind(h: CurlHost, r: RequestSpec, raw: Json, i: nat)
    requires 2 <= i < 2 + HeaderCount(r.httpRequest)
    ensures i < |Segments(h, r, raw)|
    ensures var s := Segments(h, r, raw)[i];
            |s| >= 5 && s[..5] == " -H '" && s[1] == '-' && s[2] == 'H'
  {
    SegmentsLayout(h, r, raw);
    var hd := r.httpRequest.headers.value[i - 2];
    Leading(" -H '", hd.0, ": ", hd.1, "'");
  }

  /** The last segment is the quoted URL. */
  lemma UrlSegmentKind(h: CurlHost, r: RequestSpec, raw: Json)
    ensures var segs := Segments(h, r, raw);
            var s := segs[|segs| - 1];
            |s| >= 3 && s[..2] == " '" && s[1] == '\''
  {
    SegmentsLayout(h, r, raw);
    var req := r.httpRequest;
    var u := h.getURL(req.baseUrl, req.url, h.getParamsForUrl(req.params, raw));
    Leading(" '", u, "'", "", "");
    assert " '" + u + "'" + "" + "" == " '" + u + "'";
  }

  /** The first characters of a segment are those of its leading mark. */
  lemma Leading(p: string, a: string, b: string, c: string, d: string)
    ensures var s := p + a + b + c + d;
            |p| <= |s| && s[..|p|] == p && forall j :: 0 <= j < |p| ==> s[j] == p[j]
  {
    var s := p + a + b + c + d;
    assert s == p + (a + b + c + d);
  }

  /** There is one ` -H` segment per header, at the header's position, and no other. */
  lemma OneHeaderFlagPerHeader(h: CurlHost, r: RequestSpec, raw: Json, i: nat)
    requires i < |Segments(h, r, raw)|
    ensures StartsWith(Segments(h, r, raw)[i], " -H ") <==> 2 <= i < 2 + HeaderCount(r.httpRequest)
  {
    SegmentKinds(h, r, raw, i);
    var s := Segments(h, r, raw)[i];
    if |s| >= 4 {
      assert s[..4][1] == s[1] && s[..4][2] == s[2];
    }
    if 2 <= i < 2 + HeaderCount(r.httpRequest) {
      assert s[..4] == s[..5][..4];
    }
  }

  /** A ` -d` segment is present exactly when the body is defined. */
  lemma BodyFlagIffBody(h: CurlHost, r: RequestSpec, raw: Json)
    ensures (exists i :: 0 <= i < |Segments(h, r, raw)| && StartsWith(Segments(h, r, raw)[i], " -d "))
            <==> r.httpRequest.body != JUndefined
  {
    var segs := Segments(h, r, raw);
    var nh := HeaderCount(r.httpRequest);
    if r.httpRequest.body != JUndefined {
      SegmentKinds(h, r, raw, 2 + nh);
      assert StartsWith(segs[2 + nh], " -d ") by { assert segs[2 + nh][..4] == segs[2 + nh][..5][..4]; }
    } else {
      forall i | 0 <= i < |segs| ensures !StartsWith(segs[i], " -d ") {
        SegmentKinds(h, r, raw, i);
        if |segs[i]| >= 4 {
          assert segs[i][..4][1] == segs[i][1] && segs[i][..4][2] == segs[i][2];
        }
      }
    }
  }

  /** ` -L` is present exactly when redirects are followed. */
  lemma FollowFlagIffFollow(h: CurlHost, r: RequestSpec, raw: Json)
    ensures " -L" in Segments(h, r, raw) <==> r.options.follow
  {
    var segs := Segments(h, r, raw);
    var nh := HeaderCount(r.httpRequest);
    var nb := |Optional(BodyFlag(h, r.httpRequest))|;
    if r.options.follow {
      SegmentKinds(h, r, raw, 2 + nh + nb);
    } else {
      forall i | 0 <= i < |segs| ensures segs[i] != " -L" {
        SegmentKinds(h, r, raw, i);
      }
    }
  }

  /** ` -k` is present exactly when certificates are not verified. */
  lemma InsecureFlagIffNoVerify(h: CurlHost, r: RequestSpec, raw: Json)
    ensures " -k" in Segments(h, r, raw) <==> !r.options.verifySSL
  {
    var segs := Segments(h, r, raw);
    var nh := HeaderCount(r.httpRequest);
    var nb := |Optional(BodyFlag(h, r.httpRequest))|;
    var nf := |Optional(FollowFlag(r.options))|;
    if !r.options.verifySSL {
      SegmentKinds(h, r, raw, 2 + nh + nb + nf);
    } else {
      forall i | 0 <= i < |segs| ensures segs[i] != " -k" {
        SegmentKinds(h, r, raw, i);
      }
    }
  }

  lemma StartsWithExtend(s: string, p: string, y: string)
    requires StartsWith(s, p)
    ensures StartsWith(s + y, p)
  {
    assert (s + y)[..|p|] == s[..|p|];
  }

  /** The command starts with `curl -X ` and the method in upper case, whatever the raw-mode flag. */
  lemma CommandStartsWithMethod(h: CurlHost, r: RequestSpec, raw: Json)
    ensures StartsWith(Command(h, r, raw), "curl -X " + ToUpper(r.httpRequest.httpMethod))
  {
    var req := r.httpRequest;
    var p := "curl" + MethodFlag(req);
    assert p == "curl -X " + ToUpper(req.httpMethod);
    assert StartsWith(p, p) by { assert p[..|p|] == p; }
    StartsWithExtend(p, p, Concat(HeaderSegments(req)));
    var s1 := p + Concat(HeaderSegments(req));
    StartsWithExtend(s1, p, BodyFlag(h, req));
    var s2 := s1 + BodyFlag(h, req);
    StartsWithExtend(s2, p, FollowFlag(r.options));
    var s3 := s2 + FollowFlag(r.options);
    StartsWithExtend(s3, p, VerifySSLFlag(r.options));
    var s4 := s3 + VerifySSLFlag(r.options);
    StartsWithExtend(s4, p, UrlArgument(h, r, raw));
  }

  /** The command ends with the URL in single quotes, its query built with the raw-mode flag given. */
  lemma CommandEndsWithUrl(h: CurlHost, r: RequestSpec, raw: Json)
    ensures var cmd := Command(h, r, raw);
            var u := UrlArgument(h, r, raw);
            |u| <= |cmd| && cmd[|cmd| - |u|..] == u
  {
  }

  /** As written, the `rawParams` option has no effect on the command. */
  lemma AsWrittenIgnoresRawParams(h: CurlHost, r: RequestSpec, raw: bool)
    ensures CurlCommandAsWritten(h, r.(options := r.options.(rawParams := raw))) == CurlCommandAsWritten(h, r)
  {
  }

  /** A `getParamsForUrl` that leaves values unencoded in raw mode. */
  function RawAwareHost(): CurlHost {
    CurlHost(
      (b: Json) => "",
      (base: Option<string>, url: string, query: string) => url + query,
      (ps: seq<Param>, raw: Json) => if raw == JBool(true) then "?raw" else "?encoded")
  }

  /** A request asking for raw parameters. */
  function RawRequest(): RequestSpec {
    RequestSpec(
      "r",
      HttpRequest(None, "http://h", "get", [], None, JUndefined),
      false,
      Options(false, true, false, false, true, false),
      JUndefined)
  }

  /** With a host that honours raw mode, the command as written differs from the corrected one. */
  lemma RawParamsDropped()
    ensures UrlArgument(RawAwareHost(), RawRequest(), JUndefined) == " 'http://h?encoded'"
    ensures UrlArgument(RawAwareHost(), RawRequest(), JBool(true)) == " 'http://h?raw'"
    ensures CurlCommandAsWritten(RawAwareHost(), RawRequest()) != CurlCommand(RawAwareHost(), RawRequest())
  {
    var h := RawAwareHost();
    var r := RawRequest();
    var asWritten := UrlArgument(h, r, JUndefined);
    var corrected := UrlArgument(h, r, JBool(true));
    assert |asWritten| != |corrected|;
  }
}
