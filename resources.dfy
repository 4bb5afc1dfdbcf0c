/**
 * The resources the routers hand out: the three "unknown" pages, the CORS
 * pre-flight answer, the built-in `list_versions` call, and the render rule
 * of every call resource, under which a request is completed exactly once
 * whether its handler returns, raises or returns a Deferred.
 */
module Resources {

  import opened Wrappers
  import opened Strings
  import opened Json
  import opened Http
  import opened ApiErrors
  import opened UrlDispatch
  import WebApi

  // ---------------------------------------------------------------
  // The failure pages
  // ---------------------------------------------------------------

  /** The status and content type every failure page sets before building its error. */
  function FailurePage(st: RequestState, status: int): RequestState
  {
    st.(responseCode := status, responseHeaders := st.responseHeaders["Content-Type" := JsonContentType])
  }

  /**
   * `UnknownAPI.render_GET`: 404 and the unknown-API error naming the URI's
   * first path segment. `None` where the URI has no `/` (Python's `IndexError`).
   */
  method RenderUnknownApi(req: Request) returns (r: Option<Body>)
    modifies req
    ensures var fields := Split(req.uri, '/');
      var st := FailurePage(old(req.State()), 404);
      (|fields| < 2 ==> r.None? && req.State() == st) &&
      (|fields| >= 2 ==> var e := Describe(UnknownAPI(fields[1]));
                         r == Some(Str(e)) && req.State() == AfterError(st, e, 404))
  {
    req.SetResponseCode(404);
    req.SetHeader("Content-Type", JsonContentType);
    var fields := Split(req.uri, '/');
    if |fields| < 2 {
      return None;
    }
    var e := Raise(req, UnknownAPI(fields[1]));
    return Some(Str(e));
  }

  /** For `/<api>` and `/<api>/<rest>`, the segment the unknown-API page names is `<api>`. */
  lemma UnknownApiName(api: string, rest: Option<string>)
    requires '/' !in api
    ensures var uri := if rest.Some? then "/" + api + "/" + rest.value else "/" + api;
      |Split(uri, '/')| >= 2 && Split(uri, '/')[1] == api
  {
    var tail := if rest.Some? then api + ['/'] + rest.value else api;
    var uri := if rest.Some? then "/" + api + "/" + rest.value else "/" + api;
    assert uri == [] + ['/'] + tail;
    SplitCons([], tail, '/');
    if rest.Some? {
      SplitCons(api, rest.value, '/');
    }
  }

  /** `UnknownCall.render_GET`: 404 and the unknown-call error naming the URI's last path segment. */
  method RenderUnknownCall(req: Request) returns (r: Body)
    modifies req
    ensures var fields := Split(req.uri, '/');
      var e := Describe(UnknownAPICall(fields[|fields| - 1]));
      r == Str(e) && req.State() == AfterError(FailurePage(old(req.State()), 404), e, 404)
  {
    req.SetResponseCode(404);
    req.SetHeader("Content-Type", JsonContentType);
    var fields := Split(req.uri, '/');
    var e := Raise(req, UnknownAPICall(fields[|fields| - 1]));
    return Str(e);
  }

  /** For `<prefix>/<call>`, the segment the unknown-call page names is `<call>` (query string included). */
  lemma UnknownCallName(prefix: string, call: string)
    requires '/' !in call
    ensures var fields := Split(prefix + "/" + call, '/'); fields[|fields| - 1] == call
  {
    assert prefix + "/" + call == prefix + ['/'] + call;
    SplitAround(prefix, call, '/');
  }

  /** `UnknownVersion.render_GET`: 406 and the unknown-version error quoting the header as sent, or "". */
  method RenderUnknownVersion(req: Request) returns (r: Body)
    modifies req
    ensures var e := Describe(UnknownAPIVersion(req.GetHeader(ApiVersionHeader).GetOr("")));
      r == Str(e) && req.State() == AfterError(FailurePage(old(req.State()), 406), e, 406)
  {
    var header := req.GetHeader(ApiVersionHeader).GetOr("");
    req.SetResponseCode(406);
    req.SetHeader("Content-Type", JsonContentType);
    var e := Raise(req, UnknownAPIVersion(header));
    return Str(e);
  }

  /** Each failure page's body is the envelope of its own error code, which a client can decode back. */
  lemma FailureBodies(api: string, call: string, version: string)
    ensures ParseEnvelope(Str(Describe(UnknownAPI(api))).j) == Some(Describe(UnknownAPI(api)))
    ensures ParseEnvelope(Str(Describe(UnknownAPICall(call))).j) == Some(Describe(UnknownAPICall(call)))
    ensures ParseEnvelope(Str(Describe(UnknownAPIVersion(version))).j) == Some(Describe(UnknownAPIVersion(version)))
    ensures Describe(UnknownAPI(api)).errorCode == 208 && Describe(UnknownAPICall(call)).errorCode == 203
    ensures Describe(UnknownAPIVersion(version)).errorCode == 207
  {
    EnvelopeRoundTrip(Describe(UnknownAPI(api)));
    EnvelopeRoundTrip(Describe(UnknownAPICall(call)));
    EnvelopeRoundTrip(Describe(UnknownAPIVersion(version)));
  }

  // ---------------------------------------------------------------
  // CORS pre-flight
  // ---------------------------------------------------------------

  const AllowedVerbs: seq<string> :=
    ["PUT", "GET", "DELETE", "POST", "HEAD", "TRACE", "CONNECT", "PROPFIND", "PROPPATCH",
     "MKCOL", "COPY", "MOVE", "LOCK", "UNLOCK"]

  /** The headers the pre-flight allows: those asked for, else the names of the headers sent. */
  function AllowedHeaders(req: Request): string
  {
    var asked := req.GetHeader("Access-Control-Request-Headers");
    if Present(asked) then asked.value else Join(req.headerOrder, ',')
  }

  /** `CORSInterrogation.render_OPTIONS`: 200, the allowed methods and headers, credentials allowed, empty body. */
  method RenderOptions(req: Request) returns (r: Body)
    modifies req
    ensures r == Text("")
    ensures req.State() == old(req.State()).(
      responseCode := 200,
      responseHeaders := old(req.responseHeaders)["Access-Control-Allow-Methods" := Join(AllowedVerbs, ',')]
                                                 ["Access-Control-Allow-Headers" := AllowedHeaders(req)]
                                                 ["Access-Control-Allow-Credentials" := "true"])
  {
    var allowed := AllowedHeaders(req);
    req.SetResponseCode(200);
    req.SetHeader("Access-Control-Allow-Methods", Join(AllowedVerbs, ','));
    req.SetHeader("Access-Control-Allow-Headers", allowed);
    req.SetHeader("Access-Control-Allow-Credentials", "true");
    return Text("");
  }

  /** A client splitting `Access-Control-Allow-Methods` at commas reads back the fourteen verbs. */
  lemma AdvertisedVerbs()
    ensures Split(Join(AllowedVerbs, ','), ',') == AllowedVerbs
  {
    forall k | 0 <= k < |AllowedVerbs|
      ensures ',' !in AllowedVerbs[k]
    {
      var v := AllowedVerbs[k];
      assert forall i :: 0 <= i < |v| ==> 'A' <= v[i] <= 'Z';
    }
    SplitJoin(AllowedVerbs, ',');
  }

  /** A sequence with no members is empty. */
  lemma NoMembersEmpty(s: seq<string>)
    ensures (forall k :: k !in s) ==> s == []
  {
    if s != [] {
      assert s[0] in s;
    }
  }

  /**
   * Requested headers are echoed; otherwise the names of the headers sent
   * are listed, and splitting the list at commas gives each of them back
   * exactly once (header names never contain a comma).
   */
  lemma EchoedHeaders(req: Request)
    requires req.HeadersListed()
    ensures Present(req.GetHeader("Access-Control-Request-Headers")) ==>
      AllowedHeaders(req) == req.headers["Access-Control-Request-Headers"]
    ensures !Present(req.GetHeader("Access-Control-Request-Headers")) && req.headers.Keys != {} &&
            (forall k :: k in req.headers ==> ',' !in k) ==>
      var names := Split(AllowedHeaders(req), ',');
      (forall x :: x in names <==> x in req.headers) &&
      (forall i :: 0 <= i < |names| ==> names[i] !in names[..i])
    ensures !Present(req.GetHeader("Access-Control-Request-Headers")) && req.headers.Keys == {} ==>
      AllowedHeaders(req) == ""
  {
    if !Present(req.GetHeader("Access-Control-Request-Headers")) {
      if req.headers.Keys != {} && (forall k :: k in req.headers ==> ',' !in k) {
        var k :| k in req.headers.Keys;
        assert k in req.headerOrder;
        assert forall i :: 0 <= i < |req.headerOrder| ==> req.headerOrder[i] in req.headers;
        SplitJoin(req.headerOrder, ',');
      } else if req.headers.Keys == {} {
        assert forall k :: k !in req.headerOrder;
        NoMembersEmpty(req.headerOrder);
      }
    }
  }

  // ---------------------------------------------------------------
  // list_versions
  // ---------------------------------------------------------------

  function JStrings(items: seq<string>): (r: seq<Json>)
    ensures |r| == |items| && forall i :: 0 <= i < |items| ==> r[i] == JString(items[i])
  {
    seq(|items|, i requires 0 <= i < |items| => JString(items[i]))
  }

  /** The body of `list_versions`. */
  function Listing(versions: seq<string>, current: string): Json
  {
    JObject(map["all_versions" := JArray(JStrings(versions)), "curr_version" := JString(current)])
  }

  /** The listing names every version id once, in byte-wise order, and the version serving the request. */
  ghost predicate ListsVersions(j: Json, ids: set<string>, current: string)
  {
    exists vs :: StrictlySorted(vs) && (forall x :: x in vs <==> x in ids) && j == Listing(vs, current)
  }

  /** There is one such listing for a set of ids, however the version map orders its keys. */
  lemma ListingDetermined(j1: Json, j2: Json, ids: set<string>, current: string)
    requires ListsVersions(j1, ids, current) && ListsVersions(j2, ids, current)
    ensures j1 == j2
  {
    var v1 :| StrictlySorted(v1) && (forall x :: x in v1 <==> x in ids) && j1 == Listing(v1, current);
    var v2 :| StrictlySorted(v2) && (forall x :: x in v2 <==> x in ids) && j2 == Listing(v2, current);
    SortedUnique(v1, v2);
  }

  /**
   * `ListVersionsCall.render_GET`: the sorted version ids of the router the
   * call was reached through and the version chosen for this request. It
   * raises when the call router has no version router or no version was chosen.
   */
  method ListVersions(req: Request, calls: CallRouter, dumps: Json -> string) returns (o: HandlerOutcome)
    modifies req
    ensures calls.versionRouter == null || old(req.apiVersion).None? ==>
      o.Throws? && req.State() == old(req.State())
    ensures calls.versionRouter != null && old(req.apiVersion).Some? ==>
      o == Returns(PyNone) && |req.written| == |old(req.written)| + 1 &&
      var body := req.written[|req.written| - 1];
      body.Encoded? && ListsVersions(body.j, calls.versionRouter.versionMap.Keys, old(req.apiVersion).value) &&
      req.State() == old(req.State()).(
        responseHeaders := old(req.responseHeaders)["Content-Length" := Numbers.NatString(|WebApi.Utf8(dumps(body.j))|)],
        written := old(req.written) + [body])
  {
    if calls.versionRouter == null {
      return Throws("'NoneType' object has no attribute 'get_version_map'");
    }
    var versions := SortKeys(calls.versionRouter.GetVersionMap().Keys);
    if req.apiVersion.None? {
      return Throws("Request instance has no attribute 'api_version'");
    }
    var listing := Listing(versions, req.apiVersion.value);
    WebApi.WriteJson(req, listing, dumps);
    return Returns(PyNone);
  }

  // ---------------------------------------------------------------
  // Rendering a call
  // ---------------------------------------------------------------

  /**
   * `URLMatchJSONResource.render` given how the method's handler ended: a
   * value is passed on, an `Exception` becomes the unexpected-server-error
   * envelope, a Deferred makes the render answer `NOT_DONE_YET`. A raise the
   * `except Exception` clause does not catch (an `APIError` derives from
   * `BaseException`) propagates out of `render`, which then answers nothing
   * and changes nothing: `None` here.
   */
  method Render(req: Request, outcome: HandlerOutcome) returns (r: Option<PyValue>)
    modifies req
    ensures outcome.Returns? ==> r == Some(outcome.value) && req.State() == old(req.State())
    ensures outcome.Defers? ==> r == Some(NotDoneYet) && req.State() == old(req.State())
    ensures outcome.Escapes? ==> r.None? && req.State() == old(req.State())
    ensures outcome.Throws? ==>
      var e := Describe(UnexpectedServer(outcome.message));
      r == Some(PyStr(Str(e))) && req.State() == AfterError(old(req.State()), e, 409)
  {
    match outcome {
      case Returns(v) =>
        r := Some(v);
      case Throws(message) =>
        var e := Raise(req, UnexpectedServer(message));
        r := Some(PyStr(Str(e)));
      case Escapes(_) =>
        r := None;
      case Defers =>
        r := Some(NotDoneYet);
    }
  }

  /**
   * What a settled Deferred leaves: one body and one `finish`. A falsy result
   * is written as "", a string as itself; a failure, or a result `write`
   * refuses (a truthy non-string, failing with `writeFailure`), is written as
   * the unexpected-server-error envelope.
   */
  function Settled(st: RequestState, s: Settlement, writeFailure: string): RequestState
  {
    match s
    case Fires(v) =>
      if !Truthy(v) then st.(written := st.written + [Text("")], finished := st.finished + 1)
      else if v.PyStr? then st.(written := st.written + [v.body], finished := st.finished + 1)
      else Failed(st, writeFailure)
    case Fails(message) => Failed(st, message)
  }

  function Failed(st: RequestState, message: string): RequestState
  {
    var e := Describe(UnexpectedServer(message));
    var after := AfterError(st, e, 409);
    after.(written := after.written + [Str(e)], finished := after.finished + 1)
  }

  /** However a Deferred settles, the request gets exactly one more body and is finished exactly once. */
  lemma SettledOnce(st: RequestState, s: Settlement, writeFailure: string)
    ensures var after := Settled(st, s, writeFailure);
      after.finished == st.finished + 1 && |after.written| == |st.written| + 1 &&
      after.written[..|st.written|] == st.written && after.args == st.args &&
      after.responseHeaders == st.responseHeaders
    ensures s.Fires? && Truthy(s.result) && s.result.PyStr? ==>
      Settled(st, s, writeFailure).written[|st.written|] == s.result.body &&
      Settled(st, s, writeFailure).responseCode == st.responseCode
  {
    match s
    case Fires(v) =>
      if Truthy(v) && !v.PyStr? {
        FailedOnce(st, writeFailure);
      }
    case Fails(message) =>
      FailedOnce(st, message);
  }

  lemma FailedOnce(st: RequestState, message: string)
    ensures var after := Failed(st, message);
      after.finished == st.finished + 1 && after.written == st.written + [Str(Describe(UnexpectedServer(message)))] &&
      after.args == st.args && after.responseHeaders == st.responseHeaders
  {
  }

  /** The callback and errback attached to a handler's Deferred. */
  method Settle(req: Request, s: Settlement, writeFailure: string)
    modifies req
    ensures req.State() == Settled(old(req.State()), s, writeFailure)
  {
    match s {
      case Fires(v) =>
        if !Truthy(v) {
          req.Write(Text(""));
          req.Finish();
        } else if v.PyStr? {
          req.Write(v.body);
          req.Finish();
        } else {
          Fail(req, writeFailure);
        }
      case Fails(message) =>
        Fail(req, message);
    }
  }

  method Fail(req: Request, message: string)
    modifies req
    ensures req.State() == Failed(old(req.State()), message)
  {
    var e := Raise(req, UnexpectedServer(message));
    req.Write(Str(e));
    req.Finish();
  }
}
