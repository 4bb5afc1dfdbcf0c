/**
 * The HTTP request a resource renders, reduced to what the dispatcher, the
 * validators and the permission gate read and change. Fixed request data
 * (URI, method, headers, body, credentials, received cookies) are constants;
 * everything the framework assigns while handling the request is a field,
 * and `State()` snapshots those fields so that each operation can say what
 * it changed and that nothing else did.
 */
module Http {

  import opened Wrappers
  import opened Json

  /** A response body: literal text, or the `json.dumps` text of a JSON value. */
  datatype Body = Text(s: string) | Encoded(j: Json)

  /** A value a render function produces, as far as the framework inspects it. */
  datatype PyValue =
    | PyStr(body: Body)
    | PyNone
    | NotDoneYet
    | PyOther(truthy: bool)

  /** Python truthiness: the empty string and `None` are false, `NOT_DONE_YET` (the integer 1) is true. */
  predicate Truthy(v: PyValue)
  {
    match v
    case PyStr(b) => !(b.Text? && b.s == "")
    case PyNone => false
    case NotDoneYet => true
    case PyOther(t) => t
  }

  /**
   * How a render method's handler ends: a value, a raise of an `Exception`,
   * a raise of a `BaseException` that is not an `Exception` (an `APIError`,
   * `KeyboardInterrupt`, `SystemExit`), or a Deferred.
   */
  datatype HandlerOutcome = Returns(value: PyValue) | Throws(message: string) | Escapes(message: string) | Defers

  /** How a Deferred eventually fires: with a result, or with a failure message. */
  datatype Settlement = Fires(result: PyValue) | Fails(message: string)

  /** An outgoing cookie as `addCookie` records it. */
  datatype Cookie = Cookie(name: string, value: string, expires: string, path: string)

  /** Everything about a request that handling it may change. */
  datatype RequestState = RequestState(
    args: map<string, seq<string>>,
    responseCode: int,
    responseHeaders: map<string, string>,
    written: seq<Body>,
    finished: nat,
    apiMode: Option<string>,
    apiVersion: Option<string>,
    apiName: Option<string>,
    apiConfig: Option<map<string, Json>>,
    metricsOn: bool,
    counters: seq<string>,
    jsonArgs: Option<Json>,
    permissions: Option<seq<string>>,
    authNamespace: Option<string>,
    cookies: seq<Cookie>)

  const ApiVersionHeader: string := "X-DigiTar-API-Version"

  class Request {
    const uri: string
    const verb: string
    /** Request headers by name. */
    const headers: map<string, string>
    /** The order in which `getAllHeaders().keys()` lists the header names. */
    const headerOrder: seq<string>
    const content: string
    const user: string
    const password: string
    const receivedCookies: map<string, string>
    /** `request.url_matches`, when a handler has attached one. */
    const urlMatches: Option<map<string, string>>

    var args: map<string, seq<string>>
    var responseCode: int
    var responseHeaders: map<string, string>
    var written: seq<Body>
    var finished: nat
    var apiMode: Option<string>
    var apiVersion: Option<string>
    var apiName: Option<string>
    var apiConfig: Option<map<string, Json>>
    /** Whether a metrics client is attached (`request.metrics` is truthy). */
    var metricsOn: bool
    /** The metric names the attached client has been asked to increment, in order. */
    var counters: seq<string>
    var jsonArgs: Option<Json>
    var permissions: Option<seq<string>>
    var authNamespace: Option<string>
    var cookies: seq<Cookie>

    constructor (uri: string, verb: string, headers: map<string, string>, headerOrder: seq<string>,
                 content: string, user: string, password: string,
                 receivedCookies: map<string, string>, urlMatches: Option<map<string, string>>,
                 args: map<string, seq<string>>)
      requires forall k :: k in headerOrder <==> k in headers
      requires forall i :: 0 <= i < |headerOrder| ==> headerOrder[i] !in headerOrder[..i]
      ensures HeadersListed()
      ensures this.uri == uri && this.verb == verb && this.headers == headers
      ensures this.headerOrder == headerOrder && this.content == content
      ensures this.user == user && this.password == password
      ensures this.receivedCookies == receivedCookies && this.urlMatches == urlMatches
      ensures State() == RequestState(args, 200, map[], [], 0, None, None, None, None, false, [], None, None, None, [])
    {
      this.uri := uri;
      this.verb := verb;
      this.headers := headers;
      this.headerOrder := headerOrder;
      this.content := content;
      this.user := user;
      this.password := password;
      this.receivedCookies := receivedCookies;
      this.urlMatches := urlMatches;
      this.args := args;
      responseCode := 200;
      responseHeaders := map[];
      written := [];
      finished := 0;
      apiMode := None;
      apiVersion := None;
      apiName := None;
      apiConfig := None;
      metricsOn := false;
      counters := [];
      jsonArgs := None;
      permissions := None;
      authNamespace := None;
      cookies := [];
    }

    /** `getAllHeaders().keys()` lists every request header name once. */
    ghost predicate HeadersListed()
    {
      (forall k :: k in headerOrder <==> k in headers) &&
      (forall i :: 0 <= i < |headerOrder| ==> headerOrder[i] !in headerOrder[..i])
    }

    function State(): RequestState
      reads this
    {
      RequestState(args, responseCode, responseHeaders, written, finished, apiMode, apiVersion,
                   apiName, apiConfig, metricsOn, counters, jsonArgs, permissions, authNamespace, cookies)
    }

    /** `getHeader(name)`: `None` when the header was not sent. */
    function GetHeader(name: string): (r: Option<string>)
      ensures r.Some? <==> name in headers
    {
      Get(headers, name)
    }

    method SetHeader(name: string, value: string)
      modifies this
      ensures State() == old(State()).(responseHeaders := old(responseHeaders)[name := value])
    {
      responseHeaders := responseHeaders[name := value];
    }

    method SetResponseCode(code: int)
      modifies this
      ensures State() == old(State()).(responseCode := code)
    {
      responseCode := code;
    }

    method Write(body: Body)
      modifies this
      ensures State() == old(State()).(written := old(written) + [body])
    {
      written := written + [body];
    }

    method Finish()
      modifies this
      ensures State() == old(State()).(finished := old(finished) + 1)
    {
      finished := finished + 1;
    }

    method SetArg(name: string, values: seq<string>)
      modifies this
      ensures State() == old(State()).(args := old(args)[name := values])
    {
      args := args[name := values];
    }

    method SetApiMode(mode: string)
      modifies this
      ensures State() == old(State()).(apiMode := Some(mode))
    {
      apiMode := Some(mode);
    }

    method SetApiVersion(version: string)
      modifies this
      ensures State() == old(State()).(apiVersion := Some(version))
    {
      apiVersion := Some(version);
    }

    method SetApiName(name: string)
      modifies this
      ensures State() == old(State()).(apiName := Some(name))
    {
      apiName := Some(name);
    }

    method SetApiConfig(config: map<string, Json>)
      modifies this
      ensures State() == old(State()).(apiConfig := Some(config))
    {
      apiConfig := Some(config);
    }

    /** `request.metrics = stats.metrics`: the process-wide client is always attached. */
    method AttachMetrics()
      modifies this
      ensures State() == old(State()).(metricsOn := true)
    {
      metricsOn := true;
    }

    /** `request.metrics.increment(name)`. */
    method Increment(name: string)
      modifies this
      ensures State() == old(State()).(counters := old(counters) + [name])
    {
      counters := counters + [name];
    }

    method SetJsonArgs(value: Json)
      modifies this
      ensures State() == old(State()).(jsonArgs := Some(value))
    {
      jsonArgs := Some(value);
    }

    method SetAuth(perms: seq<string>, namespace: string)
      modifies this
      ensures State() == old(State()).(permissions := Some(perms), authNamespace := Some(namespace))
    {
      permissions := Some(perms);
      authNamespace := Some(namespace);
    }

    method AddCookie(cookie: Cookie)
      modifies this
      ensures State() == old(State()).(cookies := old(cookies) + [cookie])
    {
      cookies := cookies + [cookie];
    }
  }
}
