/**
 * The `APIError` hierarchy: a fixed numeric code, a class name and a text
 * template per kind, the JSON error envelope `obj_err` builds, and the
 * effects constructing an error has on the request (status code, metric).
 */
module ApiErrors {

  import opened Wrappers
  import opened Json
  import opened Http
  import Numbers

  /** A `%`-template split at its `%s` conversions: literal text and argument slots. */
  datatype Piece = Lit(text: string) | Slot

  /** Python's `template % args` for a template of `%s` slots; `None` where Python raises. */
  function Format(template: seq<Piece>, args: seq<string>): Option<string>
  {
    if |template| == 0 then
      if |args| == 0 then Some("") else None
    else if template[0].Slot? then
      if |args| == 0 then None
      else
        var r := Format(template[1..], args[1..]);
        if r.Some? then Some(args[0] + r.value) else None
    else
      var r := Format(template[1..], args);
      if r.Some? then Some(template[0].text + r.value) else None
  }

  /** The count of slots in a template. */
  function Slots(template: seq<Piece>): nat
  {
    if |template| == 0 then 0 else (if template[0].Slot? then 1 else 0) + Slots(template[1..])
  }

  /** Formatting succeeds exactly when there is one argument per slot. */
  lemma {:induction false} FormatArity(template: seq<Piece>, args: seq<string>)
    ensures Format(template, args).Some? <==> |args| == Slots(template)
  {
    if |template| > 0 {
      if template[0].Slot? && |args| > 0 {
        FormatArity(template[1..], args[1..]);
      } else if !template[0].Slot? {
        FormatArity(template[1..], args);
      }
    }
  }

  /** The error kinds the framework raises, each with the arguments its text is formatted with. */
  datatype ErrorKind =
    | UnknownAPI(apiName: string)
    | UnknownAPIVersion(apiVersion: string)
    | UnknownAPICall(callName: string)
    | JSONEncode
    | JSONDecode
    | RequestNotHash
    | AccessDenied
    | Value(argName: string, extraDesc: string)
    | ContentType
    | CharsetNotUTF8
    | UnexpectedServer(errorMsg: string)
    | InvalidAuthentication
    | InvalidSecureCookie(cookieName: string, signature: string)
    | ExpiredSecureCookie(expiredName: string)

  /** An initialised error: the three attributes `obj_err` reports. */
  datatype ApiError = ApiError(errorCode: int, exceptionClass: string, exceptionText: string)

  function Code(k: ErrorKind): int
  {
    match k
    case UnknownAPI(_) => 208
    case UnknownAPIVersion(_) => 207
    case UnknownAPICall(_) => 203
    case JSONEncode => 204
    case JSONDecode => 205
    case RequestNotHash => 206
    case AccessDenied => 501
    case Value(_, _) => 502
    case ContentType => 503
    case CharsetNotUTF8 => 504
    case UnexpectedServer(_) => 505
    case InvalidAuthentication => 506
    case InvalidSecureCookie(_, _) => 507
    case ExpiredSecureCookie(_) => 508
  }

  function ClassName(k: ErrorKind): string
  {
    match k
    case UnknownAPI(_) => "UnknownAPIError"
    case UnknownAPIVersion(_) => "UnknownAPIVersionError"
    case UnknownAPICall(_) => "UnknownAPICallError"
    case JSONEncode => "JSONEncodeError"
    case JSONDecode => "JSONDecodeError"
    case RequestNotHash => "RequestNotHashError"
    case AccessDenied => "AccessDeniedError"
    case Value(_, _) => "ValueError"
    case ContentType => "ContentTypeError"
    case CharsetNotUTF8 => "CharsetNotUTF8Error"
    case UnexpectedServer(_) => "UnexpectedServerError"
    case InvalidAuthentication => "InvalidAuthenticationError"
    case InvalidSecureCookie(_, _) => "InvalidSecureCookieError"
    case ExpiredSecureCookie(_) => "ExpiredSecureCookieError"
  }

  /** The class attribute `exception_text`, before any formatting; `Slot` marks each `%s`. */
  function Template(k: ErrorKind): seq<Piece>
  {
    match k
    case UnknownAPI(_) => [Lit("The requested API '"), Slot, Lit("' is unknown.")]
    case UnknownAPIVersion(_) =>
      [Lit("API version '"), Slot, Lit("' is invalid or specifies an API/version that does not exist.")]
    case UnknownAPICall(_) => [Lit("The requested API call '"), Slot, Lit("' is unknown.")]
    case JSONEncode => [Lit("An unrecoverable error has occurred JSON-encoding the API call result.")]
    case JSONDecode => [Lit("Arguments passed in API call request are not validly formed JSON.")]
    case RequestNotHash => [Lit("Request body must be a JSON-encoded hash table/dictionary.")]
    case AccessDenied => [Lit("Insufficient permission to perform the requested action.")]
    case Value(_, _) => [Lit("Invalid value for argument '"), Slot, Lit("'. "), Slot]
    case ContentType =>
      [Lit("The Content-Type of the API request was not of the expected format...or the API/version requested does not exist.")]
    case CharsetNotUTF8 =>
      [Lit("The Content-Type of the API request did not specify a charset, or the charset specified was not UTF-8.")]
    case UnexpectedServer(_) => [Lit("An unexpected error has occurred processing the request. Error: '"), Slot, Lit("'")]
    case InvalidAuthentication =>
      [Lit("Authentication information is invalidly formed and/or missing required elements.")]
    case InvalidSecureCookie(_, _) => [Lit("Secure cookie '"), Slot, Lit("' signature '"), Slot, Lit("' is invalid.")]
    case ExpiredSecureCookie(_) => [Lit("Secure cookie '"), Slot, Lit("' is expired.")]
  }

  /** The arguments a subclass's `__init__` formats its template with (none for a fixed text). */
  function TemplateArgs(k: ErrorKind): seq<string>
  {
    match k
    case UnknownAPI(n) => [n]
    case UnknownAPIVersion(v) => [v]
    case UnknownAPICall(c) => [c]
    case Value(a, d) => [a, d]
    case UnexpectedServer(m) => [m]
    case InvalidSecureCookie(n, s) => [n, s]
    case ExpiredSecureCookie(n) => [n]
    case _ => []
  }

  /** The text the error carries once its `__init__` has formatted the template. */
  function Text(k: ErrorKind): string
  {
    match k
    case UnknownAPI(n) => "The requested API '" + n + "' is unknown."
    case UnknownAPIVersion(v) => "API version '" + v + "' is invalid or specifies an API/version that does not exist."
    case UnknownAPICall(c) => "The requested API call '" + c + "' is unknown."
    case Value(a, d) => "Invalid value for argument '" + a + "'. " + d
    case UnexpectedServer(m) => "An unexpected error has occurred processing the request. Error: '" + m + "'"
    case InvalidSecureCookie(n, s) => "Secure cookie '" + n + "' signature '" + s + "' is invalid."
    case ExpiredSecureCookie(n) => "Secure cookie '" + n + "' is expired."
    case _ => Template(k)[0].text
  }

  /** Every text is its class's template formatted with the kind's arguments, and formatting never raises. */
  lemma TextFormatsTemplate(k: ErrorKind)
    ensures Format(Template(k), TemplateArgs(k)) == Some(Text(k))
  {
    if k.UnknownAPI? || k.UnknownAPIVersion? || k.UnknownAPICall? || k.UnexpectedServer? || k.ExpiredSecureCookie? {
      OneSlotTextFormats(k);
    } else if k.Value? || k.InvalidSecureCookie? {
      TwoSlotTextFormats(k);
    } else {
      FormatLiteral(Text(k));
    }
  }

  lemma OneSlotTextFormats(k: ErrorKind)
    requires k.UnknownAPI? || k.UnknownAPIVersion? || k.UnknownAPICall? || k.UnexpectedServer? || k.ExpiredSecureCookie?
    ensures Format(Template(k), TemplateArgs(k)) == Some(Text(k))
  {
    match k
    case UnknownAPI(n) => FormatOneSlot("The requested API '", "' is unknown.", n);
    case UnknownAPIVersion(v) =>
      FormatOneSlot("API version '", "' is invalid or specifies an API/version that does not exist.", v);
    case UnknownAPICall(c) => FormatOneSlot("The requested API call '", "' is unknown.", c);
    case UnexpectedServer(m) =>
      FormatOneSlot("An unexpected error has occurred processing the request. Error: '", "'", m);
    case ExpiredSecureCookie(n) => FormatOneSlot("Secure cookie '", "' is expired.", n);
  }

  lemma TwoSlotTextFormats(k: ErrorKind)
    requires k.Value? || k.InvalidSecureCookie?
    ensures Format(Template(k), TemplateArgs(k)) == Some(Text(k))
  {
    match k
    case Value(a, d) => FormatTwoSlots("Invalid value for argument '", "'. ", a, d);
    case InvalidSecureCookie(n, sig) =>
      FormatSlotThenLiteral("Secure cookie '", "' signature '", "' is invalid.", n, sig);
  }

  lemma FormatLiteral(a: string)
    ensures Format([Lit(a)], []) == Some(a)
  {
    assert [Lit(a)][1..] == [];
    assert a + "" == a;
  }

  lemma FormatTwoSlots(a: string, b: string, x: string, y: string)
    ensures Format([Lit(a), Slot, Lit(b), Slot], [x, y]) == Some(a + x + b + y)
  {
    var t := [Lit(a), Slot, Lit(b), Slot];
    assert t[1..] == [Slot, Lit(b), Slot] && t[1..][1..] == [Lit(b), Slot] && t[1..][1..][1..] == [Slot];
    assert [Slot][1..] == [];
    assert [x, y][1..] == [y] && [y][1..] == [];
    assert Format([], []) == Some("");
    assert y + "" == y;
    assert Format([Slot], [y]) == Some(y);
    assert Format([Lit(b), Slot], [y]) == Some(b + y);
    assert Format([Slot, Lit(b), Slot], [x, y]) == Some(x + (b + y));
    assert a + (x + (b + y)) == a + x + b + y;
  }

  lemma FormatSlotThenLiteral(a: string, b: string, c: string, x: string, y: string)
    ensures Format([Lit(a), Slot, Lit(b), Slot, Lit(c)], [x, y]) == Some(a + x + b + y + c)
  {
    var t := [Lit(a), Slot, Lit(b), Slot, Lit(c)];
    assert t[1..] == [Slot, Lit(b), Slot, Lit(c)] && t[1..][1..] == [Lit(b), Slot, Lit(c)];
    assert t[1..][1..][1..] == [Slot, Lit(c)] && t[1..][1..][1..][1..] == [Lit(c)];
    assert [x, y][1..] == [y] && [y][1..] == [];
    FormatLiteral(c);
    assert Format([Slot, Lit(c)], [y]) == Some(y + c);
    assert Format([Lit(b), Slot, Lit(c)], [y]) == Some(b + (y + c));
    assert Format([Slot, Lit(b), Slot, Lit(c)], [x, y]) == Some(x + (b + (y + c)));
    assert a + (x + (b + (y + c))) == a + x + b + y + c;
  }

  lemma FormatOneSlot(a: string, b: string, x: string)
    ensures Format([Lit(a), Slot, Lit(b)], [x]) == Some(a + x + b)
  {
    var t := [Lit(a), Slot, Lit(b)];
    assert t[1..][1..] == [Lit(b)] && t[1..] == [Slot, Lit(b)];
    assert [x][1..] == [];
    FormatLiteral(b);
    assert a + (x + b) == a + x + b;
  }

  /**
   * The status the request is left with: `__init__` sets 409 and the three
   * "unknown" kinds and `ContentTypeError` override it afterwards.
   */
  function Status(k: ErrorKind): int
  {
    match k
    case UnknownAPI(_) => 404
    case UnknownAPICall(_) => 404
    case UnknownAPIVersion(_) => 406
    case ContentType => 406
    case _ => 409
  }

  function Describe(k: ErrorKind): ApiError
  {
    ApiError(Code(k), ClassName(k), Text(k))
  }

  /** Codes and class names identify the same kinds: two kinds share a code exactly when they share a class. */
  lemma CodesMatchClasses(a: ErrorKind, b: ErrorKind)
    ensures Code(a) == Code(b) <==> ClassName(a) == ClassName(b)
  {
    if ClassName(a) == ClassName(b) {
      assert |ClassName(a)| == |ClassName(b)|;
    }
  }

  /** Every status is 409 except for the kinds that name a missing API, call or version, or a wrong content type. */
  lemma StatusOverrides(k: ErrorKind)
    ensures Status(k) != 409 <==> (k.UnknownAPI? || k.UnknownAPICall? || k.UnknownAPIVersion? || k.ContentType?)
    ensures Status(k) == 404 <==> (k.UnknownAPI? || k.UnknownAPICall?)
  {
  }

  // ---------------------------------------------------------------
  // Generic initialisation (`APIError.__init__`)
  // ---------------------------------------------------------------

  /** The class attributes `error_code`, `exception_class`, `exception_text` (`None` on `APIError` itself). */
  datatype ClassAttrs = ClassAttrs(code: Option<int>, cls: Option<string>, text: Option<string>)

  /** An `error_code` argument: `int()` accepts integers and numeric text. */
  datatype CodeArg = IntCode(i: int) | TextCode(s: string)

  datatype InitFailure = CodeNotInteger | CodeUninitialized | ClassUninitialized | TextUninitialized

  const BaseAttrs: ClassAttrs := ClassAttrs(None, None, None)

  /** The attributes of a subclass, its text already formatted by the subclass's `__init__`. */
  function Attrs(k: ErrorKind): ClassAttrs
  {
    ClassAttrs(Some(Code(k)), Some(ClassName(k)), Some(Text(k)))
  }

  function ParseCode(c: CodeArg): Option<int>
  {
    match c
    case IntCode(i) => Some(i)
    case TextCode(s) => Numbers.ParseInt(s)
  }

  /**
   * The three attributes, each taken from its argument when one is passed and
   * from the class otherwise, checked in the order code, class, text.
   */
  function Init(attrs: ClassAttrs, code: Option<CodeArg>, cls: Option<string>, text: Option<string>): Result<ApiError, InitFailure>
  {
    var c := if code.Some? then ParseCode(code.value) else attrs.code;
    if code.Some? && c.None? then Err(CodeNotInteger)
    else if c.None? then Err(CodeUninitialized)
    else if cls.None? && attrs.cls.None? then Err(ClassUninitialized)
    else if text.None? && attrs.text.None? then Err(TextUninitialized)
    else Ok(ApiError(c.value, if cls.Some? then cls.value else attrs.cls.value,
                     if text.Some? then text.value else attrs.text.value))
  }

  /** Initialisation succeeds exactly when each attribute is passed (and the code is an integer) or set on the class. */
  lemma InitSucceeds(attrs: ClassAttrs, code: Option<CodeArg>, cls: Option<string>, text: Option<string>)
    ensures Init(attrs, code, cls, text).Ok? <==>
      (if code.Some? then ParseCode(code.value).Some? else attrs.code.Some?) &&
      (cls.Some? || attrs.cls.Some?) && (text.Some? || attrs.text.Some?)
  {
  }

  /** Passed arguments take precedence over the class attributes. */
  lemma InitArgumentsWin(attrs: ClassAttrs, code: int, cls: string, text: string)
    ensures Init(attrs, Some(IntCode(code)), Some(cls), Some(text)) == Ok(ApiError(code, cls, text))
  {
  }

  /** `str(code)` is accepted as an error code meaning `code`. */
  lemma InitTextCode(attrs: ClassAttrs, code: int, cls: string, text: string)
    ensures Init(attrs, Some(TextCode(Numbers.IntString(code))), Some(cls), Some(text)) == Ok(ApiError(code, cls, text))
  {
    Numbers.ParseIntString(code);
  }

  /** The bare base class raises for a missing code first, then a missing class, then a missing text. */
  lemma InitBaseReportsFirstMissing(code: Option<CodeArg>, cls: Option<string>, text: Option<string>)
    ensures code.None? ==> Init(BaseAttrs, code, cls, text) == Err(CodeUninitialized)
    ensures code.Some? && ParseCode(code.value).Some? && cls.None? ==> Init(BaseAttrs, code, cls, text) == Err(ClassUninitialized)
    ensures code.Some? && ParseCode(code.value).Some? && cls.Some? && text.None? ==>
      Init(BaseAttrs, code, cls, text) == Err(TextUninitialized)
  {
  }

  /** Every subclass initialises, with its own code, class and formatted text. */
  lemma SubclassInit(k: ErrorKind)
    ensures Init(Attrs(k), None, None, None) == Ok(Describe(k))
  {
    InitFromClass(Code(k), ClassName(k), Text(k));
  }

  lemma InitFromClass(code: int, cls: string, text: string)
    ensures Init(ClassAttrs(Some(code), Some(cls), Some(text)), None, None, None) == Ok(ApiError(code, cls, text))
  {
  }

  // ---------------------------------------------------------------
  // The error envelope (`obj_err`, `json_err`)
  // ---------------------------------------------------------------

  /** `{"result": None, "error": {"error_code", "exception_class", "exception_text"}}`. */
  function ObjErr(e: ApiError): (j: Json)
    ensures j.JObject? && j.fields.Keys == {"result", "error"} && j.fields["result"] == JNull
    ensures j.fields["error"].JObject? && j.fields["error"].fields.Keys == {"error_code", "exception_class", "exception_text"}
  {
    JObject(map["result" := JNull,
                "error" := JObject(map["error_code" := JInt(e.errorCode),
                                       "exception_class" := JString(e.exceptionClass),
                                       "exception_text" := JString(e.exceptionText)])])
  }

  /** Reads an error back out of an envelope; `None` for anything `obj_err` cannot have built. */
  function ParseEnvelope(j: Json): Option<ApiError>
  {
    if j.JObject? && "result" in j.fields && j.fields["result"] == JNull && "error" in j.fields then
      var e := j.fields["error"];
      if e.JObject? && "error_code" in e.fields && "exception_class" in e.fields && "exception_text" in e.fields then
        var c := e.fields["error_code"];
        var k := e.fields["exception_class"];
        var t := e.fields["exception_text"];
        if c.JInt? && k.JString? && t.JString? then Some(ApiError(c.i, k.s, t.s)) else None
      else None
    else None
  }

  /** The envelope carries the error's three attributes and nothing is lost. */
  lemma EnvelopeRoundTrip(e: ApiError)
    ensures ParseEnvelope(ObjErr(e)) == Some(e)
  {
  }

  /** Distinct errors give distinct envelopes. */
  lemma EnvelopeInjective(e1: ApiError, e2: ApiError)
    requires ObjErr(e1) == ObjErr(e2)
    ensures e1 == e2
  {
    EnvelopeRoundTrip(e1);
    EnvelopeRoundTrip(e2);
  }

  /** `str(error)`: the JSON text of the envelope. */
  function Str(e: ApiError): Body
  {
    Encoded(ObjErr(e))
  }

  // ---------------------------------------------------------------
  // Metrics
  // ---------------------------------------------------------------

  /** The API label of a metric: `request.api_name`, or `unknown_api` before a router has set one. */
  function ApiLabel(apiName: Option<string>): string
  {
    if apiName.Some? then apiName.value else "unknown_api"
  }

  /** The metric name as the source builds it, from the `exception_class` ARGUMENT (`%s` of `None` is "None"). */
  function CounterNameAsWritten(apiName: Option<string>, clsArg: Option<string>): string
  {
    ApiLabel(apiName) + ".error." + (if clsArg.Some? then clsArg.value else "None")
  }

  /**
   * Every subclass passes no class argument, so each of them is counted as
   * "<api>.error.None" and never under its own class name.
   */
  lemma SubclassCounterIsNone(apiName: Option<string>, k: ErrorKind)
    ensures CounterNameAsWritten(apiName, None) != CounterName(apiName, Describe(k))
  {
    var e := Describe(k);
    DescribeClass(k);
    ClassNameLong(k);
    CounterNoneDiffers(apiName, e);
  }

  lemma DescribeClass(k: ErrorKind)
    ensures Describe(k).exceptionClass == ClassName(k)
  {
  }

  lemma DescribeCode(k: ErrorKind)
    ensures Describe(k).errorCode == Code(k)
  {
  }

  lemma CounterNoneDiffers(apiName: Option<string>, e: ApiError)
    requires |e.exceptionClass| > 4
    ensures CounterNameAsWritten(apiName, None) != CounterName(apiName, e)
  {
    assert |CounterNameAsWritten(apiName, None)| < |CounterName(apiName, e)|;
  }

  lemma ClassNameLong(k: ErrorKind)
    ensures |ClassName(k)| > 4
  {
  }

  /** The metric name as intended: the error's own class, "<api>.error.<class>". */
  function CounterName(apiName: Option<string>, e: ApiError): string
  {
    ApiLabel(apiName) + ".error." + e.exceptionClass
  }

  /** Under the intended name, errors of different classes count under different metrics. */
  lemma CounterNameSeparatesClasses(apiName: Option<string>, e1: ApiError, e2: ApiError)
    requires e1.exceptionClass != e2.exceptionClass
    ensures CounterName(apiName, e1) != CounterName(apiName, e2)
  {
    var p := ApiLabel(apiName) + ".error.";
    assert CounterName(apiName, e1)[|p|..] == e1.exceptionClass;
    assert CounterName(apiName, e2)[|p|..] == e2.exceptionClass;
  }

  /** The request after an error has been initialised on it: its status and, with metrics, one more count. */
  function AfterError(st: RequestState, e: ApiError, status: int): RequestState
  {
    st.(responseCode := status,
        counters := st.counters + if st.metricsOn then [CounterName(st.apiName, e)] else [])
  }

  /**
   * `APIError.__init__`: sets status 409, resolves the three attributes, and
   * on success counts the error when a metrics client is attached.
   */
  method Initialise(req: Request, attrs: ClassAttrs, code: Option<CodeArg>, cls: Option<string>, text: Option<string>)
    returns (r: Result<ApiError, InitFailure>)
    modifies req
    ensures r == Init(attrs, code, cls, text)
    ensures r.Err? ==> req.State() == old(req.State()).(responseCode := 409)
    ensures r.Ok? ==> req.State() == AfterError(old(req.State()), r.value, 409)
  {
    req.SetResponseCode(409);
    r := Init(attrs, code, cls, text);
    if r.Ok? && req.metricsOn {
      req.Increment(CounterName(req.apiName, r.value));
    }
  }

  /** Constructing the subclass error of kind `k`: its text formatted, status set, error counted. */
  method Raise(req: Request, k: ErrorKind) returns (e: ApiError)
    modifies req
    ensures e == Describe(k)
    ensures req.State() == AfterError(old(req.State()), e, Status(k))
  {
    SubclassInit(k);
    var r := Initialise(req, Attrs(k), None, None, None);
    e := r.value;
    if Status(k) != 409 {
      req.SetResponseCode(Status(k));
    }
  }
}
