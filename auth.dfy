/**
 * Shiji Auth: the installed cookie secrets and authentication backend, and
 * the `access` decorator. A wrapped render function answers `NOT_DONE_YET`
 * at once; when the backend's Deferred fires, the request's authentication
 * namespace is found, the caller's permissions in it are checked, and either
 * the handler runs with the permissions attached or the failure is written
 * as an API error.
 */
module Auth {

  import opened Wrappers
  import opened Json
  import opened Http
  import opened ApiErrors

  /** The module-level settings: `cookie_secrets` and whether `auth_backend` is set. */
  class AuthConfig {
    var secrets: Option<seq<string>>
    var backendInstalled: bool

    constructor ()
      ensures secrets.None? && !backendInstalled
    {
      secrets := None;
      backendInstalled := false;
    }
  }

  /**
   * What `install_secure_cookies` may be handed: a list of secrets, or a
   * value of another type, named by its type and whether that type is a
   * new-style class (an instance of `object`'s subclasses) or not.
   */
  datatype SecretsArg = SecretList(items: seq<string>) | NotAList(typeName: string, newStyleClass: bool)

  /** `str(type(x))` in Python 2: `<class '…'>` for a new-style class, `<type '…'>` for a built-in or an old-style instance. */
  function TypeText(typeName: string, newStyleClass: bool): string
  {
    if newStyleClass then "<class '" + typeName + "'>" else "<type '" + typeName + "'>"
  }

  /** `install_secure_cookies`: a list replaces the secrets; anything else is refused and changes nothing. */
  method InstallSecureCookies(cfg: AuthConfig, arg: SecretsArg) returns (r: Result<bool, string>)
    modifies cfg
    ensures arg.SecretList? ==> r == Ok(true) && cfg.secrets == Some(arg.items)
    ensures arg.NotAList? ==>
      r == Err("Cookie secrets must be a list not " + TypeText(arg.typeName, arg.newStyleClass) + ".") &&
      cfg.secrets == old(cfg.secrets)
    ensures cfg.backendInstalled == old(cfg.backendInstalled)
  {
    if arg.NotAList? {
      return Err("Cookie secrets must be a list not " + TypeText(arg.typeName, arg.newStyleClass) + ".");
    }
    cfg.secrets := Some(arg.items);
    return Ok(true);
  }

  /** `install_auth`: only a subclass of the backend base class is installed; the error raised otherwise is returned. */
  method InstallAuth(cfg: AuthConfig, isBackend: bool) returns (error: Option<string>)
    modifies cfg
    ensures isBackend ==> error.None? && cfg.backendInstalled
    ensures !isBackend ==> error == Some("Supplied backend must be a subclass of AuthBackend.") &&
                           cfg.backendInstalled == old(cfg.backendInstalled)
    ensures cfg.secrets == old(cfg.secrets)
  {
    if !isBackend {
      return Some("Supplied backend must be a subclass of AuthBackend.");
    }
    cfg.backendInstalled := true;
    return None;
  }

  // ---------------------------------------------------------------
  // Failures and what the backend reports
  // ---------------------------------------------------------------

  /** The failures the errback tells apart. */
  datatype AuthFailure = InvalidAuth(message: string) | NotAuthorized(message: string) | OtherFailure(message: string)

  /** How the backend's `authenticate` Deferred settles: a permission table per namespace, or a failure. */
  datatype AuthResult = Authenticated(table: map<string, seq<string>>) | Rejected(failure: AuthFailure)

  const Insufficient: string := "Insufficient permissions"

  /** The Python type name of a decoded JSON value, as error messages quote it. */
  function PyTypeOf(j: Json): string
  {
    match j
    case JNull => "NoneType"
    case JBool(_) => "bool"
    case JInt(i) => if FitsInt(i) then "int" else "long"
    case JFloat(_) => "float"
    case JString(_) => "unicode"
    case JArray(_) => "list"
    case JObject(_) => "dict"
  }

  // ---------------------------------------------------------------
  // The authentication namespace
  // ---------------------------------------------------------------

  datatype Namespaced = Found(key: Json) | NsFailure(failure: AuthFailure)

  /**
   * The namespace the request names under `nsVar`: the JSON body first,
   * then the URL matches, then the first query value.
   */
  function Namespace(jsonArgs: Option<Json>, urlMatches: Option<map<string, string>>,
                     args: map<string, seq<string>>, nsVar: string): Namespaced
  {
    if jsonArgs.Some? && !jsonArgs.value.JObject? then
      NsFailure(OtherFailure("'" + PyTypeOf(jsonArgs.value) + "' object has no attribute 'has_key'"))
    else if jsonArgs.Some? && nsVar in jsonArgs.value.fields then Found(jsonArgs.value.fields[nsVar])
    else if urlMatches.Some? && nsVar in urlMatches.value then Found(JString(urlMatches.value[nsVar]))
    else if nsVar !in args then NsFailure(InvalidAuth("Request is missing required variable " + nsVar))
    else if |args[nsVar]| == 0 then NsFailure(OtherFailure("list index out of range"))
    else Found(JString(args[nsVar][0]))
  }

  /** The sources are tried in order, and a later one is consulted only when the earlier ones lack the variable. */
  lemma NamespacePreference(jsonArgs: Option<Json>, urlMatches: Option<map<string, string>>,
                            args: map<string, seq<string>>, nsVar: string)
    ensures jsonArgs.Some? && jsonArgs.value.JObject? && nsVar in jsonArgs.value.fields ==>
      Namespace(jsonArgs, urlMatches, args, nsVar) == Found(jsonArgs.value.fields[nsVar])
    ensures (jsonArgs.None? || (jsonArgs.value.JObject? && nsVar !in jsonArgs.value.fields)) &&
            urlMatches.Some? && nsVar in urlMatches.value ==>
      Namespace(jsonArgs, urlMatches, args, nsVar) == Found(JString(urlMatches.value[nsVar]))
    ensures (jsonArgs.None? || (jsonArgs.value.JObject? && nsVar !in jsonArgs.value.fields)) &&
            (urlMatches.None? || nsVar !in urlMatches.value) ==>
      Namespace(jsonArgs, urlMatches, args, nsVar) ==
        if nsVar !in args then NsFailure(InvalidAuth("Request is missing required variable " + nsVar))
        else if |args[nsVar]| == 0 then NsFailure(OtherFailure("list index out of range"))
        else Found(JString(args[nsVar][0]))
  {
  }

  // ---------------------------------------------------------------
  // The permission check
  // ---------------------------------------------------------------

  /** The number of possessed entries that are among the required ones, repeats counted. */
  function Count(possessed: seq<string>, required: seq<string>): nat
  {
    if |possessed| == 0 then 0
    else Count(possessed[..|possessed| - 1], required) + if possessed[|possessed| - 1] in required then 1 else 0
  }

  /** The counting loop of `cb_validate_perms`. */
  method CountPermissions(possessed: seq<string>, required: seq<string>) returns (count: nat)
    ensures count == Count(possessed, required)
  {
    count := 0;
    var i := 0;
    while i < |possessed|
      invariant 0 <= i <= |possessed|
      invariant count == Count(possessed[..i], required)
    {
      assert possessed[..i + 1][..i] == possessed[..i];
      if possessed[i] in required {
        count := count + 1;
      }
      i := i + 1;
    }
    assert possessed[..|possessed|] == possessed;
  }

  /** Some possessed permission is required exactly when the count is positive. */
  lemma {:induction false} CountPositive(possessed: seq<string>, required: seq<string>)
    ensures Count(possessed, required) > 0 <==> exists p :: p in possessed && p in required
    decreases |possessed|
  {
    if |possessed| > 0 {
      var init := possessed[..|possessed| - 1];
      var last := possessed[|possessed| - 1];
      CountPositive(init, required);
      assert possessed == init + [last];
      if exists p :: p in init && p in required {
        var p :| p in init && p in required;
        assert p in possessed;
      }
    }
  }

  /** The decision as written: with `all_required` the count must reach the number of required permissions. */
  predicate AuthorizedAsWritten(possessed: seq<string>, required: seq<string>, allRequired: bool)
  {
    !(allRequired && Count(possessed, required) < |required|) && Count(possessed, required) != 0
  }

  /**
   * The decision as documented: at least one required permission is
   * possessed, and with `all_required` every one of them is.
   */
  predicate Authorized(possessed: seq<string>, required: seq<string>, allRequired: bool)
  {
    (exists p :: p in possessed && p in required) &&
    (allRequired ==> forall p :: p in required ==> p in possessed)
  }

  /** Without `all_required` the count decides as documented. */
  lemma AnyOfAgrees(possessed: seq<string>, required: seq<string>)
    ensures AuthorizedAsWritten(possessed, required, false) <==> Authorized(possessed, required, false)
  {
    CountPositive(possessed, required);
  }

  /**
   * With `all_required`, counting repeats lets a caller holding `read` twice
   * pass a check for `read` and `write`, and fails a caller holding `read`
   * against a requirement that lists `read` twice.
   */
  lemma RepeatsMiscount()
    ensures AuthorizedAsWritten(["read", "read"], ["read", "write"], true)
    ensures !Authorized(["read", "read"], ["read", "write"], true)
    ensures !AuthorizedAsWritten(["read"], ["read", "read"], true)
    ensures Authorized(["read"], ["read", "read"], true)
  {
    assert ["read", "read"][..1] == ["read"];
    assert Count(["read"], ["read", "write"]) == 1;
    assert "write" !in ["read", "read"];
    assert Count(["read"], ["read", "read"]) == 1;
    assert "read" in ["read"];
  }

  // ---------------------------------------------------------------
  // The decision
  // ---------------------------------------------------------------

  datatype Decision = Grant(permissions: seq<string>, namespace: string) | Deny(failure: AuthFailure)

  /** The callback's decision for a request, given what the backend reported. */
  function Decide(jsonArgs: Option<Json>, urlMatches: Option<map<string, string>>, args: map<string, seq<string>>,
                  nsVar: string, allRequired: bool, required: seq<string>, auth: AuthResult): (d: Decision)
    ensures d.Grant? ==> auth.Authenticated? && d.namespace in auth.table &&
                         d.permissions == auth.table[d.namespace] && Authorized(d.permissions, required, allRequired) &&
                         Namespace(jsonArgs, urlMatches, args, nsVar) == Found(JString(d.namespace))
  {
    match auth
    case Rejected(f) => Deny(f)
    case Authenticated(table) =>
      match Namespace(jsonArgs, urlMatches, args, nsVar)
      case NsFailure(f) => Deny(f)
      case Found(key) =>
        match key
        case JString(ns) =>
          if ns !in table || !Authorized(table[ns], required, allRequired) then Deny(NotAuthorized(Insufficient))
          else Grant(table[ns], ns)
        case JArray(_) => Deny(OtherFailure("unhashable type: 'list'"))
        case JObject(_) => Deny(OtherFailure("unhashable type: 'dict'"))
        case _ => Deny(NotAuthorized(Insufficient))
  }

  /** A caller is admitted exactly when the backend authenticated them and they hold enough permissions in the namespace named. */
  lemma GrantExactly(jsonArgs: Option<Json>, urlMatches: Option<map<string, string>>, args: map<string, seq<string>>,
                     nsVar: string, allRequired: bool, required: seq<string>, auth: AuthResult)
    ensures Decide(jsonArgs, urlMatches, args, nsVar, allRequired, required, auth).Grant? <==>
      auth.Authenticated? &&
      exists ns :: Namespace(jsonArgs, urlMatches, args, nsVar) == Found(JString(ns)) &&
                   ns in auth.table && Authorized(auth.table[ns], required, allRequired)
  {
    if auth.Authenticated? {
      var n := Namespace(jsonArgs, urlMatches, args, nsVar);
      if n.Found? && n.key.JString? {
        var ns := n.key.s;
        assert Namespace(jsonArgs, urlMatches, args, nsVar) == Found(JString(ns));
      }
    }
  }

  // ---------------------------------------------------------------
  // The errback
  // ---------------------------------------------------------------

  /** The request after an error is constructed, its text written and the request finished. */
  function Answered(st: RequestState, k: ErrorKind): RequestState
  {
    var after := AfterError(st, Describe(k), Status(k));
    after.(written := after.written + [Str(Describe(k))], finished := after.finished + 1)
  }

  /** `eb_auth_error` as written: an invalid-authentication failure also falls into the final `else`. */
  function ErrbackAsWritten(st: RequestState, f: AuthFailure): RequestState
  {
    match f
    case InvalidAuth(_) => Answered(AfterError(st, Describe(InvalidAuthentication), Status(InvalidAuthentication)),
                                    UnexpectedServer(f.message))
    case NotAuthorized(_) => Answered(st, AccessDenied)
    case OtherFailure(message) => Answered(st, UnexpectedServer(message))
  }

  /** The error each failure is meant to be answered with. */
  function FailureKind(f: AuthFailure): ErrorKind
  {
    match f
    case InvalidAuth(_) => InvalidAuthentication
    case NotAuthorized(_) => AccessDenied
    case OtherFailure(message) => UnexpectedServer(message)
  }

  function Errback(st: RequestState, f: AuthFailure): (r: RequestState)
    ensures r.finished == st.finished + 1 && |r.written| == |st.written| + 1
    ensures r.written[|st.written|] == Str(Describe(FailureKind(f)))
  {
    Answered(st, FailureKind(f))
  }

  /**
   * As written, a caller with invalid credentials is answered with the
   * unexpected-server error (and counted twice), never with the
   * invalid-authentication error; the other failures agree.
   */
  lemma ErrbackMisreports(st: RequestState, message: string)
    ensures var w := ErrbackAsWritten(st, InvalidAuth(message));
      w.written[|w.written| - 1] == Str(Describe(UnexpectedServer(message))) &&
      w.written[|w.written| - 1] != Errback(st, InvalidAuth(message)).written[|st.written|]
    ensures ErrbackAsWritten(st, NotAuthorized(message)) == Errback(st, NotAuthorized(message))
    ensures ErrbackAsWritten(st, OtherFailure(message)) == Errback(st, OtherFailure(message))
  {
    AsWrittenLast(st, message);
    ServerDiffersFromAuth(message);
    OthersAgree(st, message);
  }

  lemma OthersAgree(st: RequestState, message: string)
    ensures ErrbackAsWritten(st, NotAuthorized(message)) == Errback(st, NotAuthorized(message))
    ensures ErrbackAsWritten(st, OtherFailure(message)) == Errback(st, OtherFailure(message))
  {
  }

  lemma AsWrittenLast(st: RequestState, message: string)
    ensures var w := ErrbackAsWritten(st, InvalidAuth(message));
      |w.written| > 0 && w.written[|w.written| - 1] == Str(Describe(UnexpectedServer(message)))
  {
  }

  lemma ServerDiffersFromAuth(message: string)
    ensures Str(Describe(UnexpectedServer(message))) != Str(Describe(InvalidAuthentication))
  {
    var e1 := Describe(UnexpectedServer(message));
    var e2 := Describe(InvalidAuthentication);
    DescribeCode(UnexpectedServer(message));
    DescribeCode(InvalidAuthentication);
    CodesSeparateBodies(e1, e2);
  }

  lemma CodesSeparateBodies(e1: ApiError, e2: ApiError)
    requires e1.errorCode != e2.errorCode
    ensures Str(e1) != Str(e2)
  {
    if ObjErr(e1) == ObjErr(e2) {
      EnvelopeInjective(e1, e2);
    }
  }

  /** The errback, answering each failure with its own error. */
  method AuthError(req: Request, f: AuthFailure)
    modifies req
    ensures req.State() == Errback(old(req.State()), f)
  {
    var e := Raise(req, FailureKind(f));
    req.Write(Str(e));
    req.Finish();
  }

  // ---------------------------------------------------------------
  // The decorated render function
  // ---------------------------------------------------------------

  /** `newRenderFunc`: raises without a backend, otherwise answers `NOT_DONE_YET` and lets the Deferred finish the request. */
  method AccessRender(cfg: AuthConfig) returns (o: HandlerOutcome)
    ensures !cfg.backendInstalled ==> o == Throws("No authentication backend has been setup.")
    ensures cfg.backendInstalled ==> o == Returns(NotDoneYet)
  {
    if !cfg.backendInstalled {
      return Throws("No authentication backend has been setup.");
    }
    return Returns(NotDoneYet);
  }

  /**
   * The request once the backend's Deferred has fired: on a grant,
   * permissions and namespace are attached and the handler's string result
   * written and the request finished (a `NOT_DONE_YET` result leaves both to
   * the handler; a raise of any class, which the Deferred turns into a
   * failure, or a result `write` refuses, goes to the errback);
   * on a denial, the errback answers.
   */
  function Completed(st: RequestState, d: Decision, handler: HandlerOutcome, writeFailure: string): RequestState
  {
    match d
    case Deny(f) => Errback(st, f)
    case Grant(perms, ns) =>
      var granted := st.(permissions := Some(perms), authNamespace := Some(ns));
      match handler
      case Throws(message) => Errback(granted, OtherFailure(message))
      case Escapes(message) => Errback(granted, OtherFailure(message))
      case Returns(v) =>
        if v == NotDoneYet then granted
        else if v.PyStr? then granted.(written := granted.written + [v.body], finished := granted.finished + 1)
        else Errback(granted, OtherFailure(writeFailure))
      case Defers => Errback(granted, OtherFailure(writeFailure))
  }

  /** Unless a granted handler keeps the request open, it gets exactly one body and one `finish`. */
  lemma CompletedOnce(st: RequestState, d: Decision, handler: HandlerOutcome, writeFailure: string)
    ensures var r := Completed(st, d, handler, writeFailure);
      (d.Grant? && handler == Returns(NotDoneYet) ==> r.written == st.written && r.finished == st.finished) &&
      (!(d.Grant? && handler == Returns(NotDoneYet)) ==>
        r.finished == st.finished + 1 && |r.written| == |st.written| + 1 && r.written[..|st.written|] == st.written)
    ensures d.Deny? ==> Completed(st, d, handler, writeFailure).permissions == st.permissions
  {
  }

  /** `cb_validate_perms` and `eb_auth_error` run on what the backend reported and what the handler did. */
  method Complete(req: Request, nsVar: string, allRequired: bool, required: seq<string>, auth: AuthResult,
                  handler: HandlerOutcome, writeFailure: string)
    modifies req
    ensures req.State() == Completed(old(req.State()),
      Decide(old(req.jsonArgs), req.urlMatches, old(req.args), nsVar, allRequired, required, auth), handler, writeFailure)
  {
    var d := Decide(req.jsonArgs, req.urlMatches, req.args, nsVar, allRequired, required, auth);
    if d.Deny? {
      AuthError(req, d.failure);
      return;
    }
    req.SetAuth(d.permissions, d.namespace);
    match handler {
      case Throws(message) =>
        AuthError(req, OtherFailure(message));
      case Escapes(message) =>
        AuthError(req, OtherFailure(message));
      case Returns(v) =>
        if v == NotDoneYet {
        } else if v.PyStr? {
          req.Write(v.body);
          req.Finish();
        } else {
          AuthError(req, OtherFailure(writeFailure));
        }
      case Defers =>
        AuthError(req, OtherFailure(writeFailure));
    }
  }
}
