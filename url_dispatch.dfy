/**
 * The three-tier dispatcher: the API router picks an API module by the first
 * path segment, the module's version router picks a version by the token's
 * version field, and that version's call router picks a call resource by the
 * rest of the path. Also the resources the routers hand out for failures,
 * the CORS pre-flight answer, the `list_versions` call, and the render rule
 * that completes a request exactly once whether the handler returns, raises
 * or defers.
 *
 * Regular expressions are not modelled: a `Matcher` stands for
 * `re.compile(pattern).match(subject)`, giving the named groups of a match.
 */
module UrlDispatch {

  import opened Wrappers
  import opened Strings
  import opened Json
  import opened Http
  import opened ApiErrors
  import opened VersionToken
  import Numbers
  import UrlQuote

  /** `re.compile(pattern).match(subject)`: the named groups of a match anchored at the start, or `None`. */
  type Matcher = (string, string) -> Option<map<string, string>>

  const JsonContentType: string := "application/json; charset=utf-8"

  // ---------------------------------------------------------------
  // The call route table
  // ---------------------------------------------------------------

  /** A class's `routes` attribute: unset, one pattern, a list of patterns, or something else. */
  datatype Routes = NoRoutes | RouteText(route: string) | RouteList(routes: seq<string>) | RouteOther

  /** A class found in a calls module, and whether it derives from `URLMatchJSONResource`. */
  datatype CallClass = CallClass(name: string, isCallResource: bool, routes: Routes)

  /** What a route leads to: a call class of the module, or the built-in `ListVersionsCall`. */
  datatype Target = Call(cls: CallClass) | ListVersionsTarget

  datatype RouteEntry = RouteEntry(pattern: string, target: Target)

  /** One entry per listed pattern, each anchored with `$`, in list order. */
  function ListEntries(routes: seq<string>, c: CallClass): (r: seq<RouteEntry>)
    ensures |r| == |routes|
    ensures forall i :: 0 <= i < |routes| ==> r[i] == RouteEntry(routes[i] + "$", Call(c))
  {
    if |routes| == 0 then []
    else ListEntries(routes[..|routes| - 1], c) + [RouteEntry(routes[|routes| - 1] + "$", Call(c))]
  }

  /** The entries one class contributes. */
  function ClassEntries(c: CallClass): seq<RouteEntry>
  {
    if !c.isCallResource then []
    else match c.routes
      case RouteText(route) => [RouteEntry(route + "$", Call(c))]
      case RouteList(routes) => ListEntries(routes, c)
      case _ => []
  }

  /** The route table of a module whose classes `inspect.getmembers` lists as `classes`. */
  function RouteEntries(classes: seq<CallClass>): seq<RouteEntry>
  {
    if |classes| == 0 then []
    else RouteEntries(classes[..|classes| - 1]) + ClassEntries(classes[|classes| - 1])
  }

  const ListVersionsEntry: RouteEntry := RouteEntry("list_versions$", ListVersionsTarget)

  /** The table a call router is built with: the module's routes, then `list_versions` when asked for. */
  function RouteTable(classes: seq<CallClass>, autoListVersions: bool): seq<RouteEntry>
  {
    RouteEntries(classes) + if autoListVersions then [ListVersionsEntry] else []
  }

  /** `_createRouteMap`: every call class's routes, class by class, each anchored with `$`. */
  method CreateRouteMap(classes: seq<CallClass>) returns (table: seq<RouteEntry>)
    ensures table == RouteEntries(classes)
  {
    table := [];
    var i := 0;
    while i < |classes|
      invariant 0 <= i <= |classes|
      invariant table == RouteEntries(classes[..i])
    {
      assert classes[..i + 1][..i] == classes[..i];
      table := AddClassRoutes(table, classes[i]);
      i := i + 1;
    }
    assert classes[..|classes|] == classes;
  }

  /** The loop body of `_createRouteMap` for one class. */
  method AddClassRoutes(table: seq<RouteEntry>, c: CallClass) returns (r: seq<RouteEntry>)
    ensures r == table + ClassEntries(c)
  {
    r := table;
    if c.isCallResource {
      match c.routes {
        case RouteText(route) =>
          r := r + [RouteEntry(route + "$", Call(c))];
        case RouteList(routes) =>
          var j := 0;
          while j < |routes|
            invariant 0 <= j <= |routes|
            invariant r == table + ListEntries(routes[..j], c)
          {
            assert routes[..j + 1][..j] == routes[..j];
            r := r + [RouteEntry(routes[j] + "$", Call(c))];
            j := j + 1;
          }
          assert routes[..|routes|] == routes;
        case _ =>
      }
    }
  }

  /** The tables of two runs of classes concatenate. */
  lemma {:induction false} RouteEntriesAppend(a: seq<CallClass>, b: seq<CallClass>)
    ensures RouteEntries(a + b) == RouteEntries(a) + RouteEntries(b)
    decreases |b|
  {
    if |b| > 0 {
      var b' := b[..|b| - 1];
      assert (a + b)[..|a + b| - 1] == a + b';
      assert (a + b)[|a + b| - 1] == b[|b| - 1];
      RouteEntriesAppend(a, b');
    } else {
      assert a + b == a;
    }
  }

  /** A class with a single pattern adds exactly one entry, that pattern anchored with `$`. */
  lemma TextRouteContribution(classes: seq<CallClass>, c: CallClass)
    requires c.isCallResource && c.routes.RouteText?
    ensures RouteEntries(classes + [c]) == RouteEntries(classes) + [RouteEntry(c.routes.route + "$", Call(c))]
  {
    AppendClass(classes, c);
  }

  /** A class with a list of patterns adds one anchored entry per pattern, in list order, after the existing ones. */
  lemma ListRouteContribution(classes: seq<CallClass>, c: CallClass)
    requires c.isCallResource && c.routes.RouteList?
    ensures var rs := c.routes.routes;
      var t := RouteEntries(classes + [c]);
      var n := |RouteEntries(classes)|;
      |t| == n + |rs| && t[..n] == RouteEntries(classes) &&
      forall i :: 0 <= i < |rs| ==> t[n + i] == RouteEntry(rs[i] + "$", Call(c))
  {
    AppendClass(classes, c);
    assert ClassEntries(c) == ListEntries(c.routes.routes, c);
    ListAppend(RouteEntries(classes), c.routes.routes, c);
  }

  lemma ListAppend(pre: seq<RouteEntry>, rs: seq<string>, c: CallClass)
    ensures var t := pre + ListEntries(rs, c);
      |t| == |pre| + |rs| && t[..|pre|] == pre &&
      forall i :: 0 <= i < |rs| ==> t[|pre| + i] == RouteEntry(rs[i] + "$", Call(c))
  {
    var t := pre + ListEntries(rs, c);
    assert t[..|pre|] == pre;
    forall i | 0 <= i < |rs|
      ensures t[|pre| + i] == RouteEntry(rs[i] + "$", Call(c))
    {
      assert t[|pre| + i] == ListEntries(rs, c)[i];
    }
  }

  /** A class that is not a call resource, or has no usable routes, adds nothing. */
  lemma NoRouteContribution(classes: seq<CallClass>, c: CallClass)
    requires !c.isCallResource || c.routes.NoRoutes? || c.routes.RouteOther?
    ensures RouteEntries(classes + [c]) == RouteEntries(classes)
  {
    AppendClass(classes, c);
  }

  lemma AppendClass(classes: seq<CallClass>, c: CallClass)
    ensures RouteEntries(classes + [c]) == RouteEntries(classes) + ClassEntries(c)
  {
    assert (classes + [c])[..|classes|] == classes;
  }

  /** Every entry of the table is `$`-anchored and leads to a call resource of the module. */
  lemma {:induction false} RouteEntriesWellFormed(classes: seq<CallClass>, k: nat)
    requires k < |RouteEntries(classes)|
    ensures var e := RouteEntries(classes)[k];
      e.target.Call? && e.target.cls in classes && e.target.cls.isCallResource &&
      |e.pattern| > 0 && e.pattern[|e.pattern| - 1] == '$'
    decreases |classes|
  {
    var init := classes[..|classes| - 1];
    var last := classes[|classes| - 1];
    if k < |RouteEntries(init)| {
      RouteEntriesWellFormed(init, k);
      assert RouteEntries(classes)[k] == RouteEntries(init)[k];
    } else {
      assert RouteEntries(classes)[k] == ClassEntries(last)[k - |RouteEntries(init)|];
      ClassEntriesWellFormed(last, k - |RouteEntries(init)|);
    }
  }

  lemma ClassEntriesWellFormed(c: CallClass, j: nat)
    requires j < |ClassEntries(c)|
    ensures var e := ClassEntries(c)[j];
      e.target == Call(c) && c.isCallResource && |e.pattern| > 0 && e.pattern[|e.pattern| - 1] == '$'
  {
  }

  /** With `auto_list_versions`, `list_versions` is the last route, tried only after every module route. */
  lemma ListVersionsLast(classes: seq<CallClass>)
    ensures var t := RouteTable(classes, true);
      |t| == |RouteEntries(classes)| + 1 && t[|t| - 1] == ListVersionsEntry &&
      t[..|t| - 1] == RouteTable(classes, false)
  {
    assert RouteTable(classes, false) == RouteEntries(classes);
  }

  // ---------------------------------------------------------------
  // First match
  // ---------------------------------------------------------------

  /** The first pattern from position `i` on that matches `subject`. */
  function FirstFrom(patterns: seq<string>, subject: string, m: Matcher, i: nat): (r: Option<nat>)
    ensures r.Some? ==> i <= r.value < |patterns| && m(patterns[r.value], subject).Some?
    decreases |patterns| - i
  {
    if i >= |patterns| then None
    else if m(patterns[i], subject).Some? then Some(i)
    else FirstFrom(patterns, subject, m, i + 1)
  }

  function FirstMatch(patterns: seq<string>, subject: string, m: Matcher): Option<nat>
  {
    FirstFrom(patterns, subject, m, 0)
  }

  /** The first match from `i` on: no earlier pattern from `i` matches; nothing is found exactly when none matches. */
  lemma {:induction false} FirstFromSpec(patterns: seq<string>, subject: string, m: Matcher, i: nat)
    ensures var r := FirstFrom(patterns, subject, m, i);
      (r.Some? ==> forall j :: i <= j < r.value ==> m(patterns[j], subject).None?) &&
      (r.None? <==> forall j :: i <= j < |patterns| ==> m(patterns[j], subject).None?)
    decreases |patterns| - i
  {
    if i < |patterns| && m(patterns[i], subject).None? {
      FirstFromSpec(patterns, subject, m, i + 1);
    }
  }

  /** The route tried first wins: the chosen pattern matches and every earlier one does not. */
  lemma FirstMatchWins(patterns: seq<string>, subject: string, m: Matcher)
    ensures var r := FirstMatch(patterns, subject, m);
      (r.Some? ==> r.value < |patterns| && m(patterns[r.value], subject).Some? &&
                   forall j :: 0 <= j < r.value ==> m(patterns[j], subject).None?) &&
      (r.None? <==> forall j :: 0 <= j < |patterns| ==> m(patterns[j], subject).None?)
  {
    FirstFromSpec(patterns, subject, m, 0);
  }

  function CallPatterns(table: seq<RouteEntry>): (r: seq<string>)
    ensures |r| == |table| && forall i :: 0 <= i < |table| ==> r[i] == table[i].pattern
  {
    seq(|table|, i requires 0 <= i < |table| => table[i].pattern)
  }

  // ---------------------------------------------------------------
  // The path a call route is matched against, and its captures
  // ---------------------------------------------------------------

  /** The URI path with its query and its first segment (the API name) removed. */
  function CallPath(uri: string): string
  {
    var segments := Split(Split(uri, '?')[0], '/');
    Join(if |segments| >= 2 then segments[2..] else [], '/')
  }

  /** For `/<api>/<path>?<query>`, call routes see exactly `<path>`. */
  lemma CallPathOf(api: string, path: string, query: Option<string>)
    requires '/' !in api && '?' !in api && '?' !in path
    ensures var u := "/" + api + "/" + path;
      CallPath(if query.Some? then u + "?" + query.value else u) == path
  {
    var u := "/" + api + "/" + path;
    var full := if query.Some? then u + "?" + query.value else u;
    QueryCut(u, query);
    SegmentsAfterApi(api, path);
    JoinSplit(path, '/');
  }

  lemma QueryCut(u: string, query: Option<string>)
    requires '?' !in u
    ensures Split(if query.Some? then u + "?" + query.value else u, '?')[0] == u
  {
    if query.Some? {
      assert u + "?" + query.value == u + ['?'] + query.value;
      SplitCons(u, query.value, '?');
    }
  }

  lemma SegmentsAfterApi(api: string, path: string)
    requires '/' !in api
    ensures var f := Split("/" + api + "/" + path, '/'); |f| >= 2 && f[2..] == Split(path, '/')
  {
    var tail := api + ['/'] + path;
    LeadingSeparator(api, path, '/');
    SplitCons([], tail, '/');
    SplitCons(api, path, '/');
    DropTwo([], api, Split(path, '/'));
  }

  lemma LeadingSeparator(a: string, b: string, c: char)
    ensures [c] + a + [c] + b == [] + [c] + (a + [c] + b)
  {
  }

  lemma DropTwo(x: string, y: string, rest: seq<string>)
    ensures |[x] + ([y] + rest)| >= 2 && ([x] + ([y] + rest))[2..] == rest
  {
  }

  /** The named groups of a match, each decoded by `urllib.unquote` once. */
  function UnquoteAll(groups: map<string, string>): (r: map<string, string>)
    ensures r.Keys == groups.Keys
  {
    map k | k in groups :: UrlQuote.Unquote(groups[k])
  }

  /** The captures a handler receives when its route matched with groups `groups`. */
  method UnquoteCaptures(groups: map<string, string>) returns (r: map<string, string>)
    ensures r == UnquoteAll(groups)
  {
    r := groups;
    var todo := groups.Keys;
    while todo != {}
      invariant todo <= groups.Keys && r.Keys == groups.Keys
      invariant forall k :: k in groups ==> r[k] == if k in todo then groups[k] else UrlQuote.Unquote(groups[k])
      decreases |todo|
    {
      var k :| k in todo;
      r := r[k := UrlQuote.Unquote(r[k])];
      todo := todo - {k};
    }
  }

  /**
   * Percent-decoding is applied to each capture exactly once: a capture
   * sent percent-encoded reaches the handler as the text that was encoded,
   * even when that text itself holds `%` escapes.
   */
  lemma CapturesDecodedOnce(groups: map<string, string>, k: string, v: string)
    requires k in groups
    requires forall i :: 0 <= i < |v| ==> v[i] as int < 256
    requires groups[k] == UrlQuote.PercentEncode(v)
    ensures UnquoteAll(groups)[k] == v
  {
    UrlQuote.UnquoteEncode(v);
    assert UnquoteAll(groups)[k] == UrlQuote.Unquote(groups[k]);
  }

  lemma DecodedOnceExample()
    ensures UnquoteAll(map["group1" := "%2526"]) == map["group1" := "%26"]
  {
    UrlQuote.UnquoteOnce();
  }

  function Groups(o: Option<map<string, string>>): map<string, string>
  {
    if o.Some? then o.value else map[]
  }

  // ---------------------------------------------------------------
  // Response headers set by the resources
  // ---------------------------------------------------------------

  /** A truthy `cross_origin_domains`: set and non-empty. */
  predicate Present(o: Option<string>)
  {
    o.Some? && o.value != ""
  }

  const ResourceHeaderNames: set<string> :=
    {"Content-Type", "Access-Control-Allow-Origin", "Access-Control-Allow-Credentials", "Cache-Control", "Pragma"}

  /** The headers `URLMatchJSONResource.__init__` leaves: JSON content type, then CORS and anti-caching headers per the API router. */
  function ResourceHeaders(h: map<string, string>, api: APIRouter?): (r: map<string, string>)
    ensures "Content-Type" in r && r["Content-Type"] == JsonContentType
    ensures api != null && Present(api.crossOriginDomains) ==>
      "Access-Control-Allow-Origin" in r && "Access-Control-Allow-Credentials" in r &&
      r["Access-Control-Allow-Origin"] == api.crossOriginDomains.value && r["Access-Control-Allow-Credentials"] == "true"
    ensures api != null && api.inhibitHttpCaching ==>
      "Cache-Control" in r && "Pragma" in r && r["Cache-Control"] == "no-cache" && r["Pragma"] == "no-cache"
    ensures forall n :: n in h && n !in ResourceHeaderNames ==> n in r && r[n] == h[n]
    ensures forall n :: n in r ==> n in h || n in ResourceHeaderNames
  {
    var typed := h["Content-Type" := JsonContentType];
    if api == null then typed
    else
      var cors := if Present(api.crossOriginDomains) then
        typed["Access-Control-Allow-Origin" := api.crossOriginDomains.value]["Access-Control-Allow-Credentials" := "true"]
      else typed;
      if api.inhibitHttpCaching then cors["Cache-Control" := "no-cache"]["Pragma" := "no-cache"] else cors
  }

  // ---------------------------------------------------------------
  // What a router hands back
  // ---------------------------------------------------------------

  /**
   * The child resource `getChild` returns. `MissingAttribute` is the
   * `AttributeError` a call router raises when it is reached without a
   * version router bound to an API router.
   */
  datatype Child =
    | UnknownVersionPage
    | UnknownCallPage
    | UnknownApiPage
    | CorsPage(api: APIRouter)
    | VersionTier(router: VersionRouter)
    | CallPage(target: Target, urlMatches: map<string, string>, calls: CallRouter)
    | MissingAttribute

  /** How a call router's `getChild` decides. */
  datatype CallChoice =
    | BadMode
    | NoConfig(mode: string)
    | NoCall(mode: string)
    | Matched(mode: string, index: nat)

  /**
   * The mode must decode and be `test` or `prod`; the router must reach an
   * API router (for its config); then the first route matching the path wins.
   */
  function CallResolve(token: Option<Version>, hasApi: bool, table: seq<RouteEntry>, path: string, m: Matcher): (r: CallChoice)
    ensures r.Matched? ==> r.index < |table| && m(table[r.index].pattern, path).Some?
    ensures r.NoConfig? ==> !hasApi
  {
    if token.None? || !(token.value.mode == "test" || token.value.mode == "prod") then BadMode
    else if !hasApi then NoConfig(token.value.mode)
    else match FirstMatch(CallPatterns(table), path, m)
      case Some(i) => Matched(token.value.mode, i)
      case None => NoCall(token.value.mode)
  }

  function CallChildOf(choice: CallChoice, table: seq<RouteEntry>, path: string, m: Matcher, calls: CallRouter): (c: Child)
    requires choice.Matched? ==> choice.index < |table|
    ensures c == MissingAttribute <==> choice.NoConfig?
    ensures c.CallPage? ==> c.calls == calls
  {
    match choice
    case BadMode => UnknownVersionPage
    case NoConfig(_) => MissingAttribute
    case NoCall(_) => UnknownCallPage
    case Matched(_, i) => CallPage(table[i].target, UnquoteAll(Groups(m(table[i].pattern, path))), calls)
  }

  /** The request after a call router's decision: mode, then config, then the resource's headers. */
  function CallStateOf(st: RequestState, choice: CallChoice, api: APIRouter?): RequestState
  {
    match choice
    case BadMode => st
    case NoConfig(mode) => st.(apiMode := Some(mode))
    case NoCall(mode) =>
      if api == null then st.(apiMode := Some(mode)) else st.(apiMode := Some(mode), apiConfig := Some(api.config))
    case Matched(mode, _) =>
      if api == null then st.(apiMode := Some(mode))
      else st.(apiMode := Some(mode), apiConfig := Some(api.config),
               responseHeaders := ResourceHeaders(st.responseHeaders, api))
  }

  /** The call router's decision is exactly the first matching route of its table. */
  lemma CallResolveFirst(token: Option<Version>, table: seq<RouteEntry>, path: string, m: Matcher)
    requires token.Some? && (token.value.mode == "test" || token.value.mode == "prod")
    ensures var r := CallResolve(token, true, table, path, m);
      (r.Matched? ==> forall j :: 0 <= j < r.index ==> m(table[j].pattern, path).None?) &&
      (r.NoCall? <==> forall j :: 0 <= j < |table| ==> m(table[j].pattern, path).None?)
  {
    FirstMatchWins(CallPatterns(table), path, m);
  }

  /** The dispatcher never serves a call without a usable `test` or `prod` mode. */
  lemma ModeGuardsCalls(token: Option<Version>, hasApi: bool, table: seq<RouteEntry>, path: string, m: Matcher)
    ensures CallResolve(token, hasApi, table, path, m).BadMode? <==>
      token.None? || !(token.value.mode == "test" || token.value.mode == "prod")
  {
  }

  /** `URLMatchJSONResource.__init__`: the JSON content type, then the CORS and caching headers of the API router. */
  method InitResource(req: Request, api: APIRouter?)
    modifies req
    ensures req.State() == old(req.State()).(responseHeaders := ResourceHeaders(old(req.responseHeaders), api))
  {
    req.SetHeader("Content-Type", JsonContentType);
    if api != null {
      if Present(api.crossOriginDomains) {
        req.SetHeader("Access-Control-Allow-Origin", api.crossOriginDomains.value);
        req.SetHeader("Access-Control-Allow-Credentials", "true");
      }
      if api.inhibitHttpCaching {
        req.SetHeader("Cache-Control", "no-cache");
        req.SetHeader("Pragma", "no-cache");
      }
    }
  }

  // ---------------------------------------------------------------
  // The routers
  // ---------------------------------------------------------------

  class CallRouter {
    const routeMap: seq<RouteEntry>
    var versionRouter: VersionRouter?

    /** `CallRouter.__init__`: the module's route table, and `list_versions` last when asked for. */
    constructor (classes: seq<CallClass>, versionRouter: VersionRouter?, autoListVersions: bool)
      ensures routeMap == RouteTable(classes, autoListVersions)
      ensures this.versionRouter == versionRouter
    {
      var table := CreateRouteMap(classes);
      if autoListVersions {
        table := table + [ListVersionsEntry];
      }
      routeMap := table;
      this.versionRouter := versionRouter;
    }

    /** `version_router.api_router`, when both links are set. */
    function Api(): APIRouter?
      reads this, versionRouter
    {
      if versionRouter == null then null else versionRouter.apiRouter
    }

    /** `CallRouter.getChild`: check the mode, attach the config, serve the first route matching the call path. */
    method GetChild(name: string, req: Request, m: Matcher) returns (c: Child)
      modifies req
      ensures var path := CallPath(req.uri);
        var choice := CallResolve(GetVersion(req.GetHeader(ApiVersionHeader), old(req.args)), Api() != null, routeMap, path, m);
        c == CallChildOf(choice, routeMap, path, m, this) &&
        req.State() == CallStateOf(old(req.State()), choice, Api())
    {
      var token := GetVersion(req.GetHeader(ApiVersionHeader), req.args);
      if token.None? || !(token.value.mode == "test" || token.value.mode == "prod") {
        return UnknownVersionPage;
      }
      req.SetApiMode(token.value.mode);
      if versionRouter == null || versionRouter.apiRouter == null {
        return MissingAttribute;
      }
      var api := versionRouter.apiRouter;
      req.SetApiConfig(api.config);
      var path := CallPath(req.uri);
      var found := FirstRoute(path, m);
      if found.None? {
        return UnknownCallPage;
      }
      var i := found.value;
      var captures := UnquoteCaptures(m(routeMap[i].pattern, path).value);
      InitResource(req, api);
      return CallPage(routeMap[i].target, captures, this);
    }

    /** The first route, in table order, whose pattern matches the call path. */
    method FirstRoute(path: string, m: Matcher) returns (found: Option<nat>)
      ensures found == FirstMatch(CallPatterns(routeMap), path, m)
      ensures found.Some? ==> found.value < |routeMap| && m(routeMap[found.value].pattern, path).Some?
    {
      ghost var patterns := CallPatterns(routeMap);
      var i := 0;
      while i < |routeMap|
        invariant 0 <= i <= |routeMap|
        invariant FirstMatch(patterns, path, m) == FirstFrom(patterns, path, m, i)
      {
        if m(routeMap[i].pattern, path).Some? {
          return Some(i);
        }
        i := i + 1;
      }
      return None;
    }
  }

  /** A version map entry: the pattern the version field must match, and that version's call router. */
  datatype VersionEntry = VersionEntry(pattern: string, calls: CallRouter)

  /** The version map with every pattern anchored with `$`. */
  function Anchor(versions: map<string, VersionEntry>): (r: map<string, VersionEntry>)
    ensures r.Keys == versions.Keys
    ensures forall k :: k in versions ==> r[k].pattern == versions[k].pattern + "$" && r[k].calls == versions[k].calls
  {
    map k | k in versions :: versions[k].(pattern := versions[k].pattern + "$")
  }

  predicate NoVersionMatches(versions: map<string, VersionEntry>, version: string, m: Matcher)
  {
    forall k :: k in versions ==> m(versions[k].pattern, version).None?
  }

  /** `k` is the least version id (byte-wise) whose pattern matches: the one `sorted` tries first. */
  predicate LeastMatch(versions: map<string, VersionEntry>, version: string, m: Matcher, k: string)
  {
    k in versions && m(versions[k].pattern, version).Some? &&
    forall k' :: k' in versions && Less(k', k) ==> m(versions[k'].pattern, version).None?
  }

  /** At most one version id is the least match, whatever order the map's keys come in. */
  lemma LeastMatchUnique(versions: map<string, VersionEntry>, version: string, m: Matcher, k1: string, k2: string)
    requires LeastMatch(versions, version, m, k1) && LeastMatch(versions, version, m, k2)
    ensures k1 == k2
  {
    if k1 != k2 {
      LessTotal(k1, k2);
    }
  }

  /** `sorted(keys)`: the keys in strictly increasing byte-wise order, each once. */
  method SortKeys(keys: set<string>) returns (r: seq<string>)
    ensures StrictlySorted(r)
    ensures forall k :: k in r <==> k in keys
  {
    r := [];
    var todo := keys;
    while todo != {}
      invariant todo <= keys
      invariant StrictlySorted(r)
      invariant forall k :: k in r <==> k in keys && k !in todo
      decreases |todo|
    {
      var k :| k in todo;
      r := Insert(r, k);
      todo := todo - {k};
    }
  }

  /** Inserting a new key into a strictly sorted sequence. */
  function Insert(r: seq<string>, k: string): (q: seq<string>)
    requires StrictlySorted(r) && k !in r
    ensures StrictlySorted(q)
    ensures forall x :: x in q <==> x in r || x == k
    decreases |r|
  {
    if |r| == 0 then [k]
    else if Less(k, r[0]) then
      assert forall j :: 0 <= j < |r| ==> Less(k, r[j]) by {
        forall j | 0 <= j < |r| ensures Less(k, r[j]) {
          if j > 0 { LessTransitive(k, r[0], r[j]); }
        }
      }
      [k] + r
    else
      LessTotal(k, r[0]);
      var q := [r[0]] + Insert(r[1..], k);
      assert forall j :: 1 <= j < |q| ==> Less(r[0], q[j]) by {
        forall j | 1 <= j < |q| ensures Less(r[0], q[j]) {
          assert q[j] in Insert(r[1..], k);
          assert q[j] in r[1..] || q[j] == k;
          if q[j] in r[1..] {
            var t :| 0 <= t < |r[1..]| && r[1..][t] == q[j];
            assert r[t + 1] == q[j];
          }
        }
      }
      q
  }

  class VersionRouter {
    const versionMap: map<string, VersionEntry>
    var apiRouter: APIRouter?

    /** `VersionRouter.__init__`: every version pattern anchored with `$`. */
    constructor (versions: map<string, VersionEntry>, apiRouter: APIRouter?)
      ensures versionMap == Anchor(versions) && this.apiRouter == apiRouter
    {
      var anchored: map<string, VersionEntry> := map[];
      var todo := versions.Keys;
      while todo != {}
        invariant todo <= versions.Keys
        invariant anchored.Keys == versions.Keys - todo
        invariant forall k :: k in anchored ==> anchored[k] == versions[k].(pattern := versions[k].pattern + "$")
        decreases |todo|
      {
        var k :| k in todo;
        anchored := anchored[k := versions[k].(pattern := versions[k].pattern + "$")];
        todo := todo - {k};
      }
      versionMap := anchored;
      this.apiRouter := apiRouter;
    }

    /** `get_version_map`. */
    function GetVersionMap(): (r: map<string, VersionEntry>)
      ensures r == versionMap
    {
      versionMap
    }

    /** The call routers of this router's versions: the objects `getChild` may relink. */
    function CallRouters(): set<CallRouter>
    {
      set k | k in versionMap :: versionMap[k].calls
    }

    /**
     * `VersionRouter.getChild`: the byte-wise least version id whose pattern
     * matches the token's version field is chosen, recorded on the request,
     * linked back to this router, and its call router decides the rest.
     */
    method GetChild(name: string, req: Request, m: Matcher) returns (c: Child, ghost chosen: Option<string>)
      modifies req, CallRouters()
      ensures var token := GetVersion(req.GetHeader(ApiVersionHeader), old(req.args));
        chosen.None? <==> token.None? || NoVersionMatches(versionMap, token.value.version, m)
      ensures chosen.None? ==> c == UnknownVersionPage && req.State() == old(req.State())
      ensures chosen.None? ==> forall r :: r in CallRouters() ==> r.versionRouter == old(r.versionRouter)
      ensures chosen.Some? ==>
        var token := GetVersion(req.GetHeader(ApiVersionHeader), old(req.args));
        var k := chosen.value;
        token.Some? && LeastMatch(versionMap, token.value.version, m, k) &&
        var calls := versionMap[k].calls;
        var path := CallPath(req.uri);
        var choice := CallResolve(token, apiRouter != null, calls.routeMap, path, m);
        calls.versionRouter == this &&
        (forall r :: r in CallRouters() && r != calls ==> r.versionRouter == old(r.versionRouter)) &&
        c == CallChildOf(choice, calls.routeMap, path, m, calls) &&
        req.State() == CallStateOf(old(req.State()).(apiVersion := Some(k)), choice, apiRouter)
    {
      var token := GetVersion(req.GetHeader(ApiVersionHeader), req.args);
      if token.None? {
        return UnknownVersionPage, None;
      }
      var found := LeastVersion(token.value.version, m);
      if found.None? {
        return UnknownVersionPage, None;
      }
      var k := found.value;
      req.SetApiVersion(k);
      var calls := versionMap[k].calls;
      calls.versionRouter := this;
      c := calls.GetChild(name, req, m);
      return c, Some(k);
    }

    /** The version ids tried in sorted order: the first whose pattern matches `version`. */
    method LeastVersion(version: string, m: Matcher) returns (found: Option<string>)
      ensures found.None? <==> NoVersionMatches(versionMap, version, m)
      ensures found.Some? ==> LeastMatch(versionMap, version, m, found.value)
    {
      var keys := SortKeys(versionMap.Keys);
      var i := 0;
      while i < |keys|
        invariant 0 <= i <= |keys|
        invariant forall j :: 0 <= j < i ==> m(versionMap[keys[j]].pattern, version).None?
      {
        if m(versionMap[keys[i]].pattern, version).Some? {
          SortedPrefixLeast(keys, i, versionMap, version, m);
          return Some(keys[i]);
        }
        i := i + 1;
      }
      assert NoVersionMatches(versionMap, version, m) by {
        forall k | k in versionMap ensures m(versionMap[k].pattern, version).None? {
          var j :| 0 <= j < |keys| && keys[j] == k;
        }
      }
      return None;
    }
  }

  /** The first match in sorted order is the least match. */
  lemma SortedPrefixLeast(keys: seq<string>, i: nat, versions: map<string, VersionEntry>, version: string, m: Matcher)
    requires StrictlySorted(keys) && (forall k :: k in keys <==> k in versions)
    requires i < |keys| && m(versions[keys[i]].pattern, version).Some?
    requires forall j :: 0 <= j < i ==> m(versions[keys[j]].pattern, version).None?
    ensures LeastMatch(versions, version, m, keys[i])
  {
    forall k' | k' in versions && Less(k', keys[i])
      ensures m(versions[k'].pattern, version).None?
    {
      var j :| 0 <= j < |keys| && keys[j] == k';
      if j >= i {
        if j > i {
          LessAsymmetric(keys[i], k');
        } else {
          LessIrreflexive(k');
        }
      }
    }
  }

  /** An API module: its name and its version router. */
  datatype ApiModule = ApiModule(apiName: string, versionRouter: VersionRouter)

  datatype ApiRoute = ApiRoute(pattern: string, api: ApiModule)

  /** How the API router decides. */
  datatype ApiChoice = Preflight | BadVersion | NoApi | Mismatch(index: nat) | Routed(index: nat)

  /**
   * `OPTIONS` requests are answered by the CORS resource; otherwise the token
   * must decode, the first route matching the segment wins, and its API name
   * must be the token's API.
   */
  function ApiResolve(verb: string, token: Option<Version>, routes: seq<ApiRoute>, name: string, m: Matcher): (r: ApiChoice)
    ensures (r.Mismatch? || r.Routed?) ==> r.index < |routes| && m(routes[r.index].pattern, name).Some?
  {
    if Upper(verb) == "OPTIONS" then Preflight
    else if token.None? then BadVersion
    else match FirstMatch(ApiPatterns(routes), name, m)
      case None => NoApi
      case Some(i) => if token.value.api != Lower(routes[i].api.apiName) then Mismatch(i) else Routed(i)
  }

  function ApiPatterns(routes: seq<ApiRoute>): (r: seq<string>)
    ensures |r| == |routes| && forall i :: 0 <= i < |routes| ==> r[i] == routes[i].pattern
  {
    seq(|routes|, i requires 0 <= i < |routes| => routes[i].pattern)
  }

  /** The API router routes a request only to the API its token names, and only by the first matching route. */
  lemma ApiResolveRoutes(verb: string, token: Option<Version>, routes: seq<ApiRoute>, name: string, m: Matcher)
    ensures var r := ApiResolve(verb, token, routes, name, m);
      (r.Routed? ==> token.Some? && token.value.api == Lower(routes[r.index].api.apiName)) &&
      ((r.Routed? || r.Mismatch?) ==> forall j :: 0 <= j < r.index ==> m(routes[j].pattern, name).None?) &&
      (r.NoApi? <==> Upper(verb) != "OPTIONS" && token.Some? &&
                     forall j :: 0 <= j < |routes| ==> m(routes[j].pattern, name).None?)
  {
    FirstMatchWins(ApiPatterns(routes), name, m);
  }

  /** The headers `CORSInterrogation.__init__` sets: the JSON content type and, when configured, the allowed origin. */
  function CorsHeaders(h: map<string, string>, api: APIRouter): (r: map<string, string>)
    ensures "Content-Type" in r && r["Content-Type"] == JsonContentType
    ensures Present(api.crossOriginDomains) ==> "Access-Control-Allow-Origin" in r && r["Access-Control-Allow-Origin"] == api.crossOriginDomains.value
    ensures !Present(api.crossOriginDomains) ==> r == h["Content-Type" := JsonContentType]
  {
    var typed := h["Content-Type" := JsonContentType];
    if Present(api.crossOriginDomains) then typed["Access-Control-Allow-Origin" := api.crossOriginDomains.value] else typed
  }

  class APIRouter {
    const routeMap: array<ApiRoute>
    const config: map<string, Json>
    const crossOriginDomains: Option<string>
    const inhibitHttpCaching: bool

    /** `APIRouter.__init__`: anchors every route pattern with `$`, rewriting the caller's list in place. */
    constructor (routes: array<ApiRoute>, config: map<string, Json>, crossOriginDomains: Option<string>, inhibitHttpCaching: bool)
      modifies routes
      ensures routeMap == routes && this.config == config
      ensures this.crossOriginDomains == crossOriginDomains && this.inhibitHttpCaching == inhibitHttpCaching
      ensures forall i :: 0 <= i < routes.Length ==>
        routes[i] == old(routes[i]).(pattern := old(routes[i].pattern) + "$")
    {
      var i := 0;
      while i < routes.Length
        invariant 0 <= i <= routes.Length
        invariant forall j :: 0 <= j < i ==> routes[j] == old(routes[j]).(pattern := old(routes[j].pattern) + "$")
        invariant forall j :: i <= j < routes.Length ==> routes[j] == old(routes[j])
      {
        routes[i] := routes[i].(pattern := routes[i].pattern + "$");
        i := i + 1;
      }
      routeMap := routes;
      this.config := config;
      this.crossOriginDomains := crossOriginDomains;
      this.inhibitHttpCaching := inhibitHttpCaching;
    }

    /** `get_route_map`. */
    function GetRouteMap(): (r: seq<ApiRoute>)
      reads routeMap
      ensures r == routeMap[..]
    {
      routeMap[..]
    }

    /** The version routers of this router's APIs: the objects `getChild` may relink. */
    function VersionRouters(): set<VersionRouter>
      reads routeMap
    {
      set i | 0 <= i < routeMap.Length :: routeMap[i].api.versionRouter
    }

    /**
     * `APIRouter.getChild`: attach metrics, answer `OPTIONS` with the CORS
     * resource, then hand the request to the version router of the first API
     * whose route matches the segment, provided the token names that API.
     */
    method GetChild(name: string, req: Request, m: Matcher) returns (c: Child, ghost choice: ApiChoice)
      modifies req, VersionRouters()
      ensures choice == ApiResolve(req.verb, GetVersion(req.GetHeader(ApiVersionHeader), old(req.args)), routeMap[..], name, m)
      ensures choice.Preflight? ==> (c == CorsPage(this) &&
        req.State() == old(req.State()).(metricsOn := true, responseHeaders := CorsHeaders(old(req.responseHeaders), this)))
      ensures choice.BadVersion? ==> c == UnknownVersionPage && req.State() == old(req.State()).(metricsOn := true)
      ensures choice.NoApi? ==> c == UnknownApiPage && req.State() == old(req.State()).(metricsOn := true)
      ensures choice.Mismatch? ==> (c == UnknownVersionPage &&
        req.State() == old(req.State()).(metricsOn := true, apiName := Some(Lower(routeMap[choice.index].api.apiName))))
      ensures choice.Routed? ==> (c == VersionTier(routeMap[choice.index].api.versionRouter) && c.router.apiRouter == this &&
        req.State() == old(req.State()).(metricsOn := true, apiName := Some(Lower(routeMap[choice.index].api.apiName))))
      ensures forall v :: v in VersionRouters() && !(choice.Routed? && v == routeMap[choice.index].api.versionRouter) ==>
        v.apiRouter == old(v.apiRouter)
    {
      req.AttachMetrics();
      if Upper(req.verb) == "OPTIONS" {
        req.SetHeader("Content-Type", JsonContentType);
        if Present(crossOriginDomains) {
          req.SetHeader("Access-Control-Allow-Origin", crossOriginDomains.value);
        }
        return CorsPage(this), Preflight;
      }
      var token := GetVersion(req.GetHeader(ApiVersionHeader), req.args);
      if token.None? {
        return UnknownVersionPage, BadVersion;
      }
      ghost var patterns := ApiPatterns(routeMap[..]);
      var i := 0;
      while i < routeMap.Length
        invariant 0 <= i <= routeMap.Length
        invariant FirstMatch(patterns, name, m) == FirstFrom(patterns, name, m, i)
        invariant req.State() == old(req.State()).(metricsOn := true)
      {
        var route := routeMap[i];
        if m(route.pattern, name).Some? {
          var apiName := Lower(route.api.apiName);
          req.SetApiName(apiName);
          if token.value.api != apiName {
            return UnknownVersionPage, Mismatch(i);
          }
          route.api.versionRouter.apiRouter := this;
          return VersionTier(route.api.versionRouter), Routed(i);
        }
        i := i + 1;
      }
      return UnknownApiPage, NoApi;
    }
  }

  /** The call routers a request can reach through `api`. */
  function ReachableCallRouters(api: APIRouter): set<CallRouter>
    reads api.routeMap
  {
    set i, k | 0 <= i < api.routeMap.Length && k in api.routeMap[i].api.versionRouter.versionMap ::
      api.routeMap[i].api.versionRouter.versionMap[k].calls
  }

  /**
   * The API tier and the version tier in sequence, as Twisted's traversal
   * calls them for `/<api>/<call>`: through an API router the attribute
   * chain a call router needs is always in place.
   */
  method Dispatch(api: APIRouter, req: Request, apiSegment: string, callSegment: string, m: Matcher) returns (c: Child)
    modifies req, api.VersionRouters(), ReachableCallRouters(api)
    ensures c != MissingAttribute
    ensures c.CallPage? ==> c.calls.Api() == api && c.calls.versionRouter != null && c.calls.versionRouter.apiRouter == api
  {
    var first, choice := api.GetChild(apiSegment, req, m);
    if first.VersionTier? {
      var vr := first.router;
      assert vr in api.VersionRouters();
      assert vr.CallRouters() <= ReachableCallRouters(api);
      assert vr.apiRouter == api;
      ghost var chosen;
      c, chosen := vr.GetChild(callSegment, req, m);
      assert vr.apiRouter == api;
    } else {
      c := first;
    }
  }
}
