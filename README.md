# Shiji request dispatch, validation and authentication in Dafny

Shiji is a framework for versioned JSON APIs on Twisted Web. A request
reaches its handler through three routers:

- an `APIRouter` picks the API module from the first path segment;
- a `VersionRouter` picks the module's version from the
  `X-DigiTar-API-Version` token (`api-version+mode`);
- a `CallRouter` picks the call resource by matching the rest of the path.

The call resource's render method runs a handler. Decorators guard each
handler:

- `json_arguments` checks the content type, decodes the JSON body and checks
  the declared arguments;
- `paged_results` bounds and defaults the `page` and `page_len` arguments;
- `url_arguments` checks the query arguments;
- `auth_http_basic` checks Basic credentials;
- `access` checks permissions by namespace through an authentication backend.

Every failure is answered with one of the `APIError` subclasses. Each has a
JSON envelope, an HTTP status and an optional metrics counter.

Shiji Auth also signs and checks cookies. An `i18n` validator checks postal
codes against per-country patterns.

This project models that core and proves its properties, module by module:

| module | models |
|---|---|
| `Http` | the Twisted request: a class whose fields the routers, decorators and errors update, with a `State()` snapshot |
| `ApiErrors` | `APIError`, its fourteen subclasses, `obj_err` and the metrics counter |
| `VersionToken` | `get_version` |
| `UrlDispatch` | route tables, the three routers, resource headers |
| `Resources` | the `Unknown*` pages, `CORSInterrogation`, `ListVersionsCall` and `URLMatchJSONResource.render` |
| `WebApi` | the four decorators and `write_json` |
| `Auth` | `install_secure_cookies`, `install_auth` and `access` |
| `SecureCookies` | `set_secure_cookie`, `get_secure_cookie` and `_cookie_signature` |
| `PostalCodes` | `PostalCodeValidator` |

`Wrappers`, `Strings`, `Numbers`, `UrlQuote` and `Json` supply Python 2's
string and number operations the core relies on:

- `split`, `join`, ASCII `lower`/`upper` and string ordering;
- `int()`/`str()` on integers and `urllib.unquote`;
- decoded JSON values.

Several engines are parameters of the model rather than code:

- the regular-expression engine is a `Matcher` (pattern, subject) giving the
  named captures, or an `Accepts` predicate for postal codes;
- the JSON decoder, and the text `json.dumps` gives;
- HMAC-SHA1 and base64 (a `Codec`);
- the clock (`now`);
- the authentication backend's verdict, and the credential check of
  `auth_http_basic`.

A Deferred's later outcome is modelled as an explicit value
(`Settlement`, `AuthResult`), handed to the method that runs the callback
chain.

## Model

| member | source | states |
|---|---|---|
| ApiErrors.FormatArity | shiji/webapi.py:343-458 | a `%`-template formats exactly when it gets as many arguments as it has slots |
| ApiErrors.TextFormatsTemplate | shiji/webapi.py:343-458 | every subclass's exception text is its template filled with the subclass's constructor arguments |
| ApiErrors.CodesMatchClasses | shiji/webapi.py:343-458 | two error kinds share an error code exactly when they share an exception class, so codes identify classes |
| ApiErrors.StatusOverrides | shiji/webapi.py:298-420 | the status stays 409 except 404 for unknown API and unknown call, and 406 for unknown version and wrong content type |
| ApiErrors.InitSucceeds | shiji/webapi.py:298-319 | initialisation succeeds exactly when each of code, class and text is passed (the code as an integer) or set on the class |
| ApiErrors.InitArgumentsWin | shiji/webapi.py:300-319 | passed arguments override the class attributes |
| ApiErrors.InitTextCode | shiji/webapi.py:300-302 | a numeric string is accepted as the error code it spells |
| ApiErrors.InitBaseReportsFirstMissing | shiji/webapi.py:300-319 | the bare base class reports a missing code first, then a missing class, then a missing text |
| ApiErrors.SubclassInit | shiji/webapi.py:343-458 | every subclass initialises to its own code, class and formatted text |
| ApiErrors.ObjErr | shiji/webapi.py:328-333 | the envelope has exactly the keys `result` (null) and `error`, and the error has exactly code, class and text |
| ApiErrors.EnvelopeRoundTrip | shiji/webapi.py:328-341 | the error can be read back out of its envelope unchanged |
| ApiErrors.EnvelopeInjective | shiji/webapi.py:328-341 | distinct errors have distinct envelopes |
| ApiErrors.SubclassCounterIsNone | shiji/webapi.py:321-326 | as written, a subclass (which passes no class argument) is counted under a name that differs from `<api>.error.<its own class>` |
| ApiErrors.CounterNameSeparatesClasses | shiji/webapi.py:321-326 | under the intended name, errors of different classes go to different counters |
| ApiErrors.Initialise | shiji/webapi.py:283-326 | the status is set to 409; the result is the resolved error or the failure; on success one counter is added when metrics are attached |
| ApiErrors.Raise | shiji/webapi.py:343-458 | constructing a subclass gives its described error, sets its status and counts it |
| VersionToken.AbsentTokenIsEmpty | shiji/urldispatch.py:30-35 | with no non-empty header and no query argument, api, version and mode are all empty |
| VersionToken.HeaderWins | shiji/urldispatch.py:30-41 | a non-empty header is decoded in preference to the query argument |
| VersionToken.QueryArgumentFallback | shiji/urldispatch.py:32-41 | without a header, the query argument's first value is decoded |
| VersionToken.ParseTokenFails | shiji/urldispatch.py:39-41 | decoding fails (Python's `IndexError`) exactly when there is no `-`, or no `+` in the second `-`-field |
| VersionToken.ParseTokenFields | shiji/urldispatch.py:39-41 | `api` is the lower-cased text before the first `-`; `api` and `mode` are lower case; no field holds the separator it was cut at |
| VersionToken.ParseTokenLayout | shiji/urldispatch.py:39-41 | in a decoded token, `api` is the lower-cased text before the first `-`, `version` the text after it up to the next `+` as sent, and `mode` the lower-cased text after that `+`, ending at the token's end or at the next `+` or `-` |
| VersionToken.TokenRoundTrip | shiji/urldispatch.py:39-45 | the token `api-version+mode` of any triple whose fields hold no separator decodes back to it, with `api` and `mode` lower-cased |
| UrlDispatch.ListEntries | shiji/urldispatch.py:256-258 | a list of routes adds one entry per route, in order, each with `$` appended |
| UrlDispatch.CreateRouteMap | shiji/urldispatch.py:236-258 | the loop builds the table the route specification gives for the call classes in turn |
| UrlDispatch.AddClassRoutes | shiji/urldispatch.py:251-258 | one class appends exactly its own entries after the existing table |
| UrlDispatch.RouteEntriesAppend | shiji/urldispatch.py:249-258 | the table for two lists of classes is the concatenation of their tables |
| UrlDispatch.TextRouteContribution | shiji/urldispatch.py:253-255 | a call class with one route string adds exactly one entry, `route$`, after the existing ones |
| UrlDispatch.ListRouteContribution | shiji/urldispatch.py:256-258 | a call class with a list of routes adds one `$`-anchored entry per element, in list order, after the existing ones |
| UrlDispatch.NoRouteContribution | shiji/urldispatch.py:251-253 | a class that is not a call resource, or whose routes are None or of another type, adds nothing |
| UrlDispatch.RouteEntriesWellFormed | shiji/urldispatch.py:251-258 | every entry's pattern ends in `$` and targets a call resource class |
| UrlDispatch.ListVersionsLast | shiji/urldispatch.py:229-232 | with `auto_list_versions`, `list_versions$` comes last, after all module routes |
| UrlDispatch.FirstFrom | shiji/urldispatch.py:279-285 | a found index is in range and its pattern matches |
| UrlDispatch.FirstFromSpec | shiji/urldispatch.py:279-285 | no earlier pattern matches than the one found; nothing is found exactly when no pattern matches |
| UrlDispatch.FirstMatchWins | shiji/urldispatch.py:279-285 | over a whole table, the first matching pattern is chosen |
| UrlDispatch.CallPathOf | shiji/urldispatch.py:280 | the path matched for `/<api>/<path>?<query>` is `<path>`: the query is cut and the first two fields dropped |
| UrlDispatch.QueryCut | shiji/urldispatch.py:280 | cutting at the first `?` removes exactly the query string |
| UrlDispatch.SegmentsAfterApi | shiji/urldispatch.py:280 | after the leading empty field and the API segment, the fields are those of the path |
| UrlDispatch.UnquoteAll | shiji/urldispatch.py:282-284 | decoding the captures keeps their names |
| UrlDispatch.UnquoteCaptures | shiji/urldispatch.py:282-284 | the loop percent-decodes every named capture |
| UrlDispatch.CapturesDecodedOnce | shiji/urldispatch.py:282-284 | any capture sent percent-encoded reaches the handler as the text encoded, so decoding is applied exactly once |
| UrlDispatch.DecodedOnceExample | shiji/urldispatch.py:282-284 | the capture `%2526` reaches the handler as `%26`, not `&` |
| UrlDispatch.ResourceHeaders | shiji/urldispatch.py:57-73 | the JSON content type is set; origin and credentials headers are set when domains are configured; no-cache headers are set when caching is inhibited; other headers are untouched |
| UrlDispatch.CallResolve | shiji/urldispatch.py:268-287 | a matched call's index is in range and its pattern matches the path |
| UrlDispatch.CallResolveFirst | shiji/urldispatch.py:279-287 | with a valid mode, the call is the first matching route, and the unknown-call page appears exactly when none matches |
| UrlDispatch.ModeGuardsCalls | shiji/urldispatch.py:268-276 | the unknown-version page is chosen exactly when the token is malformed or its mode is neither `test` nor `prod` |
| UrlDispatch.InitResource | shiji/urldispatch.py:57-73 | a call resource's construction sets the response headers as `ResourceHeaders` states |
| UrlDispatch.CallRouter.constructor | shiji/urldispatch.py:217-234 | the route map is the table built from the call classes, and the version router is kept |
| UrlDispatch.CallRouter.GetChild | shiji/urldispatch.py:260-287 | the child and new request state are those of the first-match decision: the mode is set only when valid, the config only with an API router, and captures are decoded |
| UrlDispatch.CallRouter.FirstRoute | shiji/urldispatch.py:279-281 | the route tried is the first in table order whose pattern matches the call path, and nothing is found exactly when none matches |
| UrlDispatch.Anchor | shiji/urldispatch.py:311-314 | each stored version pattern is the given one with `$` appended; versions and call routers are kept |
| UrlDispatch.LeastMatchUnique | shiji/urldispatch.py:326-333 | at most one version id is the least matching one |
| UrlDispatch.SortKeys | shiji/urldispatch.py:326 | version ids are sorted strictly ascending, with the same members |
| UrlDispatch.Insert | shiji/urldispatch.py:326 | inserting into a sorted list keeps it sorted and adds exactly the new id |
| UrlDispatch.VersionRouter.constructor | shiji/urldispatch.py:297-314 | the version map is the anchored one and the API router is kept |
| UrlDispatch.VersionRouter.GetVersionMap | shiji/urldispatch.py:335-357 | the map returned is the anchored version map |
| UrlDispatch.VersionRouter.GetChild | shiji/urldispatch.py:316-333 | nothing is chosen exactly when the token is malformed or no pattern matches; otherwise the least matching id is set as `api_version`, its call router's back-reference is set, and the call router's decision follows |
| UrlDispatch.VersionRouter.LeastVersion | shiji/urldispatch.py:326-328 | trying ids in sorted order finds the least id whose pattern matches the version field, and nothing exactly when no pattern matches |
| UrlDispatch.SortedPrefixLeast | shiji/urldispatch.py:326-331 | the first match in ascending order is the least matching version id |
| UrlDispatch.ApiResolve | shiji/urldispatch.py:395-413 | a routed or mismatched index is in range and its pattern matches |
| UrlDispatch.ApiResolveRoutes | shiji/urldispatch.py:395-413 | a request is routed only to the API its token names, by the first matching prefix; the unknown-API page appears exactly for a non-OPTIONS request with a token that no prefix matches |
| UrlDispatch.CorsHeaders | shiji/urldispatch.py:122-127 | the JSON content type is set, and the allowed origin only when domains are configured |
| UrlDispatch.APIRouter.constructor | shiji/urldispatch.py:367-386 | each route pattern is rewritten in place with `$` appended; config, domains and caching flag are kept |
| UrlDispatch.APIRouter.GetRouteMap | shiji/urldispatch.py:415-430 | the map returned is the anchored route map |
| UrlDispatch.APIRouter.GetChild | shiji/urldispatch.py:388-413 | OPTIONS gives the CORS page before any token is read; a malformed token or another API's prefix gives the unknown-version page; no prefix gives the unknown-API page; the first matching prefix records its lower-cased API name, and a routed API's version router gets its back-reference; metrics are always attached |
| UrlDispatch.Dispatch | shiji/urldispatch.py:260-413 | the three routers in turn never fail on a missing attribute, and a call page is reached through the API router it started at |
| WebApi.RejectWith | shiji/webapi.py:62-101 | a rejected request returns the error's text, with its status and counter |
| WebApi.Utf8Char | shiji/webapi.py:270 | a character encodes as one to four bytes, and as the single byte it is exactly when it is ASCII |
| WebApi.Utf8Length | shiji/webapi.py:268-270 | the UTF-8 text has between one and four bytes per character, exactly one each exactly when the text is ASCII, and then the bytes are the characters |
| WebApi.ContentLengthUndercounts | shiji/webapi.py:268-269 | as written, a JSON text holding one non-ASCII character announces fewer bytes than are sent |
| WebApi.WriteJson | shiji/webapi.py:255-272 | the value is written once and `Content-Length` set to the number of UTF-8 bytes of its `json.dumps` text (corrected) |
| WebApi.ContentTypeAccepts | shiji/webapi.py:62-75 | a header is accepted exactly when, lower-cased and without spaces, it is the expected type followed by `;charset=utf-8` |
| WebApi.ArgError | shiji/webapi.py:89-98 | an argument passes exactly when it is of its type if present, and it is optional if absent; a failure says why |
| WebApi.FirstArgErrorSpec | shiji/webapi.py:89-98 | arguments are checked in declaration order and the first failure is reported; none exactly when all pass |
| WebApi.CheckArguments | shiji/webapi.py:89-98 | the loop reports the first failing argument |
| WebApi.JsonAccepted | shiji/webapi.py:62-101 | the handler runs exactly when the content type is right, the body decodes to an object and every argument passes |
| WebApi.JsonArguments | shiji/webapi.py:57-105 | the wrapper proceeds or rejects with the verdict's error, and sets `jsonArgs` whenever the body was decoded |
| WebApi.PagingConfigValid | shiji/webapi.py:123-133 | decoration succeeds exactly for `0 <= default_page` and `0 <= default_page_len <= max_page_len`, as written and as corrected |
| WebApi.PagingMessagesDiffer | shiji/webapi.py:128-133 | as written, rejecting `default_page_len = -1` quotes `0`; corrected, it quotes `-1` |
| WebApi.PagingPasses | shiji/webapi.py:138-163 | a request that passes has both arguments present and within range, and no other argument changes |
| WebApi.PagingKeepsSupplied | shiji/webapi.py:138-163 | supplied paging arguments are left as sent |
| WebApi.PagedResults | shiji/webapi.py:136-166 | `page_len` then `page` are checked; absent ones are defaulted; the handler runs only when both pass; a failure rejects with its error |
| WebApi.ApplyPaging | shiji/webapi.py:138-163 | one argument is defaulted if absent; otherwise it must be an integer, at least 0 and within the bound |
| WebApi.FirstMissingFrom | shiji/webapi.py:214-216 | a reported name is declared and was not sent |
| WebApi.FirstMissingSpec | shiji/webapi.py:214-216 | nothing is reported exactly when every declared name was sent |
| WebApi.FirstMissing | shiji/webapi.py:214-216 | the loop reports the first declared name that was not sent |
| WebApi.UrlAccepted | shiji/webapi.py:198-219 | without a content type, the handler runs exactly when every listed argument was sent |
| WebApi.UrlArguments | shiji/webapi.py:193-222 | the content type is checked only when one is expected, then the first missing name is rejected |
| WebApi.ChallengeRealm | shiji/webapi.py:243 | the realm can be read back from `Basic realm="<realm>"` |
| WebApi.AuthHttpBasic | shiji/webapi.py:234-252 | accepted credentials proceed unchanged; rejected ones count the access-denied error, set 401 and the challenge, write the envelope with its UTF-8 byte count (corrected) and return None |
| Resources.RenderUnknownApi | shiji/urldispatch.py:153-160 | 404 and the unknown-API error naming the first path segment; a URI without `/` raises |
| Resources.UnknownApiName | shiji/urldispatch.py:157 | for `/<api>` and `/<api>/<rest>` the page names `<api>` |
| Resources.RenderUnknownCall | shiji/urldispatch.py:168-175 | 404 and the unknown-call error naming the last path segment |
| Resources.UnknownCallName | shiji/urldispatch.py:172 | for `<prefix>/<call>` the page names `<call>` |
| Resources.RenderUnknownVersion | shiji/urldispatch.py:184-193 | 406 and the unknown-version error quoting the header as sent, or "" |
| Resources.FailureBodies | shiji/urldispatch.py:147-193 | each failure page's body decodes back to its error, with codes 208, 203 and 207 |
| Resources.RenderOptions | shiji/urldispatch.py:129-145 | 200, the fourteen verbs, the allowed headers (those asked for, else the names of all headers sent), credentials allowed, and an empty body; nothing else changes |
| Resources.AdvertisedVerbs | shiji/urldispatch.py:130-143 | splitting the advertised methods at commas gives back the fourteen verbs |
| Resources.EchoedHeaders | shiji/urldispatch.py:135-139 | requested headers are echoed; otherwise splitting the allowed list at commas gives every header name sent, each exactly once, and no headers give "" |
| Resources.ListingDetermined | shiji/urldispatch.py:201-206 | the version listing is determined by the set of ids and the current version |
| Resources.ListVersions | shiji/urldispatch.py:195-206 | it raises without a version router or a chosen version; otherwise it writes the sorted ids and the current version, announcing the UTF-8 byte count (corrected) |
| Resources.Render | shiji/urldispatch.py:99-114 | a value is passed on; an `Exception` becomes the unexpected-server-error text, unfinished; a Deferred gives `NOT_DONE_YET`; a raise `except Exception` does not catch (an `APIError`) propagates, with nothing answered and nothing changed |
| Resources.SettledOnce | shiji/urldispatch.py:80-97 | however a Deferred settles, one body is written and the request finished once; a string result is written as itself |
| Resources.Settle | shiji/urldispatch.py:80-97 | `cb_deferred_finish` and `eb_failed` leave the state `Settled` describes |
| Resources.Fail | shiji/urldispatch.py:90-97 | a failure writes the unexpected-server-error envelope and finishes |
| Auth.AuthConfig.constructor | shiji/auth/__init__.py:17-18 | no secrets and no backend are installed |
| Auth.InstallSecureCookies | shiji/auth/__init__.py:20-39 | a list replaces the secrets and returns True; anything else raises and changes nothing |
| Auth.InstallAuth | shiji/auth/__init__.py:41-63 | only a backend subclass is installed; anything else raises |
| Auth.NamespacePreference | shiji/auth/__init__.py:118-130 | the namespace comes from `jsonArgs`, else `url_matches`, else the first query value; a missing variable is an invalid authentication |
| Auth.CountPermissions | shiji/auth/__init__.py:133-138 | the loop counts the caller's permissions that are among the required ones |
| Auth.CountPositive | shiji/auth/__init__.py:133-144 | the count is positive exactly when some permission the caller holds is required |
| Auth.AnyOfAgrees | shiji/auth/__init__.py:141-144 | without `all_required`, the count decides as documented |
| Auth.RepeatsMiscount | shiji/auth/__init__.py:133-142 | with `all_required`, repeated entries make the count admit a caller lacking a permission and refuse one holding them all |
| Auth.Decide | shiji/auth/__init__.py:103-148 | a grant carries the backend's permissions for the request's own namespace, and they satisfy the (corrected) rule |
| Auth.GrantExactly | shiji/auth/__init__.py:103-148 | a caller is admitted exactly when authenticated with enough permissions in the namespace the request names |
| Auth.Errback | shiji/auth/__init__.py:91-101 | one body and one finish, the body being the envelope of the failure's own error |
| Auth.ErrbackMisreports | shiji/auth/__init__.py:91-101 | as written, invalid credentials are answered with the unexpected-server error; the other failures agree with the corrected errback |
| Auth.AuthError | shiji/auth/__init__.py:91-101 | the errback leaves the state the corrected `Errback` describes: one body, one finish, the failure's own envelope |
| Auth.AccessRender | shiji/auth/__init__.py:158-168 | without a backend it raises; otherwise it answers `NOT_DONE_YET` |
| Auth.CompletedOnce | shiji/auth/__init__.py:146-156 | unless a granted handler returns `NOT_DONE_YET`, exactly one body and one finish follow; a denial attaches no permissions |
| Auth.Complete | shiji/auth/__init__.py:103-156 | on a grant, permissions and namespace are attached before the handler's result is written; on a denial the errback answers |
| SecureCookies.Trunc | shiji/auth/__init__.py:184 | `int()` of the clock truncates toward zero |
| SecureCookies.CookieSignature | shiji/auth/__init__.py:211-222 | the loop signs the concatenated parts with every installed secret; without secrets it raises |
| SecureCookies.GetSecureCookie | shiji/auth/__init__.py:192-209 | the result is the reading `ReadCookie` gives, and a refused cookie constructs its error |
| SecureCookies.SetSecureCookie | shiji/auth/__init__.py:176-190 | the cookie `b64|timestamp|sig` is added, signed with the first secret; without secrets it raises and adds nothing |
| SecureCookies.CookieRoundTrip | shiji/auth/__init__.py:176-209 | a cookie signed with any installed secret reads back as its value within its lifetime and is refused as expired after it |
| PostalCodes.Validate | shiji/i18n/postal_code_validator.py:106-118 | a code longer than two raises first, then an unloaded code raises; a loaded pattern returns the postal code when it matches and None otherwise |
| PostalCodes.ValidateIgnoresCase | shiji/i18n/postal_code_validator.py:106 | country codes are case-insensitive |
| PostalCodes.Loaded | shiji/i18n/postal_code_validator.py:87 | loading stores the anchored pattern under the upper-cased code; no other entry changes |
| PostalCodes.LoadThenValidate | shiji/i18n/postal_code_validator.py:87-118 | a loaded country's codes are judged by its own anchored pattern; other countries are unaffected |
| PostalCodes.LoadedCount | shiji/i18n/postal_code_validator.py:84-87 | loading adds one supported country exactly when its upper-cased code was not loaded, and keeps every stored code upper case and at most two long |
| PostalCodes.PostalCodeValidator.constructor | shiji/i18n/postal_code_validator.py:40 | the table starts empty |
| PostalCodes.PostalCodeValidator.LoadCountry | shiji/i18n/postal_code_validator.py:84-87 | a code longer than two raises and leaves the table unchanged; otherwise the entry is loaded or replaced |
| PostalCodes.PostalCodeValidator.SupportedCountries | shiji/i18n/postal_code_validator.py:63 | exactly the loaded codes, each once |
| PostalCodes.PostalCodeValidator.ValidPostalCodeGlobal | shiji/i18n/postal_code_validator.py:135-140 | the postal code is returned exactly when it is non-empty and some loaded pattern accepts it, whatever the order tried |

## Left out

- `URLRouter` is deprecated and optional, so it is not modelled.
- The backend's `authenticate`, the `auth_http_basic` credential function, the regex engine, the JSON codec, HMAC-SHA1 and base64 are not modelled. Each is a parameter (a function value) instead.
- `json.dumps` is a parameter giving the text; the written body is the JSON value itself, and `Content-Length` is computed from the text.
- WebApi.WriteJson: announces the UTF-8 byte count (see Findings); `ContentLengthAsWritten` keeps the length as written.
- WebApi.AuthHttpBasic: writes through the corrected `WriteJson`, so its `Content-Length` is the UTF-8 byte count (see Findings). The access-denied envelope is ASCII, so the count equals the source's `len`.
- Resources.ListVersions: writes through the corrected `WriteJson`, so its `Content-Length` is the UTF-8 byte count (see Findings); a version id with a non-ASCII character would be announced shorter by the source.
- JSON strings are unicode text. In Python 2, `json.dumps(obj, ensure_ascii=False)` gives a byte string when `obj` holds only byte strings, and `.encode("utf-8")` of a non-ASCII byte string raises `UnicodeDecodeError` before anything is written; `WriteJson` does not model that raise.
- ApiErrors.Initialise: counts under the resolved error's class through `CounterName` (see Findings), where the source formats the `exception_class` argument; `CounterNameAsWritten` keeps the name as written.
- An unmatched optional group is None in the source, and `urllib.unquote(None)` raises. The `Matcher` gives only string captures, so that raise is not modelled.
- A handler's exception (`Throws`) carries its message and not its class. Under `access`, an `errors.NotAuthorized` or `errors.InvalidAuthentication` raised by the handler itself is therefore answered as an unexpected server error, whereas the source's errback answers it by class.
- The keyword arguments `set_secure_cookie` passes on to `addCookie` (`domain`, `path`, `secure`, `max_age`, …) are not modelled; the cookie records name, value, expiry and path.
- `time.time()` is a parameter. The cookie expiry date string is also a parameter, because `strftime`, locale and UTC dates are platform I/O.
- Printing, logging and tracebacks are left out. An exception's message is a parameter (`message`, `writeFailure`).
- `DummyRequest._reset_body` is test scaffolding, so it is not modelled.
- Resources run only the render methods modelled here. Twisted's dispatch by HTTP verb, and the `render_POST` aliases of the `Unknown*` pages, are not modelled: they behave as `render_GET`.
- Regex semantics are abstract. That includes the detail that `$` also matches before a final newline. For postal codes the group is taken to be the whole postal code.
- `PostalCodeValidator.__init__` loads a CLDR XML file. XML parsing and file access are left out, and the model starts with an empty table.
- Decoration-time type checks of `json_arguments` are enforced by the Dafny types of `ArgSpec`, so they are not modelled separately.
- Python dict iteration order is not modelled. Header names, version ids before sorting and postal table keys come as a given sequence or in an unspecified order.
- `inspect.getmembers` returns a module's classes sorted by name. The call classes are a sequence given in that listing order.
- Request headers and response headers are two separate maps, as in Twisted.
- A Deferred's later outcome is a value handed to the method that runs its callbacks; scheduling and concurrency are not modelled.
- Only ASCII case mapping is modelled. Python's locale-dependent `upper`/`lower` on other bytes is left out.
- `AuthBadBackend` is checked through `issubclass`; the model takes the check's answer as a boolean.
- Auth.Decide: models the corrected all-of rule (see Findings); `AuthorizedAsWritten` keeps the rule as written.
- Auth.Complete: uses the corrected errback (see Findings); `ErrbackAsWritten` keeps the errback as written.
- Auth.AuthError: leaves the state of the corrected errback `Errback` (see Findings), so an invalid-authentication failure is answered with `InvalidAuthenticationError`; `ErrbackAsWritten` keeps the source's answer, the unexpected-server error after both errors are counted.
- ApiErrors.Raise: counts errors under the corrected metric name (see Findings); `CounterNameAsWritten` keeps the name as written.

## Findings

| source | as written | input that shows it | evidently intended | confidence | as-written member | corrected member |
|---|---|---|---|---|---|---|
| shiji/webapi.py:321-326 | the counter name uses the `exception_class` argument, which every subclass leaves as None | any subclass, e.g. `AccessDeniedError(request)` with metrics attached, counts `<api>.error.None` | count under the error's own class, `<api>.error.AccessDeniedError` | medium, not executed | ApiErrors.SubclassCounterIsNone | ApiErrors.CounterNameSeparatesClasses |
| shiji/auth/__init__.py:91-101 | `if` / `if` / `else`: an invalid-authentication failure falls into the final `else` | a backend failing with `errors.InvalidAuthentication` gets an `UnexpectedServerError` envelope, and two errors are counted | `elif`: answer with `InvalidAuthenticationError` | high, not executed | Auth.ErrbackMisreports | Auth.Errback |
| shiji/auth/__init__.py:133-142 | `all_required` compares a count of possessed entries, repeats included, with `len(args)` | permissions `["read", "read"]` pass `access(ns, True, "read", "write")`; `["read"]` fails `access(ns, True, "read", "read")` | every required permission is possessed | medium, not executed | Auth.RepeatsMiscount | Auth.GrantExactly |
| shiji/webapi.py:268-269 | `Content-Length` is `len` of the text before it is encoded as UTF-8 | `write_json(request, {u"name": u"\u00e9"})` announces 13 bytes and sends 14 | announce the length of the encoded bytes | medium, not executed | WebApi.ContentLengthUndercounts | WebApi.WriteJson |
| shiji/webapi.py:128-133 | the negative-length and negative-maximum messages quote `default_page` | `paged_results(default_page=0, default_page_len=-1)` says "Default page length (0) cannot be < 0." | quote the value rejected: "(-1)" | high, not executed | WebApi.PagingMessagesDiffer | WebApi.PagingConfigValid |
