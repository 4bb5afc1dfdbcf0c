/**
 * The request-validating decorators: each wrapper either lets the wrapped
 * render function run (`Proceed`), answers the request itself with an API
 * error, or lets an exception escape (`Raises`). Also `write_json`.
 */
module WebApi {

  import opened Wrappers
  import opened Strings
  import opened Json
  import opened Http
  import opened ApiErrors
  import opened Numbers

  /** What a decorator's wrapper does with a request. */
  datatype Gate = Proceed | Respond(value: PyValue) | Raises

  /** The answer `return str(SomeError(request, ...))` gives. */
  function Reject(k: ErrorKind): Gate
  {
    Respond(PyStr(Str(Describe(k))))
  }

  /**
   * A decorator that rejects with `k` leaves the request as the error's
   * constructor does, and answers with that error's JSON envelope.
   */
  method RejectWith(req: Request, k: ErrorKind) returns (g: Gate)
    modifies req
    ensures g == Reject(k)
    ensures req.State() == AfterError(old(req.State()), Describe(k), Status(k))
  {
    var e := Raise(req, k);
    g := Respond(PyStr(Str(e)));
  }

  // ---------------------------------------------------------------
  // write_json
  // ---------------------------------------------------------------

  /** The UTF-8 encoding of one character (section 3 of RFC 3629). */
  function Utf8Char(c: char): (b: seq<int>)
    ensures 1 <= |b| <= 4 && forall i :: 0 <= i < |b| ==> 0 <= b[i] < 256
    ensures |b| == 1 <==> (c as int) < 0x80
    ensures |b| == 1 ==> b[0] == c as int
  {
    var n := c as int;
    if n < 0x80 then [n]
    else if n < 0x800 then [0xC0 + n / 0x40, 0x80 + n % 0x40]
    else if n < 0x10000 then [0xE0 + n / 0x1000, 0x80 + (n / 0x40) % 0x40, 0x80 + n % 0x40]
    else [0xF0 + n / 0x40000, 0x80 + (n / 0x1000) % 0x40, 0x80 + (n / 0x40) % 0x40, 0x80 + n % 0x40]
  }

  /** `text.encode("utf-8")`. */
  function Utf8(text: string): seq<int>
  {
    if |text| == 0 then [] else Utf8Char(text[0]) + Utf8(text[1..])
  }

  /**
   * Encoding never shortens the text, and it keeps the text's length
   * exactly when every character is ASCII, each then encoded as itself.
   */
  lemma {:induction false} Utf8Length(text: string)
    ensures |text| <= |Utf8(text)| <= 4 * |text|
    ensures |Utf8(text)| == |text| <==> forall i :: 0 <= i < |text| ==> (text[i] as int) < 0x80
    ensures (forall i :: 0 <= i < |text| ==> (text[i] as int) < 0x80) ==>
      forall i :: 0 <= i < |text| ==> Utf8(text)[i] == text[i] as int
    decreases |text|
  {
    if |text| > 0 {
      var rest := text[1..];
      Utf8Length(rest);
      var head := Utf8Char(text[0]);
      assert Utf8(text) == head + Utf8(rest);
      if forall i :: 0 <= i < |text| ==> (text[i] as int) < 0x80 {
        assert forall i :: 0 <= i < |rest| ==> (rest[i] as int) < 0x80 by {
          forall i | 0 <= i < |rest| ensures (rest[i] as int) < 0x80 {
            assert rest[i] == text[i + 1];
          }
        }
        forall i | 0 <= i < |text| ensures Utf8(text)[i] == text[i] as int {
          if i > 0 {
            assert Utf8(text)[i] == Utf8(rest)[i - 1];
            assert rest[i - 1] == text[i];
          }
        }
      }
      if |Utf8(text)| == |text| {
        forall i | 0 <= i < |text| ensures (text[i] as int) < 0x80 {
          if i > 0 {
            assert rest[i - 1] == text[i];
          }
        }
      }
    }
  }

  /** The `Content-Length` `write_json` announces, as written: `len` of the text before it is encoded. */
  function ContentLengthAsWritten(text: string): nat
  {
    |text|
  }

  /** As written, one non-ASCII character in the JSON text makes the announced length short of the bytes sent. */
  lemma ContentLengthUndercounts(text: string, i: nat)
    requires i < |text| && (text[i] as int) >= 0x80
    ensures ContentLengthAsWritten(text) < |Utf8(text)|
  {
    Utf8Length(text);
  }

  /**
   * `write_json`: the JSON text is written and the number of its UTF-8
   * bytes announced. `dumps` is `json.dumps(…, ensure_ascii=False)`.
   */
  method WriteJson(req: Request, obj: Json, dumps: Json -> string)
    modifies req
    ensures req.State() == old(req.State()).(
      responseHeaders := old(req.responseHeaders)["Content-Length" := NatString(|Utf8(dumps(obj))|)],
      written := old(req.written) + [Encoded(obj)])
  {
    req.SetHeader("Content-Length", NatString(|Utf8(dumps(obj))|));
    req.Write(Encoded(obj));
  }

  // ---------------------------------------------------------------
  // Content type
  // ---------------------------------------------------------------

  const Utf8Charset: string := "charset=utf-8"

  /**
   * The `Content-Type` check: spaces are dropped and the header lower-cased,
   * then it must be exactly `<type>;<charset>` with the UTF-8 charset and the
   * expected type, reported in that order.
   */
  function ContentTypeVerdict(header: Option<string>, expected: string): Option<ErrorKind>
  {
    if header.None? then Some(ContentType)
    else
      var fields := Split(Concat(Split(Lower(header.value), ' ')), ';');
      if |fields| != 2 then Some(CharsetNotUTF8)
      else if fields[1] != Utf8Charset then Some(CharsetNotUTF8)
      else if fields[0] != expected then Some(ContentType)
      else None
  }

  /**
   * A header is accepted exactly when, lower-cased and without spaces, it is
   * the expected type followed by `;charset=utf-8`.
   */
  lemma ContentTypeAccepts(header: Option<string>, expected: string)
    requires ';' !in expected
    ensures ContentTypeVerdict(header, expected).None? <==>
      header.Some? && Remove(Lower(header.value), ' ') == expected + ";" + Utf8Charset
  {
    if header.Some? {
      var t := Remove(Lower(header.value), ' ');
      ConcatSplitRemoves(Lower(header.value), ' ');
      var fields := Split(t, ';');
      if ContentTypeVerdict(header, expected).None? {
        JoinSplit(t, ';');
        assert Join(fields, ';') == fields[0] + [';'] + fields[1];
      }
      if t == expected + ";" + Utf8Charset {
        assert ';' !in Utf8Charset by {
          assert forall k :: 0 <= k < |Utf8Charset| ==> Utf8Charset[k] != ';';
        }
        assert t == expected + [';'] + Utf8Charset;
        SplitCons(expected, Utf8Charset, ';');
        assert Split(Utf8Charset, ';') == [Utf8Charset];
      }
    }
  }

  // ---------------------------------------------------------------
  // json_arguments
  // ---------------------------------------------------------------

  /** One `arg_list` tuple: a name, a type and, in a 3-tuple, the optional flag. */
  datatype ArgSpec = ArgSpec(name: string, ty: PyType, optional: Option<bool>)

  /** An argument is checked unless it is flagged optional and absent. */
  predicate Checked(spec: ArgSpec, args: map<string, Json>)
  {
    spec.optional != Some(true) || spec.name in args
  }

  /** The error one argument draws: missing, or not of the declared type. */
  function ArgError(spec: ArgSpec, args: map<string, Json>): (r: Option<ErrorKind>)
    ensures r.None? <==> (spec.name in args ==> HasType(args[spec.name], spec.ty)) &&
                         (spec.name !in args ==> spec.optional == Some(true))
  {
    if !Checked(spec, args) then None
    else if spec.name !in args then Some(Value(spec.name, "Argument is missing."))
    else if !HasType(args[spec.name], spec.ty) then Some(Value(spec.name, "Must be of type " + TypeName(spec.ty)))
    else None
  }

  /** The error of the first argument from position `i` on that has one. */
  function FirstArgError(specs: seq<ArgSpec>, args: map<string, Json>, i: nat): Option<ErrorKind>
    decreases |specs| - i
  {
    if i >= |specs| then None
    else if ArgError(specs[i], args).Some? then ArgError(specs[i], args)
    else FirstArgError(specs, args, i + 1)
  }

  /** The arguments pass exactly when each does, and a failure reported is that of the first failing argument. */
  lemma {:induction false} FirstArgErrorSpec(specs: seq<ArgSpec>, args: map<string, Json>, i: nat)
    ensures FirstArgError(specs, args, i).None? <==> forall j :: i <= j < |specs| ==> ArgError(specs[j], args).None?
    ensures FirstArgError(specs, args, i).Some? ==>
      exists j :: i <= j < |specs| && ArgError(specs[j], args) == FirstArgError(specs, args, i) &&
                  forall j' :: i <= j' < j ==> ArgError(specs[j'], args).None?
    decreases |specs| - i
  {
    if i < |specs| {
      FirstArgErrorSpec(specs, args, i + 1);
      if ArgError(specs[i], args).Some? {
        assert ArgError(specs[i], args) == FirstArgError(specs, args, i);
      } else if FirstArgError(specs, args, i).Some? {
        var j :| i + 1 <= j < |specs| && ArgError(specs[j], args) == FirstArgError(specs, args, i + 1) &&
                 forall j' :: i + 1 <= j' < j ==> ArgError(specs[j'], args).None?;
        assert ArgError(specs[j], args) == FirstArgError(specs, args, i);
      }
    }
  }

  /** The argument loop of the JSON wrapper. */
  method CheckArguments(specs: seq<ArgSpec>, args: map<string, Json>) returns (r: Option<ErrorKind>)
    ensures r == FirstArgError(specs, args, 0)
  {
    var i := 0;
    while i < |specs|
      invariant 0 <= i <= |specs|
      invariant FirstArgError(specs, args, 0) == FirstArgError(specs, args, i)
    {
      var spec := specs[i];
      if Checked(spec, args) {
        if spec.name !in args {
          return Some(Value(spec.name, "Argument is missing."));
        }
        if !HasType(args[spec.name], spec.ty) {
          return Some(Value(spec.name, "Must be of type " + TypeName(spec.ty)));
        }
      }
      i := i + 1;
    }
    return None;
  }

  /** The verdict of the JSON wrapper: content type, then decoding, then the object check, then the arguments. */
  function JsonVerdict(header: Option<string>, body: string, specs: seq<ArgSpec>, contentType: string,
                       decode: string -> Option<Json>): Option<ErrorKind>
  {
    var ct := ContentTypeVerdict(header, contentType);
    if ct.Some? then ct
    else match decode(body)
      case None => Some(JSONDecode)
      case Some(j) => if !j.JObject? then Some(RequestNotHash) else FirstArgError(specs, j.fields, 0)
  }

  /** `request.jsonArgs` after the wrapper: set whenever the body was decoded, even to a non-object. */
  function JsonArgsAfter(header: Option<string>, body: string, contentType: string, decode: string -> Option<Json>): Option<Json>
  {
    if ContentTypeVerdict(header, contentType).Some? then None else decode(body)
  }

  /**
   * The handler runs exactly when the content type is right, the body decodes
   * to a JSON object, and every declared argument is present (or optional)
   * with its declared type.
   */
  lemma JsonAccepted(header: Option<string>, body: string, specs: seq<ArgSpec>, contentType: string,
                     decode: string -> Option<Json>)
    ensures JsonVerdict(header, body, specs, contentType, decode).None? <==>
      ContentTypeVerdict(header, contentType).None? && decode(body).Some? && decode(body).value.JObject? &&
      forall j :: 0 <= j < |specs| ==> ArgError(specs[j], decode(body).value.fields).None?
  {
    if decode(body).Some? && decode(body).value.JObject? {
      FirstArgErrorSpec(specs, decode(body).value.fields, 0);
    }
  }

  /** `json_arguments`' wrapper. */
  method JsonArguments(req: Request, specs: seq<ArgSpec>, contentType: string, decode: string -> Option<Json>)
    returns (g: Gate)
    modifies req
    ensures var v := JsonVerdict(req.GetHeader("Content-Type"), req.content, specs, contentType, decode);
      var a := JsonArgsAfter(req.GetHeader("Content-Type"), req.content, contentType, decode);
      var st := if a.Some? then old(req.State()).(jsonArgs := a) else old(req.State());
      (v.None? ==> g == Proceed && req.State() == st) &&
      (v.Some? ==> g == Reject(v.value) && req.State() == AfterError(st, Describe(v.value), Status(v.value)))
  {
    var ct := ContentTypeVerdict(req.GetHeader("Content-Type"), contentType);
    if ct.Some? {
      g := RejectWith(req, ct.value);
      return;
    }
    var decoded := decode(req.content);
    if decoded.None? {
      g := RejectWith(req, JSONDecode);
      return;
    }
    req.SetJsonArgs(decoded.value);
    if !decoded.value.JObject? {
      g := RejectWith(req, RequestNotHash);
      return;
    }
    var failure := CheckArguments(specs, decoded.value.fields);
    if failure.Some? {
      g := RejectWith(req, failure.value);
    } else {
      g := Proceed;
    }
  }

  // ---------------------------------------------------------------
  // paged_results
  // ---------------------------------------------------------------

  datatype PagingConfig = PagingConfig(defaultPage: int, defaultPageLen: int, maxPageLen: int)

  /** The decorator's construction checks, as written: the last two messages quote `default_page`. */
  function PagingConfigErrorAsWritten(c: PagingConfig): Option<string>
  {
    if c.defaultPageLen > c.maxPageLen then
      Some("paged_results: Default page length (" + IntString(c.defaultPageLen) +
           ") cannot be greater than maximum page length (" + IntString(c.maxPageLen) + ").")
    else if c.defaultPage < 0 then Some("paged_results: Default page (" + IntString(c.defaultPage) + ") cannot be < 0.")
    else if c.defaultPageLen < 0 then Some("paged_results: Default page length (" + IntString(c.defaultPage) + ") cannot be < 0.")
    else if c.maxPageLen < 0 then Some("paged_results: Max page length (" + IntString(c.defaultPage) + ") cannot be < 0.")
    else None
  }

  /** The construction checks with each message quoting the value it rejects. */
  function PagingConfigError(c: PagingConfig): Option<string>
  {
    if c.defaultPageLen > c.maxPageLen then
      Some("paged_results: Default page length (" + IntString(c.defaultPageLen) +
           ") cannot be greater than maximum page length (" + IntString(c.maxPageLen) + ").")
    else if c.defaultPage < 0 then Some("paged_results: Default page (" + IntString(c.defaultPage) + ") cannot be < 0.")
    else if c.defaultPageLen < 0 then Some("paged_results: Default page length (" + IntString(c.defaultPageLen) + ") cannot be < 0.")
    else if c.maxPageLen < 0 then Some("paged_results: Max page length (" + IntString(c.maxPageLen) + ") cannot be < 0.")
    else None
  }

  /** Decoration succeeds exactly for `0 <= default_page` and `0 <= default_page_len <= max_page_len`. */
  lemma PagingConfigValid(c: PagingConfig)
    ensures PagingConfigError(c).None? <==> 0 <= c.defaultPage && 0 <= c.defaultPageLen <= c.maxPageLen
    ensures PagingConfigErrorAsWritten(c).None? <==> PagingConfigError(c).None?
  {
  }

  /**
   * With `default_page = 0` and `default_page_len = -1`, the message as
   * written quotes 0, a value nothing is wrong with, where -1 was rejected.
   */
  lemma PagingMessagesDiffer()
    ensures PagingConfigErrorAsWritten(PagingConfig(0, -1, 100)) ==
      Some("paged_results: Default page length (" + "0" + ") cannot be < 0.")
    ensures PagingConfigError(PagingConfig(0, -1, 100)) ==
      Some("paged_results: Default page length (" + "-1" + ") cannot be < 0.")
    ensures PagingConfigErrorAsWritten(PagingConfig(0, -1, 100)) != PagingConfigError(PagingConfig(0, -1, 100))
  {
    assert NatString(0) == "0";
    assert NatString(1) == "1";
    assert IntString(0) == "0";
    assert IntString(-1) == "-1";
    var p := "paged_results: Default page length (";
    assert (p + "0" + ") cannot be < 0.")[|p|] == '0';
    assert (p + "-1" + ") cannot be < 0.")[|p|] == '-';
  }

  /** How a paging check ends, and the query arguments it leaves. */
  datatype Verdict = Pass | Fail(kind: ErrorKind) | Crash
  datatype Check = Check(args: map<string, seq<string>>, verdict: Verdict)

  /**
   * One paging argument: a present value must parse as an integer, be at
   * least 0 and (with a bound) at most the bound; an absent one is set to the
   * default. An empty value list raises `IndexError`.
   */
  function CheckPaging(args: map<string, seq<string>>, name: string, bound: Option<int>, default: int): (r: Check)
  {
    if name !in args then Check(args[name := [IntString(default)]], Pass)
    else if |args[name]| == 0 then Check(args, Crash)
    else match ParseInt(args[name][0])
      case None => Check(args, Fail(Value(name, "Argument must be an integer.")))
      case Some(n) =>
        if n < 0 then Check(args, Fail(Value(name, "Argument must be 0 or greater.")))
        else if bound.Some? && n > bound.value then
          Check(args, Fail(Value(name, "Argument must be " + IntString(bound.value) + " or less.")))
        else Check(args, Pass)
  }

  /** `page_len` first, then `page`. */
  function Paging(args: map<string, seq<string>>, c: PagingConfig): Check
  {
    var first := CheckPaging(args, "page_len", Some(c.maxPageLen), c.defaultPageLen);
    if first.verdict.Pass? then CheckPaging(first.args, "page", None, c.defaultPage) else first
  }

  /** Whether `args[name]` holds a first value that parses to an integer in `[0, bound]`. */
  predicate InRange(args: map<string, seq<string>>, name: string, bound: Option<int>)
  {
    name in args && |args[name]| > 0 && ParseInt(args[name][0]).Some? &&
    0 <= ParseInt(args[name][0]).value && (bound.Some? ==> ParseInt(args[name][0]).value <= bound.value)
  }

  /**
   * For a configuration the decorator accepts, a request that passes has
   * both arguments present and within range, and every other query argument
   * is as it was.
   */
  lemma PagingPasses(args: map<string, seq<string>>, c: PagingConfig)
    requires PagingConfigError(c).None?
    ensures var r := Paging(args, c);
      r.verdict.Pass? ==>
        InRange(r.args, "page_len", Some(c.maxPageLen)) && InRange(r.args, "page", None) &&
        forall k :: k in args && k != "page" && k != "page_len" ==> k in r.args && r.args[k] == args[k]
  {
    var first := CheckPaging(args, "page_len", Some(c.maxPageLen), c.defaultPageLen);
    CheckPagingPasses(args, "page_len", Some(c.maxPageLen), c.defaultPageLen);
    if first.verdict.Pass? {
      CheckPagingPasses(first.args, "page", None, c.defaultPage);
      var second := CheckPaging(first.args, "page", None, c.defaultPage);
      assert "page" != "page_len";
      assert second.args["page_len"] == first.args["page_len"];
    }
  }

  /** One check that passes leaves its argument in range and every other argument as it was. */
  lemma CheckPagingPasses(args: map<string, seq<string>>, name: string, bound: Option<int>, default: int)
    requires 0 <= default && (bound.Some? ==> default <= bound.value)
    ensures var r := CheckPaging(args, name, bound, default);
      r.verdict.Pass? ==>
        InRange(r.args, name, bound) && forall k :: k in args && k != name ==> k in r.args && r.args[k] == args[k]
  {
    ParseIntString(default);
  }

  /** A supplied argument that passes is left exactly as sent. */
  lemma PagingKeepsSupplied(args: map<string, seq<string>>, c: PagingConfig)
    requires "page" in args && "page_len" in args
    ensures Paging(args, c).args == args
  {
  }

  /** `paged_results`' wrapper. */
  method PagedResults(req: Request, c: PagingConfig) returns (g: Gate)
    modifies req
    ensures var r := Paging(old(req.args), c);
      var st := old(req.State()).(args := r.args);
      (r.verdict.Pass? ==> g == Proceed && req.State() == st) &&
      (r.verdict.Crash? ==> g == Raises && req.State() == st) &&
      (r.verdict.Fail? ==> g == Reject(r.verdict.kind) &&
                           req.State() == AfterError(st, Describe(r.verdict.kind), Status(r.verdict.kind)))
  {
    g := ApplyPaging(req, "page_len", Some(c.maxPageLen), c.defaultPageLen);
    if g != Proceed {
      return;
    }
    g := ApplyPaging(req, "page", None, c.defaultPage);
  }

  /** One paging argument checked against the request, defaulting it when absent. */
  method ApplyPaging(req: Request, name: string, bound: Option<int>, default: int) returns (g: Gate)
    modifies req
    ensures var r := CheckPaging(old(req.args), name, bound, default);
      var st := old(req.State()).(args := r.args);
      (r.verdict.Pass? <==> g == Proceed) &&
      (r.verdict.Pass? ==> req.State() == st) &&
      (r.verdict.Crash? ==> g == Raises && req.State() == st) &&
      (r.verdict.Fail? ==> g == Reject(r.verdict.kind) &&
                           req.State() == AfterError(st, Describe(r.verdict.kind), Status(r.verdict.kind)))
  {
    if name !in req.args {
      req.SetArg(name, [IntString(default)]);
      return Proceed;
    }
    var values := req.args[name];
    if |values| == 0 {
      return Raises;
    }
    var n := ParseInt(values[0]);
    if n.None? {
      g := RejectWith(req, Value(name, "Argument must be an integer."));
    } else if n.value < 0 {
      g := RejectWith(req, Value(name, "Argument must be 0 or greater."));
    } else if bound.Some? && n.value > bound.value {
      g := RejectWith(req, Value(name, "Argument must be " + IntString(bound.value) + " or less."));
    } else {
      g := Proceed;
    }
  }

  // ---------------------------------------------------------------
  // url_arguments
  // ---------------------------------------------------------------

  /** The first of `names` from position `i` on that is not a query argument. */
  function FirstMissingFrom(names: seq<string>, args: map<string, seq<string>>, i: nat): (r: Option<string>)
    ensures r.Some? ==> r.value in names && r.value !in args
    decreases |names| - i
  {
    if i >= |names| then None
    else if names[i] !in args then Some(names[i])
    else FirstMissingFrom(names, args, i + 1)
  }

  /** Nothing is missing exactly when every name is a query argument. */
  lemma {:induction false} FirstMissingSpec(names: seq<string>, args: map<string, seq<string>>, i: nat)
    ensures FirstMissingFrom(names, args, i).None? <==> forall j :: i <= j < |names| ==> names[j] in args
    decreases |names| - i
  {
    if i < |names| {
      FirstMissingSpec(names, args, i + 1);
    }
  }

  method FirstMissing(names: seq<string>, args: map<string, seq<string>>) returns (r: Option<string>)
    ensures r == FirstMissingFrom(names, args, 0)
  {
    var i := 0;
    while i < |names|
      invariant 0 <= i <= |names|
      invariant FirstMissingFrom(names, args, 0) == FirstMissingFrom(names, args, i)
    {
      if names[i] !in args {
        return Some(names[i]);
      }
      i := i + 1;
    }
    return None;
  }

  /** The verdict of the URL wrapper: the content type only when one is expected, then the names. */
  function UrlVerdict(header: Option<string>, args: map<string, seq<string>>, names: seq<string>, contentType: string): Option<ErrorKind>
  {
    var ct := if contentType != "" then ContentTypeVerdict(header, contentType) else None;
    if ct.Some? then ct
    else
      var missing := FirstMissingFrom(names, args, 0);
      if missing.Some? then Some(Value(missing.value, "Argument is missing.")) else None
  }

  /** Without an expected content type, the handler runs exactly when every listed argument was sent. */
  lemma UrlAccepted(header: Option<string>, args: map<string, seq<string>>, names: seq<string>)
    ensures UrlVerdict(header, args, names, "").None? <==> forall j :: 0 <= j < |names| ==> names[j] in args
  {
    FirstMissingSpec(names, args, 0);
  }

  /** `url_arguments`' wrapper. */
  method UrlArguments(req: Request, names: seq<string>, contentType: string) returns (g: Gate)
    modifies req
    ensures var v := UrlVerdict(req.GetHeader("Content-Type"), old(req.args), names, contentType);
      (v.None? ==> g == Proceed && req.State() == old(req.State())) &&
      (v.Some? ==> g == Reject(v.value) && req.State() == AfterError(old(req.State()), Describe(v.value), Status(v.value)))
  {
    if contentType != "" {
      var ct := ContentTypeVerdict(req.GetHeader("Content-Type"), contentType);
      if ct.Some? {
        g := RejectWith(req, ct.value);
        return;
      }
    }
    var missing := FirstMissing(names, req.args);
    if missing.Some? {
      g := RejectWith(req, Value(missing.value, "Argument is missing."));
    } else {
      g := Proceed;
    }
  }

  // ---------------------------------------------------------------
  // auth_http_basic
  // ---------------------------------------------------------------

  /** The `WWW-Authenticate` challenge for a realm. */
  function Challenge(realm: string): (r: string)
  {
    "Basic realm=\"" + realm + "\""
  }

  /** The realm can be read back from the challenge. */
  lemma ChallengeRealm(realm: string)
    ensures |Challenge(realm)| == |realm| + 14 && Challenge(realm)[13..|realm| + 13] == realm
  {
  }

  /**
   * `auth_http_basic`'s wrapper: with credentials the check rejects, the
   * access-denied error is counted, the status forced to 401, the challenge
   * sent and the error envelope written; the wrapper then returns `None`.
   */
  method AuthHttpBasic(req: Request, authenticate: (string, string) -> bool, realm: string, dumps: Json -> string)
    returns (g: Gate)
    modifies req
    ensures authenticate(req.user, req.password) ==> g == Proceed && req.State() == old(req.State())
    ensures !authenticate(req.user, req.password) ==>
      var e := Describe(AccessDenied);
      var st := AfterError(old(req.State()), e, Status(AccessDenied));
      g == Respond(PyNone) &&
      req.State() == st.(responseCode := 401,
                         responseHeaders := st.responseHeaders["WWW-Authenticate" := Challenge(realm)]
                                                              ["Content-Length" := NatString(|Utf8(dumps(ObjErr(e)))|)],
                         written := st.written + [Encoded(ObjErr(e))])
  {
    if !authenticate(req.user, req.password) {
      var e := Raise(req, AccessDenied);
      var error := ObjErr(e);
      req.SetResponseCode(401);
      req.SetHeader("WWW-Authenticate", Challenge(realm));
      WriteJson(req, error, dumps);
      return Respond(PyNone);
    }
    return Proceed;
  }
}
