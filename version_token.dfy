/**
 * `get_version`: the `X-DigiTar-API-Version` token `api-version+mode`, read
 * from the header first and from the same-named query argument second.
 */
module VersionToken {

  import opened Wrappers
  import opened Strings
  import Http

  datatype Version = Version(api: string, version: string, mode: string)

  /** What `get_version` reports when no token was sent. */
  const NoVersion: Version := Version("", "", "")

  /**
   * Decoding a token: `api` is the lower-cased first '-'-field, `version` the
   * second '-'-field up to its first '+', `mode` the lower-cased text after
   * that '+' (up to any further '+'). `None` where Python raises `IndexError`.
   */
  function ParseToken(raw: string): Option<Version>
  {
    var dashes := Split(raw, '-');
    if |dashes| < 2 then None
    else
      var pluses := Split(dashes[1], '+');
      if |pluses| < 2 then None
      else Some(Version(Lower(dashes[0]), pluses[0], Lower(pluses[1])))
  }

  /** `get_version(request)` given the header (if sent) and the query arguments. */
  function GetVersion(header: Option<string>, args: map<string, seq<string>>): Option<Version>
  {
    var raw := header.GetOr("");
    if raw == "" && Http.ApiVersionHeader !in args then Some(NoVersion)
    else if raw == "" then
      var values := args[Http.ApiVersionHeader];
      if |values| == 0 then None else ParseToken(values[0])
    else ParseToken(raw)
  }

  /** With neither a (non-empty) header nor a query argument, every field is empty and nothing is raised. */
  lemma AbsentTokenIsEmpty(header: Option<string>, args: map<string, seq<string>>)
    requires header.None? || header == Some("")
    requires Http.ApiVersionHeader !in args
    ensures GetVersion(header, args) == Some(NoVersion)
  {
  }

  /** A non-empty header wins over the query argument, whatever the latter holds. */
  lemma HeaderWins(h: string, args: map<string, seq<string>>)
    requires h != ""
    ensures GetVersion(Some(h), args) == ParseToken(h)
  {
  }

  /** Without a header, the query argument's first value is decoded. */
  lemma QueryArgumentFallback(header: Option<string>, args: map<string, seq<string>>, first: string, more: seq<string>)
    requires header.None? || header == Some("")
    requires Http.ApiVersionHeader in args && args[Http.ApiVersionHeader] == [first] + more
    ensures GetVersion(header, args) == ParseToken(first)
  {
  }

  /** A token fails to decode exactly when it has no '-', or its second '-'-field has no '+'. */
  lemma ParseTokenFails(raw: string)
    ensures '-' !in raw ==> ParseToken(raw).None?
    ensures '-' in raw ==> (ParseToken(raw).None? <==> '+' !in Split(raw, '-')[1])
  {
    SplitHasSecondField(raw, '-');
    if '-' in raw {
      SplitHasSecondField(Split(raw, '-')[1], '+');
    }
  }

  /** The decoded fields: `api` is the lower-cased text before the first '-', and no field carries a separator it was cut at. */
  lemma ParseTokenFields(raw: string)
    requires ParseToken(raw).Some?
    ensures '-' in raw && ParseToken(raw).value.api == Lower(raw[..IndexOf(raw, '-')])
    ensures IsLower(ParseToken(raw).value.api) && IsLower(ParseToken(raw).value.mode)
    ensures '-' !in ParseToken(raw).value.api
    ensures '-' !in ParseToken(raw).value.version && '+' !in ParseToken(raw).value.version
    ensures '-' !in ParseToken(raw).value.mode && '+' !in ParseToken(raw).value.mode
  {
    var v := ParseToken(raw).value;
    var dashes := Split(raw, '-');
    var pluses := Split(dashes[1], '+');
    SplitHasSecondField(raw, '-');
    SplitFirstField(raw, '-');
    SplitFieldsFree(raw, '-');
    SplitFieldsFree(dashes[1], '+');
    assert '-' !in dashes[0] && '-' !in dashes[1];
    assert forall k :: 0 <= k < |pluses| ==> '-' !in pluses[k] by {
      forall k | 0 <= k < |pluses|
        ensures '-' !in pluses[k]
      {
        SplitFieldsSubset(dashes[1], '+', k);
      }
    }
    LowerIsLower(dashes[0]);
    LowerIsLower(pluses[1]);
    LowerKeepsOthers(dashes[0], '-');
    LowerKeepsOthers(pluses[1], '-');
    LowerKeepsOthers(pluses[1], '+');
  }

  /**
   * Where the fields of `v` sit in the token `raw`: `api` is the lower-cased
   * text before the first '-'; `version` is the text after it up to the
   * next '+', as sent; `mode` is the lower-cased text after that '+', which
   * ends at the end of the token or at the next '+' or '-'.
   */
  ghost predicate LaidOut(raw: string, v: Version)
  {
    var i := |v.api|;
    var j := i + 1 + |v.version|;
    var k := j + 1 + |v.mode|;
    k <= |raw| && raw[i] == '-' && '-' !in raw[..i] && Lower(raw[..i]) == v.api &&
    raw[i + 1..j] == v.version && raw[j] == '+' && Lower(raw[j + 1..k]) == v.mode &&
    (k < |raw| ==> raw[k] == '+' || raw[k] == '-')
  }

  /** A decoded token's fields are laid out in it as `LaidOut` describes. */
  lemma ParseTokenLayout(raw: string)
    requires ParseToken(raw).Some?
    ensures LaidOut(raw, ParseToken(raw).value)
  {
    var dashes := Split(raw, '-');
    var pluses := Split(dashes[1], '+');
    SplitHasSecondField(raw, '-');
    SplitHasSecondField(dashes[1], '+');
    var v := ParseToken(raw).value;
    assert v == Version(Lower(dashes[0]), pluses[0], Lower(pluses[1]));
    var i := IndexOf(raw, '-');
    var j := i + 1 + |pluses[0]|;
    var k := j + 1 + |pluses[1]|;
    SplitFieldsAt(raw, i, j, k, dashes[1], pluses[0], pluses[1]);
    SplitFirstField(raw, '-');
    DecodedLayout(raw, i, j, k, v, pluses[1]);
  }

  /** The second '-'-field of a token and its first two '+'-fields sit at consecutive offsets. */
  lemma SplitFieldsAt(raw: string, i: nat, j: nat, k: nat, d1: string, version: string, m: string)
    requires '-' in raw && i == IndexOf(raw, '-')
    requires |Split(raw, '-')| >= 2 && d1 == Split(raw, '-')[1]
    requires |Split(d1, '+')| >= 2 && version == Split(d1, '+')[0] && m == Split(d1, '+')[1]
    requires j == i + 1 + |version| && k == j + 1 + |m|
    ensures k <= |raw| && raw[i + 1..j] == version && raw[j] == '+' && raw[j + 1..k] == m
    ensures k < |raw| ==> raw[k] == '+' || raw[k] == '-'
  {
    SplitFirstField(raw, '-');
    assert |Split(raw, '-')[0]| == i;
    FirstFieldPrefix(raw, '-');
    SecondFieldPrefix(raw, '-');
    SplitHasSecondField(d1, '+');
    FirstFieldPrefix(d1, '+');
    SecondFieldPrefix(d1, '+');
    FieldsLayout(raw, i, j, k, d1, version, m);
  }

  /** Nested fields, each a prefix of what follows the separator before it, sit at consecutive offsets. */
  lemma FieldsLayout(raw: string, i: nat, j: nat, k: nat, d1: string, version: string, m: string)
    requires i < |raw| && |d1| <= |raw| - (i + 1) && raw[i + 1..][..|d1|] == d1
    requires |d1| < |raw| - (i + 1) ==> raw[i + 1..][|d1|] == '-'
    requires |version| < |d1| && d1[..|version|] == version && d1[|version|] == '+'
    requires |m| <= |d1[|version| + 1..]| && d1[|version| + 1..][..|m|] == m
    requires |m| < |d1[|version| + 1..]| ==> d1[|version| + 1..][|m|] == '+'
    requires j == i + 1 + |version| && k == j + 1 + |m|
    ensures k <= |raw| && raw[i + 1..j] == version && raw[j] == '+' && raw[j + 1..k] == m
    ensures k < |raw| ==> raw[k] == '+' || raw[k] == '-'
  {
    var rest := raw[i + 1..];
    var tail := d1[|version| + 1..];
    assert raw[i + 1..j] == rest[..|version|] == d1[..|version|];
    assert raw[j] == rest[|version|] == d1[|version|];
    assert raw[j + 1..k] == rest[|version| + 1..|version| + 1 + |m|] == tail[..|m|];
    if k < |raw| {
      var p := |version| + 1 + |m|;
      assert raw[k] == rest[p];
      if |m| < |tail| {
        assert rest[p] == d1[p] == tail[|m|];
      }
    }
  }

  /** The layout of the fields, restated for the decoded triple, whose `api` and `mode` are the lower-cased fields. */
  lemma DecodedLayout(raw: string, i: nat, j: nat, k: nat, v: Version, m: string)
    requires i < |raw| && raw[i] == '-' && '-' !in raw[..i] && v.api == Lower(raw[..i])
    requires v.mode == Lower(m)
    requires j == i + 1 + |v.version| && k == j + 1 + |m|
    requires k <= |raw| && raw[i + 1..j] == v.version && raw[j] == '+' && raw[j + 1..k] == m
    requires k < |raw| ==> raw[k] == '+' || raw[k] == '-'
    ensures LaidOut(raw, v)
  {
    assert |v.api| == i;
    assert |v.mode| == |m|;
  }

  /** Each field of a split is made of characters of the split string. */
  lemma {:induction false} SplitFieldsSubset(s: string, c: char, k: nat)
    requires k < |Split(s, c)|
    ensures forall x :: x in Split(s, c)[k] ==> x in s
    decreases |s|
  {
    if c in s {
      var i := IndexOf(s, c);
      var rest := Split(s[i + 1..], c);
      assert Split(s, c) == [s[..i]] + rest;
      if k > 0 {
        SplitFieldsSubset(s[i + 1..], c, k - 1);
        assert Split(s, c)[k] == rest[k - 1];
        SliceMembers(s, i + 1);
      } else {
        assert Split(s, c)[0] == s[..i];
      }
    }
  }

  lemma SliceMembers(s: string, j: nat)
    requires j <= |s|
    ensures forall x :: x in s[j..] ==> x in s
  {
    forall x | x in s[j..] ensures x in s {
      var t :| 0 <= t < |s[j..]| && s[j..][t] == x;
      assert s[j + t] == x;
    }
  }

  /** The token a client sends for a version triple. */
  function Token(v: Version): string
  {
    v.api + "-" + v.version + "+" + v.mode
  }

  /**
   * Decoding the token of a triple whose fields hold no separator gives the
   * triple back, with `api` and `mode` lower-cased.
   */
  lemma TokenRoundTrip(v: Version)
    requires '-' !in v.api
    requires '-' !in v.version && '+' !in v.version
    requires '-' !in v.mode && '+' !in v.mode
    ensures ParseToken(Token(v)) == Some(Version(Lower(v.api), v.version, Lower(v.mode)))
  {
    var tail := v.version + "+" + v.mode;
    assert '-' !in tail;
    assert Token(v) == Join([v.api, tail], '-');
    SplitJoin([v.api, tail], '-');
    assert tail == Join([v.version, v.mode], '+');
    SplitJoin([v.version, v.mode], '+');
  }
}
