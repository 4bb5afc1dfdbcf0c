/**
 * Python 2's `urllib.unquote`: every `%XX` with two hexadecimal digits becomes
 * the byte it names; any other `%` is kept as it is. The call router applies it
 * once to each named capture of a matched route.
 */
module UrlQuote {

  predicate IsHex(c: char)
  {
    ('0' <= c <= '9') || ('a' <= c <= 'f') || ('A' <= c <= 'F')
  }

  function HexValue(c: char): (v: nat)
    requires IsHex(c)
    ensures v < 16
  {
    if '0' <= c <= '9' then c as int - '0' as int
    else if 'a' <= c <= 'f' then c as int - 'a' as int + 10
    else c as int - 'A' as int + 10
  }

  /** `urllib.unquote(s)`, scanning left to right; a decoded byte is never decoded again. */
  function Unquote(s: string): string
    decreases |s|
  {
    if |s| == 0 then ""
    else if s[0] == '%' && |s| >= 3 && IsHex(s[1]) && IsHex(s[2]) then
      [(HexValue(s[1]) * 16 + HexValue(s[2])) as char] + Unquote(s[3..])
    else
      [s[0]] + Unquote(s[1..])
  }

  function HexDigit(n: nat): (c: char)
    requires n < 16
    ensures IsHex(c) && HexValue(c) == n
  {
    if n < 10 then ('0' as int + n) as char else ('A' as int + n - 10) as char
  }

  /** Every byte written as `%XX`: the most defensive form of `urllib.quote`. */
  function PercentEncode(s: string): (r: string)
    requires forall k :: 0 <= k < |s| ==> s[k] as int < 256
    ensures |r| == 3 * |s|
  {
    if |s| == 0 then ""
    else ['%', HexDigit(s[0] as int / 16), HexDigit(s[0] as int % 16)] + PercentEncode(s[1..])
  }

  /** Text without `%` is left untouched. */
  lemma {:induction false} UnquotePlain(s: string)
    requires '%' !in s
    ensures Unquote(s) == s
    decreases |s|
  {
    if |s| > 0 {
      UnquotePlain(s[1..]);
    }
  }

  /** Decoding never lengthens the text. */
  lemma {:induction false} UnquoteShrinks(s: string)
    ensures |Unquote(s)| <= |s|
    decreases |s|
  {
    if |s| > 0 {
      if s[0] == '%' && |s| >= 3 && IsHex(s[1]) && IsHex(s[2]) {
        UnquoteShrinks(s[3..]);
      } else {
        UnquoteShrinks(s[1..]);
      }
    }
  }

  /** Unquoting undoes percent-encoding of any byte string. */
  lemma {:induction false} UnquoteEncode(s: string)
    requires forall k :: 0 <= k < |s| ==> s[k] as int < 256
    ensures Unquote(PercentEncode(s)) == s
    decreases |s|
  {
    if |s| > 0 {
      var e := PercentEncode(s);
      assert e[3..] == PercentEncode(s[1..]);
      UnquoteEncode(s[1..]);
      assert s == [s[0]] + s[1..];
    }
  }

  /** The capture `%26io` of the route `ping(?P<group1>.*)` reaches the handler as `&io`. */
  lemma UnquoteAmpersand()
    ensures Unquote("%26io") == "&io"
  {
    assert "%26io"[3..] == "io";
    UnquotePlain("io");
  }

  /** Decoding happens once: an encoded `%` stays a `%` and is not decoded again. */
  lemma UnquoteOnce()
    ensures Unquote("%2526") == "%26"
  {
    assert "%2526"[3..] == "26";
    UnquotePlain("26");
  }
}
