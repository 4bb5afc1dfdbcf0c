/**
 * Python 2's `int(text)` for base-10 text and `str(n)` for an integer: the
 * paging validator parses query arguments with the first and stores its
 * defaults with the second; secure cookies carry their timestamp the same way.
 */
module Numbers {

  import opened Wrappers

  predicate IsWhitespace(c: char)
  {
    c == ' ' || c == '\t' || c == '\n' || c == '\r' || c == 11 as char || c == 12 as char
  }

  predicate IsDigit(c: char)
  {
    '0' <= c <= '9'
  }

  predicate AllDigits(s: string)
  {
    forall k :: 0 <= k < |s| ==> IsDigit(s[k])
  }

  function StripLeft(s: string): (r: string)
    ensures |r| == 0 || !IsWhitespace(r[0])
    decreases |s|
  {
    if |s| > 0 && IsWhitespace(s[0]) then StripLeft(s[1..]) else s
  }

  function StripRight(s: string): (r: string)
    ensures |r| == 0 || !IsWhitespace(r[|r| - 1])
    decreases |s|
  {
    if |s| > 0 && IsWhitespace(s[|s| - 1]) then StripRight(s[..|s| - 1]) else s
  }

  /** `str.strip()`: surrounding whitespace removed. */
  function Strip(s: string): string
  {
    StripRight(StripLeft(s))
  }

  /** The value of a run of decimal digits, most significant first. */
  function DigitsValue(s: string): (v: nat)
    requires AllDigits(s)
    decreases |s|
  {
    if |s| == 0 then 0
    else DigitsValue(s[..|s| - 1]) * 10 + (s[|s| - 1] as int - '0' as int)
  }

  /** Python's `int(s)`: `None` where Python raises `ValueError`. */
  function ParseInt(s: string): Option<int>
  {
    var t := Strip(s);
    if |t| > 0 && (t[0] == '-' || t[0] == '+') then
      var d := t[1..];
      if |d| > 0 && AllDigits(d) then
        var v: int := if t[0] == '-' then 0 - DigitsValue(d) as int else DigitsValue(d);
        Some(v)
      else None
    else if |t| > 0 && AllDigits(t) then Some(DigitsValue(t))
    else None
  }

  function NatString(n: nat): (s: string)
    ensures |s| > 0 && AllDigits(s)
  {
    if n < 10 then [('0' as int + n) as char]
    else NatString(n / 10) + [('0' as int + n % 10) as char]
  }

  /** Python's `str(n)`. */
  function IntString(n: int): string
  {
    if n < 0 then "-" + NatString(-n) else NatString(n)
  }

  lemma {:induction false} NatStringValue(n: nat)
    ensures DigitsValue(NatString(n)) == n
  {
    if n >= 10 {
      var s := NatString(n);
      NatStringValue(n / 10);
      assert s[..|s| - 1] == NatString(n / 10);
    }
  }

  lemma StripDigits(s: string)
    requires |s| > 0 && AllDigits(s)
    ensures Strip(s) == s
  {
  }

  /** `int(str(n)) == n`: a formatted integer parses back to itself. */
  lemma ParseIntString(n: int)
    ensures ParseInt(IntString(n)) == Some(n)
  {
    if n < 0 {
      var d := NatString(-n);
      var s := "-" + d;
      assert StripLeft(s) == s;
      assert StripRight(s) == s;
      assert s[1..] == d;
      NatStringValue(-n);
    } else {
      StripDigits(NatString(n));
      NatStringValue(n);
    }
  }

  /** Text with a character that is neither a digit, a sign nor whitespace never parses. */
  lemma ParseIntRejects(s: string, k: nat)
    requires k < |s| && !IsDigit(s[k]) && !IsWhitespace(s[k]) && s[k] != '-' && s[k] != '+'
    ensures ParseInt(s).None?
  {
    StripKeeps(s, k);
  }

  lemma {:induction false} StripKeeps(s: string, k: nat)
    requires k < |s| && !IsWhitespace(s[k])
    ensures s[k] in Strip(s)
  {
    StripLeftKeeps(s, k);
    var l := StripLeft(s);
    var j :| 0 <= j < |l| && l[j] == s[k];
    StripRightKeeps(l, j);
  }

  lemma {:induction false} StripLeftKeeps(s: string, k: nat)
    requires k < |s| && !IsWhitespace(s[k])
    ensures s[k] in StripLeft(s)
    decreases |s|
  {
    if |s| > 0 && IsWhitespace(s[0]) {
      StripLeftKeeps(s[1..], k - 1);
    }
  }

  lemma {:induction false} StripRightKeeps(s: string, k: nat)
    requires k < |s| && !IsWhitespace(s[k])
    ensures s[k] in StripRight(s)
    decreases |s|
  {
    if |s| > 0 && IsWhitespace(s[|s| - 1]) {
      assert k < |s| - 1;
      StripRightKeeps(s[..|s| - 1], k);
    }
  }
}
