/**
 * Byte-string helpers with the semantics of the Python 2 `str` methods the
 * dispatcher relies on: `split` on a one-character separator, `join`,
 * ASCII `lower`/`upper`, and the byte-wise ordering used by `sorted`.
 */
module Strings {

  /** Position of the first occurrence of `c` in `s`. */
  function IndexOf(s: string, c: char): (r: nat)
    requires c in s
    ensures r < |s| && s[r] == c && c !in s[..r]
  {
    if s[0] == c then 0 else 1 + IndexOf(s[1..], c)
  }

  /** The first occurrence is the only index with a `c` and none before it. */
  lemma IndexOfUnique(s: string, c: char, k: nat)
    requires k < |s| && s[k] == c && c !in s[..k]
    ensures IndexOf(s, c) == k
  {
  }

  /** Python's `s.split(c)`: the maximal `c`-free fields, in order, never empty. */
  function Split(s: string, c: char): (r: seq<string>)
    ensures |r| >= 1
    decreases |s|
  {
    if c in s then
      var i := IndexOf(s, c);
      [s[..i]] + Split(s[i + 1..], c)
    else
      [s]
  }

  /** Python's `c.join(parts)` for a one-character separator. */
  function Join(parts: seq<string>, c: char): string
  {
    if |parts| == 0 then ""
    else if |parts| == 1 then parts[0]
    else parts[0] + [c] + Join(parts[1..], c)
  }

  /** Python's `"".join(parts)`. */
  function Concat(parts: seq<string>): string
  {
    if |parts| == 0 then "" else parts[0] + Concat(parts[1..])
  }

  /** Every occurrence of `c` removed from `s`. */
  function Remove(s: string, c: char): (r: string)
    ensures c !in r
  {
    if |s| == 0 then ""
    else if s[0] == c then Remove(s[1..], c)
    else [s[0]] + Remove(s[1..], c)
  }

  /** No field produced by `Split` contains the separator. */
  lemma {:induction false} SplitFieldsFree(s: string, c: char)
    ensures forall k :: 0 <= k < |Split(s, c)| ==> c !in Split(s, c)[k]
    decreases |s|
  {
    if c in s {
      var i := IndexOf(s, c);
      SplitFieldsFree(s[i + 1..], c);
    }
  }

  /** There is a second field exactly when the separator occurs. */
  lemma SplitHasSecondField(s: string, c: char)
    ensures |Split(s, c)| >= 2 <==> c in s
  {
  }

  /** The first field is the text before the first separator, or all of `s`. */
  lemma SplitFirstField(s: string, c: char)
    ensures Split(s, c)[0] == if c in s then s[..IndexOf(s, c)] else s
  {
  }

  /**
   * The first field is a prefix of `s`, shorter than `s` exactly when a
   * separator follows it, and the other fields split what comes after that
   * separator.
   */
  lemma SplitHead(s: string, c: char)
    ensures |Split(s, c)[0]| <= |s| && s[..|Split(s, c)[0]|] == Split(s, c)[0]
    ensures |Split(s, c)[0]| < |s| <==> c in s
    ensures c in s ==> s[|Split(s, c)[0]|] == c && Split(s, c)[1..] == Split(s[|Split(s, c)[0]| + 1..], c)
  {
    SplitFirstField(s, c);
    if c in s {
      var i := IndexOf(s, c);
      assert Split(s, c) == [s[..i]] + Split(s[i + 1..], c);
    }
  }

  /** The second field is the first field of what follows the first separator. */
  lemma SplitSecondField(s: string, c: char)
    requires c in s
    ensures |Split(s, c)| >= 2 && Split(s, c)[1] == Split(s[|Split(s, c)[0]| + 1..], c)[0]
  {
    SplitHead(s, c);
    SplitHasSecondField(s, c);
    assert Split(s, c)[1] == Split(s, c)[1..][0];
  }

  /** With a separator present, the first field is the text before it. */
  lemma FirstFieldPrefix(s: string, c: char)
    requires c in s
    ensures |Split(s, c)[0]| < |s| && s[..|Split(s, c)[0]|] == Split(s, c)[0] && s[|Split(s, c)[0]|] == c
  {
    SplitHead(s, c);
  }

  /** The second field is a prefix of what follows the first separator, followed by a separator unless it ends the text. */
  lemma SecondFieldPrefix(s: string, c: char)
    requires c in s
    ensures |Split(s, c)| >= 2
    ensures var rest := s[|Split(s, c)[0]| + 1..];
      |Split(s, c)[1]| <= |rest| && rest[..|Split(s, c)[1]|] == Split(s, c)[1] &&
      (|Split(s, c)[1]| < |rest| ==> rest[|Split(s, c)[1]|] == c)
  {
    SplitHead(s, c);
    SplitSecondField(s, c);
    SplitHead(s[|Split(s, c)[0]| + 1..], c);
  }

  /** A separator-free prefix followed by the separator is split off as the first field. */
  lemma SplitCons(a: string, b: string, c: char)
    requires c !in a
    ensures Split(a + [c] + b, c) == [a] + Split(b, c)
  {
    var s := a + [c] + b;
    assert s[|a|] == c && s[..|a|] == a;
    IndexOfUnique(s, c, |a|);
    assert s[|a| + 1..] == b;
  }

  /** Splitting at a separator splits each side independently. */
  lemma {:induction false} SplitAround(a: string, b: string, c: char)
    ensures Split(a + [c] + b, c) == Split(a, c) + Split(b, c)
    decreases |a|
  {
    if c !in a {
      SplitCons(a, b, c);
      assert Split(a, c) == [a];
    } else {
      var i := IndexOf(a, c);
      var a1, a2 := a[..i], a[i + 1..];
      assert a == a1 + [c] + a2;
      SplitAroundStep(a, b, c, a1, a2);
      SplitAround(a2, b, c);
      ConsAssoc(a1, Split(a2, c), Split(b, c));
    }
  }

  lemma SplitAroundStep(a: string, b: string, c: char, a1: string, a2: string)
    requires c !in a1 && a == a1 + [c] + a2
    ensures Split(a + [c] + b, c) == [a1] + Split(a2 + [c] + b, c)
    ensures Split(a, c) == [a1] + Split(a2, c)
  {
    var rest := a2 + [c] + b;
    assert a + [c] + b == a1 + [c] + rest;
    SplitCons(a1, rest, c);
    SplitCons(a1, a2, c);
  }

  lemma ConsAssoc(x: string, p: seq<string>, q: seq<string>)
    ensures [x] + (p + q) == ([x] + p) + q
  {
  }

  /** Joining the fields back with the separator gives the original string. */
  lemma {:induction false} JoinSplit(s: string, c: char)
    ensures Join(Split(s, c), c) == s
    decreases |s|
  {
    if c in s {
      var i := IndexOf(s, c);
      var rest := Split(s[i + 1..], c);
      JoinSplit(s[i + 1..], c);
      assert Split(s, c) == [s[..i]] + rest;
      assert ([s[..i]] + rest)[1..] == rest;
      assert s == s[..i] + [c] + s[i + 1..];
    }
  }

  /** Splitting a join of separator-free fields gives the fields back. */
  lemma {:induction false} SplitJoin(parts: seq<string>, c: char)
    requires |parts| >= 1
    requires forall k :: 0 <= k < |parts| ==> c !in parts[k]
    ensures Split(Join(parts, c), c) == parts
    decreases |parts|
  {
    if |parts| > 1 {
      var tail := Join(parts[1..], c);
      var s := parts[0] + [c] + tail;
      assert s[|parts[0]|] == c;
      assert s[..|parts[0]|] == parts[0];
      IndexOfUnique(s, c, |parts[0]|);
      assert s[|parts[0]| + 1..] == tail;
      SplitJoin(parts[1..], c);
      assert [parts[0]] + parts[1..] == parts;
    }
  }

  /** `"".join(s.split(c))` deletes every `c`. */
  lemma {:induction false} ConcatSplitRemoves(s: string, c: char)
    ensures Concat(Split(s, c)) == Remove(s, c)
    decreases |s|
  {
    if c in s {
      var i := IndexOf(s, c);
      ConcatSplitRemoves(s[i + 1..], c);
      RemoveFree(s[..i], c);
      RemoveAppend(s[..i], s[i..], c);
      assert s[..i] + s[i..] == s;
      assert s[i..][0] == c && s[i..][1..] == s[i + 1..];
      assert ([s[..i]] + Split(s[i + 1..], c))[1..] == Split(s[i + 1..], c);
    } else {
      RemoveFree(s, c);
    }
  }

  lemma {:induction false} RemoveFree(s: string, c: char)
    requires c !in s
    ensures Remove(s, c) == s
    decreases |s|
  {
    if |s| > 0 {
      RemoveFree(s[1..], c);
    }
  }

  lemma {:induction false} RemoveAppend(a: string, b: string, c: char)
    ensures Remove(a + b, c) == Remove(a, c) + Remove(b, c)
    decreases |a|
  {
    if |a| > 0 {
      assert (a + b)[1..] == a[1..] + b;
      RemoveAppend(a[1..], b, c);
    } else {
      assert a + b == b;
    }
  }

  function LowerChar(c: char): char
  {
    if 'A' <= c <= 'Z' then (c as int + 32) as char else c
  }

  function UpperChar(c: char): char
  {
    if 'a' <= c <= 'z' then (c as int - 32) as char else c
  }

  /** ASCII `str.lower()`. */
  function Lower(s: string): (r: string)
    ensures |r| == |s|
    ensures forall k :: 0 <= k < |s| ==> r[k] == LowerChar(s[k])
  {
    seq(|s|, k requires 0 <= k < |s| => LowerChar(s[k]))
  }

  /** ASCII `str.upper()`. */
  function Upper(s: string): (r: string)
    ensures |r| == |s|
    ensures forall k :: 0 <= k < |s| ==> r[k] == UpperChar(s[k])
  {
    seq(|s|, k requires 0 <= k < |s| => UpperChar(s[k]))
  }

  predicate IsLower(s: string)
  {
    forall k :: 0 <= k < |s| ==> !('A' <= s[k] <= 'Z')
  }

  lemma LowerIsLower(s: string)
    ensures IsLower(Lower(s))
    ensures Lower(Lower(s)) == Lower(s)
  {
  }

  lemma LowerOfLower(s: string)
    requires IsLower(s)
    ensures Lower(s) == s
  {
  }

  lemma UpperIdempotent(s: string)
    ensures Upper(Upper(s)) == Upper(s)
  {
  }

  /** Lower-casing neither adds nor removes a character that is not a letter. */
  lemma LowerKeepsOthers(s: string, c: char)
    requires !('A' <= c <= 'Z') && !('a' <= c <= 'z')
    ensures c in s <==> c in Lower(s)
  {
    if c in s {
      var k :| 0 <= k < |s| && s[k] == c;
      assert Lower(s)[k] == c;
    }
    if c in Lower(s) {
      var k :| 0 <= k < |Lower(s)| && Lower(s)[k] == c;
      assert s[k] == c || 'A' <= s[k] <= 'Z';
    }
  }

  /** Byte-wise lexicographic order, as Python 2 compares `str` values. */
  predicate Less(a: string, b: string)
    decreases |a|
  {
    if |a| == 0 then |b| > 0
    else if |b| == 0 then false
    else if a[0] != b[0] then a[0] < b[0]
    else Less(a[1..], b[1..])
  }

  lemma {:induction false} LessIrreflexive(a: string)
    ensures !Less(a, a)
    decreases |a|
  {
    if |a| > 0 {
      LessIrreflexive(a[1..]);
    }
  }

  lemma {:induction false} LessTransitive(a: string, b: string, c: string)
    requires Less(a, b) && Less(b, c)
    ensures Less(a, c)
    decreases |a|
  {
    if |a| > 0 && |b| > 0 && |c| > 0 && a[0] == b[0] && b[0] == c[0] {
      LessTransitive(a[1..], b[1..], c[1..]);
    }
  }

  lemma {:induction false} LessTotal(a: string, b: string)
    requires a != b
    ensures Less(a, b) || Less(b, a)
    decreases |a|
  {
    if |a| > 0 && |b| > 0 && a[0] == b[0] {
      assert a == [a[0]] + a[1..] && b == [b[0]] + b[1..];
      LessTotal(a[1..], b[1..]);
    }
  }

  lemma LessAsymmetric(a: string, b: string)
    requires Less(a, b)
    ensures !Less(b, a)
  {
    if Less(b, a) {
      LessTransitive(a, b, a);
      LessIrreflexive(a);
    }
  }

  /** Strictly ascending under `Less`. */
  predicate StrictlySorted(s: seq<string>)
  {
    forall i, j :: 0 <= i < j < |s| ==> Less(s[i], s[j])
  }

  lemma HeadIsMember(b: seq<string>)
    requires |b| > 0
    ensures b[0] in b
  {
  }

  /** A finite set has one strictly sorted listing: `sorted` does not depend on the order keys come in. */
  lemma {:induction false} SortedUnique(a: seq<string>, b: seq<string>)
    requires StrictlySorted(a) && StrictlySorted(b)
    requires forall x :: x in a <==> x in b
    ensures a == b
    decreases |a|
  {
    if |a| == 0 {
      if |b| > 0 {
        HeadIsMember(b);
        assert false;
      }
    } else {
      assert a[0] in b;
      assert |b| > 0;
      assert b[0] in a;
      assert a == [a[0]] + a[1..] && b == [b[0]] + b[1..];
      assert a[0] == b[0] by {
        var i :| 0 <= i < |a| && a[i] == b[0];
        var j :| 0 <= j < |b| && b[j] == a[0];
        if i > 0 && j > 0 {
          LessAsymmetric(a[0], a[i]);
        } else if i > 0 {
          LessIrreflexive(a[0]);
        } else if j > 0 {
          LessIrreflexive(b[0]);
        }
      }
      forall x
        ensures x in a[1..] <==> x in b[1..]
      {
        if x in a[1..] {
          var i :| 1 <= i < |a| && a[i] == x;
          assert Less(a[0], x);
          LessIrreflexive(x);
          assert x in b && x != b[0];
        }
        if x in b[1..] {
          var j :| 1 <= j < |b| && b[j] == x;
          assert Less(b[0], x);
          LessIrreflexive(x);
          assert x in a && x != a[0];
        }
      }
      SortedUnique(a[1..], b[1..]);
    }
  }
}
