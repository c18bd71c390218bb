/** String helpers shared by the routes and the navigation components.
    Strings are `seq<char>`; the helpers mirror the JavaScript string methods
    the site calls (`startsWith`, `Array.prototype.join`, `String.replace`
    with a one-character global pattern). */
module Strings {

  /** `s.startsWith(p)`. */
  predicate StartsWith(s: string, p: string) {
    |p| <= |s| && s[..|p|] == p
  }

  /** `x` occurs in `s` starting at index `i`. */
  predicate OccursAt(s: string, x: string, i: int) {
    0 <= i && i + |x| <= |s| && s[i..i + |x|] == x
  }

  /** `s.includes(x)`. */
  ghost predicate Contains(s: string, x: string) {
    exists i :: OccursAt(s, x, i)
  }

  lemma OccursInLeft(a: string, b: string, x: string, i: int)
    requires OccursAt(a, x, i)
    ensures OccursAt(a + b, x, i)
  {
    assert (a + b)[i..i + |x|] == a[i..i + |x|];
  }

  lemma OccursInRight(a: string, b: string, x: string, i: int)
    requires OccursAt(b, x, i)
    ensures OccursAt(a + b, x, |a| + i)
  {
    assert (a + b)[|a| + i..|a| + i + |x|] == b[i..i + |x|];
  }

  /** `parts.join(sep)`: the parts in order, `sep` between neighbours. */
  function Join(parts: seq<string>, sep: string): string {
    if |parts| == 0 then ""
    else if |parts| == 1 then parts[0]
    else parts[0] + sep + Join(parts[1..], sep)
  }

  /** `s.replace(/c/g, rep)`: every occurrence of the character `c` is replaced
      by `rep`, all other characters are kept in order. */
  function ReplaceChar(s: string, c: char, rep: string): (r: string)
    ensures c !in s ==> r == s
  {
    if |s| == 0 then ""
    else (if s[0] == c then rep else [s[0]]) + ReplaceChar(s[1..], c, rep)
  }

  /** A character absent from the replacement is absent from the result if
      it is the replaced one or was absent from the input. */
  lemma {:induction false} ReplaceCharOmits(s: string, c: char, rep: string, d: char)
    requires d !in rep && (d == c || d !in s)
    ensures d !in ReplaceChar(s, c, rep)
    decreases |s|
  {
    if |s| > 0 {
      assert d !in s[1..] || d == c by {
        if d != c {
          assert forall k :: 0 <= k < |s[1..]| ==> s[1..][k] == s[k + 1];
        }
      }
      ReplaceCharOmits(s[1..], c, rep, d);
    }
  }

  /** Replacement works piecewise on a concatenation. */
  lemma {:induction false} ReplaceCharAppend(a: string, b: string, c: char, rep: string)
    ensures ReplaceChar(a + b, c, rep) == ReplaceChar(a, c, rep) + ReplaceChar(b, c, rep)
    decreases |a|
  {
    if |a| == 0 {
      assert a + b == b;
    } else {
      assert (a + b)[0] == a[0];
      assert (a + b)[1..] == a[1..] + b;
      ReplaceCharAppend(a[1..], b, c, rep);
    }
  }

  /** Number of occurrences of the character `c` in `s`. */
  function Count(s: string, c: char): nat {
    if |s| == 0 then 0 else (if s[0] == c then 1 else 0) + Count(s[1..], c)
  }

  lemma {:induction false} CountAppend(a: string, b: string, c: char)
    ensures Count(a + b, c) == Count(a, c) + Count(b, c)
    decreases |a|
  {
    if |a| == 0 {
      assert a + b == b;
    } else {
      assert (a + b)[0] == a[0];
      assert (a + b)[1..] == a[1..] + b;
      CountAppend(a[1..], b, c);
    }
  }

  lemma {:induction false} CountAbsent(s: string, c: char)
    requires c !in s
    ensures Count(s, c) == 0
    decreases |s|
  {
    if |s| > 0 {
      assert s == [s[0]] + s[1..];
      CountAbsent(s[1..], c);
    }
  }

  /** A string differing from `p` at index `k` does not start with `p`. */
  lemma Differs(t: string, p: string, k: nat)
    requires k < |p| && k < |t| && t[k] != p[k]
    ensures !StartsWith(t, p)
  {
    if |p| <= |t| {
      assert t[..|p|][k] == t[k];
    }
  }

  /** `p + rest` starts with `p`, and dropping `p` leaves `rest`. */
  lemma Prefixed(p: string, rest: string)
    ensures StartsWith(p + rest, p) && (p + rest)[|p|..] == rest
  {
    assert (p + rest)[..|p|] == p;
  }

  /** Part `k` of a join appears verbatim in the joined string. */
  lemma {:induction false} PartInJoin(parts: seq<string>, sep: string, k: nat)
    requires k < |parts|
    ensures Contains(Join(parts, sep), parts[k])
    decreases |parts|
  {
    if |parts| == 1 {
      assert OccursAt(Join(parts, sep), parts[0], 0);
    } else {
      var head := parts[0] + sep;
      var tail := Join(parts[1..], sep);
      assert Join(parts, sep) == head + tail;
      if k == 0 {
        OccursInLeft(parts[0], sep, parts[0], 0) by {
          assert OccursAt(parts[0], parts[0], 0);
        }
        OccursInLeft(head, tail, parts[0], 0);
      } else {
        PartInJoin(parts[1..], sep, k - 1);
        assert parts[1..][k - 1] == parts[k];
        var i :| OccursAt(tail, parts[k], i);
        OccursInRight(head, tail, parts[k], i);
      }
    }
  }

  /** Whatever contains `x + y` contains `x`. */
  lemma ContainsPrefix(s: string, x: string, y: string)
    requires Contains(s, x + y)
    ensures Contains(s, x)
  {
    var i :| OccursAt(s, x + y, i);
    assert s[i..i + |x|] == (x + y)[..|x|];
    assert OccursAt(s, x, i);
  }
}
