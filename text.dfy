/**
 * Substring search on strings, the building block of every marker test
 * (`"x" in s` in Python, `s.includes(x)` / `s.indexOf(x, from)` in JavaScript).
 */
module Text {
  import opened Wrappers

  /** `p` occurs in `s` starting at index `i`. */
  predicate OccursAt(s: string, p: string, i: int)
  {
    0 <= i && i + |p| <= |s| && s[i..i + |p|] == p
  }

  /** The first index at or after `from` where `p` occurs (JavaScript `s.indexOf(p, from)`). */
  function IndexFrom(s: string, p: string, from: nat): (r: Option<nat>)
    ensures r.Some? ==> from <= r.value && OccursAt(s, p, r.value)
    decreases |s| - from
  {
    if from + |p| > |s| then None
    else if s[from..from + |p|] == p then Some(from)
    else IndexFrom(s, p, from + 1)
  }

  /** The occurrence found is the first one at or after `from`, and none is found only when there is none. */
  lemma {:induction false} IndexFromSpec(s: string, p: string, from: nat)
    ensures IndexFrom(s, p, from).Some? ==> forall j :: from <= j < IndexFrom(s, p, from).value ==> !OccursAt(s, p, j)
    ensures IndexFrom(s, p, from).None? ==> forall j :: from <= j ==> !OccursAt(s, p, j)
    decreases |s| - from
  {
    if from + |p| <= |s| && s[from..from + |p|] != p {
      IndexFromSpec(s, p, from + 1);
    }
  }

  /** The first index where `p` occurs. */
  function IndexOf(s: string, p: string): Option<nat>
  {
    IndexFrom(s, p, 0)
  }

  /** Substring test: Python `p in s`, JavaScript `s.includes(p)`. */
  predicate Contains(s: string, p: string)
  {
    IndexOf(s, p).Some?
  }

  lemma ContainsIff(s: string, p: string)
    ensures Contains(s, p) <==> exists i :: OccursAt(s, p, i)
  {
    IndexFromSpec(s, p, 0);
    if !Contains(s, p) {
      forall i ensures !OccursAt(s, p, i) {
        if 0 <= i { assert IndexFrom(s, p, 0).None?; }
      }
    }
  }

  lemma OccursAtShift(s: string, p: string, k: nat, i: nat)
    requires k <= |s|
    ensures OccursAt(s[k..], p, i) <==> OccursAt(s, p, i + k)
  {
    if i + |p| <= |s| - k {
      assert s[k..][i..i + |p|] == s[i + k..i + k + |p|];
    }
  }

  /** Searching from `k` is searching the suffix `s[k..]`, shifted by `k`. */
  lemma IndexFromShift(s: string, p: string, k: nat)
    requires k <= |s|
    ensures IndexFrom(s, p, k).Some? <==> IndexOf(s[k..], p).Some?
    ensures IndexFrom(s, p, k).Some? ==> IndexFrom(s, p, k).value == IndexOf(s[k..], p).value + k
  {
    var a := IndexFrom(s, p, k);
    var b := IndexOf(s[k..], p);
    IndexFromSpec(s, p, k);
    IndexFromSpec(s[k..], p, 0);
    if a.Some? {
      OccursAtShift(s, p, k, a.value - k);
      OccursAtShift(s, p, k, b.value);
    } else if b.Some? {
      OccursAtShift(s, p, k, b.value);
    }
  }

  /** An occurrence inside a prefix is an occurrence in the whole string. */
  lemma OccursInPrefix(s: string, p: string, n: nat, j: int)
    requires n <= |s|
    ensures OccursAt(s[..n], p, j) ==> OccursAt(s, p, j)
  {
    if OccursAt(s[..n], p, j) {
      assert s[..n][j..j + |p|] == s[j..j + |p|];
    }
  }

  /** Text that occurs in a suffix occurs in the whole string. */
  lemma ContainsAppend(a: string, b: string, p: string)
    ensures Contains(b, p) ==> Contains(a + b, p)
  {
    if Contains(b, p) {
      ContainsIff(b, p);
      var i :| OccursAt(b, p, i);
      assert (a + b)[|a|..] == b;
      OccursAtShift(a + b, p, |a|, i);
      ContainsIff(a + b, p);
    }
  }

  /** An occurrence inside a slice is an occurrence in the whole string, shifted by the slice's start. */
  lemma OccursInSlice(s: string, p: string, a: nat, b: nat, k: int)
    requires a <= b <= |s|
    ensures OccursAt(s[a..b], p, k) ==> OccursAt(s, p, a + k)
  {
    if OccursAt(s[a..b], p, k) {
      var t := s[a..b];
      var u, w := t[k..k + |p|], s[a + k..a + k + |p|];
      forall m | 0 <= m < |p| ensures u[m] == w[m] {
        assert t[k + m] == s[a + k + m];
      }
      assert u == w;
    }
  }

  /** An occurrence with none before it, at or after `from`, is what `IndexFrom` finds. */
  lemma {:induction false} IndexFromUnique(s: string, p: string, from: nat, i: nat)
    requires from <= i && OccursAt(s, p, i)
    requires forall j :: from <= j < i ==> !OccursAt(s, p, j)
    ensures IndexFrom(s, p, from) == Some(i)
    decreases i - from
  {
    if from < i {
      IndexFromUnique(s, p, from + 1, i);
    }
  }

  /** Appending text cannot move the first occurrence of a pattern already present. */
  lemma IndexOfAppend(x: string, y: string, p: string, i: nat)
    requires IndexOf(x, p) == Some(i)
    ensures IndexOf(x + y, p) == Some(i)
  {
    assert (x + y)[i..i + |p|] == x[i..i + |p|];
    IndexFromSpec(x, p, 0);
    forall j | 0 <= j < i
      ensures !OccursAt(x + y, p, j)
    {
      if OccursAt(x + y, p, j) {
        assert x[j..j + |p|] == (x + y)[j..j + |p|];
        assert OccursAt(x, p, j);
      }
    }
    IndexFromUnique(x + y, p, 0, i);
  }

  /** A string contains each of its pieces. */
  lemma ContainsInside(x: string, p: string, y: string)
    ensures Contains(x + p + y, p)
  {
    assert OccursAt(x + p + y, p, |x|);
    ContainsIff(x + p + y, p);
  }

  /** Python `s.split(p, 1)`: the text before and after the first occurrence, if any. */
  function SplitOnce(s: string, p: string): (r: Option<(string, string)>)
    requires p != ""
    ensures r.Some? <==> Contains(s, p)
    ensures r.Some? ==> s == r.value.0 + p + r.value.1 && !Contains(r.value.0, p)
  {
    match IndexOf(s, p)
    case None => None
    case Some(i) =>
      SplitAround(s, p, i);
      Some((s[..i], s[i + |p|..]))
  }

  lemma SplitAround(s: string, p: string, i: nat)
    requires p != "" && IndexOf(s, p) == Some(i)
    ensures s == s[..i] + p + s[i + |p|..]
    ensures !Contains(s[..i], p)
  {
    assert s[i..i + |p|] == p;
    assert s == s[..i] + s[i..i + |p|] + s[i + |p|..];
    if Contains(s[..i], p) {
      var j := IndexOf(s[..i], p).value;
      OccursInPrefix(s, p, i, j);
      IndexFromSpec(s, p, 0);
    }
  }

  /** The in-order concatenation of a sequence of chunks. */
  function Concat(chunks: seq<string>): (r: string)
    ensures chunks == [] ==> r == ""
  {
    if chunks == [] then "" else Concat(chunks[..|chunks| - 1]) + chunks[|chunks| - 1]
  }

  /** The character of a decimal digit. */
  function DigitChar(d: nat): (c: char)
    requires d < 10
    ensures '0' <= c <= '9' && c as int - '0' as int == d
  {
    "0123456789"[d]
  }

  /** The decimal text of a natural number, without leading zeros (Python `str(n)`). */
  function NatText(n: nat): (r: string)
    ensures |r| > 0
  {
    if n < 10 then [DigitChar(n)] else NatText(n / 10) + [DigitChar(n % 10)]
  }

  /** The decimal text of an integer (Python `str(i)`). */
  function IntText(i: int): string
  {
    if i < 0 then "-" + NatText(-i) else NatText(i)
  }

  /** Python `str.startswith` / JavaScript `startsWith`. */
  predicate StartsWith(s: string, p: string)
  {
    |p| <= |s| && s[..|p|] == p
  }
}
