/** The two string operations of the page script: substring search, as done by
    String.prototype.includes, and joining with a separator, as done by
    Array.prototype.join. */
module Text {

  /** `sub` occurs in `s` starting at index `i`. */
  predicate OccursAt(s: string, sub: string, i: int) {
    0 <= i && i + |sub| <= |s| && s[i..i + |sub|] == sub
  }

  /** Stepping past the first character of `s` shifts every occurrence by one. */
  lemma OccursAtShift(s: string, sub: string, i: int)
    requires |s| > 0 && 0 <= i
    ensures OccursAt(s, sub, i + 1) <==> OccursAt(s[1..], sub, i)
  {
  }

  /** When `sub` is not a prefix of `s`, it occurs in `s` exactly when it occurs in `s[1..]`. */
  lemma IncludesStep(s: string, sub: string)
    requires |s| > 0 && !OccursAt(s, sub, 0)
    ensures (exists i :: OccursAt(s, sub, i)) <==> (exists i :: OccursAt(s[1..], sub, i))
  {
    if i :| OccursAt(s, sub, i) {
      OccursAtShift(s, sub, i - 1);
    }
    if i :| OccursAt(s[1..], sub, i) {
      OccursAtShift(s, sub, i);
    }
  }

  /** `s.includes(sub)`: true exactly when `sub` occurs somewhere in `s`. */
  function Includes(s: string, sub: string): (r: bool)
    ensures r <==> exists i :: OccursAt(s, sub, i)
    decreases |s|
  {
    if |sub| <= |s| && s[..|sub|] == sub then
      assert OccursAt(s, sub, 0);
      true
    else if |s| == 0 then
      assert forall i :: !OccursAt(s, sub, i);
      false
    else
      IncludesStep(s, sub);
      Includes(s[1..], sub)
  }

  /** The empty string is included in every string. */
  lemma IncludesEmpty(s: string)
    ensures Includes(s, "")
  {
  }

  /** A string includes every one of its infixes. */
  lemma IncludesInfix(p: string, m: string, q: string)
    ensures Includes(p + m + q, m)
  {
    assert (p + m + q)[|p|..|p| + |m|] == m;
    assert OccursAt(p + m + q, m, |p|);
  }

  /** `parts.join(sep)`, built left to right as the array method does: the
      first part, then the separator and the next part for each further one. */
  function Join(parts: seq<string>, sep: string): string
    decreases |parts|
  {
    if |parts| == 0 then ""
    else if |parts| == 1 then parts[0]
    else Join(parts[..|parts| - 1], sep) + sep + parts[|parts| - 1]
  }

  /** Joining is also "first part, separator, the rest joined". */
  lemma {:induction false} JoinCons(m: string, rest: seq<string>, sep: string)
    requires |rest| > 0
    ensures Join([m] + rest, sep) == m + sep + Join(rest, sep)
    decreases |rest|
  {
    var all := [m] + rest;
    var n := |rest|;
    assert all[..|all| - 1] == [m] + rest[..n - 1];
    if n == 1 {
      assert all[..|all| - 1] == [m];
    } else {
      JoinCons(m, rest[..n - 1], sep);
    }
  }

  /** Joining two non-empty lists puts exactly one separator between their joins. */
  lemma {:induction false} JoinAppend(a: seq<string>, b: seq<string>, sep: string)
    requires |a| > 0 && |b| > 0
    ensures Join(a + b, sep) == Join(a, sep) + sep + Join(b, sep)
    decreases |b|
  {
    var n := |b|;
    if n == 1 {
      assert (a + b)[..|a + b| - 1] == a;
    } else {
      assert (a + b)[..|a + b| - 1] == a + b[..n - 1];
      JoinAppend(a, b[..n - 1], sep);
    }
  }

  /** The length of a join: all the parts plus one separator between each two. */
  function TotalLength(parts: seq<string>): nat {
    if |parts| == 0 then 0 else |parts[0]| + TotalLength(parts[1..])
  }

  lemma {:induction false} JoinLength(parts: seq<string>, sep: string)
    requires |parts| > 0
    ensures |Join(parts, sep)| == TotalLength(parts) + (|parts| - 1) * |sep|
    decreases |parts|
  {
    if |parts| > 1 {
      assert parts == [parts[0]] + parts[1..];
      JoinCons(parts[0], parts[1..], sep);
      JoinLength(parts[1..], sep);
    }
  }

  /** Every part appears in the joined string. */
  lemma {:induction false} JoinIncludesEachPart(parts: seq<string>, sep: string, k: nat)
    requires k < |parts|
    ensures Includes(Join(parts, sep), parts[k])
    decreases |parts|
  {
    var n := |parts|;
    if n == 1 {
      IncludesInfix("", parts[0], "");
      assert "" + parts[0] + "" == parts[0];
    } else if k == n - 1 {
      IncludesInfix(Join(parts[..n - 1], sep) + sep, parts[k], "");
      assert Join(parts[..n - 1], sep) + sep + parts[k] + "" == Join(parts, sep);
    } else {
      JoinIncludesEachPart(parts[..n - 1], sep, k);
      var inner := Join(parts[..n - 1], sep);
      var i :| OccursAt(inner, parts[k], i);
      assert (inner + sep + parts[n - 1])[i..i + |parts[k]|] == inner[i..i + |parts[k]|];
      assert OccursAt(Join(parts, sep), parts[k], i);
    }
  }
}
