/** The JavaScript string predicates the front end relies on: `startsWith`,
    `endsWith` and `includes`, over strings as sequences of characters. */
module Strings {

  /** `s.startsWith(prefix)` */
  predicate StartsWith(s: string, prefix: string) {
    |prefix| <= |s| && s[..|prefix|] == prefix
  }

  /** `s.endsWith(suffix)` */
  predicate EndsWith(s: string, suffix: string) {
    |suffix| <= |s| && s[|s| - |suffix|..] == suffix
  }

  /** `fragment` occurs in `s` starting at index `i`. */
  predicate OccursAt(s: string, fragment: string, i: nat) {
    i + |fragment| <= |s| && s[i..i + |fragment|] == fragment
  }

  /** `s.includes(fragment)` */
  predicate Contains(s: string, fragment: string) {
    exists i: nat | i <= |s| :: OccursAt(s, fragment, i)
  }

  lemma PrefixContained(s: string, prefix: string)
    requires StartsWith(s, prefix)
    ensures Contains(s, prefix)
  {
    assert OccursAt(s, prefix, 0);
  }

  /** The middle piece of a concatenation occurs in it. */
  lemma ContainsMiddle(a: string, b: string, c: string)
    ensures Contains(a + b + c, b)
  {
    var s := a + b + c;
    assert s[|a|..|a| + |b|] == b by {
      forall k | 0 <= k < |b| ensures s[|a| + k] == b[k] { }
    }
    assert OccursAt(s, b, |a|);
  }

  /** No character `x` in `s` is immediately followed by `y`. */
  predicate NoPair(s: string, x: char, y: char) {
    forall i :: 0 <= i < |s| - 1 ==> !(s[i] == x && s[i + 1] == y)
  }

  lemma {:induction false} NoPairConcat(a: string, b: string, x: char, y: char)
    requires NoPair(a, x, y) && NoPair(b, x, y)
    requires a != [] && b != [] ==> !(a[|a| - 1] == x && b[0] == y)
    ensures NoPair(a + b, x, y)
  {
    var s := a + b;
    forall i | 0 <= i < |s| - 1 ensures !(s[i] == x && s[i + 1] == y) {
      if i + 1 < |a| {
        assert s[i] == a[i] && s[i + 1] == a[i + 1];
      } else if i + 1 > |a| {
        assert s[i] == b[i - |a|] && s[i + 1] == b[i + 1 - |a|];
      }
    }
  }

  /** A fragment whose first two characters never appear side by side in `s`
      does not occur in `s`. */
  lemma NoPairNotContains(s: string, fragment: string)
    requires |fragment| >= 2 && NoPair(s, fragment[0], fragment[1])
    ensures !Contains(s, fragment)
  {
    forall i: nat | i <= |s| ensures !OccursAt(s, fragment, i) {
      if i + |fragment| <= |s| {
        assert s[i..i + |fragment|][0] == s[i] && s[i..i + |fragment|][1] == s[i + 1];
      }
    }
  }

  /** A fragment found in `b` is still found once text is put around it. */
  lemma ContainsWithin(a: string, b: string, c: string, fragment: string)
    requires Contains(b, fragment)
    ensures Contains(a + b + c, fragment)
  {
    var i: nat :| i <= |b| && OccursAt(b, fragment, i);
    var s := a + b + c;
    assert s[|a|..] == b + c;
    assert (b + c)[i..i + |fragment|] == b[i..i + |fragment|];
    assert s[|a| + i..|a| + i + |fragment|] == s[|a|..][i..i + |fragment|];
    assert OccursAt(s, fragment, |a| + i);
  }

  /** The last piece of a concatenation occurs in it. */
  lemma ContainsSuffix(a: string, b: string)
    ensures Contains(a + b, b)
  {
    assert (a + b)[|a|..] == b;
    assert OccursAt(a + b, b, |a|);
  }

  /** Neither piece nor their junction holds the fragment's first two
      characters side by side, so the concatenation does not contain it. */
  lemma AbsentFromConcat(a: string, b: string, fragment: string)
    requires |fragment| >= 2
    requires NoPair(a, fragment[0], fragment[1]) && NoPair(b, fragment[0], fragment[1])
    requires a != [] && b != [] ==> !(a[|a| - 1] == fragment[0] && b[0] == fragment[1])
    ensures !Contains(a + b, fragment)
  {
    NoPairConcat(a, b, fragment[0], fragment[1]);
    NoPairNotContains(a + b, fragment);
  }
}
