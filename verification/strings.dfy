/** The JavaScript string tests the front-end relies on:
    `startsWith`, `endsWith` and `includes`. */
module Strings {

  /** `s.startsWith(t)`. */
  predicate StartsWith(s: string, t: string) {
    |t| <= |s| && s[..|t|] == t
  }

  /** `s.endsWith(t)`. */
  predicate EndsWith(s: string, t: string) {
    |t| <= |s| && s[|s| - |t|..] == t
  }

  /** A copy of `t` begins at position `i` of `s`. */
  predicate OccursAt(s: string, t: string, i: int) {
    0 <= i && i + |t| <= |s| && s[i..i + |t|] == t
  }

  /** `s.includes(t)`, computed by trying each start position in turn. */
  function Includes(s: string, t: string): bool
    decreases |s|
  {
    if StartsWith(s, t) then true
    else if |s| == 0 then false
    else Includes(s[1..], t)
  }

  /** `Includes` holds exactly when some position of `s` starts a copy of `t`. */
  lemma {:induction false} IncludesIff(s: string, t: string)
    ensures Includes(s, t) <==> exists i :: OccursAt(s, t, i)
    decreases |s|
  {
    if StartsWith(s, t) {
      assert OccursAt(s, t, 0);
    } else if |s| == 0 {
    } else {
      IncludesIff(s[1..], t);
      if Includes(s[1..], t) {
        var i :| OccursAt(s[1..], t, i);
        assert s[1..][i..i + |t|] == s[i + 1..i + 1 + |t|];
        assert OccursAt(s, t, i + 1);
      }
      if exists j :: OccursAt(s, t, j) {
        var j :| OccursAt(s, t, j);
        assert s[1..][j - 1..j - 1 + |t|] == s[j..j + |t|];
        assert OccursAt(s[1..], t, j - 1);
      }
    }
  }

  /** A string is a prefix of itself followed by anything. */
  lemma PrefixOfConcat(a: string, b: string)
    ensures StartsWith(a + b, a)
    ensures EndsWith(a + b, b)
  {
    assert (a + b)[..|a|] == a;
    assert (a + b)[|a + b| - |b|..] == b;
  }

  /** `startsWith` is transitive through a longer prefix. */
  lemma StartsWithTrans(s: string, p: string, q: string)
    requires StartsWith(s, p) && StartsWith(p, q)
    ensures StartsWith(s, q)
  {
    assert s[..|q|] == p[..|q|];
  }
}
