/**
 * The two functions of Go's `strings` package that the patch engine uses,
 * over `seq<char>`.
 */
module Strings {

  /** `p` is a prefix of `s`. */
  predicate IsPrefix(p: string, s: string) {
    |p| <= |s| && s[..|p|] == p
  }

  /** `sub` occurs in `s` starting at offset `i`. */
  predicate OccursAt(s: string, sub: string, i: nat) {
    i + |sub| <= |s| && s[i..i + |sub|] == sub
  }

  /** `strings.Contains(s, sub)`: `sub` occurs somewhere in `s`. */
  predicate Contains(s: string, sub: string)
    ensures Contains(s, sub) ==> |sub| <= |s|
    ensures sub == [] ==> Contains(s, sub)
    decreases |s|
  {
    IsPrefix(sub, s) || (|s| > 0 && Contains(s[1..], sub))
  }

  /**
   * `strings.Index(s, string(c))` for a one-character separator: the offset
   * of the first `c` in `s`, or -1 when there is none.
   */
  function IndexOf(s: string, c: char): (r: int)
    ensures -1 <= r < |s|
    ensures r == -1 <==> c !in s
    ensures r >= 0 ==> s[r] == c && c !in s[..r]
  {
    if s == [] then -1
    else if s[0] == c then 0
    else
      var k := IndexOf(s[1..], c);
      if k == -1 then -1
      else
        assert s[..k + 1] == [s[0]] + s[1..][..k];
        k + 1
  }

  /** The first `c` is at `i` exactly when `s[i]` is `c` and none comes before it. */
  lemma IndexOfUnique(s: string, c: char, i: nat)
    requires i < |s| && s[i] == c
    requires forall j :: 0 <= j < i ==> s[j] != c
    ensures IndexOf(s, c) == i
  {
    assert c in s;
    assert c in s[..IndexOf(s, c) + 1];
  }

  /** A `c` at `i` bounds the index of the first `c`. */
  lemma IndexOfAtMost(s: string, c: char, i: nat)
    requires i < |s| && s[i] == c
    ensures 0 <= IndexOf(s, c) <= i
  {
    assert c in s;
  }

  /** Contains agrees with "occurs at some offset". */
  lemma {:induction false} ContainsIffOccurs(s: string, sub: string)
    ensures Contains(s, sub) <==> exists i: nat :: OccursAt(s, sub, i)
    decreases |s|
  {
    if IsPrefix(sub, s) {
      assert OccursAt(s, sub, 0);
    } else if |s| > 0 {
      ContainsIffOccurs(s[1..], sub);
      if Contains(s[1..], sub) {
        var i: nat :| OccursAt(s[1..], sub, i);
        assert s[i + 1..i + 1 + |sub|] == s[1..][i..i + |sub|];
        assert OccursAt(s, sub, i + 1);
      }
      if i: nat :| OccursAt(s, sub, i) {
        assert i != 0;
        assert s[1..][i - 1..i - 1 + |sub|] == s[i..i + |sub|];
        assert OccursAt(s[1..], sub, i - 1);
      }
    }
  }

  /** An occurrence anywhere is enough for Contains. */
  lemma OccursAtContains(s: string, sub: string, i: nat)
    requires OccursAt(s, sub, i)
    ensures Contains(s, sub)
  {
    ContainsIffOccurs(s, sub);
  }

  /** Every character of a contained string is a character of `s`. */
  lemma ContainsChars(s: string, sub: string, k: nat)
    requires Contains(s, sub) && k < |sub|
    ensures sub[k] in s
  {
    ContainsIffOccurs(s, sub);
    var i: nat :| OccursAt(s, sub, i);
    assert s[i + k] == s[i..i + |sub|][k];
  }

  /** A string spliced into another is contained in the result. */
  lemma ContainsSpliced(x: string, t: string, y: string)
    ensures Contains(x + t + y, t)
  {
    var s := x + t + y;
    assert s[|x|..|x| + |t|] == t;
    OccursAtContains(s, t, |x|);
  }

  /**
   * Splicing `t` into `s` at `k` keeps an occurrence of `sub` at `p`
   * whenever the splice point is not strictly inside that occurrence.
   */
  lemma SpliceKeepsOccurrence(s: string, t: string, sub: string, k: nat, p: nat)
    requires k <= |s| && OccursAt(s, sub, p)
    requires k <= p || p + |sub| <= k
    ensures Contains(s[..k] + t + s[k..], sub)
  {
    var r := s[..k] + t + s[k..];
    if p + |sub| <= k {
      assert r[p..p + |sub|] == s[p..p + |sub|];
      OccursAtContains(r, sub, p);
    } else {
      var q := p + |t|;
      assert r[q..q + |sub|] == s[p..p + |sub|];
      OccursAtContains(r, sub, q);
    }
  }
}
