/** Sequence helpers shared by the bounded histories of all four samples. */
module Seqs {

  function Min(a: int, b: int): int { if a <= b then a else b }

  /** The last `n` elements of `s`, or all of `s` when it is shorter (Python's `s[-n:]` for `n > 0`). */
  function Last<T>(s: seq<T>, n: nat): (r: seq<T>)
    ensures |r| == Min(|s|, n)
    ensures r == s[|s| - |r|..]
  {
    if |s| <= n then s else s[|s| - n..]
  }

  /** Taking the last `k` of a suffix that is at least `k` long is taking the last `k` of the whole. */
  lemma LastOfSuffix<T>(s: seq<T>, i: nat, k: nat)
    requires i <= |s| && k <= |s| - i
    ensures Last(s[i..], k) == Last(s, k)
  {
    var u := s[i..];
    assert Last(u, k) == u[|u| - k..];
    assert Last(s, k) == s[|s| - k..];
    assert u[|u| - k..] == s[|s| - k..];
  }

  /** Trimming a history to its last `n` entries before appending `t` and keeping the last `k` changes
      nothing, as long as `k <= n + |t|`: append-then-trim on a bounded history keeps exactly the most
      recent entries. */
  lemma LastOfLast<T>(s: seq<T>, t: seq<T>, n: nat, k: nat)
    requires k <= n + |t|
    ensures Last(Last(s, n) + t, k) == Last(s + t, k)
  {
    if |s| > n {
      var u := s + t;
      assert Last(s, n) == s[|s| - n..];
      assert s[|s| - n..] + t == u[|s| - n..];
      LastOfSuffix(u, |s| - n, k);
    } else {
      assert Last(s, n) == s;
    }
  }

  /** Two rounds of append-then-keep-the-last-`n` are one round with both batches appended. */
  lemma LastTwice<T>(h: seq<T>, a: seq<T>, b: seq<T>, n: nat)
    ensures Last(Last(h + a, n) + b, n) == Last(h + (a + b), n)
  {
    LastOfLast(h + a, b, n, n);
    assert h + a + b == h + (a + b);
  }
}
