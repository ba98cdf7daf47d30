/** In-order subsequences. */
module Subsequences {
  /** `at` says where in `b` the elements of `a` are, in increasing order. */
  ghost predicate Embeds<T>(a: seq<T>, b: seq<T>, at: seq<nat>) {
    && |at| == |a|
    && (forall i :: 0 <= i < |at| ==> at[i] < |b| && b[at[i]] == a[i])
    && (forall i, j :: 0 <= i < j < |at| ==> at[i] < at[j])
  }

  /** `a` arises from `b` by leaving elements out. */
  ghost predicate Subseq<T>(a: seq<T>, b: seq<T>) {
    exists at :: Embeds(a, b, at)
  }

  lemma {:induction false} SubseqSelf<T>(a: seq<T>)
    ensures Subseq(a, a)
  {
    assert Embeds(a, a, seq(|a|, i => i));
  }

  lemma {:induction false} SubseqEmpty<T>(b: seq<T>)
    ensures Subseq([], b)
  {
    assert Embeds([], b, []);
  }

  lemma {:induction false} SubseqTransitive<T>(a: seq<T>, b: seq<T>, c: seq<T>)
    requires Subseq(a, b) && Subseq(b, c)
    ensures Subseq(a, c)
  {
    var f :| Embeds(a, b, f);
    var g :| Embeds(b, c, g);
    assert Embeds(a, c, seq(|a|, i requires 0 <= i < |a| => g[f[i]]));
  }

  lemma {:induction false} SubseqConcat<T>(a: seq<T>, b: seq<T>, c: seq<T>, d: seq<T>)
    requires Subseq(a, b) && Subseq(c, d)
    ensures Subseq(a + c, b + d)
  {
    var f :| Embeds(a, b, f);
    var g :| Embeds(c, d, g);
    var shifted: seq<nat> := seq(|g|, i requires 0 <= i < |g| => |b| + g[i]);
    var at: seq<nat> := f + shifted;
    forall i | 0 <= i < |at| ensures at[i] < |b + d| && (b + d)[at[i]] == (a + c)[i] {
      if i >= |f| {
        assert at[i] == |b| + g[i - |f|];
      }
    }
    assert Embeds(a + c, b + d, at);
  }

  /** Leaving out a tail. */
  lemma {:induction false} SubseqPrefix<T>(a: seq<T>, b: seq<T>)
    ensures Subseq(a, a + b)
  {
    SubseqSelf(a);
    SubseqEmpty(b);
    SubseqConcat(a, a, [], b);
    assert a + [] == a;
  }

  /** Leaving out a middle part. */
  lemma {:induction false} SubseqSkip<T>(a: seq<T>, x: seq<T>, b: seq<T>)
    ensures Subseq(a + b, a + x + b)
  {
    SubseqPrefix(a, x);
    SubseqSelf(b);
    SubseqConcat(a, a + x, b, b);
  }

  /** Elements in order in `a` are in the same order in `b`. */
  lemma {:induction false} SubseqKeepsOrder<T>(a: seq<T>, b: seq<T>, i: nat, j: nat) returns (k: nat, l: nat)
    requires Subseq(a, b) && i < j < |a|
    ensures k < l < |b| && b[k] == a[i] && b[l] == a[j]
  {
    var at :| Embeds(a, b, at);
    k, l := at[i], at[j];
  }

  lemma {:induction false} Assoc<T>(a: seq<T>, b: seq<T>, c: seq<T>)
    ensures a + b + c == a + (b + c)
  {
  }

  /** Two stages of a pipeline in a row: `h` has left it, `p` is in it, `n` is new. */
  lemma {:induction false} SubseqChain<T>(h1: seq<T>, h2: seq<T>, p0: seq<T>, p1: seq<T>, p2: seq<T>,
                                          n1: seq<T>, n2: seq<T>)
    requires Subseq(h1 + p1, p0 + n1) && Subseq(h2 + p2, p1 + n2)
    ensures Subseq(h1 + h2 + p2, p0 + (n1 + n2))
  {
    SubseqSelf(h1);
    SubseqConcat(h1, h1, h2 + p2, p1 + n2);
    SubseqSelf(n2);
    SubseqConcat(h1 + p1, p0 + n1, n2, n2);
    Assoc(h1, h2, p2);
    Assoc(h1, p1, n2);
    Assoc(p0, n1, n2);
    SubseqTransitive(h1 + (h2 + p2), h1 + (p1 + n2), p0 + (n1 + n2));
  }
}
