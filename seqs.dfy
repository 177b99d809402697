/** Sequence helpers shared by the model: last element, string joining and
    order-preserving subsequences (described by an index embedding). */
module Seqs {

  function Last<T>(s: seq<T>): T
    requires |s| > 0
  {
    s[|s| - 1]
  }

  /** Swift's `[String].joined()`: the parts glued together in order. */
  function Concat(parts: seq<string>): (r: string)
    ensures |parts| == 0 ==> r == ""
  {
    if |parts| == 0 then "" else Concat(parts[..|parts| - 1]) + parts[|parts| - 1]
  }

  /** Joining non-empty parts gives the empty string only when there are none. */
  lemma {:induction false} ConcatEmptyIff(parts: seq<string>)
    ensures (forall i :: 0 <= i < |parts| ==> parts[i] != "") ==> (Concat(parts) == "" <==> parts == [])
  {
    if |parts| > 0 && parts[|parts| - 1] != "" {
      assert |Concat(parts)| >= |parts[|parts| - 1]| > 0;
    }
  }

  lemma ConcatSnoc(parts: seq<string>, p: string)
    ensures Concat(parts + [p]) == Concat(parts) + p
  {
    assert (parts + [p])[..|parts|] == parts;
  }

  /** Joining distributes over concatenation of the part lists. */
  lemma {:induction false} ConcatAppend(a: seq<string>, b: seq<string>)
    ensures Concat(a + b) == Concat(a) + Concat(b)
    decreases |b|
  {
    if |b| == 0 {
      assert a + b == a;
    } else {
      var n := |b| - 1;
      ConcatAppend(a, b[..n]);
      assert (a + b)[..|a + b| - 1] == a + b[..n];
      calc {
        Concat(a + b);
        Concat(a + b[..n]) + b[n];
        (Concat(a) + Concat(b[..n])) + b[n];
        { assert (Concat(a) + Concat(b[..n])) + b[n] == Concat(a) + (Concat(b[..n]) + b[n]); }
        Concat(a) + (Concat(b[..n]) + b[n]);
        Concat(a) + Concat(b);
      }
    }
  }

  /** A character none of the parts holds is not in their concatenation. */
  lemma {:induction false} ConcatFreeOf(parts: seq<string>, c: char)
    requires forall i :: 0 <= i < |parts| ==> c !in parts[i]
    ensures c !in Concat(parts)
    decreases |parts|
  {
    if |parts| > 0 {
      ConcatFreeOf(parts[..|parts| - 1], c);
    }
  }

  /** `idx` maps every position of `a` to a position of `b` holding the same
      element, and strictly increasingly: `a` is `b` with some elements left out. */
  ghost predicate Embeds<T>(idx: seq<int>, a: seq<T>, b: seq<T>) {
    && |idx| == |a|
    && (forall j :: 0 <= j < |idx| ==> 0 <= idx[j] < |b| && a[j] == b[idx[j]])
    && (forall j, k :: 0 <= j < k < |idx| ==> idx[j] < idx[k])
  }

  /** `a` is an order-preserving subsequence of `b`. */
  ghost predicate IsSubsequence<T>(a: seq<T>, b: seq<T>) {
    exists idx :: Embeds(idx, a, b)
  }

  lemma {:induction false} EmbedsIndexAtLeast<T>(idx: seq<int>, a: seq<T>, b: seq<T>, j: int)
    requires Embeds(idx, a, b) && 0 <= j < |idx|
    ensures idx[j] >= j
  {
    if j > 0 {
      EmbedsIndexAtLeast(idx, a, b, j - 1);
    }
  }

  /** A subsequence is never longer than the sequence it is taken from. */
  lemma SubsequenceLength<T>(a: seq<T>, b: seq<T>)
    requires IsSubsequence(a, b)
    ensures |a| <= |b|
  {
    var idx :| Embeds(idx, a, b);
    if |a| > 0 {
      EmbedsIndexAtLeast(idx, a, b, |a| - 1);
    }
  }

  lemma EmbedsRefl<T>(a: seq<T>) returns (idx: seq<int>)
    ensures Embeds(idx, a, a)
  {
    idx := seq(|a|, j => j);
  }

  /** Keeping one more element of `b` at its end extends an embedding. */
  lemma EmbedsSnoc<T>(idx: seq<int>, a: seq<T>, b: seq<T>, n: nat)
    requires n < |b| && Embeds(idx, a, b[..n])
    ensures Embeds(idx + [n], a + [b[n]], b[..n + 1])
  {
  }

  /** Looking at a longer prefix of `b` keeps an embedding valid. */
  lemma EmbedsWiden<T>(idx: seq<int>, a: seq<T>, b: seq<T>, n: nat, m: nat)
    requires n <= m <= |b| && Embeds(idx, a, b[..n])
    ensures Embeds(idx, a, b[..m])
  {
  }

  /** Embeddings compose: a subsequence of a subsequence is a subsequence. */
  lemma EmbedsCompose<T>(i1: seq<int>, a: seq<T>, b: seq<T>, i2: seq<int>, c: seq<T>) returns (idx: seq<int>)
    requires Embeds(i1, a, b) && Embeds(i2, b, c)
    ensures Embeds(idx, a, c)
  {
    idx := seq(|a|, j requires 0 <= j < |a| => i2[i1[j]]);
  }

  lemma SubsequenceTransitive<T>(a: seq<T>, b: seq<T>, c: seq<T>)
    requires IsSubsequence(a, b) && IsSubsequence(b, c)
    ensures IsSubsequence(a, c)
  {
    var i1 :| Embeds(i1, a, b);
    var i2 :| Embeds(i2, b, c);
    var idx := EmbedsCompose(i1, a, b, i2, c);
  }

  /** Every index moved up by `k`. */
  function Shift(idx: seq<int>, k: int): (r: seq<int>)
    ensures |r| == |idx| && forall j :: 0 <= j < |idx| ==> r[j] == idx[j] + k
  {
    seq(|idx|, j requires 0 <= j < |idx| => idx[j] + k)
  }

  /** Joins the embedding of `a` into `b[..k + 1]`, whose last element sits
      at `k`, with that of `c` into `b[k..]`, whose first sits at `k`; the
      shared element at `k` is kept once. */
  lemma JoinEmbeds<T>(ia: seq<int>, a: seq<T>, ic: seq<int>, c: seq<T>, b: seq<T>, k: nat)
    returns (idx: seq<int>)
    requires k < |b| && |a| >= 1 && |c| >= 1
    requires Embeds(ia, a, b[..k + 1]) && ia[|ia| - 1] == k
    requires Embeds(ic, c, b[k..]) && ic[0] == 0
    ensures idx == ia[..|ia| - 1] + Shift(ic, k)
    ensures Embeds(idx, a[..|a| - 1] + c, b)
    ensures idx[0] == (if |a| == 1 then k else ia[0]) && idx[|idx| - 1] == k + ic[|ic| - 1]
  {
    var L := |ia|;
    var sc := Shift(ic, k);
    idx := ia[..L - 1] + sc;
    var r := a[..|a| - 1] + c;
    forall j | 0 <= j < |idx|
      ensures 0 <= idx[j] < |b| && r[j] == b[idx[j]]
    {
      if j < L - 1 {
        assert idx[j] == ia[j] && r[j] == a[j];
        assert b[..k + 1][ia[j]] == b[ia[j]];
      } else {
        var u := j - (L - 1);
        assert idx[j] == ic[u] + k && r[j] == c[u];
        assert b[k..][ic[u]] == b[ic[u] + k];
      }
    }
    forall j1, j2 | 0 <= j1 < j2 < |idx|
      ensures idx[j1] < idx[j2]
    {
      if j2 < L - 1 {
        assert idx[j1] == ia[j1] && idx[j2] == ia[j2];
      } else if j1 < L - 1 {
        assert idx[j1] == ia[j1] < ia[L - 1] == k;
        assert idx[j2] == ic[j2 - (L - 1)] + k >= k;
      } else {
        assert idx[j1] == ic[j1 - (L - 1)] + k;
        assert idx[j2] == ic[j2 - (L - 1)] + k;
      }
    }
  }
}
