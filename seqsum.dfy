/** Sums of integer sequences and how they change under edits. */
module SeqSum {
  /** Unbounded sum, accumulated front to back as the loop does. */
  function Sum(s: seq<int>): int
  {
    if |s| == 0 then 0 else Sum(s[..|s| - 1]) + s[|s| - 1]
  }

  /** A sum is determined by the multiset of its terms. */
  lemma {:induction false} SumOfPermutation(a: seq<int>, b: seq<int>)
    requires multiset(a) == multiset(b)
    ensures Sum(a) == Sum(b)
    decreases |a|
  {
    if |a| == 0 {
      assert |b| == |multiset(b)| == 0;
    } else {
      var x := a[|a| - 1];
      assert x in multiset(b);
      var j :| 0 <= j < |b| && b[j] == x;
      var b' := b[..j] + b[j + 1..];
      assert b == b[..j] + [x] + b[j + 1..];
      assert a == a[..|a| - 1] + [x];
      assert multiset(a) == multiset(a[..|a| - 1]) + multiset{x};
      assert multiset(b) == multiset(b[..j]) + multiset{x} + multiset(b[j + 1..]);
      assert multiset(b') == multiset(b[..j]) + multiset(b[j + 1..]);
      assert multiset(a[..|a| - 1]) == multiset(a) - multiset{x};
      assert multiset(b') == multiset(b) - multiset{x};
      SumOfPermutation(a[..|a| - 1], b');
      SumRemove(b, j);
    }
  }

  /** Removing term j of a sequence removes it from the sum. */
  lemma {:induction false} SumRemove(s: seq<int>, j: nat)
    requires j < |s|
    ensures Sum(s) == Sum(s[..j] + s[j + 1..]) + s[j]
    decreases |s|
  {
    var n := |s|;
    if j == n - 1 {
      assert s[..j] + s[j + 1..] == s[..n - 1];
    } else {
      var t := s[..n - 1];
      SumRemove(t, j);
      assert t[..j] + t[j + 1..] == (s[..j] + s[j + 1..])[..n - 2];
      assert (s[..j] + s[j + 1..])[n - 2] == s[n - 1];
    }
  }

  /** Replacing term k by v changes the sum by v - s[k]. */
  lemma {:induction false} SumUpdate(s: seq<int>, k: nat, v: int)
    requires k < |s|
    ensures Sum(s[k := v]) == Sum(s) - s[k] + v
    decreases |s|
  {
    var n := |s|;
    if k < n - 1 {
      SumUpdate(s[..n - 1], k, v);
      assert s[k := v][..n - 1] == s[..n - 1][k := v];
    } else {
      assert s[k := v][..n - 1] == s[..n - 1];
    }
  }

  lemma {:induction false} SumPointwise(a: seq<int>, b: seq<int>, c: seq<int>)
    requires |a| == |b| == |c|
    requires forall i :: 0 <= i < |c| ==> c[i] == a[i] + b[i]
    ensures Sum(c) == Sum(a) + Sum(b)
    decreases |c|
  {
    if |c| > 0 {
      var n := |c| - 1;
      SumPointwise(a[..n], b[..n], c[..n]);
    }
  }

  lemma {:induction false} SumZeroPrefix(n: nat, s: seq<int>)
    ensures Sum(seq(n, _ => 0) + s) == Sum(s)
    decreases |s|
  {
    if |s| == 0 {
      SumZeros(n);
      assert seq(n, _ => 0) + s == seq(n, _ => 0);
    } else {
      var m := |s| - 1;
      assert (seq(n, _ => 0) + s)[..n + m] == seq(n, _ => 0) + s[..m];
      SumZeroPrefix(n, s[..m]);
    }
  }

  lemma {:induction false} SumZeros(n: nat)
    ensures Sum(seq(n, _ => 0)) == 0
  {
    if n > 0 {
      assert seq(n, _ => 0)[..n - 1] == seq(n - 1, _ => 0);
      SumZeros(n - 1);
    }
  }

  lemma {:induction false} SumZeroTail(s: seq<int>, n: nat)
    requires n <= |s|
    requires forall k :: n <= k < |s| ==> s[k] == 0
    ensures Sum(s) == Sum(s[..n])
    decreases |s|
  {
    if |s| > n {
      var m := |s| - 1;
      assert s[..m][..n] == s[..n];
      SumZeroTail(s[..m], n);
      assert Sum(s) == Sum(s[..m]) + s[m];
      assert s[m] == 0;
    } else {
      assert s[..n] == s;
    }
  }

  /** A sequence holding v in its first c slots and zero after sums to c * v. */
  lemma {:induction false} SumConstPrefix(s: seq<int>, c: nat, v: int)
    requires c <= |s|
    requires forall i :: 0 <= i < c ==> s[i] == v
    requires forall i :: c <= i < |s| ==> s[i] == 0
    ensures Sum(s) == c * v
    decreases |s|
  {
    if |s| > 0 {
      var n := |s| - 1;
      if c == |s| {
        SumConstPrefix(s[..n], n, v);
      } else {
        SumConstPrefix(s[..n], c, v);
      }
    }
  }
}
