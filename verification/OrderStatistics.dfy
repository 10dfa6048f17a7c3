/** Order statistics by in-place selection, as `std::nth_element` is used. */
module OrderStatistics {

  /** A comparison that `std::nth_element` may be given. */
  ghost predicate StrictWeak<T(!new)>(less: (T, T) -> bool) {
    && (forall x :: !less(x, x))
    && (forall x, y, z :: less(x, y) && less(y, z) ==> less(x, z))
    && (forall x, y, z :: !less(x, y) && !less(y, z) ==> !less(x, z))
  }

  function Count<T>(s: seq<T>, p: T -> bool): (r: nat)
    ensures r <= |s|
  {
    if s == [] then 0 else Count(s[..|s| - 1], p) + if p(s[|s| - 1]) then 1 else 0
  }

  lemma {:induction false} CountAppend<T>(s: seq<T>, t: seq<T>, p: T -> bool)
    ensures Count(s + t, p) == Count(s, p) + Count(t, p)
    decreases |t|
  {
    if t == [] {
      assert s + t == s;
    } else {
      assert (s + t)[..|s + t| - 1] == s + t[..|t| - 1];
      CountAppend(s, t[..|t| - 1], p);
    }
  }

  /** Elements that satisfy one predicate and not the other make the difference. */
  lemma {:induction false} CountWeaker<T>(s: seq<T>, p: T -> bool, q: T -> bool)
    requires forall x | x in s :: p(x) ==> q(x)
    ensures Count(s, p) <= Count(s, q)
  {
    if s != [] {
      CountWeaker(s[..|s| - 1], p, q);
    }
  }

  lemma {:induction false} CountComplement<T>(s: seq<T>, p: T -> bool, q: T -> bool)
    requires forall x | x in s :: p(x) <==> !q(x)
    ensures Count(s, p) + Count(s, q) == |s|
  {
    if s != [] {
      CountComplement(s[..|s| - 1], p, q);
    }
  }

  lemma {:induction false} CountAll<T>(s: seq<T>, p: T -> bool)
    requires forall x | x in s :: p(x)
    ensures Count(s, p) == |s|
  {
    if s != [] {
      CountAll(s[..|s| - 1], p);
    }
  }

  lemma {:induction false} CountNone<T>(s: seq<T>, p: T -> bool)
    requires forall x | x in s :: !p(x)
    ensures Count(s, p) == 0
  {
    if s != [] {
      CountNone(s[..|s| - 1], p);
    }
  }

  lemma {:induction false} CountLast<T>(u: seq<T>, x: T, p: T -> bool)
    ensures Count(u + [x], p) == Count(u, p) + if p(x) then 1 else 0
  {
    assert (u + [x])[..|u|] == u;
  }

  lemma {:induction false} CountMiddle<T>(u: seq<T>, x: T, v: seq<T>, p: T -> bool)
    ensures Count(u + [x] + v, p) == Count(u + v, p) + if p(x) then 1 else 0
  {
    CountLast(u, x, p);
    CountAppend(u + [x], v, p);
    CountAppend(u, v, p);
  }

  lemma {:induction false} CancelOne<T>(a: multiset<T>, b: multiset<T>, x: T)
    requires a + multiset{x} == b + multiset{x}
    ensures a == b
  {
    assert a == (a + multiset{x}) - multiset{x};
    assert b == (b + multiset{x}) - multiset{x};
  }

  lemma {:induction false} MultisetMiddle<T>(u: seq<T>, x: T, v: seq<T>)
    ensures multiset(u + [x] + v) == multiset(u + v) + multiset{x}
  {
  }

  /** Counting does not depend on the order. */
  lemma {:induction false} CountPermutation<T>(s: seq<T>, t: seq<T>, p: T -> bool)
    requires multiset(s) == multiset(t)
    ensures Count(s, p) == Count(t, p) && |s| == |t|
    decreases |s|
  {
    assert |multiset(s)| == |s| && |multiset(t)| == |t|;
    if s != [] {
      var x, rest := s[|s| - 1], s[..|s| - 1];
      assert s == rest + [x];
      assert x in multiset(t);
      var i :| 0 <= i < |t| && t[i] == x;
      var u, v := t[..i], t[i + 1..];
      assert t == u + [x] + v;
      MultisetMiddle(rest, x, []);
      assert rest + [x] + [] == s && rest + [] == rest;
      MultisetMiddle(u, x, v);
      CancelOne(multiset(rest), multiset(u + v), x);
      CountPermutation(rest, u + v, p);
      CountMiddle(u, x, v, p);
    }
  }

  /**
   x is the k-th smallest of s, counting from 0: at most k elements are smaller, and more than k
   are not greater. This does not mention any order of s.
   */
  ghost predicate IsNth<T>(s: seq<T>, less: (T, T) -> bool, k: nat, x: T) {
    && x in s
    && Count(s, y => less(y, x)) <= k
    && k < Count(s, y => !less(x, y))
  }

  lemma {:induction false} NthPermutation<T>(s: seq<T>, t: seq<T>, less: (T, T) -> bool, k: nat, x: T)
    requires multiset(s) == multiset(t) && IsNth(s, less, k, x)
    ensures IsNth(t, less, k, x)
  {
    assert x in multiset(s) && x in multiset(t);
    CountPermutation(s, t, y => less(y, x));
    CountPermutation(s, t, y => !less(x, y));
  }

  /** Any two k-th smallest elements are equivalent in the order. */
  lemma {:induction false} NthIsUnique<T(!new)>(s: seq<T>, less: (T, T) -> bool, k: nat, x: T, y: T)
    requires StrictWeak(less) && IsNth(s, less, k, x) && IsNth(s, less, k, y)
    ensures !less(x, y) && !less(y, x)
  {
    if less(x, y) {
      CountWeaker(s, z => !less(x, z), z => less(z, y));
    } else if less(y, x) {
      CountWeaker(s, z => !less(y, z), z => less(z, x));
    }
  }

  /** What the standard promises of `nth_element`. */
  ghost predicate Partitioned<T>(s: seq<T>, less: (T, T) -> bool, k: nat) {
    && k < |s|
    && (forall i | 0 <= i < k :: !less(s[k], s[i]))
    && (forall i | k <= i < |s| :: !less(s[i], s[k]))
  }

  lemma {:induction false} PartitionedNth<T(!new)>(s: seq<T>, less: (T, T) -> bool, k: nat)
    requires StrictWeak(less) && Partitioned(s, less, k)
    ensures IsNth(s, less, k, s[k])
  {
    var x := s[k];
    assert s == s[..k] + s[k..];
    CountAppend(s[..k], s[k..], y => less(y, x));
    CountNone(s[k..], y => less(y, x));
    assert s == s[..k + 1] + s[k + 1..];
    CountAppend(s[..k + 1], s[k + 1..], y => !less(x, y));
    CountAll(s[..k + 1], y => !less(x, y));
  }

  /** The place of a smallest element from `from` on. */
  method SmallestFrom<T(!new)>(a: array<T>, from: nat, less: (T, T) -> bool) returns (m: nat)
    requires StrictWeak(less) && from < a.Length
    ensures from <= m < a.Length && forall i | from <= i < a.Length :: !less(a[i], a[m])
  {
    m := from;
    for i := from + 1 to a.Length
      invariant from <= m < i
      invariant forall j | from <= j < i :: !less(a[j], a[m])
    {
      if less(a[i], a[m]) {
        m := i;
      }
    }
  }

  /** The first i elements are in order, and none after them is smaller. */
  ghost predicate Settled<T>(s: seq<T>, i: nat, less: (T, T) -> bool) {
    forall p, q | 0 <= p < i && p <= q < |s| :: !less(s[q], s[p])
  }

  lemma {:induction false} SwapSettles<T(!new)>(s: seq<T>, i: nat, m: nat, less: (T, T) -> bool)
    requires StrictWeak(less) && i <= m < |s| && Settled(s, i, less)
    requires forall j | i <= j < |s| :: !less(s[j], s[m])
    ensures Settled(s[i := s[m]][m := s[i]], i + 1, less)
    ensures multiset(s[i := s[m]][m := s[i]]) == multiset(s)
  {
    var t := s[i := s[m]][m := s[i]];
    forall p, q | 0 <= p < i + 1 && p <= q < |t|
      ensures !less(t[q], t[p])
    {
      var from := if q == i then m else if q == m then i else q;
      assert t[q] == s[from] && from >= p;
    }
  }

  /** One implementation of `std::nth_element`; callers rely only on what the standard promises. */
  method NthElement<T(!new)>(a: array<T>, k: nat, less: (T, T) -> bool)
    requires StrictWeak(less) && k < a.Length
    modifies a
    ensures multiset(a[..]) == multiset(old(a[..]))
    ensures Partitioned(a[..], less, k)
  {
    for i := 0 to k + 1
      invariant multiset(a[..]) == multiset(old(a[..]))
      invariant Settled(a[..], i, less)
    {
      var m := SmallestFrom(a, i, less);
      SwapSettles(a[..], i, m, less);
      ghost var swapped := a[..][i := a[m]][m := a[i]];
      a[i], a[m] := a[m], a[i];
      assert a[..] == swapped;
    }
  }

  function Between<T>(less: (T, T) -> bool, lo: T, hi: T): T -> bool {
    x => !less(x, lo) && !less(hi, x)
  }

  /** When more than half of the values lie between two bounds, so does the middle one. */
  lemma {:induction false} MajorityBindsMedian<T(!new)>(s: seq<T>, less: (T, T) -> bool, lo: T, hi: T, m: T)
    requires StrictWeak(less) && IsNth(s, less, |s| / 2, m)
    requires 2 * Count(s, Between(less, lo, hi)) > |s|
    ensures !less(m, lo) && !less(hi, m)
  {
    var inside := Between(less, lo, hi);
    if less(m, lo) {
      CountWeaker(s, inside, x => less(m, x));
      CountComplement(s, x => less(m, x), x => !less(m, x));
    }
    if less(hi, m) {
      CountWeaker(s, inside, x => less(x, m));
    }
  }
}
