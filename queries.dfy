/** The LINQ operators the controllers compose their queries from: `Where`, `OrderBy`,
    `OrderByDescending`, `Sum`, `Count`, `Skip` and `Take` as the SQLite provider
    executes them. */
module Queries {

  /** `s.Where(p)`: the elements satisfying `p`, in their original order. */
  function Filter<T(!new)>(s: seq<T>, p: T -> bool): (r: seq<T>)
    ensures |r| <= |s|
    ensures forall x :: x in r <==> x in s && p(x)
    ensures forall i :: 0 <= i < |r| ==> p(r[i])
  {
    if s == [] then [] else (if p(s[0]) then [s[0]] else []) + Filter(s[1..], p)
  }

  /** The number of elements satisfying `p`: `s.Count(p)`. */
  function CountWhere<T>(s: seq<T>, p: T -> bool): (n: nat)
    ensures n <= |s|
    ensures n == 0 <==> forall i :: 0 <= i < |s| ==> !p(s[i])
  {
    if s == [] then 0 else (if p(s[0]) then 1 else 0) + CountWhere(s[1..], p)
  }

  /** Filtering keeps a sequence whose every element satisfies `p` as it is. */
  lemma {:induction false} FilterAll<T(!new)>(s: seq<T>, p: T -> bool)
    requires forall i :: 0 <= i < |s| ==> p(s[i])
    ensures Filter(s, p) == s
  {
    if s != [] {
      FilterAll(s[1..], p);
    }
  }

  /** Filtering empties a sequence none of whose elements satisfies `p`. */
  lemma {:induction false} FilterNone<T(!new)>(s: seq<T>, p: T -> bool)
    requires forall i :: 0 <= i < |s| ==> !p(s[i])
    ensures Filter(s, p) == []
  {
    if s != [] {
      FilterNone(s[1..], p);
    }
  }

  /** Appending one element adds one to the count exactly when it satisfies `p`. */
  lemma {:induction false} CountWhereSnoc<T>(s: seq<T>, x: T, p: T -> bool)
    ensures CountWhere(s + [x], p) == CountWhere(s, p) + (if p(x) then 1 else 0)
  {
    if s == [] {
      assert s + [x] == [x];
    } else {
      assert (s + [x])[1..] == s[1..] + [x];
      CountWhereSnoc(s[1..], x, p);
    }
  }

  lemma {:induction false} FilterCount<T(!new)>(s: seq<T>, p: T -> bool)
    ensures |Filter(s, p)| == CountWhere(s, p)
  {
    if s != [] { FilterCount(s[1..], p); }
  }

  /** Filtering distributes over concatenation. */
  lemma {:induction false} FilterAppend<T(!new)>(a: seq<T>, b: seq<T>, p: T -> bool)
    ensures Filter(a + b, p) == Filter(a, p) + Filter(b, p)
  {
    if a != [] {
      assert (a + b)[1..] == a[1..] + b;
      FilterAppend(a[1..], b, p);
    } else {
      assert a + b == b;
    }
  }

  /** `s.Sum(f)`; 0 for an empty sequence (`SumAsync(...) ?? 0`). */
  function Sum<T>(s: seq<T>, f: T -> real): real {
    if s == [] then 0.0 else f(s[0]) + Sum(s[1..], f)
  }

  lemma {:induction false} SumAppend<T>(a: seq<T>, b: seq<T>, f: T -> real)
    ensures Sum(a + b, f) == Sum(a, f) + Sum(b, f)
  {
    if a != [] {
      assert (a + b)[1..] == a[1..] + b;
      SumAppend(a[1..], b, f);
    } else {
      assert a + b == b;
    }
  }

  lemma {:induction false} SumNonNegative<T>(s: seq<T>, f: T -> real)
    requires forall i :: 0 <= i < |s| ==> f(s[i]) >= 0.0
    ensures Sum(s, f) >= 0.0
  {
    if s != [] { SumNonNegative(s[1..], f); }
  }

  /** Summing a constant counts. */
  lemma {:induction false} SumConstant<T>(s: seq<T>, f: T -> real, c: real)
    requires forall i :: 0 <= i < |s| ==> f(s[i]) == c
    ensures Sum(s, f) == |s| as real * c
  {
    if s != [] { SumConstant(s[1..], f, c); }
  }

  predicate SortedBy<T>(s: seq<T>, key: T -> real) {
    forall i, j :: 0 <= i < j < |s| ==> key(s[i]) <= key(s[j])
  }

  /** `x` inserted into sorted `s` before the first element whose key is not smaller. */
  function InsertBy<T>(x: T, s: seq<T>, key: T -> real): (r: seq<T>)
    requires SortedBy(s, key)
    ensures SortedBy(r, key)
    ensures multiset(r) == multiset(s) + multiset{x}
  {
    if s == [] then [x]
    else if key(x) <= key(s[0]) then [x] + s
    else
      var t := InsertBy(x, s[1..], key);
      assert multiset(s) == multiset{s[0]} + multiset(s[1..]) by {
        assert s == [s[0]] + s[1..];
      }
      assert forall k :: 0 <= k < |t| ==> key(s[0]) <= key(t[k]) by {
        forall k | 0 <= k < |t| ensures key(s[0]) <= key(t[k]) {
          assert t[k] in multiset(t);
        }
      }
      [s[0]] + t
  }

  /** `s.OrderBy(key)`: a stable sort, here an insertion sort from the back. */
  function SortBy<T>(s: seq<T>, key: T -> real): (r: seq<T>)
    ensures SortedBy(r, key)
    ensures multiset(r) == multiset(s)
    ensures |r| == |s|
  {
    if s == [] then []
    else
      var t := SortBy(s[1..], key);
      var r := InsertBy(s[0], t, key);
      HeadAndTail(s);
      assert |r| == |multiset(r)| == |multiset(s)| == |s|;
      r
  }

  /** A non-empty sequence is its first element and the rest. */
  lemma HeadAndTail<T>(s: seq<T>)
    requires s != []
    ensures multiset(s) == multiset{s[0]} + multiset(s[1..])
  {
    assert s == [s[0]] + s[1..];
  }

  /** `s.OrderByDescending(key)`, the stable sort on the negated key. */
  function SortByDescending<T>(s: seq<T>, key: T -> real): (r: seq<T>)
    ensures forall i, j :: 0 <= i < j < |r| ==> key(r[i]) >= key(r[j])
    ensures multiset(r) == multiset(s) && |r| == |s|
  {
    var neg := (x: T) => -key(x);
    var r := SortBy(s, neg);
    assert forall i, j :: 0 <= i < j < |r| ==> neg(r[i]) <= neg(r[j]);
    r
  }

  /** Elements of a permutation are the elements of the original. */
  lemma PermutationMembers<T(!new)>(a: seq<T>, b: seq<T>)
    requires multiset(a) == multiset(b)
    ensures forall x :: x in a <==> x in b
  {
    forall x ensures x in a <==> x in b {
      assert x in a <==> x in multiset(a);
      assert x in b <==> x in multiset(b);
    }
  }

  /** `s.Where(p).OrderBy(key)`: exactly the elements satisfying `p`, each as often as
      in `s`, in ascending key order. */
  function SelectAscending<T(!new)>(s: seq<T>, p: T -> bool, key: T -> real): (r: seq<T>)
    ensures forall x :: x in r <==> x in s && p(x)
    ensures |r| == CountWhere(s, p)
    ensures multiset(r) == multiset(Filter(s, p))
    ensures SortedBy(r, key)
  {
    var matches := Filter(s, p);
    var r := SortBy(matches, key);
    PermutationMembers(r, matches);
    FilterCount(s, p);
    r
  }

  /** `s.Where(p).OrderByDescending(key)`: exactly the elements satisfying `p`, each as
      often as in `s`, in descending key order. */
  function SelectDescending<T(!new)>(s: seq<T>, p: T -> bool, key: T -> real): (r: seq<T>)
    ensures forall x :: x in r <==> x in s && p(x)
    ensures |r| == CountWhere(s, p)
    ensures multiset(r) == multiset(Filter(s, p))
    ensures forall i, j :: 0 <= i < j < |r| ==> key(r[i]) >= key(r[j])
  {
    var matches := Filter(s, p);
    var r := SortByDescending(matches, key);
    PermutationMembers(r, matches);
    FilterCount(s, p);
    r
  }

  /** SQLite's `LIMIT n`: a negative limit means no limit. */
  function Limit<T>(s: seq<T>, n: int): (r: seq<T>)
    ensures n >= 0 ==> |r| == if n < |s| then n else |s|
    ensures n < 0 ==> r == s
    ensures r <= s
  {
    if n < 0 || n >= |s| then s else s[..n]
  }

  /** SQLite's `OFFSET n`: a negative offset counts as zero. */
  function Offset<T>(s: seq<T>, n: int): (r: seq<T>)
    ensures n <= 0 ==> r == s
    ensures 0 < n <= |s| ==> r == s[n..]
    ensures n > |s| ==> r == []
  {
    if n <= 0 then s else if n >= |s| then [] else s[n..]
  }

  /** Summing a scaled quantity scales the sum. */
  lemma {:induction false} SumScaled<T>(s: seq<T>, f: T -> real, g: T -> real, c: real)
    requires forall i :: 0 <= i < |s| ==> g(s[i]) == f(s[i]) * c
    ensures Sum(s, g) == Sum(s, f) * c
  {
    if s != [] { SumScaled(s[1..], f, g, c); }
  }

  /** Each key occurs once. */
  ghost predicate Unique<K>(ks: seq<K>) {
    forall k :: k in ks ==> multiset(ks)[k] == 1
  }

  /** The distinct keys of `s` in order of first appearance: the groups of `GroupBy`. */
  function KeysOf<T, K(==)>(s: seq<T>, key: T -> K): (ks: seq<K>)
    ensures Unique(ks)
    ensures forall i :: 0 <= i < |s| ==> key(s[i]) in ks
    ensures forall k :: k in ks ==> exists i :: 0 <= i < |s| && key(s[i]) == k
    decreases |s|
  {
    if s == [] then []
    else
      var init := s[..|s| - 1];
      var ks := KeysOf(init, key);
      var x := key(s[|s| - 1]);
      assert forall i :: 0 <= i < |init| ==> init[i] == s[i];
      if x in ks then ks else ks + [x]
  }

  /** The sum of `f` over the elements whose key is `k`. */
  function SumForKey<T, K(==)>(s: seq<T>, key: T -> K, k: K, f: T -> real): real {
    if s == [] then 0.0 else (if key(s[0]) == k then f(s[0]) else 0.0) + SumForKey(s[1..], key, k, f)
  }

  /** The number of elements whose key is `k`. */
  function CountForKey<T, K(==)>(s: seq<T>, key: T -> K, k: K): nat {
    if s == [] then 0 else (if key(s[0]) == k then 1 else 0) + CountForKey(s[1..], key, k)
  }

  function One<T>(x: T): real { 1.0 }

  /** A count is the sum of ones. */
  lemma {:induction false} CountForKeyIsSum<T, K>(s: seq<T>, key: T -> K, k: K)
    ensures CountForKey(s, key, k) as real == SumForKey(s, key, k, One)
  {
    if s != [] { CountForKeyIsSum(s[1..], key, k); }
  }

  lemma {:induction false} SumOnes<T>(s: seq<T>)
    ensures Sum(s, One) == |s| as real
  {
    if s != [] { SumOnes(s[1..]); }
  }

  /** The per-key sums over the keys `ks`. */
  function GroupSums<T, K(==)>(s: seq<T>, key: T -> K, ks: seq<K>, f: T -> real): real {
    if ks == [] then 0.0 else SumForKey(s, key, ks[0], f) + GroupSums(s, key, ks[1..], f)
  }

  lemma UniqueTail<K>(ks: seq<K>)
    requires ks != [] && Unique(ks)
    ensures ks[0] !in ks[1..] && Unique(ks[1..])
  {
    assert ks == [ks[0]] + ks[1..];
    assert multiset(ks) == multiset{ks[0]} + multiset(ks[1..]);
    assert multiset(ks)[ks[0]] == 1;
    assert multiset(ks[1..])[ks[0]] == 0;
    forall k | k in ks[1..]
      ensures multiset(ks[1..])[k] == 1
    {
      assert k in ks;
      assert multiset(ks)[k] == 1;
      assert multiset(ks[1..])[k] >= 1;
    }
  }

  /** Peeling the first element off `s` takes its value out of exactly the group of its
      key, if that group is among `ks`. */
  lemma {:induction false} GroupSumsCons<T, K>(s: seq<T>, key: T -> K, ks: seq<K>, f: T -> real)
    requires s != [] && Unique(ks)
    ensures GroupSums(s, key, ks, f)
            == (if key(s[0]) in ks then f(s[0]) else 0.0) + GroupSums(s[1..], key, ks, f)
  {
    if ks != [] {
      UniqueTail(ks);
      GroupSumsCons(s, key, ks[1..], f);
    }
  }

  /** The groups partition the sequence: summing the per-key sums over a set of keys that
      covers every element, each key once, gives the sum over the whole sequence. */
  lemma {:induction false} GroupSumsTotal<T, K>(s: seq<T>, key: T -> K, ks: seq<K>, f: T -> real)
    requires Unique(ks)
    requires forall i :: 0 <= i < |s| ==> key(s[i]) in ks
    ensures GroupSums(s, key, ks, f) == Sum(s, f)
  {
    if s == [] {
      GroupSumsEmpty(key, ks, f);
    } else {
      GroupSumsCons(s, key, ks, f);
      GroupSumsTotal(s[1..], key, ks, f);
    }
  }

  lemma {:induction false} GroupSumsEmpty<T, K>(key: T -> K, ks: seq<K>, f: T -> real)
    ensures GroupSums([], key, ks, f) == 0.0
  {
    if ks != [] { GroupSumsEmpty(key, ks[1..], f); }
  }

  /** Over non-negative values, the sum over the elements that satisfy `p` lies between
      zero and the sum over all of them. */
  lemma {:induction false} SumFilterBounds<T(!new)>(s: seq<T>, p: T -> bool, f: T -> real)
    requires forall i :: 0 <= i < |s| ==> f(s[i]) >= 0.0
    ensures 0.0 <= Sum(Filter(s, p), f) <= Sum(s, f)
  {
    if s != [] {
      SumFilterBounds(s[1..], p, f);
      var head := if p(s[0]) then [s[0]] else [];
      SumAppend(head, Filter(s[1..], p), f);
    }
  }

  /** Keys that each occur once are pairwise different. */
  lemma {:induction false} UniqueDistinct<K>(ks: seq<K>)
    requires Unique(ks)
    ensures forall a, b :: 0 <= a < b < |ks| ==> ks[a] != ks[b]
  {
    if ks != [] {
      UniqueTail(ks);
      UniqueDistinct(ks[1..]);
      forall a, b | 0 <= a < b < |ks| ensures ks[a] != ks[b] {
        if a == 0 {
          assert ks[b] == ks[1..][b - 1];
        } else {
          assert ks[a] == ks[1..][a - 1] && ks[b] == ks[1..][b - 1];
        }
      }
    }
  }

  /** A key some element carries has a non-empty group. */
  lemma {:induction false} CountForKeyPositive<T, K>(s: seq<T>, key: T -> K, i: nat)
    requires i < |s|
    ensures CountForKey(s, key, key(s[i])) > 0
  {
    if i > 0 {
      CountForKeyPositive(s[1..], key, i - 1);
    }
  }

  /** Shares of a positive total that add up to the total add up to 100 percent. */
  lemma PercentagesAddUp<T>(s: seq<T>, part: T -> real, percentage: T -> real, total: real)
    requires total > 0.0 && Sum(s, part) == total
    requires forall i :: 0 <= i < |s| ==> percentage(s[i]) == part(s[i]) / total * 100.0
    ensures Sum(s, percentage) == 100.0
  {
    var c := 100.0 / total;
    forall i | 0 <= i < |s| ensures percentage(s[i]) == part(s[i]) * c {
      assert part(s[i]) / total * 100.0 == part(s[i]) * 100.0 / total;
    }
    SumScaled(s, part, percentage, c);
    assert total * c == 100.0;
  }

  function Min(a: int, b: int): int { if a <= b then a else b }

  /** A C# `int`. */
  type Int32 = x: int | -0x8000_0000 <= x < 0x8000_0000

  /** Unchecked 32-bit arithmetic: `x` reduced into the `int` range, as C# does without
      a `checked` context. */
  function Wrap32(x: int): (r: Int32)
    ensures (r - x) % 0x1_0000_0000 == 0
    ensures -0x8000_0000 <= x < 0x8000_0000 ==> r == x
  {
    (x + 0x8000_0000) % 0x1_0000_0000 - 0x8000_0000
  }

  /** `p` is the run of `s` that starts at index `lo`. */
  predicate RunAt<T(==)>(p: seq<T>, s: seq<T>, lo: nat) {
    lo + |p| <= |s| && p == s[lo..lo + |p|]
  }

  /** Where `s.Skip(skip)` starts. */
  function PageStart(n: nat, skip: int): (lo: nat)
    ensures lo <= n
  {
    if skip <= 0 then 0 else Min(skip, n)
  }

  /** `s.Skip(skip).Take(take)`: a contiguous run of `s` starting where the skip ends,
      at most `take` long when `take` is not negative. */
  function Page<T>(s: seq<T>, skip: int, take: int): (r: seq<T>)
    ensures PageStart(|s|, skip) + |r| <= |s|
    ensures r == s[PageStart(|s|, skip)..PageStart(|s|, skip) + |r|]
    ensures take >= 0 ==> |r| == Min(take, |s| - PageStart(|s|, skip))
    ensures take < 0 ==> |r| == |s| - PageStart(|s|, skip)
  {
    Limit(Offset(s, skip), take)
  }

  /** A page holds elements of the sequence only, in their order. */
  lemma PageMembers<T>(s: seq<T>, skip: int, take: int)
    ensures forall x :: x in Page(s, skip, take) ==> x in s
  {
    var p := Page(s, skip, take);
    var lo := PageStart(|s|, skip);
    forall x | x in p ensures x in s {
      var k :| 0 <= k < |p| && p[k] == x;
      assert x == s[lo + k];
    }
  }

  /** Page `page` starts at `(page - 1) * size`, which lies between 0 and any position
      `k` on it and, when `k` fits an `int`, is not wrapped. */
  lemma PageStartFits(page: int, size: int, i: nat, k: nat)
    requires 1 <= page && 0 < size && i < size && k == (page - 1) * size + i && k < 0x8000_0000
    ensures 0 <= (page - 1) * size <= k
    ensures Wrap32((page - 1) * size) == (page - 1) * size
  {
    TimesAtLeast(page - 1, size);
  }

  lemma TimesAtLeast(q: nat, size: nat)
    requires 1 <= size
    ensures q <= q * size
  {
  }
}
