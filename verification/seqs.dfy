/** Order-preserving collection operations shared by every view of the model:
    `Array.prototype.filter`, `findIndex`/`indexOf`, the "keep the first
    occurrence" idiom `self.findIndex(...) === index`, and the
    subsequence relation they all respect. */
module Seqs {

  /** `r` can be obtained from `s` by deleting elements, keeping the order. */
  ghost predicate IsSubseq<T>(r: seq<T>, s: seq<T>)
    decreases |s|
  {
    || |r| == 0
    || (&& 0 < |r| <= |s|
        && (|| (r[|r| - 1] == s[|s| - 1] && IsSubseq(r[..|r| - 1], s[..|s| - 1]))
            || IsSubseq(r, s[..|s| - 1])))
  }

  /** `Array.prototype.filter`: the elements of `s` satisfying `p`, in order. */
  function Filter<T(!new)>(p: T -> bool, s: seq<T>): (r: seq<T>)
    ensures |r| <= |s|
    ensures forall x :: x in r <==> x in s && p(x)
    ensures IsSubseq(r, s)
  {
    if |s| == 0 then []
    else
      var r' := Filter(p, s[..|s| - 1]);
      assert s[..|s| - 1] + [s[|s| - 1]] == s;
      if p(s[|s| - 1]) then r' + [s[|s| - 1]] else r'
  }

  /** `filter` keeps every copy of a kept element and no copy of a dropped
      one. */
  lemma {:induction false} FilterCounts<T(!new)>(p: T -> bool, s: seq<T>)
    ensures forall x :: multiset(Filter(p, s))[x] == if p(x) then multiset(s)[x] else 0
    decreases |s|
  {
    if |s| > 0 {
      FilterCounts(p, s[..|s| - 1]);
      assert s == s[..|s| - 1] + [s[|s| - 1]];
    }
  }

  /** A predicate that fails at exactly one position drops exactly one
      element. */
  lemma {:induction false} FilterDropsOne<T(!new)>(p: T -> bool, s: seq<T>, k: nat)
    requires k < |s| && !p(s[k])
    requires forall j :: 0 <= j < |s| && j != k ==> p(s[j])
    ensures |Filter(p, s)| == |s| - 1
    decreases |s|
  {
    var init := s[..|s| - 1];
    if k == |s| - 1 {
      forall x | x in init ensures p(x) {
        var j :| 0 <= j < |init| && init[j] == x;
        assert s[j] == x;
      }
      FilterAll(p, init);
    } else {
      FilterDropsOne(p, init, k);
    }
  }

  /** Filtering twice is filtering once by the conjunction. */
  lemma {:induction false} FilterFilter<T(!new)>(p: T -> bool, q: T -> bool, pq: T -> bool, s: seq<T>)
    requires forall x :: pq(x) == (p(x) && q(x))
    ensures Filter(q, Filter(p, s)) == Filter(pq, s)
    decreases |s|
  {
    if |s| > 0 {
      var s' := s[..|s| - 1];
      FilterFilter(p, q, pq, s');
      var fp := Filter(p, s');
      if p(s[|s| - 1]) {
        assert Filter(p, s) == fp + [s[|s| - 1]];
        assert (fp + [s[|s| - 1]])[..|fp|] == fp;
      }
    }
  }

  /** A predicate that holds everywhere keeps the whole sequence. */
  lemma {:induction false} FilterAll<T(!new)>(p: T -> bool, s: seq<T>)
    requires forall x :: x in s ==> p(x)
    ensures Filter(p, s) == s
    decreases |s|
  {
    if |s| > 0 {
      FilterAll(p, s[..|s| - 1]);
      assert s[..|s| - 1] + [s[|s| - 1]] == s;
    }
  }

  /** A predicate that holds nowhere keeps nothing. */
  lemma {:induction false} FilterNone<T(!new)>(p: T -> bool, s: seq<T>)
    requires forall x :: x in s ==> !p(x)
    ensures Filter(p, s) == []
    decreases |s|
  {
    if |s| > 0 {
      FilterNone(p, s[..|s| - 1]);
    }
  }

  /** Filtering an already filtered sequence again changes nothing. */
  lemma FilterIdempotent<T(!new)>(p: T -> bool, s: seq<T>)
    ensures Filter(p, Filter(p, s)) == Filter(p, s)
  {
    FilterAll(p, Filter(p, s));
  }

  /** Two disjoint predicates split the filter by their disjunction:
      every kept element is kept by exactly one of them, as often as before. */
  lemma {:induction false} FilterSplit<T(!new)>(p: T -> bool, q: T -> bool, pq: T -> bool, s: seq<T>)
    requires forall x :: pq(x) == (p(x) || q(x))
    requires forall x :: !(p(x) && q(x))
    ensures multiset(Filter(pq, s)) == multiset(Filter(p, s)) + multiset(Filter(q, s))
    decreases |s|
  {
    if |s| > 0 {
      FilterSplit(p, q, pq, s[..|s| - 1]);
    }
  }

  /** `Array.prototype.map`. */
  function Map<T, U>(f: T -> U, s: seq<T>): (r: seq<U>)
    ensures |r| == |s|
    ensures forall i :: 0 <= i < |s| ==> r[i] == f(s[i])
  {
    seq(|s|, i requires 0 <= i < |s| => f(s[i]))
  }

  /** Membership through `Map`: the image of every element is present, and
      every present value is the image of some element. */
  lemma MapMembers<T, U>(f: T -> U, s: seq<T>)
    ensures forall x :: x in s ==> f(x) in Map(f, s)
    ensures forall y :: y in Map(f, s) ==> exists x :: x in s && y == f(x)
  {
    var r := Map(f, s);
    forall x | x in s ensures f(x) in r {
      var i :| 0 <= i < |s| && s[i] == x;
      assert r[i] == f(x);
    }
    forall y | y in r ensures exists x :: x in s && y == f(x) {
      var i :| 0 <= i < |r| && r[i] == y;
      assert s[i] in s;
    }
  }

  /** `findIndex`: the first index whose element has key `k`, or -1. With
      `key` the identity this is `indexOf`. */
  function FirstIndex<T, K(==)>(s: seq<T>, key: T -> K, k: K): (i: int)
    ensures -1 <= i < |s|
    ensures i == -1 <==> forall j :: 0 <= j < |s| ==> key(s[j]) != k
    ensures 0 <= i ==> key(s[i]) == k && forall j :: 0 <= j < i ==> key(s[j]) != k
  {
    if |s| == 0 then -1
    else if key(s[0]) == k then 0
    else
      var i := FirstIndex(s[1..], key, k);
      if i == -1 then -1 else i + 1
  }

  /** `x` is the first element of `s` carrying its key. */
  ghost predicate IsFirstOf<T, K>(s: seq<T>, key: T -> K, x: T) {
    var i := FirstIndex(s, key, key(x));
    0 <= i && s[i] == x
  }

  /** No two elements of `s` share a key. */
  ghost predicate DistinctKeys<T, K>(s: seq<T>, key: T -> K) {
    forall i, j :: 0 <= i < j < |s| ==> key(s[i]) != key(s[j])
  }

  /** The keys present in `s`. */
  ghost function KeysOf<T, K>(s: seq<T>, key: T -> K): set<K> {
    set x | x in s :: key(x)
  }

  /** Every element of `s` that passes `p` has its image's key listed in
      `r` once every key of the filtered images is. */
  lemma MappedKeysListed<T(!new), U, K>(f: T -> U, p: T -> bool, s: seq<T>, key: U -> K, r: seq<U>)
    requires forall y :: y in Map(f, Filter(p, s)) ==> key(y) in KeysOf(r, key)
    ensures forall x :: x in s && p(x) ==> exists o :: o in r && key(o) == key(f(x))
  {
    MapMembers(f, Filter(p, s));
    forall x | x in s && p(x) ensures exists o :: o in r && key(o) == key(f(x)) {
      assert f(x) in Map(f, Filter(p, s));
      assert key(f(x)) in KeysOf(r, key);
    }
  }

  /** The keys of `r` first appear in `s` in the order `r` lists them. */
  ghost predicate InFirstAppearanceOrder<T, K>(r: seq<T>, s: seq<T>, key: T -> K) {
    forall i, j :: 0 <= i < j < |r| ==> FirstIndex(s, key, key(r[i])) < FirstIndex(s, key, key(r[j]))
  }

  /** The first `n` positions of
      `s.filter((v, i, self) => keep(key(v)) && self.findIndex(t => key(t) === key(v)) === i)`:
      an element survives when its key is wanted and no earlier element
      carries the same key. */
  function KeepFirsts<T(!new), K(==)>(s: seq<T>, key: T -> K, keep: K -> bool, n: nat): (r: seq<T>)
    requires n <= |s|
    ensures DistinctKeys(r, key)
    ensures forall x :: x in r ==> x in s[..n] && keep(key(x)) && IsFirstOf(s, key, x)
    ensures forall i :: 0 <= i < n && keep(key(s[i])) ==> key(s[i]) in KeysOf(r, key)
    ensures IsSubseq(r, s[..n])
    ensures InFirstAppearanceOrder(r, s, key)
  {
    if n == 0 then []
    else
      var r' := KeepFirsts(s, key, keep, n - 1);
      if keep(key(s[n - 1])) && FirstIndex(s, key, key(s[n - 1])) == n - 1 then
        KeepFirstsKeep(s, key, keep, n, r');
        KeptInOrder(s, key, r', n);
        r' + [s[n - 1]]
      else
        KeepFirstsSkip(s, key, keep, n, r');
        r'
  }

  /** The step of `KeepFirsts` that keeps `s[n - 1]`. */
  lemma KeepFirstsKeep<T, K>(s: seq<T>, key: T -> K, keep: K -> bool, n: nat, r': seq<T>)
    requires 0 < n <= |s|
    requires keep(key(s[n - 1])) && FirstIndex(s, key, key(s[n - 1])) == n - 1
    requires DistinctKeys(r', key)
    requires forall x :: x in r' ==> x in s[..n - 1] && keep(key(x)) && IsFirstOf(s, key, x)
    requires forall i :: 0 <= i < n - 1 && keep(key(s[i])) ==> key(s[i]) in KeysOf(r', key)
    requires IsSubseq(r', s[..n - 1])
    ensures var r := r' + [s[n - 1]];
      && DistinctKeys(r, key)
      && (forall x :: x in r ==> x in s[..n] && keep(key(x)) && IsFirstOf(s, key, x))
      && (forall i :: 0 <= i < n && keep(key(s[i])) ==> key(s[i]) in KeysOf(r, key))
      && IsSubseq(r, s[..n])
  {
    var x := s[n - 1];
    assert s[..n] == s[..n - 1] + [x];
    KeysBefore(r', s, key, n - 1);
    AppendDistinct(r', x, key);
    KeepCovers(s, key, keep, n, r');
    KeptMembers(s, key, keep, n, r');
    SubseqSnoc(r', s[..n - 1], x);
  }

  /** After keeping `s[n - 1]`, every listed element is still a wanted first
      occurrence from the first `n` positions. */
  lemma KeptMembers<T, K>(s: seq<T>, key: T -> K, keep: K -> bool, n: nat, r': seq<T>)
    requires 0 < n <= |s|
    requires keep(key(s[n - 1])) && FirstIndex(s, key, key(s[n - 1])) == n - 1
    requires forall x :: x in r' ==> x in s[..n - 1] && keep(key(x)) && IsFirstOf(s, key, x)
    ensures forall y :: y in r' + [s[n - 1]] ==> y in s[..n] && keep(key(y)) && IsFirstOf(s, key, y)
  {
    forall y | y in r' + [s[n - 1]] ensures y in s[..n] && keep(key(y)) && IsFirstOf(s, key, y) {
      if y == s[n - 1] {
        assert s[..n][n - 1] == y;
      } else {
        assert y in r';
        var j :| 0 <= j < n - 1 && s[..n - 1][j] == y;
        assert s[..n][j] == y;
      }
    }
  }

  /** Extending `s` by one element keeps `r` a subsequence, with or without
      that element appended to `r`. */
  lemma SubseqSnoc<T>(r: seq<T>, s: seq<T>, x: T)
    requires IsSubseq(r, s)
    ensures IsSubseq(r + [x], s + [x])
    ensures IsSubseq(r, s + [x])
  {
    var r2 := r + [x];
    var s2 := s + [x];
    assert r2[..|r2| - 1] == r && s2[..|s2| - 1] == s;
  }

  /** Appending an element with a new key keeps the keys distinct. */
  lemma AppendDistinct<T, K>(r: seq<T>, x: T, key: T -> K)
    requires DistinctKeys(r, key)
    requires forall y :: y in r ==> key(y) != key(x)
    ensures DistinctKeys(r + [x], key)
  {
    var r2 := r + [x];
    forall i, j | 0 <= i < j < |r2| ensures key(r2[i]) != key(r2[j]) {
      assert r2[i] == r[i] && r[i] in r;
      if j < |r| {
        assert r2[j] == r[j];
      }
    }
  }

  /** After keeping `s[n - 1]`, every wanted key among the first `n`
      positions is listed. */
  lemma KeepCovers<T, K>(s: seq<T>, key: T -> K, keep: K -> bool, n: nat, r': seq<T>)
    requires 0 < n <= |s|
    requires forall i :: 0 <= i < n - 1 && keep(key(s[i])) ==> key(s[i]) in KeysOf(r', key)
    ensures forall i :: 0 <= i < n && keep(key(s[i])) ==> key(s[i]) in KeysOf(r' + [s[n - 1]], key)
  {
    var r := r' + [s[n - 1]];
    forall i | 0 <= i < n && keep(key(s[i])) ensures key(s[i]) in KeysOf(r, key) {
      if i == n - 1 {
        assert s[n - 1] in r;
      } else {
        var y :| y in r' && key(y) == key(s[i]);
        assert y in r;
      }
    }
  }

  /** The step of `KeepFirsts` that drops `s[n - 1]`. */
  lemma KeepFirstsSkip<T, K>(s: seq<T>, key: T -> K, keep: K -> bool, n: nat, r': seq<T>)
    requires 0 < n <= |s|
    requires !(keep(key(s[n - 1])) && FirstIndex(s, key, key(s[n - 1])) == n - 1)
    requires forall x :: x in r' ==> x in s[..n - 1] && keep(key(x)) && IsFirstOf(s, key, x)
    requires forall i :: 0 <= i < n - 1 && keep(key(s[i])) ==> key(s[i]) in KeysOf(r', key)
    requires IsSubseq(r', s[..n - 1])
    ensures forall x :: x in r' ==> x in s[..n]
    ensures forall i :: 0 <= i < n && keep(key(s[i])) ==> key(s[i]) in KeysOf(r', key)
    ensures IsSubseq(r', s[..n])
  {
    assert s[..n] == s[..n - 1] + [s[n - 1]];
    if keep(key(s[n - 1])) {
      var first := FirstIndex(s, key, key(s[n - 1]));
      assert 0 <= first < n - 1;
      assert key(s[first]) in KeysOf(r', key);
    }
    SubseqSnoc(r', s[..n - 1], s[n - 1]);
  }

  /** An element's key first appears no later than the element itself. */
  lemma FirstIndexAtMost<T, K>(s: seq<T>, key: T -> K, j: nat)
    requires j < |s|
    ensures 0 <= FirstIndex(s, key, key(s[j])) <= j
  {
  }

  /** With distinct keys every element is the first with its key. */
  lemma FirstOfDistinct<T, K>(s: seq<T>, key: T -> K, j: nat)
    requires j < |s|
    requires DistinctKeys(s, key)
    ensures FirstIndex(s, key, key(s[j])) == j
  {
    FirstIndexAtMost(s, key, j);
  }

  /** Keeping `s[n - 1]`, whose key first appears there, after elements
      taken from `s[..n - 1]` keeps first-appearance order. */
  lemma KeptInOrder<T, K>(s: seq<T>, key: T -> K, r': seq<T>, n: nat)
    requires 0 < n <= |s|
    requires FirstIndex(s, key, key(s[n - 1])) == n - 1
    requires forall y :: y in r' ==> y in s[..n - 1]
    requires InFirstAppearanceOrder(r', s, key)
    ensures InFirstAppearanceOrder(r' + [s[n - 1]], s, key)
  {
    KeysBefore(r', s, key, n - 1);
    AppendInOrder(r', s[n - 1], s, key);
  }

  /** One unfolding of `KeepFirsts`. */
  lemma KeepFirstsStep<T(!new), K>(s: seq<T>, key: T -> K, keep: K -> bool, n: nat)
    requires 0 < n <= |s|
    ensures KeepFirsts(s, key, keep, n) ==
      if keep(key(s[n - 1])) && FirstIndex(s, key, key(s[n - 1])) == n - 1
      then KeepFirsts(s, key, keep, n - 1) + [s[n - 1]]
      else KeepFirsts(s, key, keep, n - 1)
  {
  }

  /** Elements taken from `s[..m]` have keys first appearing before `m`. */
  lemma KeysBefore<T, K>(r: seq<T>, s: seq<T>, key: T -> K, m: nat)
    requires m <= |s|
    requires forall y :: y in r ==> y in s[..m]
    ensures forall y :: y in r ==> FirstIndex(s, key, key(y)) < m
  {
    forall y | y in r ensures FirstIndex(s, key, key(y)) < m {
      var j :| 0 <= j < m && s[..m][j] == y;
      FirstIndexAtMost(s, key, j);
    }
  }

  /** Appending an element whose key appears after every key already listed
      keeps the order. */
  lemma AppendInOrder<T, K>(r: seq<T>, x: T, s: seq<T>, key: T -> K)
    requires InFirstAppearanceOrder(r, s, key)
    requires forall y :: y in r ==> FirstIndex(s, key, key(y)) < FirstIndex(s, key, key(x))
    ensures InFirstAppearanceOrder(r + [x], s, key)
  {
    var r2 := r + [x];
    forall i, j | 0 <= i < j < |r2|
      ensures FirstIndex(s, key, key(r2[i])) < FirstIndex(s, key, key(r2[j]))
    {
      assert r2[i] == r[i] && r[i] in r;
      if j < |r| {
        assert r2[j] == r[j];
      }
    }
  }

  /** The whole-sequence form of `KeepFirsts`. */
  function FirstOccurrences<T(!new), K(==)>(s: seq<T>, key: T -> K, keep: K -> bool): (r: seq<T>)
    ensures DistinctKeys(r, key)
    ensures forall x :: x in r ==> x in s && keep(key(x)) && IsFirstOf(s, key, x)
    ensures forall x :: x in s && keep(key(x)) ==> key(x) in KeysOf(r, key)
    ensures InFirstAppearanceOrder(r, s, key)
    ensures IsSubseq(r, s)
  {
    assert s[..|s|] == s;
    KeepFirsts(s, key, keep, |s|)
  }

  /** A sequence whose keys are already distinct and all wanted is its own
      first-occurrence list. */
  lemma {:induction false} KeepFirstsOfDistinct<T(!new), K>(s: seq<T>, key: T -> K, keep: K -> bool, n: nat)
    requires n <= |s|
    requires DistinctKeys(s, key)
    requires forall x :: x in s ==> keep(key(x))
    ensures KeepFirsts(s, key, keep, n) == s[..n]
  {
    if n > 0 {
      KeepFirstsOfDistinct(s, key, keep, n - 1);
      FirstOfDistinct(s, key, n - 1);
      assert keep(key(s[n - 1])) by {
        assert s[n - 1] in s;
      }
      KeepFirstsStep(s, key, keep, n);
      PrefixSnoc(s, n);
    }
  }

  /** A prefix is the shorter prefix followed by its last element. */
  lemma PrefixSnoc<T>(s: seq<T>, n: nat)
    requires 0 < n <= |s|
    ensures s[..n] == s[..n - 1] + [s[n - 1]]
  {
  }
}
