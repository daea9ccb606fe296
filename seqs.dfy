/** Order-preserving filtering of sequences: Python's
    `[x for x in xs if keep(x)]` and the subsequence relation it produces. */
module Seqs {

  /** `a` is obtained from `b` by deleting elements, keeping the order. */
  predicate IsSubseq<T(==)>(a: seq<T>, b: seq<T>)
    decreases |b|
  {
    a == [] || (b != [] && ((a[0] == b[0] && IsSubseq(a[1..], b[1..])) || IsSubseq(a, b[1..])))
  }

  /** Python's slice `s[:n]`, which also gives `f.read(n)` on a file's bytes:
      at most the first `n` elements. */
  function Take<T>(s: seq<T>, n: nat): (r: seq<T>)
    ensures |r| <= n && |r| <= |s|
    ensures r == s[..|r|]
    ensures |s| <= n ==> r == s
    ensures n <= |s| ==> |r| == n
  {
    if |s| <= n then s else s[..n]
  }

  /** What one check of a validator appends: the message for a violated
      rule, nothing for a kept one. */
  function When<T>(violated: bool, message: T): seq<T> {
    if violated then [message] else []
  }

  /** Five distinct messages, each listed when its rule is violated: a
      message is in the list exactly when its rule is violated, and the list
      is empty exactly when no rule is. */
  lemma {:induction false} FiveRules<T>(b1: bool, m1: T, b2: bool, m2: T, b3: bool, m3: T,
                                        b4: bool, m4: T, b5: bool, m5: T)
    requires m1 != m2 && m1 != m3 && m1 != m4 && m1 != m5
    requires m2 != m3 && m2 != m4 && m2 != m5 && m3 != m4 && m3 != m5 && m4 != m5
    ensures var l := When(b1, m1) + When(b2, m2) + When(b3, m3) + When(b4, m4) + When(b5, m5);
            && (l == [] <==> !b1 && !b2 && !b3 && !b4 && !b5)
            && (m1 in l <==> b1) && (m2 in l <==> b2) && (m3 in l <==> b3)
            && (m4 in l <==> b4) && (m5 in l <==> b5)
            && |l| <= 5
  {
    var l2 := When(b1, m1) + When(b2, m2);
    assert (m1 in l2 <==> b1) && (m2 in l2 <==> b2) && m3 !in l2 && m4 !in l2 && m5 !in l2;
    var l3 := l2 + When(b3, m3);
    assert (m1 in l3 <==> b1) && (m2 in l3 <==> b2) && (m3 in l3 <==> b3) && m4 !in l3 && m5 !in l3;
    var l4 := l3 + When(b4, m4);
    assert (m1 in l4 <==> b1) && (m2 in l4 <==> b2) && (m3 in l4 <==> b3) && (m4 in l4 <==> b4) && m5 !in l4;
  }

  /** A list comprehension with a filter clause, defined element by element
      from the end so that a loop appending to its result follows it. */
  function Filter<T(==)>(s: seq<T>, keep: T -> bool): (r: seq<T>)
    ensures |r| <= |s|
    ensures forall x | x in r :: x in s && keep(x)
    ensures forall x | x in s && keep(x) :: x in r
    ensures IsSubseq(r, s)
  {
    if s == [] then []
    else
      var init, last := s[..|s| - 1], s[|s| - 1];
      assert s == init + [last];
      var rest := Filter(init, keep);
      if keep(last) then
        SubseqSnocBoth(rest, init, last);
        rest + [last]
      else
        SubseqSnocRight(rest, init, last);
        rest
  }

  /** Filtering distributes over concatenation. */
  lemma {:induction false} FilterAppend<T>(s: seq<T>, t: seq<T>, keep: T -> bool)
    ensures Filter(s + t, keep) == Filter(s, keep) + Filter(t, keep)
    decreases |t|
  {
    if t != [] {
      var init, last := t[..|t| - 1], t[|t| - 1];
      assert (s + t)[..|s + t| - 1] == s + init && (s + t)[|s + t| - 1] == last;
      FilterAppend(s, init, keep);
    } else {
      assert s + t == s;
    }
  }

  /** Appending the same element to both sides keeps a subsequence. */
  lemma {:induction false} SubseqSnocBoth<T>(a: seq<T>, b: seq<T>, x: T)
    requires IsSubseq(a, b)
    ensures IsSubseq(a + [x], b + [x])
    decreases |b|
  {
    if a == [] {
      assert a + [x] == [x];
      SubseqEmptyThenOne(b, x);
    } else if a[0] == b[0] && IsSubseq(a[1..], b[1..]) {
      SubseqSnocBoth(a[1..], b[1..], x);
      assert (a + [x])[1..] == a[1..] + [x];
      assert (b + [x])[1..] == b[1..] + [x];
    } else {
      SubseqSnocBoth(a, b[1..], x);
      assert (b + [x])[1..] == b[1..] + [x];
    }
  }

  /** `[x]` is a subsequence of any list ending in `x`. */
  lemma {:induction false} SubseqEmptyThenOne<T>(b: seq<T>, x: T)
    ensures IsSubseq([x], b + [x])
    decreases |b|
  {
    if b != [] {
      SubseqEmptyThenOne(b[1..], x);
      assert (b + [x])[1..] == b[1..] + [x];
    } else {
      assert [x][1..] == [];
    }
  }

  /** Appending an element to the larger side keeps a subsequence. */
  lemma {:induction false} SubseqSnocRight<T>(a: seq<T>, b: seq<T>, x: T)
    requires IsSubseq(a, b)
    ensures IsSubseq(a, b + [x])
    decreases |b|
  {
    if a != [] {
      assert (b + [x])[1..] == b[1..] + [x];
      if a[0] == b[0] && IsSubseq(a[1..], b[1..]) {
        SubseqSnocRight(a[1..], b[1..], x);
      } else {
        SubseqSnocRight(a, b[1..], x);
      }
    }
  }

  lemma {:induction false} SubseqRefl<T>(a: seq<T>)
    ensures IsSubseq(a, a)
  {
    if a != [] {
      SubseqRefl(a[1..]);
    }
  }

  lemma {:induction false} SubseqMembers<T>(a: seq<T>, b: seq<T>)
    requires IsSubseq(a, b)
    ensures |a| <= |b|
    ensures forall x | x in a :: x in b
  {
    if a != [] {
      if a[0] == b[0] && IsSubseq(a[1..], b[1..]) {
        SubseqMembers(a[1..], b[1..]);
        forall x | x in a ensures x in b {
          if x != a[0] {
            assert x in a[1..];
          }
        }
      } else {
        SubseqMembers(a, b[1..]);
      }
    }
  }

  /** Composing order-preserving filters is order-preserving. */
  lemma {:induction false} SubseqTrans<T>(a: seq<T>, b: seq<T>, c: seq<T>)
    requires IsSubseq(a, b) && IsSubseq(b, c)
    ensures IsSubseq(a, c)
    decreases |c|
  {
    if a != [] {
      if IsSubseq(b, c[1..]) {
        SubseqTrans(a, b, c[1..]);
      } else if a[0] == b[0] && IsSubseq(a[1..], b[1..]) {
        SubseqTrans(a[1..], b[1..], c[1..]);
      } else {
        SubseqTrans(a, b[1..], c[1..]);
      }
    }
  }

  /** A slice of a suffix is a slice of the whole. */
  lemma SliceOfSuffix<T>(u: seq<T>, p: nat, a: nat, b: nat)
    requires p <= a <= b <= |u|
    ensures u[p..][a - p..b - p] == u[a..b]
    ensures u[p..][..b - p] == u[p..b]
  {
  }

  /** Appending is associative. */
  lemma AppendAssoc<T>(a: seq<T>, b: seq<T>, c: seq<T>)
    ensures a + b + c == a + (b + c)
  {
  }

  /** The prefix one longer than `u[..k]` holds it and then `u[k]`. */
  lemma PrefixSnoc<T>(u: seq<T>, k: nat)
    requires k < |u|
    ensures u[..k + 1][..k] == u[..k] && u[..k + 1][k] == u[k] && |u[..k + 1]| == k + 1
  {
  }

  /** The two ways of cutting `u[a..n]` out of `u`. */
  lemma SliceOfPrefix<T>(u: seq<T>, a: nat, n: nat)
    requires a <= n <= |u|
    ensures u[..n][a..] == u[a..n]
    ensures u[a..][..n - a] == u[a..n]
  {
  }

  // ------------------------------------------- keeping the first of each key

  /** The keys of the elements of `xs`. */
  function KeysOf<T, K>(xs: seq<T>, key: T -> K): set<K> {
    if xs == [] then {}
    else KeysOf(xs[..|xs| - 1], key) + {key(xs[|xs| - 1])}
  }

  lemma KeysOfSnoc<T, K>(xs: seq<T>, x: T, key: T -> K)
    ensures KeysOf(xs + [x], key) == KeysOf(xs, key) + {key(x)}
  {
    assert (xs + [x])[..|xs|] == xs;
  }

  /** Every element's key is a key of the list, and nothing else is. */
  lemma {:induction false} KeysOfMembers<T, K>(xs: seq<T>, key: T -> K)
    ensures forall i | 0 <= i < |xs| :: key(xs[i]) in KeysOf(xs, key)
    ensures forall v | v in KeysOf(xs, key) :: exists i | 0 <= i < |xs| :: key(xs[i]) == v
  {
    if xs != [] {
      var init := xs[..|xs| - 1];
      KeysOfMembers(init, key);
      forall i | 0 <= i < |xs| ensures key(xs[i]) in KeysOf(xs, key) {
        if i < |init| {
          assert xs[i] == init[i];
        }
      }
      forall v | v in KeysOf(xs, key) ensures exists i | 0 <= i < |xs| :: key(xs[i]) == v {
        if v != key(xs[|xs| - 1]) {
          var i :| 0 <= i < |init| && key(init[i]) == v;
          assert xs[i] == init[i];
        }
      }
    }
  }

  /** How many elements of `xs` have key `v`. */
  function Count<T, K(==)>(xs: seq<T>, key: T -> K, v: K): (n: nat)
    ensures n <= |xs|
  {
    if xs == [] then 0
    else Count(xs[..|xs| - 1], key, v) + (if key(xs[|xs| - 1]) == v then 1 else 0)
  }

  /** A key is counted at least once exactly when it is a key of the list. */
  lemma {:induction false} CountPositive<T, K>(xs: seq<T>, key: T -> K, v: K)
    ensures Count(xs, key, v) > 0 <==> v in KeysOf(xs, key)
  {
    if xs != [] {
      CountPositive(xs[..|xs| - 1], key, v);
    }
  }

  /** A prefix never counts a key more often than the whole list. */
  lemma {:induction false} CountPrefix<T, K>(xs: seq<T>, k: nat, key: T -> K, v: K)
    requires k <= |xs|
    ensures Count(xs[..k], key, v) <= Count(xs, key, v)
    decreases |xs|
  {
    if k < |xs| {
      assert xs[..|xs| - 1][..k] == xs[..k];
      CountPrefix(xs[..|xs| - 1], k, key, v);
    } else {
      assert xs[..k] == xs;
    }
  }

  /** An element whose key already appeared earlier makes that key count
      at least twice in the whole list. */
  lemma CountTwice<T, K>(xs: seq<T>, i: nat, key: T -> K)
    requires i < |xs|
    requires key(xs[i]) in KeysOf(xs[..i], key)
    ensures Count(xs, key, key(xs[i])) >= 2
  {
    CountPositive(xs[..i], key, key(xs[i]));
    assert xs[..i + 1][..i] == xs[..i];
    CountPrefix(xs, i + 1, key, key(xs[i]));
  }

  /** The element `x` is kept after `earlier` when its key is `blank` or new. */
  predicate KeptAfter<T, K(==)>(earlier: seq<T>, x: T, key: T -> K, blank: K) {
    key(x) == blank || key(x) !in KeysOf(earlier, key)
  }

  /** The elements of `xs` whose key is `blank` or has not occurred before. */
  function FirstByKey<T, K(==)>(xs: seq<T>, key: T -> K, blank: K): seq<T> {
    if xs == [] then []
    else
      var init, last := xs[..|xs| - 1], xs[|xs| - 1];
      FirstByKey(init, key, blank) + (if KeptAfter(init, last, key, blank) then [last] else [])
  }

  lemma FirstByKeySnoc<T, K>(xs: seq<T>, x: T, key: T -> K, blank: K)
    ensures FirstByKey(xs + [x], key, blank)
            == FirstByKey(xs, key, blank) + (if KeptAfter(xs, x, key, blank) then [x] else [])
  {
    assert (xs + [x])[..|xs|] == xs;
  }

  /** The kept elements are an order-preserving sub-list. */
  lemma {:induction false} FirstByKeySubseq<T, K>(xs: seq<T>, key: T -> K, blank: K)
    ensures IsSubseq(FirstByKey(xs, key, blank), xs)
  {
    if xs != [] {
      var init, last := xs[..|xs| - 1], xs[|xs| - 1];
      var prev := FirstByKey(init, key, blank);
      FirstByKeySubseq(init, key, blank);
      assert xs == init + [last];
      FirstByKeySnoc(init, last, key, blank);
      if KeptAfter(init, last, key, blank) {
        SubseqSnocBoth(prev, init, last);
      } else {
        assert FirstByKey(xs, key, blank) == prev;
        SubseqSnocRight(prev, init, last);
      }
    }
  }

  /** Every key of the input is still the key of some kept element. */
  lemma {:induction false} FirstByKeyKeepsKeys<T, K>(xs: seq<T>, key: T -> K, blank: K)
    ensures KeysOf(FirstByKey(xs, key, blank), key) == KeysOf(xs, key)
  {
    if xs != [] {
      var init, last := xs[..|xs| - 1], xs[|xs| - 1];
      FirstByKeyKeepsKeys(init, key, blank);
      var prev := FirstByKey(init, key, blank);
      assert xs == init + [last];
      FirstByKeySnoc(init, last, key, blank);
      KeysOfSnoc(init, last, key);
      if KeptAfter(init, last, key, blank) {
        KeysOfSnoc(prev, last, key);
      } else {
        assert FirstByKey(xs, key, blank) == prev;
      }
    }
  }

  /** No key other than `blank` belongs to two kept elements. */
  lemma {:induction false} FirstByKeyNoRepeats<T, K>(xs: seq<T>, key: T -> K, blank: K)
    ensures var r := FirstByKey(xs, key, blank);
            forall i, j | 0 <= i < j < |r| && key(r[i]) != blank :: key(r[i]) != key(r[j])
  {
    if xs != [] {
      var init, last := xs[..|xs| - 1], xs[|xs| - 1];
      FirstByKeyNoRepeats(init, key, blank);
      FirstByKeyKeepsKeys(init, key, blank);
      var prev := FirstByKey(init, key, blank);
      var r := FirstByKey(xs, key, blank);
      if KeptAfter(init, last, key, blank) {
        KeysOfMembers(prev, key);
        forall i, j | 0 <= i < j < |r| && key(r[i]) != blank
          ensures key(r[i]) != key(r[j])
        {
          assert r[i] == prev[i];
          if j < |prev| {
            assert r[j] == prev[j];
          }
        }
      }
    }
  }

  /** Every element whose key is `blank` is kept, in order. */
  lemma {:induction false} FirstByKeyKeepsBlanks<T, K>(xs: seq<T>, key: T -> K, blank: K, isBlank: T -> bool)
    requires forall x :: isBlank(x) <==> key(x) == blank
    ensures Filter(FirstByKey(xs, key, blank), isBlank) == Filter(xs, isBlank)
  {
    if xs != [] {
      var init, last := xs[..|xs| - 1], xs[|xs| - 1];
      FirstByKeyKeepsBlanks(init, key, blank, isBlank);
      var prev := FirstByKey(init, key, blank);
      var r := FirstByKey(xs, key, blank);
      if KeptAfter(init, last, key, blank) {
        assert r == prev + [last];
        assert r[..|r| - 1] == prev;
      } else {
        assert r == prev;
        assert !isBlank(last);
      }
    }
  }

  // ------------------------------------------------- selecting by flags

  /** The elements of `xs` whose flag in `keep` is set, in order. */
  function Select<T>(xs: seq<T>, keep: seq<bool>): seq<T>
    requires |xs| == |keep|
  {
    if xs == [] then []
    else Select(xs[..|xs| - 1], keep[..|keep| - 1]) + (if keep[|keep| - 1] then [xs[|xs| - 1]] else [])
  }

  /** The positions whose flag is set, in increasing order. */
  function SetIndices(keep: seq<bool>): (idx: seq<nat>)
    ensures forall i | 0 <= i < |idx| :: idx[i] < |keep| && keep[idx[i]]
    ensures forall i, i' | 0 <= i < i' < |idx| :: idx[i] < idx[i']
    ensures forall j | 0 <= j < |keep| && keep[j] :: j in idx
  {
    if keep == [] then []
    else
      var init := keep[..|keep| - 1];
      assert forall j | 0 <= j < |init| :: init[j] == keep[j];
      SetIndices(init) + (if keep[|keep| - 1] then [|keep| - 1] else [])
  }

  /** Selecting is taking the elements at the set positions. */
  lemma {:induction false} SelectAt<T>(xs: seq<T>, keep: seq<bool>)
    requires |xs| == |keep|
    ensures |Select(xs, keep)| == |SetIndices(keep)|
    ensures forall i | 0 <= i < |Select(xs, keep)| :: Select(xs, keep)[i] == xs[SetIndices(keep)[i]]
  {
    if xs != [] {
      var n := |xs| - 1;
      SelectAt(xs[..n], keep[..n]);
      var r0, idx0 := Select(xs[..n], keep[..n]), SetIndices(keep[..n]);
      forall i | 0 <= i < |r0| ensures Select(xs, keep)[i] == xs[SetIndices(keep)[i]] {
        assert Select(xs, keep)[i] == r0[i] && SetIndices(keep)[i] == idx0[i];
      }
    }
  }

  /** Selecting one more element of a prefix appends it when its flag is set. */
  lemma SelectSnoc<T>(xs: seq<T>, keep: seq<bool>, k: nat)
    requires |xs| == |keep| && k < |xs|
    ensures Select(xs[..k + 1], keep[..k + 1])
            == Select(xs[..k], keep[..k]) + (if keep[k] then [xs[k]] else [])
  {
    assert xs[..k + 1][..k] == xs[..k];
    assert keep[..k + 1][..k] == keep[..k];
  }
}
