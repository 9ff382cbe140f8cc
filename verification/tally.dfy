/**
 * `collections.Counter` and `defaultdict(Counter)` as the dashboard uses
 * them. Python dictionaries remember insertion order, and the row order of
 * the report depends on it, so a counter is modelled as the sequence of its
 * (key, count) pairs in the order keys were first added.
 */
module Tally {

  /** A counter: (key, count) pairs in first-insertion order. */
  type Tally<K> = seq<(K, nat)>

  /** The keys of a sequence of pairs, in order. */
  function Keys<K, V>(t: seq<(K, V)>): (ks: seq<K>)
    ensures |ks| == |t| && forall i :: 0 <= i < |t| ==> ks[i] == t[i].0
  {
    seq(|t|, i requires 0 <= i < |t| => t[i].0)
  }

  predicate Distinct<K(==)>(xs: seq<K>) {
    forall i, j :: 0 <= i < j < |xs| ==> xs[i] != xs[j]
  }

  lemma {:induction false} DistinctTail<K>(xs: seq<K>)
    requires xs != [] && Distinct(xs)
    ensures Distinct(xs[1..])
  {
    forall i, j | 0 <= i < j < |xs| - 1 ensures xs[1..][i] != xs[1..][j] {
      assert xs[1..][i] == xs[i + 1] && xs[1..][j] == xs[j + 1];
    }
  }

  /** Every stored count is at least one (a Counter filled only by `+= 1`). */
  predicate Positive<K>(t: Tally<K>) {
    forall i :: 0 <= i < |t| ==> t[i].1 >= 1
  }

  /** `counter.get(k, 0)`. */
  function Lookup<K(==)>(t: Tally<K>, k: K): nat {
    if t == [] then 0 else if t[0].0 == k then t[0].1 else Lookup(t[1..], k)
  }

  /** `sum(counter.values())`. */
  function Sum<K>(t: Tally<K>): nat {
    if t == [] then 0 else t[0].1 + Sum(t[1..])
  }

  /** `counter[k] += 1`: a known key keeps its place and gains one; a new
      key is appended with count one. */
  function Increment<K(==,!new)>(t: Tally<K>, k: K): (r: Tally<K>)
    ensures Keys(r) == if k in Keys(t) then Keys(t) else Keys(t) + [k]
  {
    if t == [] then
      assert Keys([(k, 1)]) == [k];
      [(k, 1)]
    else if t[0].0 == k then
      var r := [(k, t[0].1 + 1)] + t[1..];
      KeysCons(t[0], t[1..]);
      KeysCons(r[0], t[1..]);
      assert t == [t[0]] + t[1..];
      r
    else
      var rest := Increment(t[1..], k);
      var r := [t[0]] + rest;
      KeysCons(t[0], t[1..]);
      KeysCons(t[0], rest);
      assert t == [t[0]] + t[1..];
      r
  }

  lemma {:induction false} KeysCons<K, V>(h: (K, V), t: seq<(K, V)>)
    ensures Keys([h] + t) == [h.0] + Keys(t)
  {
  }

  /** Incrementing `k` adds one to its count and leaves every other count
      as it was. */
  lemma {:induction false} IncrementLookup<K(!new)>(t: Tally<K>, k: K, q: K)
    ensures Lookup(Increment(t, k), q) == Lookup(t, q) + (if q == k then 1 else 0)
  {
    if t != [] && t[0].0 != k {
      IncrementLookup(t[1..], k, q);
      assert Increment(t, k)[1..] == Increment(t[1..], k);
    }
  }

  /** Incrementing adds one to the total and keeps every count positive. */
  lemma {:induction false} IncrementSum<K(!new)>(t: Tally<K>, k: K)
    ensures Sum(Increment(t, k)) == Sum(t) + 1
    ensures Positive(t) ==> Positive(Increment(t, k))
  {
    if t != [] && t[0].0 != k {
      IncrementSum(t[1..], k);
      var r := Increment(t, k);
      assert r[1..] == Increment(t[1..], k);
      assert r[0] == t[0];
    } else if t != [] {
      var r := Increment(t, k);
      assert r[1..] == t[1..];
    }
  }

  /** A Counter filled by a loop over `xs`. */
  function CountAll<K(==,!new)>(xs: seq<K>): Tally<K> {
    if xs == [] then [] else Increment(CountAll(xs[..|xs| - 1]), xs[|xs| - 1])
  }

  /** The number of occurrences of `k` in `xs`. */
  function Count<K(==)>(xs: seq<K>, k: K): nat {
    if xs == [] then 0 else (if xs[0] == k then 1 else 0) + Count(xs[1..], k)
  }

  /** The index of the first occurrence of `k` in `xs`, or `|xs|` if none. */
  function FirstIndex<K(==)>(xs: seq<K>, k: K): (n: nat)
    ensures n <= |xs|
    ensures n < |xs| <==> k in xs
    ensures n < |xs| ==> xs[n] == k
    ensures forall j :: 0 <= j < n ==> xs[j] != k
  {
    if xs == [] then 0 else if xs[0] == k then 0 else 1 + FirstIndex(xs[1..], k)
  }

  lemma {:induction false} CountSnoc<K>(xs: seq<K>, x: K, k: K)
    ensures Count(xs + [x], k) == Count(xs, k) + (if x == k then 1 else 0)
  {
    if xs == [] {
      assert [] + [x] == [x];
    } else {
      assert (xs + [x])[1..] == xs[1..] + [x];
      CountSnoc(xs[1..], x, k);
    }
  }

  lemma {:induction false} FirstIndexSnoc<K>(xs: seq<K>, x: K, k: K)
    requires k in xs
    ensures FirstIndex(xs + [x], k) == FirstIndex(xs, k)
  {
    var n := FirstIndex(xs, k);
    var m := FirstIndex(xs + [x], k);
    assert (xs + [x])[n] == k;
    if m < n {
      assert xs[m] == k;
    }
  }

  lemma {:induction false} LookupAt<K>(t: Tally<K>, i: nat)
    requires Distinct(Keys(t)) && i < |t|
    ensures Lookup(t, t[i].0) == t[i].1
  {
    if i > 0 {
      assert Keys(t[1..]) == Keys(t)[1..];
      assert t[0].0 == Keys(t)[0] != Keys(t)[i] == t[i].0;
      LookupAt(t[1..], i - 1);
    }
  }

  lemma {:induction false} CountAllKeys<K(!new)>(xs: seq<K>)
    ensures Distinct(Keys(CountAll(xs)))
    ensures forall k :: k in Keys(CountAll(xs)) <==> k in xs
    ensures Sum(CountAll(xs)) == |xs| && Positive(CountAll(xs))
  {
    if xs != [] {
      var pre := xs[..|xs| - 1];
      assert xs == pre + [xs[|xs| - 1]];
      CountAllKeys(pre);
      IncrementSum(CountAll(pre), xs[|xs| - 1]);
    }
  }

  lemma {:induction false} CountAllCounts<K(!new)>(xs: seq<K>)
    ensures forall k :: Lookup(CountAll(xs), k) == Count(xs, k)
  {
    if xs != [] {
      var pre := xs[..|xs| - 1];
      var x := xs[|xs| - 1];
      assert xs == pre + [x];
      CountAllCounts(pre);
      forall k ensures Lookup(CountAll(xs), k) == Count(xs, k) {
        CountSnoc(pre, x, k);
        IncrementLookup(CountAll(pre), x, k);
      }
    }
  }

  lemma {:induction false} CountAllOrder<K(!new)>(xs: seq<K>)
    ensures forall i, j :: 0 <= i < j < |CountAll(xs)| ==>
      FirstIndex(xs, CountAll(xs)[i].0) < FirstIndex(xs, CountAll(xs)[j].0)
  {
    if xs != [] {
      var pre := xs[..|xs| - 1];
      var x := xs[|xs| - 1];
      assert xs == pre + [x];
      CountAllOrder(pre);
      CountAllKeys(pre);
      var t0 := CountAll(pre);
      var t := CountAll(xs);
      assert t == Increment(t0, x);
      forall i, j | 0 <= i < j < |t| ensures FirstIndex(xs, t[i].0) < FirstIndex(xs, t[j].0) {
        assert t[i].0 == Keys(t)[i] && t[j].0 == Keys(t)[j];
        assert t0[i].0 == t[i].0;
        assert t0[i].0 in Keys(t0);
        FirstIndexSnoc(pre, x, t[i].0);
        if j < |t0| {
          assert t0[j].0 == t[j].0;
          assert t0[j].0 in Keys(t0);
          FirstIndexSnoc(pre, x, t[j].0);
        } else {
          assert t[j].0 == x && x !in pre;
          assert FirstIndex(xs, x) == |pre|;
        }
      }
    }
  }

  /**
   * What a Counter filled from `xs` holds: each key of `xs` exactly once,
   * in order of first occurrence, with its number of occurrences (never
   * zero), and the counts add up to `|xs|`.
   */
  lemma {:induction false} CountAllSpec<K(!new)>(xs: seq<K>)
    ensures Distinct(Keys(CountAll(xs)))
    ensures forall k :: k in Keys(CountAll(xs)) <==> k in xs
    ensures forall k :: Lookup(CountAll(xs), k) == Count(xs, k)
    ensures forall i :: 0 <= i < |CountAll(xs)| ==> CountAll(xs)[i].1 == Count(xs, CountAll(xs)[i].0) >= 1
    ensures Sum(CountAll(xs)) == |xs|
    ensures forall i, j :: 0 <= i < j < |CountAll(xs)| ==>
      FirstIndex(xs, CountAll(xs)[i].0) < FirstIndex(xs, CountAll(xs)[j].0)
  {
    CountAllKeys(xs);
    CountAllCounts(xs);
    CountAllOrder(xs);
    var t := CountAll(xs);
    forall i | 0 <= i < |t| ensures t[i].1 == Count(xs, t[i].0) >= 1 {
      LookupAt(t, i);
    }
  }

  /** `dict(counter)`: the same counts, as a dictionary. */
  function AsMap<K(==)>(t: Tally<K>): map<K, nat> {
    map k | k in Keys(t) :: Lookup(t, k)
  }

  /** `dict(Counter(xs))` has a key for exactly the values seen, each
      mapped to its number of occurrences, none of them zero. */
  lemma {:induction false} AsMapOfCountAll<K(!new)>(xs: seq<K>)
    ensures AsMap(CountAll(xs)).Keys == set x | x in xs
    ensures forall k :: k in AsMap(CountAll(xs)) ==> AsMap(CountAll(xs))[k] == Count(xs, k) >= 1
  {
    CountAllSpec(xs);
    forall k | k in AsMap(CountAll(xs)) ensures Count(xs, k) >= 1 {
      var t := CountAll(xs);
      var i :| 0 <= i < |Keys(t)| && Keys(t)[i] == k;
      assert t[i].1 == Count(xs, t[i].0);
    }
  }

  // ---------------------------------------------------------------------
  // defaultdict(Counter): a counter of seconds per first
  // ---------------------------------------------------------------------

  /** Outer key -> inner counter, in first-insertion order of outer keys. */
  type Grouped<P, S> = seq<(P, Tally<S>)>

  /** `nested[p]` read without inserting: the inner counter, empty if `p`
      has not been seen. */
  function InnerOf<P(==), S>(g: Grouped<P, S>, p: P): Tally<S> {
    if g == [] then [] else if g[0].0 == p then g[0].1 else InnerOf(g[1..], p)
  }

  /** `nested[p][s] += 1` on a `defaultdict(Counter)`. */
  function AddPair<P(==,!new), S(==,!new)>(g: Grouped<P, S>, p: P, s: S): (r: Grouped<P, S>)
    ensures Keys(r) == if p in Keys(g) then Keys(g) else Keys(g) + [p]
  {
    if g == [] then
      var r := [(p, Increment([], s))];
      assert Keys(r) == [p];
      r
    else if g[0].0 == p then
      var r := [(p, Increment(g[0].1, s))] + g[1..];
      KeysCons(g[0], g[1..]);
      KeysCons(r[0], g[1..]);
      assert g == [g[0]] + g[1..];
      r
    else
      var rest := AddPair(g[1..], p, s);
      var r := [g[0]] + rest;
      KeysCons(g[0], g[1..]);
      KeysCons(g[0], rest);
      assert g == [g[0]] + g[1..];
      r
  }

  /** Adding `(p, s)` increments `s` in the counter of `p` and leaves the
      other counters as they were. */
  lemma {:induction false} AddPairInner<P(!new), S(!new)>(g: Grouped<P, S>, p: P, s: S, q: P)
    ensures InnerOf(AddPair(g, p, s), q) == if q == p then Increment(InnerOf(g, p), s) else InnerOf(g, q)
  {
    if g != [] && g[0].0 != p {
      AddPairInner(g[1..], p, s, q);
      assert AddPair(g, p, s)[1..] == AddPair(g[1..], p, s);
    }
  }

  /** A `defaultdict(Counter)` filled by a loop over `pairs`. */
  function GroupAll<P(==,!new), S(==,!new)>(pairs: seq<(P, S)>): Grouped<P, S> {
    if pairs == [] then [] else AddPair(GroupAll(pairs[..|pairs| - 1]), pairs[|pairs| - 1].0, pairs[|pairs| - 1].1)
  }

  /** The seconds of the pairs whose first is `p`, in order. */
  function Select<P(==), S>(pairs: seq<(P, S)>, p: P): seq<S> {
    if pairs == [] then []
    else (if pairs[0].0 == p then [pairs[0].1] else []) + Select(pairs[1..], p)
  }

  lemma {:induction false} SelectSnoc<P, S>(pairs: seq<(P, S)>, x: (P, S), p: P)
    ensures Select(pairs + [x], p) == Select(pairs, p) + (if x.0 == p then [x.1] else [])
  {
    var tail := if x.0 == p then [x.1] else [];
    if pairs == [] {
      assert [] + [x] == [x];
      assert Select([x], p) == tail + [];
    } else {
      var q := pairs + [x];
      var head := if pairs[0].0 == p then [pairs[0].1] else [];
      assert q[0] == pairs[0];
      assert q[1..] == pairs[1..] + [x];
      SelectSnoc(pairs[1..], x, p);
      assert Select(q, p) == head + (Select(pairs[1..], p) + tail);
      assert Select(pairs, p) == head + Select(pairs[1..], p);
      assert head + (Select(pairs[1..], p) + tail) == (head + Select(pairs[1..], p)) + tail;
    }
  }

  lemma {:induction false} CountAllSnoc<K(!new)>(xs: seq<K>, x: K)
    ensures CountAll(xs + [x]) == Increment(CountAll(xs), x)
  {
    assert (xs + [x])[..|xs|] == xs;
  }

  lemma {:induction false} GroupAllKeys<P(!new), S(!new)>(pairs: seq<(P, S)>)
    ensures Keys(GroupAll(pairs)) == Keys(CountAll(Keys(pairs)))
  {
    if pairs != [] {
      var pre := pairs[..|pairs| - 1];
      var x := pairs[|pairs| - 1];
      assert pairs == pre + [x];
      GroupAllKeys(pre);
      assert Keys(pairs) == Keys(pre) + [x.0];
      CountAllSnoc(Keys(pre), x.0);
    }
  }

  lemma {:induction false} GroupAllInner<P(!new), S(!new)>(pairs: seq<(P, S)>, q: P)
    ensures InnerOf(GroupAll(pairs), q) == CountAll(Select(pairs, q))
  {
    if pairs != [] {
      var pre := pairs[..|pairs| - 1];
      var x := pairs[|pairs| - 1];
      assert pairs == pre + [x];
      GroupAllInner(pre, q);
      var g := GroupAll(pre);
      assert GroupAll(pairs) == AddPair(g, x.0, x.1);
      AddPairInner(g, x.0, x.1, q);
      SelectSnoc(pre, x, q);
      if q == x.0 {
        CountAllSnoc(Select(pre, q), x.1);
      } else {
        assert Select(pairs, q) == Select(pre, q);
      }
    }
  }

  /**
   * What a `defaultdict(Counter)` filled from `pairs` holds: its outer keys
   * are the firsts in order of first occurrence, and the inner counter of
   * each `p` is the Counter of the seconds paired with `p`.
   */
  lemma {:induction false} GroupAllSpec<P(!new), S(!new)>(pairs: seq<(P, S)>)
    ensures Keys(GroupAll(pairs)) == Keys(CountAll(Keys(pairs)))
    ensures forall q :: InnerOf(GroupAll(pairs), q) == CountAll(Select(pairs, q))
  {
    GroupAllKeys(pairs);
    forall q ensures InnerOf(GroupAll(pairs), q) == CountAll(Select(pairs, q)) {
      GroupAllInner(pairs, q);
    }
  }

  lemma {:induction false} InnerOfAt<P, S>(g: Grouped<P, S>, i: nat)
    requires Distinct(Keys(g)) && i < |g|
    ensures InnerOf(g, g[i].0) == g[i].1
  {
    if i > 0 {
      var ks := Keys(g);
      KeysCons(g[0], g[1..]);
      assert g == [g[0]] + g[1..];
      assert Keys(g[1..]) == ks[1..];
      DistinctTail(ks);
      assert ks[0] != ks[i];
      assert g[1..][i - 1] == g[i];
      InnerOfAt(g[1..], i - 1);
    }
  }

  /** Counting the seconds paired with `p` counts the pairs `(p, s)`. */
  lemma {:induction false} CountSelect<P, S>(pairs: seq<(P, S)>, p: P, s: S)
    ensures Count(Select(pairs, p), s) == Count(pairs, (p, s))
  {
    if pairs != [] {
      CountSelect(pairs[1..], p, s);
      var head := if pairs[0].0 == p then [pairs[0].1] else [];
      CountAppend(head, Select(pairs[1..], p), s);
    }
  }

  /** The pairs whose first is `p` are as many as the occurrences of `p`
      among the firsts. */
  lemma {:induction false} SelectLength<P, S>(pairs: seq<(P, S)>, p: P)
    ensures |Select(pairs, p)| == Count(Keys(pairs), p)
  {
    if pairs != [] {
      SelectLength(pairs[1..], p);
      assert Keys(pairs)[1..] == Keys(pairs[1..]);
    }
  }

  lemma {:induction false} CountAppend<K>(a: seq<K>, b: seq<K>, k: K)
    ensures Count(a + b, k) == Count(a, k) + Count(b, k)
  {
    if a != [] {
      assert (a + b)[1..] == a[1..] + b;
      CountAppend(a[1..], b, k);
    } else {
      assert a + b == b;
    }
  }

  /** A value occurs a positive number of times exactly when it is present. */
  lemma {:induction false} CountPositive<K>(xs: seq<K>, k: K)
    ensures Count(xs, k) > 0 <==> k in xs
  {
    if xs != [] {
      CountPositive(xs[1..], k);
      assert xs == [xs[0]] + xs[1..];
    }
  }

  /** Entry `i` of a Counter filled from `xs` is a value of `xs` with its
      number of occurrences. */
  lemma {:induction false} CountAllAt<K(!new)>(xs: seq<K>, i: nat)
    requires i < |CountAll(xs)|
    ensures CountAll(xs)[i].0 in xs
    ensures CountAll(xs)[i].1 == Count(xs, CountAll(xs)[i].0)
  {
    CountAllKeys(xs);
    CountAllCounts(xs);
    assert Keys(CountAll(xs))[i] == CountAll(xs)[i].0;
    LookupAt(CountAll(xs), i);
  }
}
