/** Sequence helpers: reversal, first-occurrence deduplication and newline joining. */
module Seqs {

  predicate Distinct<T(==)>(s: seq<T>)
  {
    forall i, j :: 0 <= i < j < |s| ==> s[i] != s[j]
  }

  function Reverse<T>(s: seq<T>): (r: seq<T>)
    ensures |r| == |s|
    ensures forall i :: 0 <= i < |s| ==> r[i] == s[|s| - 1 - i]
  {
    if s == [] then [] else Reverse(s[1..]) + [s[0]]
  }

  lemma {:induction false} ReverseMultiset<T>(s: seq<T>)
    ensures multiset(Reverse(s)) == multiset(s)
  {
    if s != [] {
      ReverseMultiset(s[1..]);
      assert s == [s[0]] + s[1..];
    }
  }

  /** Apply `f` to every element, keeping the order. */
  function MapSeq<T, K>(xs: seq<T>, f: T -> K): (r: seq<K>)
    ensures |r| == |xs|
    ensures forall i :: 0 <= i < |xs| ==> r[i] == f(xs[i])
  {
    seq(|xs|, i requires 0 <= i < |xs| => f(xs[i]))
  }

  /** The distinct elements of `xs`, each at the place of its first occurrence. */
  function Dedup<T(==)>(xs: seq<T>): seq<T>
  {
    if xs == [] then []
    else
      var p := Dedup(xs[..|xs| - 1]);
      if xs[|xs| - 1] in p then p else p + [xs[|xs| - 1]]
  }

  lemma {:induction false} DedupSpec<T>(xs: seq<T>)
    ensures forall x :: x in Dedup(xs) <==> x in xs
    ensures Distinct(Dedup(xs))
  {
    if xs != [] {
      var pre := xs[..|xs| - 1];
      DedupSpec(pre);
      assert xs == pre + [xs[|xs| - 1]];
    }
  }

  lemma DedupSnoc<T>(xs: seq<T>, x: T)
    ensures Dedup(xs + [x]) == if x in xs then Dedup(xs) else Dedup(xs) + [x]
  {
    assert (xs + [x])[..|xs|] == xs;
    DedupSpec(xs);
  }

  /** The elements of `xs` whose key has not occurred earlier in `xs`, in order. */
  function FirstByKey<T, K(==)>(xs: seq<T>, key: T -> K): seq<T>
  {
    if xs == [] then []
    else
      var pre := xs[..|xs| - 1];
      var p := FirstByKey(pre, key);
      if key(xs[|xs| - 1]) in MapSeq(pre, key) then p else p + [xs[|xs| - 1]]
  }

  /** The keys of `FirstByKey(xs, key)` are the keys of `xs` in first-seen order, without repeats. */
  lemma {:induction false} FirstByKeyKeys<T, K>(xs: seq<T>, key: T -> K)
    ensures MapSeq(FirstByKey(xs, key), key) == Dedup(MapSeq(xs, key))
  {
    if xs != [] {
      var pre := xs[..|xs| - 1];
      FirstByKeyKeys(pre, key);
      DedupSpec(MapSeq(pre, key));
      assert MapSeq(xs, key)[..|xs| - 1] == MapSeq(pre, key);
      var p := FirstByKey(pre, key);
      var ks := MapSeq(xs, key);
      assert ks != [] && ks[|ks| - 1] == key(xs[|xs| - 1]);
      assert Dedup(ks) == if key(xs[|xs| - 1]) in Dedup(MapSeq(pre, key)) then Dedup(MapSeq(pre, key))
                          else Dedup(MapSeq(pre, key)) + [key(xs[|xs| - 1])];
      assert MapSeq(p + [xs[|xs| - 1]], key) == MapSeq(p, key) + [key(xs[|xs| - 1])];
    }
  }

  lemma MapSeqSnoc<T, K>(xs: seq<T>, x: T, f: T -> K)
    ensures MapSeq(xs + [x], f) == MapSeq(xs, f) + [f(x)]
  {
  }

  /** One more element is kept exactly when its key is new. */
  lemma FirstByKeySnoc<T, K>(xs: seq<T>, x: T, key: T -> K)
    ensures FirstByKey(xs + [x], key) == if key(x) in MapSeq(xs, key) then FirstByKey(xs, key) else FirstByKey(xs, key) + [x]
  {
    assert (xs + [x])[..|xs|] == xs;
  }

  /**
   * One more element of `xs`, in the shape of a loop that tracks the keys seen so
   * far and maps each newly keyed element through `f`.
   */
  lemma FirstByKeyStep<T, K, V>(xs: seq<T>, i: nat, key: T -> K, f: T -> V)
    requires i < |xs|
    ensures MapSeq(xs[..i + 1], key) == MapSeq(xs[..i], key) + [key(xs[i])]
    ensures MapSeq(FirstByKey(xs[..i + 1], key), f)
         == if key(xs[i]) in MapSeq(xs[..i], key) then MapSeq(FirstByKey(xs[..i], key), f)
            else MapSeq(FirstByKey(xs[..i], key), f) + [f(xs[i])]
  {
    assert xs[..i + 1] == xs[..i] + [xs[i]];
    FirstByKeySnoc(xs[..i], xs[i], key);
    MapSeqSnoc(xs[..i], xs[i], key);
    MapSeqSnoc(FirstByKey(xs[..i], key), xs[i], f);
  }

  /** Every element kept by `FirstByKey` is the first element of `xs` carrying its key. */
  lemma {:induction false} FirstByKeyFirst<T, K>(xs: seq<T>, key: T -> K, j: nat)
    requires j < |FirstByKey(xs, key)|
    ensures exists i :: 0 <= i < |xs| && FirstByKey(xs, key)[j] == xs[i] && key(xs[i]) !in MapSeq(xs[..i], key)
  {
    var pre := xs[..|xs| - 1];
    var p := FirstByKey(pre, key);
    if j < |p| {
      FirstByKeyFirst(pre, key, j);
      var i :| 0 <= i < |pre| && p[j] == pre[i] && key(pre[i]) !in MapSeq(pre[..i], key);
      assert pre[..i] == xs[..i];
      assert FirstByKey(xs, key)[j] == xs[i];
    } else {
      assert xs[..|xs| - 1] == pre;
    }
  }

  /** Python's `"\n".join(xs)`. */
  function JoinLines(xs: seq<string>): string
  {
    if xs == [] then ""
    else if |xs| == 1 then xs[0]
    else JoinLines(xs[..|xs| - 1]) + "\n" + xs[|xs| - 1]
  }
}
