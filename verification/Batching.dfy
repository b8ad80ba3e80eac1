/**
  Order-keeping splits of weighted items into batches of bounded size, and why filling
  greedily uses the fewest.
 */
module Batching {
  import opened Prelude

  /** A batch costs a fixed overhead and the weights of its items, and must stay under a maximum. */
  datatype Limit<!T> = Limit(overhead: nat, max: nat, weight: T -> nat)

  function Weight<T>(w: T -> nat, b: seq<T>): nat {
    if b == [] then 0 else Weight(w, b[..|b| - 1]) + w(b[|b| - 1])
  }

  /** A measure that each item raises by its own weight is the overhead plus the weights. */
  lemma {:induction false} AdditiveSize<T>(size: seq<T> -> nat, w: T -> nat, b: seq<T>)
    requires forall a: seq<T>, e: T :: size(a + [e]) == size(a) + w(e)
    ensures size(b) == size([]) + Weight(w, b)
  {
    if b != [] {
      var n := |b| - 1;
      AdditiveSize(size, w, b[..n]);
      assert b == b[..n] + [b[n]];
    }
  }

  predicate Fits<T>(l: Limit<T>, b: seq<T>) {
    l.overhead + Weight(l.weight, b) < l.max
  }

  lemma {:induction false} WeightConcat<T>(w: T -> nat, a: seq<T>, b: seq<T>)
    ensures Weight(w, a + b) == Weight(w, a) + Weight(w, b)
  {
    if b == [] {
      assert a + b == a;
    } else {
      var n := |b| - 1;
      assert (a + b)[..|a| + n] == a + b[..n];
      WeightConcat(w, a, b[..n]);
    }
  }

  /** A stretch of a batch that fits also fits. */
  lemma StretchFits<T>(l: Limit<T>, b: seq<T>, i: nat, j: nat)
    requires i <= j <= |b| && Fits(l, b)
    ensures Fits(l, b[i..j])
  {
    assert b == b[..i] + (b[i..j] + b[j..]);
    WeightConcat(l.weight, b[..i], b[i..j] + b[j..]);
    WeightConcat(l.weight, b[i..j], b[j..]);
  }

  /** Items that fit in a batch of their own, in order. */
  function Kept<T>(l: Limit<T>, es: seq<T>): seq<T> {
    if es == [] then [] else (if Fits(l, [es[0]]) then [es[0]] else []) + Kept(l, es[1..])
  }

  /** Items that reach the maximum alone, in order. */
  function Oversized<T>(l: Limit<T>, es: seq<T>): seq<T> {
    if es == [] then [] else (if Fits(l, [es[0]]) then [] else [es[0]]) + Oversized(l, es[1..])
  }

  predicate AllFit<T>(l: Limit<T>, bs: seq<seq<T>>) {
    forall i | 0 <= i < |bs| :: Fits(l, bs[i])
  }

  predicate NoneEmpty<T(==)>(bs: seq<seq<T>>) {
    forall i | 0 <= i < |bs| :: bs[i] != []
  }

  /** No batch could have taken the first item of the next one. */
  predicate Greedy<T(==)>(l: Limit<T>, bs: seq<seq<T>>) {
    forall i | 0 < i < |bs| :: bs[i] != [] && !Fits(l, bs[i - 1] + [bs[i][0]])
  }

  /**
    Greedy batches covering the tail of what another split covers are no more numerous
    than the batches of that split.
   */
  lemma {:induction false} GreedyStaysAhead<T>(l: Limit<T>, bs: seq<seq<T>>, ahead: seq<T>, ys: seq<seq<T>>)
    requires NoneEmpty(bs) && Greedy(l, bs) && AllFit(l, ys)
    requires Flatten(ys) == ahead + Flatten(bs)
    ensures |bs| <= |ys|
    decreases |bs|
  {
    if bs != [] {
      var b, rest := bs[0], Flatten(bs[1..]);
      assert Flatten(bs) == b + rest;
      assert |Flatten(ys)| > 0;
      var y, more := ys[0], Flatten(ys[1..]);
      assert y + more == ahead + b + rest;
      if |bs| > 1 && |y| > |ahead| + |b| {
        var first := bs[1][0];
        assert rest[0] == first by { assert Flatten(bs[1..]) == bs[1] + Flatten(bs[1..][1..]); }
        var i := |ahead|;
        assert y[i..i + |b| + 1] == (ahead + b + rest)[i..i + |b| + 1] == b + [first];
        StretchFits(l, y, i, i + |b| + 1);
        assert false;
      }
      if |bs| > 1 {
        var ahead' := (ahead + b)[|y|..];
        assert more == (y + more)[|y|..] == (ahead + b + rest)[|y|..] == ahead' + rest;
        forall i | 0 < i < |bs[1..]| ensures bs[1..][i] != [] && !Fits(l, bs[1..][i - 1] + [bs[1..][i][0]]) {
          assert bs[1..][i] == bs[i + 1] && bs[1..][i - 1] == bs[i];
        }
        GreedyStaysAhead(l, bs[1..], ahead', ys[1..]);
      }
    }
  }

  /** Greedy batches are the fewest of any split that keeps the order and the limit. */
  lemma GreedyIsFewest<T>(l: Limit<T>, bs: seq<seq<T>>, ys: seq<seq<T>>)
    requires NoneEmpty(bs) && Greedy(l, bs) && AllFit(l, ys) && Flatten(ys) == Flatten(bs)
    ensures |bs| <= |ys|
  {
    assert Flatten(ys) == [] + Flatten(bs);
    GreedyStaysAhead(l, bs, [], ys);
  }

  // ---------- filling greedily ----------

  /** How many of `es` an open batch takes before the next one would reach the maximum. */
  function Taken<T>(l: Limit<T>, open: seq<T>, es: seq<T>): (n: nat)
    ensures n <= |es|
    decreases |es|
  {
    if es == [] || !Fits(l, open + [es[0]]) then 0 else 1 + Taken(l, open + [es[0]], es[1..])
  }

  /** The batches that filling one after the other produces; an item too large for any is passed over. */
  function Batches<T>(l: Limit<T>, es: seq<T>): seq<seq<T>>
    decreases |es|
  {
    if es == [] then []
    else
      var n := Taken(l, [], es);
      if n == 0 then Batches(l, es[1..]) else [es[..n]] + Batches(l, es[n..])
  }

  lemma {:induction false} TakenShape<T>(l: Limit<T>, open: seq<T>, es: seq<T>)
    ensures var n := Taken(l, open, es);
            && (n > 0 ==> Fits(l, open + es[..n]))
            && (n < |es| ==> !Fits(l, open + es[..n] + [es[n]]))
    decreases |es|
  {
    if es != [] {
      var open' := open + [es[0]];
      if Fits(l, open') {
        TakenShape(l, open', es[1..]);
        var k := Taken(l, open', es[1..]);
        assert open' + es[1..][..k] == open + es[..k + 1];
      } else {
        assert open + es[..0] == open;
      }
    }
  }

  lemma {:induction false} KeptConcat<T>(l: Limit<T>, a: seq<T>, b: seq<T>)
    ensures Kept(l, a + b) == Kept(l, a) + Kept(l, b)
    ensures Oversized(l, a + b) == Oversized(l, a) + Oversized(l, b)
  {
    if a == [] {
      assert a + b == b;
    } else {
      assert (a + b)[1..] == a[1..] + b;
      KeptConcat(l, a[1..], b);
    }
  }

  /** Every item of a batch that fits also fits alone. */
  lemma {:induction false} FittingKept<T>(l: Limit<T>, b: seq<T>)
    requires Fits(l, b)
    ensures Kept(l, b) == b && Oversized(l, b) == []
  {
    if b != [] {
      StretchFits(l, b, 0, 1);
      assert b[0..1] == [b[0]];
      StretchFits(l, b, 1, |b|);
      assert b[1..|b|] == b[1..];
      FittingKept(l, b[1..]);
    }
  }

  /** Batching conserves: each item is in exactly one batch, in order, or is too large for any. */
  lemma {:induction false} BatchesConserve<T>(l: Limit<T>, es: seq<T>)
    ensures Flatten(Batches(l, es)) == Kept(l, es)
    decreases |es|
  {
    if es != [] {
      var n := Taken(l, [], es);
      TakenShape(l, [], es);
      if n == 0 {
        assert [] + es[..0] + [es[0]] == [es[0]];
        BatchesConserve(l, es[1..]);
      } else {
        assert [] + es[..n] == es[..n];
        BatchesConserve(l, es[n..]);
        FittingKept(l, es[..n]);
        KeptConcat(l, es[..n], es[n..]);
        assert es == es[..n] + es[n..];
        assert Batches(l, es)[1..] == Batches(l, es[n..]);
      }
    }
  }

  /** No batch is empty, and every batch stays under the limit. */
  lemma {:induction false} BatchesFit<T>(l: Limit<T>, es: seq<T>)
    ensures NoneEmpty(Batches(l, es)) && AllFit(l, Batches(l, es))
    decreases |es|
  {
    if es != [] {
      var n := Taken(l, [], es);
      TakenShape(l, [], es);
      if n == 0 {
        BatchesFit(l, es[1..]);
      } else {
        assert [] + es[..n] == es[..n];
        BatchesFit(l, es[n..]);
      }
    }
  }

  lemma FirstBatchStarts<T>(l: Limit<T>, es: seq<T>)
    requires es != [] && Oversized(l, es) == []
    ensures Taken(l, [], es) > 0
    ensures Batches(l, es) != [] && Batches(l, es)[0] == es[..Taken(l, [], es)]
  {
    assert [] + [es[0]] == [es[0]];
  }

  lemma {:induction false} BatchesGreedy<T>(l: Limit<T>, es: seq<T>)
    requires Oversized(l, es) == []
    ensures Greedy(l, Batches(l, es))
    decreases |es|
  {
    if es != [] {
      var n := Taken(l, [], es);
      FirstBatchStarts(l, es);
      TakenShape(l, [], es);
      KeptConcat(l, es[..n], es[n..]);
      assert es == es[..n] + es[n..];
      BatchesGreedy(l, es[n..]);
      var bs, more := Batches(l, es), Batches(l, es[n..]);
      assert bs == [es[..n]] + more;
      if n < |es| {
        FirstBatchStarts(l, es[n..]);
        assert more[0][0] == es[n];
        assert [] + es[..n] + [es[n]] == es[..n] + [es[n]];
      }
      forall i | 0 < i < |bs| ensures bs[i] != [] && !Fits(l, bs[i - 1] + [bs[i][0]]) {
        if i > 1 { assert bs[i] == more[i - 1] && bs[i - 1] == more[i - 2]; }
      }
    }
  }

  /** When nothing is oversized, no order-keeping split within the limit has fewer batches. */
  lemma BatchesFewest<T>(l: Limit<T>, es: seq<T>, ys: seq<seq<T>>)
    requires Oversized(l, es) == [] && AllFit(l, ys) && Flatten(ys) == es
    ensures |Batches(l, es)| <= |ys|
  {
    BatchesConserve(l, es);
    BatchesFit(l, es);
    BatchesGreedy(l, es);
    NothingOversized(l, es);
    GreedyIsFewest(l, Batches(l, es), ys);
  }

  lemma {:induction false} NothingOversized<T>(l: Limit<T>, es: seq<T>)
    requires Oversized(l, es) == []
    ensures Kept(l, es) == es
  {
    if es != [] { NothingOversized(l, es[1..]); }
  }

  // ---------- popping from the end ----------

  function Reversed<T>(es: seq<T>): (r: seq<T>)
    ensures |r| == |es|
  {
    if es == [] then [] else [es[|es| - 1]] + Reversed(es[..|es| - 1])
  }

  lemma {:induction false} ReversedAt<T>(es: seq<T>, i: nat)
    requires i < |es|
    ensures Reversed(es)[i] == es[|es| - 1 - i]
  {
    var n := |es| - 1;
    if i > 0 { ReversedAt(es[..n], i - 1); }
  }

  lemma {:induction false} ReversedSame<T>(es: seq<T>)
    ensures multiset(Reversed(es)) == multiset(es)
  {
    if es != [] {
      ReversedSame(es[..|es| - 1]);
      assert es == es[..|es| - 1] + [es[|es| - 1]];
    }
  }

  lemma {:induction false} KeptOrOversized<T>(l: Limit<T>, es: seq<T>)
    ensures multiset(Kept(l, es)) + multiset(Oversized(l, es)) == multiset(es)
  {
    if es != [] {
      KeptOrOversized(l, es[1..]);
      assert es == [es[0]] + es[1..];
    }
  }

  /** Sending a vector conserves it: what is in the batches and what is dropped make up the vector. */
  lemma SendingConserves<T>(l: Limit<T>, es: seq<T>)
    ensures multiset(Flatten(Batches(l, Reversed(es)))) + multiset(Oversized(l, Reversed(es))) == multiset(es)
  {
    ReversedSame(es);
    BatchesConserve(l, Reversed(es));
    KeptOrOversized(l, Reversed(es));
  }
}
