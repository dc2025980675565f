/** Subsequences, and the part of a sequence that one producer contributed. */
module Order {
  import F = BoundedFifo

  /** a is b with some elements left out. */
  predicate Subseq<V(==)>(a: seq<V>, b: seq<V>)
    decreases |b|
  {
    a == [] ||
    (b != [] &&
     var (i, j) := (|a| - 1, |b| - 1);
     Subseq(a, b[..j]) || (a[i] == b[j] && Subseq(a[..i], b[..j])))
  }

  lemma SubseqMore<V>(a: seq<V>, b: seq<V>, v: V)
    requires Subseq(a, b)
    ensures Subseq(a, b + [v])
  {
    assert (b + [v])[..|b|] == b;
  }

  lemma SubseqBoth<V>(a: seq<V>, b: seq<V>, v: V)
    requires Subseq(a, b)
    ensures Subseq(a + [v], b + [v])
  {
    assert (b + [v])[..|b|] == b && (a + [v])[..|a|] == a;
  }

  lemma {:induction false} SubseqLess<V>(a: seq<V>, v: V, b: seq<V>)
    requires Subseq(a + [v], b)
    ensures Subseq(a, b)
    decreases |b|
  {
    var j := |b| - 1;
    if Subseq(a + [v], b[..j]) {
      SubseqLess(a, v, b[..j]);
    } else {
      assert (a + [v])[..|a|] == a;
    }
    SubseqMore(a, b[..j], b[j]);
    assert b[..j] + [b[j]] == b;
  }

  lemma {:induction false} SubseqSelf<V>(a: seq<V>)
    ensures Subseq(a, a)
  {
    if a != [] { SubseqSelf(a[..|a| - 1]); }
  }

  lemma {:induction false} SubseqTrans<V>(a: seq<V>, b: seq<V>, c: seq<V>)
    requires Subseq(a, b) && Subseq(b, c)
    ensures Subseq(a, c)
    decreases |b| + |c|
  {
    if a != [] {
      var i, j, k := |a| - 1, |b| - 1, |c| - 1;
      if Subseq(b, c[..k]) {
        SubseqTrans(a, b, c[..k]);
      } else if Subseq(a, b[..j]) {
        SubseqTrans(a, b[..j], c[..k]);
      } else {
        SubseqTrans(a[..i], b[..j], c[..k]);
      }
    }
  }

  lemma {:induction false} PrefixIsSubseq<V>(a: seq<V>, b: seq<V>)
    requires a <= b
    ensures Subseq(a, b)
    decreases |b|
  {
    if a == b {
      SubseqSelf(a);
    } else {
      PrefixIsSubseq(a, b[..|b| - 1]);
    }
  }

  lemma Associate<V>(a: seq<V>, b: seq<V>, c: seq<V>)
    ensures (a + b) + c == a + (b + c)
  {
  }

  /** What x contributed to vs, when vs[k] came from `from[k]`. */
  function Of<V>(vs: seq<V>, from: seq<nat>, x: nat): seq<V>
    requires |vs| == |from|
  {
    if vs == [] then []
    else
      var k := |vs| - 1;
      Of(vs[..k], from[..k], x) + (if from[k] == x then [vs[k]] else [])
  }

  lemma OfSnoc<V>(vs: seq<V>, from: seq<nat>, x: nat, v: V, y: nat)
    requires |vs| == |from|
    ensures Of(vs + [v], from + [y], x) == Of(vs, from, x) + (if y == x then [v] else [])
  {
    assert (vs + [v])[..|vs|] == vs && (from + [y])[..|from|] == from;
  }

  lemma {:induction false} OfPrefix<V>(vs: seq<V>, from: seq<nat>, n: nat, x: nat)
    requires |vs| == |from| && n <= |vs|
    ensures Of(vs[..n], from[..n], x) <= Of(vs, from, x)
    decreases |vs|
  {
    if n < |vs| {
      var k := |vs| - 1;
      OfPrefix(vs[..k], from[..k], n, x);
      assert vs[..k][..n] == vs[..n] && from[..k][..n] == from[..n];
    } else {
      assert vs[..n] == vs && from[..n] == from;
    }
  }

  lemma {:induction false} SameDelivered<V>(entered: seq<V>, from: seq<nat>, fates: seq<F.Fate>)
    requires |fates| <= |entered| == |from|
    ensures |F.DeliveredOf(entered, fates)| == |F.DeliveredOf(from, fates)|
  {
    if fates != [] { SameDelivered(entered, from, fates[..|fates| - 1]); }
  }

  /** Delivery keeps each producer's order. */
  lemma {:induction false} DeliveredOrder<V>(entered: seq<V>, from: seq<nat>, fates: seq<F.Fate>, x: nat)
    requires |fates| <= |entered| == |from|
    ensures |F.DeliveredOf(entered, fates)| == |F.DeliveredOf(from, fates)|
    ensures Subseq(Of(F.DeliveredOf(entered, fates), F.DeliveredOf(from, fates), x),
                   Of(entered[..|fates|], from[..|fates|], x))
  {
    SameDelivered(entered, from, fates);
    if fates != [] {
      var k := |fates| - 1;
      var ds, dfrom := F.DeliveredOf(entered, fates[..k]), F.DeliveredOf(from, fates[..k]);
      SameDelivered(entered, from, fates[..k]);
      DeliveredOrder(entered, from, fates[..k], x);
      var a, b := Of(ds, dfrom, x), Of(entered[..k], from[..k], x);
      assert entered[..k + 1] == entered[..k] + [entered[k]] && from[..k + 1] == from[..k] + [from[k]];
      OfSnoc(entered[..k], from[..k], x, entered[k], from[k]);
      OneMore(a, b, entered[k], fates[k].Delivered?, from[k] == x);
      if fates[k].Delivered? {
        OfSnoc(ds, dfrom, x, entered[k], from[k]);
      } else {
        assert F.DeliveredOf(entered, fates) == ds && F.DeliveredOf(from, fates) == dfrom;
        assert a + [] == a;
      }
    }
  }

  lemma OneMore<V>(a: seq<V>, b: seq<V>, v: V, delivered: bool, mine: bool)
    requires Subseq(a, b)
    ensures Subseq(a + (if delivered && mine then [v] else []), b + (if mine then [v] else []))
  {
    assert a + [] == a && b + [] == b;
    SubseqMore(a, b, v);
    SubseqBoth(a, b, v);
  }

  /** The first m delivered records, producer by producer, are subsequences of what each
      producer was asked to deliver, if what entered was. */
  lemma DeliveredInOrder<V>(entered: seq<V>, from: seq<nat>, fates: seq<F.Fate>, m: nat, x: nat, asked: seq<V>)
    requires |fates| <= |entered| == |from| && m <= |F.DeliveredOf(entered, fates)|
    requires Subseq(Of(entered, from, x), asked)
    ensures |F.DeliveredOf(entered, fates)| == |F.DeliveredOf(from, fates)|
    ensures Subseq(Of(F.DeliveredOf(entered, fates)[..m], F.DeliveredOf(from, fates)[..m], x), asked)
  {
    DeliveredOrder(entered, from, fates, x);
    var ds, dfrom := F.DeliveredOf(entered, fates), F.DeliveredOf(from, fates);
    var part, whole := Of(ds[..m], dfrom[..m], x), Of(ds, dfrom, x);
    var left, all := Of(entered[..|fates|], from[..|fates|], x), Of(entered, from, x);
    OfPrefix(ds, dfrom, m, x);
    PrefixIsSubseq(part, whole);
    SubseqTrans(part, whole, left);
    OfPrefix(entered, from, |fates|, x);
    PrefixIsSubseq(left, all);
    SubseqTrans(part, left, all);
    SubseqTrans(part, all, asked);
  }

  // ----- picking by index -----

  ghost predicate Increasing(ts: seq<nat>) {
    forall i, j :: 0 <= i < j < |ts| ==> ts[i] < ts[j]
  }

  ghost predicate Below(ts: seq<nat>, n: nat) {
    forall i :: 0 <= i < |ts| ==> ts[i] < n
  }

  function Pick<V>(vs: seq<V>, ts: seq<nat>): seq<V>
    requires forall i :: 0 <= i < |ts| ==> ts[i] < |vs|
  {
    if ts == [] then [] else Pick(vs, ts[..|ts| - 1]) + [vs[ts[|ts| - 1]]]
  }

  lemma {:induction false} PickInit<V>(vs: seq<V>, n: nat, ts: seq<nat>)
    requires n <= |vs| && Below(ts, n)
    ensures Pick(vs[..n], ts) == Pick(vs, ts)
  {
    if ts != [] { PickInit(vs, n, ts[..|ts| - 1]); }
  }

  /** Picking x's elements at increasing indices keeps their order. */
  lemma {:induction false} PickSubseq<V>(vs: seq<V>, from: seq<nat>, ts: seq<nat>, x: nat)
    requires |vs| == |from| && Below(ts, |vs|) && Increasing(ts)
    requires forall i :: 0 <= i < |ts| ==> from[ts[i]] == x
    ensures Subseq(Pick(vs, ts), Of(vs, from, x))
    decreases |vs|
  {
    if ts != [] {
      var k := |ts| - 1;
      assert ts[k] < |vs|;
      var n := |vs| - 1;
      var mine := Of(vs[..n], from[..n], x);
      if ts[k] == n {
        PickSubseq(vs[..n], from[..n], ts[..k], x);
        PickInit(vs, n, ts[..k]);
        SubseqBoth(Pick(vs, ts[..k]), mine, vs[n]);
      } else {
        PickSubseq(vs[..n], from[..n], ts, x);
        PickInit(vs, n, ts);
        SubseqMore(Pick(vs, ts), mine, vs[n]);
        assert mine + [] == mine;
      }
    }
  }

  // ----- producers of a queue -----

  /** What x has put into the queue, and the record p it may still put, is some of what it
      was asked to, in order. */
  ghost predicate Placed<V>(entered: seq<V>, from: seq<nat>, p: seq<V>, x: nat, asked: seq<V>) {
    |entered| == |from| && |p| <= 1 && Subseq(Of(entered, from, x) + p, asked)
  }

  lemma Asks<V>(entered: seq<V>, from: seq<nat>, x: nat, v: V, asked: seq<V>)
    requires Placed(entered, from, [], x, asked)
    ensures Placed(entered, from, [v], x, asked + [v])
  {
    assert Of(entered, from, x) + [] == Of(entered, from, x);
    SubseqBoth(Of(entered, from, x), asked, v);
  }

  lemma GivesUp<V>(entered: seq<V>, from: seq<nat>, p: seq<V>, x: nat, asked: seq<V>)
    requires Placed(entered, from, p, x, asked)
    ensures Placed(entered, from, [], x, asked)
  {
    var mine := Of(entered, from, x);
    assert mine + [] == mine;
    if p != [] {
      assert p == [p[0]];
      SubseqLess(mine, p[0], asked);
    }
  }

  /** y puts c into the queue. */
  lemma Enters<V>(entered: seq<V>, from: seq<nat>, c: V, y: nat, p: seq<V>, p': seq<V>, x: nat, asked: seq<V>)
    requires Placed(entered, from, p, x, asked)
    requires if x == y then p == [c] && p' == [] else p' == p
    ensures Placed(entered + [c], from + [y], p', x, asked)
  {
    OfSnoc(entered, from, x, c, y);
    var mine := Of(entered, from, x);
    assert (mine + [c]) + [] == mine + [c] && mine + [] == mine;
  }

  /** What x has put into the queue, and what of that has been emitted, is in the order in
      which x was asked to. */
  ghost predicate ProducerOrder<V>(entered: seq<V>, from: seq<nat>, fates: seq<F.Fate>, emitted: seq<V>,
                                   x: nat, asked: seq<V>) {
    && |fates| <= |entered| == |from|
    && Subseq(Of(entered, from, x), asked)
    && |emitted| <= |F.DeliveredOf(from, fates)|
    && Subseq(Of(emitted, F.DeliveredOf(from, fates)[..|emitted|], x), asked)
  }

  lemma OrderOfEmitted<V>(entered: seq<V>, from: seq<nat>, fates: seq<F.Fate>, emitted: seq<V>,
                          p: seq<V>, x: nat, asked: seq<V>)
    requires |fates| <= |entered| && emitted <= F.DeliveredOf(entered, fates)
    requires Placed(entered, from, p, x, asked)
    ensures ProducerOrder(entered, from, fates, emitted, x, asked)
  {
    GivesUp(entered, from, p, x, asked);
    assert Of(entered, from, x) + [] == Of(entered, from, x);
    DeliveredInOrder(entered, from, fates, |emitted|, x, asked);
    assert F.DeliveredOf(entered, fates)[..|emitted|] == emitted;
  }
}
