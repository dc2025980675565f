/** The queue every asynchronous transport promises to be: bounded, first in first
    out, losing records only to overflow and only as its policy says. */
module BoundedFifo {
  import opened Common

  /** What became of a record that left the queue. */
  datatype Fate = Delivered | Evicted

  /** `entered` are the records accepted so far, in order; `fates[k]` says how
      entered[k] left. The queue is what has entered and not left. `busy` are the
      records that have left while their slot is still being emptied, `owed` the callers
      that found no free slot and have not acted on it yet. */
  datatype Fifo<V> = Fifo(cap: nat, policy: Policy, entered: seq<V>, fates: seq<Fate>, rejected: seq<V>,
                          busy: set<nat>, owed: set<nat>) {
    predicate Valid() {
      && |fates| <= |entered| <= |fates| + cap
      && (!policy.DropOldest? ==> Evicted !in fates)
      && (!policy.DropNewest? ==> rejected == [])
      && (forall k :: k in busy ==> k < |fates|)
    }

    function Queue(): seq<V>
      requires Valid()
    {
      entered[|fates|..]
    }

    /** There is no free slot for the next record. */
    predicate Full() {
      |entered| == |fates| + cap || (|entered| >= cap && |entered| - cap in busy)
    }
  }

  /** A departure may `linger` in its slot until it is freed. SeeFull is a caller finding
      the queue full; Late is that caller evicting, at some later moment; Forget is that
      caller finding nothing to evict. */
  datatype Event<V> =
    | Push(v: V)
    | Pop(linger: bool)
    | Free(k: nat)
    | Reject(v: V)
    | Evict
    | SeeFull(x: nat)
    | Late(x: nat, linger: bool)
    | Forget(x: nat)

  predicate Can<V>(f: Fifo<V>, e: Event<V>)
    requires f.Valid()
  {
    match e
    case Push(_) => !f.Full()
    case Pop(_) => f.Queue() != []
    case Free(k) => k in f.busy
    case Reject(_) => f.policy.DropNewest? && f.Full()
    case Evict => f.policy.DropOldest? && f.Full() && f.Queue() != []
    case SeeFull(_) => f.policy.DropOldest? && f.Full()
    case Late(x, _) => f.policy.DropOldest? && x in f.owed && f.Queue() != []
    case Forget(x) => x in f.owed
  }

  function Leave<V>(f: Fifo<V>, fate: Fate, linger: bool): Fifo<V> {
    f.(fates := f.fates + [fate], busy := if linger then f.busy + {|f.fates|} else f.busy)
  }

  function Apply<V>(f: Fifo<V>, e: Event<V>): Fifo<V> {
    match e
    case Push(v) => f.(entered := f.entered + [v])
    case Pop(linger) => Leave(f, Delivered, linger)
    case Free(k) => f.(busy := f.busy - {k})
    case Reject(v) => f.(rejected := f.rejected + [v])
    case Evict => Leave(f, Evicted, false)
    case SeeFull(x) => f.(owed := f.owed + {x})
    case Late(x, linger) => Leave(f, Evicted, linger).(owed := f.owed - {x})
    case Forget(x) => f.(owed := f.owed - {x})
  }

  /** Every event keeps the queue within its capacity and its policy, adds only at the
      tail and removes only at the head. */
  lemma ApplyKeepsValid<V>(f: Fifo<V>, e: Event<V>)
    requires f.Valid() && Can(f, e)
    ensures Apply(f, e).Valid()
    ensures e.Push? ==> Apply(f, e).Queue() == f.Queue() + [e.v]
    ensures e.Pop? || e.Evict? || e.Late? ==> Apply(f, e).Queue() == f.Queue()[1..]
    ensures e.Free? || e.Reject? || e.SeeFull? || e.Forget? ==> Apply(f, e).Queue() == f.Queue()
  {
  }

  /** Without lingering records a full queue holds as many records as it may. */
  lemma FullMeansCap<V>(f: Fifo<V>)
    requires f.Valid() && f.busy == {}
    ensures f.Full() <==> |f.Queue()| == f.cap
  {
  }

  function Evictions(fates: seq<Fate>): nat {
    if fates == [] then 0
    else Evictions(fates[..|fates| - 1]) + if fates[|fates| - 1].Evicted? then 1 else 0
  }

  /** How many records the queue has given up. */
  function Losses<V>(f: Fifo<V>): nat {
    |f.rejected| + Evictions(f.fates)
  }

  predicate Loses<V>(e: Event<V>) {
    e.Reject? || e.Evict? || e.Late?
  }

  lemma LossesCount<V>(f: Fifo<V>, e: Event<V>)
    ensures Losses(Apply(f, e)) == Losses(f) + if Loses(e) then 1 else 0
  {
    assert (f.fates + [Delivered])[..|f.fates|] == f.fates;
    assert (f.fates + [Evicted])[..|f.fates|] == f.fates;
  }

  // ----- several events -----

  ghost predicate CanAll<V>(f: Fifo<V>, es: seq<Event<V>>)
    decreases |es|
  {
    es == [] || (f.Valid() && Can(f, es[0]) && CanAll(Apply(f, es[0]), es[1..]))
  }

  ghost function ApplyAll<V>(f: Fifo<V>, es: seq<Event<V>>): Fifo<V>
    decreases |es|
  {
    if es == [] then f else ApplyAll(Apply(f, es[0]), es[1..])
  }

  lemma AllOfOne<V>(f: Fifo<V>, e: Event<V>)
    requires f.Valid() && Can(f, e)
    ensures CanAll(f, [e]) && ApplyAll(f, [e]) == Apply(f, e)
  {
    assert [e][1..] == [];
  }

  lemma AllOfTwo<V>(f: Fifo<V>, e: Event<V>, e': Event<V>)
    requires f.Valid() && Can(f, e) && Apply(f, e).Valid() && Can(Apply(f, e), e')
    ensures CanAll(f, [e, e']) && ApplyAll(f, [e, e']) == Apply(Apply(f, e), e')
  {
    assert [e, e'][1..] == [e'];
    AllOfOne(Apply(f, e), e');
  }

  lemma {:induction false} AllKeepsValid<V>(f: Fifo<V>, es: seq<Event<V>>)
    requires f.Valid() && CanAll(f, es)
    ensures ApplyAll(f, es).Valid()
    decreases |es|
  {
    if es != [] {
      ApplyKeepsValid(f, es[0]);
      AllKeepsValid(Apply(f, es[0]), es[1..]);
    }
  }

  function LossCount<V>(es: seq<Event<V>>): nat {
    if es == [] then 0 else (if Loses(es[0]) then 1 else 0) + LossCount(es[1..])
  }

  lemma {:induction false} LossesOfAll<V>(f: Fifo<V>, es: seq<Event<V>>)
    ensures Losses(ApplyAll(f, es)) == Losses(f) + LossCount(es)
    decreases |es|
  {
    if es != [] {
      LossesCount(f, es[0]);
      LossesOfAll(Apply(f, es[0]), es[1..]);
    }
  }

  /** Arrivals less departures. */
  function Balance<V>(es: seq<Event<V>>): int {
    if es == [] then 0
    else (if es[0].Push? then 1 else if es[0].Pop? || es[0].Evict? || es[0].Late? then -1 else 0) + Balance(es[1..])
  }

  lemma {:induction false} BalanceOfAll<V>(f: Fifo<V>, es: seq<Event<V>>)
    requires f.Valid() && CanAll(f, es)
    ensures ApplyAll(f, es).Valid() && |ApplyAll(f, es).Queue()| == |f.Queue()| + Balance(es)
    decreases |es|
  {
    if es != [] {
      ApplyKeepsValid(f, es[0]);
      BalanceOfAll(Apply(f, es[0]), es[1..]);
    }
  }

  lemma LossOfOne<V>(e: Event<V>)
    ensures LossCount([e]) == if Loses(e) then 1 else 0
  {
    assert [e][1..] == [];
  }

  lemma LossOfTwo<V>(e: Event<V>, e': Event<V>)
    ensures LossCount([e, e']) == (if Loses(e) then 1 else 0) + (if Loses(e') then 1 else 0)
  {
    assert [e, e'][1..] == [e'];
    LossOfOne(e');
  }

  lemma {:induction false} AllAppend<V>(f: Fifo<V>, a: seq<Event<V>>, b: seq<Event<V>>)
    requires CanAll(f, a) && CanAll(ApplyAll(f, a), b)
    ensures CanAll(f, a + b) && ApplyAll(f, a + b) == ApplyAll(ApplyAll(f, a), b)
    decreases |a|
  {
    if a == [] {
      assert a + b == b;
    } else {
      AllAppend(Apply(f, a[0]), a[1..], b);
      assert (a + b)[1..] == a[1..] + b;
    }
  }

  /** The event is caller x acting on what it saw. */
  predicate ActsOn<V>(e: Event<V>, x: nat) {
    (e.Late? || e.Forget?) && e.x == x
  }

  /** Caller x found the queue full at i and has not acted on it before j. */
  ghost predicate SawFullAt<V>(es: seq<Event<V>>, x: nat, i: nat, j: nat) {
    i < j <= |es| && es[i] == SeeFull(x) && forall k :: i < k < j ==> !ActsOn(es[k], x)
  }

  /** Every eviction is by a caller that found the queue full before it and has not
      evicted anything for it since: one full queue, at most one loss. */
  lemma {:induction false} LossesAreOwed<V>(f: Fifo<V>, es: seq<Event<V>>, j: nat)
    requires f.owed == {} && CanAll(f, es) && j < |es| && es[j].Late?
    ensures exists i :: SawFullAt(es, es[j].x, i, j)
  {
    var x := es[j].x;
    CanPrefix(f, es, j);
    OwedSaw(f, es[..j], x);
    var i :| SawFullAt(es[..j], x, i, j);
    assert SawFullAt(es, x, i, j);
  }

  lemma {:induction false} CanPrefix<V>(f: Fifo<V>, es: seq<Event<V>>, j: nat)
    requires CanAll(f, es) && j < |es|
    ensures CanAll(f, es[..j]) && ApplyAll(f, es[..j]).Valid() && Can(ApplyAll(f, es[..j]), es[j])
    decreases j
  {
    if j > 0 {
      CanPrefix(Apply(f, es[0]), es[1..], j - 1);
      assert es[..j][1..] == es[1..][..j - 1];
    }
  }

  lemma {:induction false} OwedSaw<V>(f: Fifo<V>, es: seq<Event<V>>, x: nat)
    requires f.owed == {} && CanAll(f, es) && x in ApplyAll(f, es).owed
    ensures exists i :: SawFullAt(es, x, i, |es|)
    decreases |es|
  {
    if es != [] {
      var n := |es| - 1;
      var init, last := es[..n], es[n];
      CanPrefix(f, es, n);
      ApplySnoc(f, es, n);
      if last == SeeFull(x) {
        assert SawFullAt(es, x, n, |es|);
      } else {
        OwedSaw(f, init, x);
        var i :| SawFullAt(init, x, i, n);
        assert SawFullAt(es, x, i, |es|);
      }
    }
  }

  lemma {:induction false} ApplySnoc<V>(f: Fifo<V>, es: seq<Event<V>>, n: nat)
    requires n + 1 == |es|
    ensures ApplyAll(f, es) == Apply(ApplyAll(f, es[..n]), es[n])
    decreases |es|
  {
    if n > 0 {
      ApplySnoc(Apply(f, es[0]), es[1..], n - 1);
      assert es[..n][1..] == es[1..][..n - 1];
    } else {
      assert es[1..] == [] && es[..0] == [];
    }
  }

  // ----- what is delivered -----

  /** The delivered records, in order of entry. */
  function DeliveredOf<V>(entered: seq<V>, fates: seq<Fate>): seq<V>
    requires |fates| <= |entered|
  {
    if fates == [] then []
    else
      var k := |fates| - 1;
      DeliveredOf(entered, fates[..k]) + (if fates[k].Delivered? then [entered[k]] else [])
  }

  /** When nothing is evicted, the delivered records are a prefix of those entered. */
  lemma {:induction false} LosslessPrefix<V>(entered: seq<V>, fates: seq<Fate>)
    requires |fates| <= |entered| && Evicted !in fates
    ensures DeliveredOf(entered, fates) == entered[..|fates|]
  {
    if fates != [] {
      var k := |fates| - 1;
      assert fates[k] in fates;
      LosslessPrefix(entered, fates[..k]);
      assert entered[..k] + [entered[k]] == entered[..k + 1];
    }
  }

  lemma {:induction false} DeliveredIgnoresTail<V>(entered: seq<V>, more: seq<V>, fates: seq<Fate>)
    requires |fates| <= |entered|
    ensures DeliveredOf(entered + more, fates) == DeliveredOf(entered, fates)
  {
    if fates != [] { DeliveredIgnoresTail(entered, more, fates[..|fates| - 1]); }
  }

  lemma DeliveredSnoc<V>(entered: seq<V>, fates: seq<Fate>, f: Fate)
    requires |fates| < |entered|
    ensures DeliveredOf(entered, fates + [f])
         == DeliveredOf(entered, fates) + (if f.Delivered? then [entered[|fates|]] else [])
  {
    assert (fates + [f])[..|fates|] == fates;
  }
}
