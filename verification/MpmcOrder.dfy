/** What one consumer gets from one producer comes in the order of that producer's calls. */
module MpmcOrder {
  import opened Words
  import opened Mpmc
  import opened MpmcRuns
  import opened Order

  /** The values thread x has called enqueue with, in order. */
  ghost function CallsOf<V>(es: seq<Event<V>>, x: nat): seq<V> {
    if es == [] then [] else CallOf(es[0], x) + CallsOf(es[1..], x)
  }

  ghost function CallOf<V>(e: Event<V>, x: nat): seq<V> {
    if e.CallEnqueue? && e.x == x then [e.v] else []
  }

  /** The value a call of enqueue has still to claim a ticket for. */
  ghost function Pending<V>(l: Loc<V>): seq<V> {
    if l.EnqLoad? || l.EnqCheck? || l.EnqCas? then [l.v] else []
  }

  ghost predicate InOrder<V>(s: State<V>, x: nat, asked: seq<V>) {
    x < |s.locs| && Placed(s.ring.put, s.ring.putBy, Pending(s.locs[x]), x, asked)
  }

  lemma StepInOrder<V>(s: State<V>, e: Event<V>, x: nat, asked: seq<V>)
    requires s.Shaped() && Enabled(s, e) && InOrder(s, x, asked)
    ensures InOrder(Step(Unbounded, s, e), x, asked + CallOf(e, x))
  {
    var s', r, p := Step(Unbounded, s, e), s.ring, Pending(s.locs[x]);
    assert asked + [] == asked;
    if e.Run? && s.locs[e.x].EnqCas? && s.locs[e.x].pos == r.enq {
      Enters(r.put, r.putBy, s.locs[e.x].v, e.x, p, Pending(s'.locs[x]), x, asked);
    } else if e.CallEnqueue? && e.x == x {
      Asks(r.put, r.putBy, x, e.v, asked);
    } else {
      assert s'.ring.put == r.put && s'.ring.putBy == r.putBy;
      GivesUp(r.put, r.putBy, p, x, asked);
      assert Pending(s'.locs[x]) == p || Pending(s'.locs[x]) == [];
    }
  }

  lemma {:induction false} RunInOrder<V>(s: State<V>, es: seq<Event<V>>, x: nat, asked: seq<V>)
    requires Allowed(Unbounded, s, es) && InOrder(s, x, asked)
    ensures InOrder(Exec(Unbounded, s, es), x, asked + CallsOf(es, x))
    decreases |es|
  {
    if es == [] {
      assert asked + [] == asked;
    } else {
      StepInOrder(s, es[0], x, asked);
      RunInOrder(Step(Unbounded, s, es[0]), es[1..], x, asked + CallOf(es[0], x));
      Associate(asked, CallOf(es[0], x), CallsOf(es[1..], x));
    }
  }

  predicate FromTo<V>(r: Ring<V>, got: Taken<V>, x: nat, c: nat) {
    got.thread == c && got.ticket < |r.putBy| && r.putBy[got.ticket] == x
  }

  /** What consumer c got back of producer x, in order of return: the tickets and the values. */
  function TicketsOf<V>(r: Ring<V>, k: nat, x: nat, c: nat): seq<nat>
    requires k <= |r.results|
  {
    if k == 0 then []
    else TicketsOf(r, k - 1, x, c) + if FromTo(r, r.results[k - 1], x, c) then [r.results[k - 1].ticket] else []
  }

  function ValuesOf<V>(r: Ring<V>, k: nat, x: nat, c: nat): seq<V>
    requires k <= |r.results|
  {
    if k == 0 then []
    else ValuesOf(r, k - 1, x, c) + if FromTo(r, r.results[k - 1], x, c) then [r.results[k - 1].value] else []
  }

  /** The i-th of these tickets is the ticket of a result among the first k. */
  lemma {:induction false} TicketSource<V>(r: Ring<V>, k: nat, x: nat, c: nat, i: nat) returns (j: nat)
    requires k <= |r.results| && i < |TicketsOf(r, k, x, c)|
    ensures j < k && FromTo(r, r.results[j], x, c) && r.results[j].ticket == TicketsOf(r, k, x, c)[i]
  {
    if i < |TicketsOf(r, k - 1, x, c)| {
      j := TicketSource(r, k - 1, x, c, i);
    } else {
      j := k - 1;
    }
  }

  lemma TicketsBelow<V>(r: Ring<V>, k: nat, x: nat, c: nat)
    requires Counts(r) && k <= |r.results|
    ensures var ts := TicketsOf(r, k, x, c);
            Below(ts, |r.put|) && forall i :: 0 <= i < |ts| ==> r.putBy[ts[i]] == x
  {
    var ts := TicketsOf(r, k, x, c);
    forall i | 0 <= i < |ts| ensures ts[i] < |r.put| && r.putBy[ts[i]] == x {
      var j := TicketSource(r, k, x, c, i);
    }
  }

  lemma {:induction false} TicketsIncrease<V>(r: Ring<V>, k: nat, x: nat, c: nat)
    requires r.Shaped() && ResultsInv(r) && k <= |r.results|
    ensures Increasing(TicketsOf(r, k, x, c))
  {
    if k > 0 {
      TicketsIncrease(r, k - 1, x, c);
      var ts, got := TicketsOf(r, k - 1, x, c), r.results[k - 1];
      if got.thread == c {
        forall i | 0 <= i < |ts| ensures ts[i] < got.ticket {
          var j := TicketSource(r, k - 1, x, c, i);
        }
      }
    }
  }

  /** The values are the ones enqueued under the tickets. */
  lemma {:induction false} ValuesArePicked<V>(r: Ring<V>, k: nat, x: nat, c: nat)
    requires r.Shaped() && Counts(r) && ResultsInv(r) && k <= |r.results|
    ensures Below(TicketsOf(r, k, x, c), |r.put|) && ValuesOf(r, k, x, c) == Pick(r.put, TicketsOf(r, k, x, c))
  {
    TicketsBelow(r, k, x, c);
    if k > 0 {
      ValuesArePicked(r, k - 1, x, c);
      var ts, got := TicketsOf(r, k - 1, x, c), r.results[k - 1];
      if FromTo(r, got, x, c) {
        assert ResultInv(r, k - 1);
        assert (ts + [got.ticket])[..|ts|] == ts;
      } else {
        assert TicketsOf(r, k, x, c) == ts && ValuesOf(r, k, x, c) == ValuesOf(r, k - 1, x, c);
      }
    }
  }

  /** Over every interleaving, what consumer c gets back of what producer x enqueued is, in
      order, some of what x called enqueue with. */
  lemma ProducersInOrder<V>(n: nat, threads: nat, es: seq<Event<V>>, x: nat, c: nat)
    requires n >= 2 && Allowed(Unbounded, Initial<V>(n, threads), es) && x < threads
    ensures var r := Exec(Unbounded, Initial<V>(n, threads), es).ring;
            && |r.put| == |r.putBy|
            && Subseq(Of(r.put, r.putBy, x), CallsOf(es, x))
            && Subseq(ValuesOf(r, |r.results|, x, c), CallsOf(es, x))
  {
    var s0 := Initial<V>(n, threads);
    InitialInv<V>(n, threads);
    RunKeepsInvariant(s0, es);
    var r, calls := Exec(Unbounded, s0, es).ring, CallsOf(es, x);
    assert Placed<V>([], [], [], x, []);
    RunInOrder(s0, es, x, []);
    assert [] + calls == calls;
    GivesUp(r.put, r.putBy, Pending(Exec(Unbounded, s0, es).locs[x]), x, calls);
    assert Of(r.put, r.putBy, x) + [] == Of(r.put, r.putBy, x);
    TicketsBelow(r, |r.results|, x, c);
    TicketsIncrease(r, |r.results|, x, c);
    ValuesArePicked(r, |r.results|, x, c);
    PickSubseq(r.put, r.putBy, TicketsOf(r, |r.results|, x, c), x);
    SubseqTrans(ValuesOf(r, |r.results|, x, c), Of(r.put, r.putBy, x), calls);
  }
}
