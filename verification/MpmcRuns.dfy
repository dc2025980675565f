/** What every run of the lock-free queue guarantees, whatever the interleaving. */
module MpmcRuns {
  import opened Common
  import opened Words
  import opened Mpmc

  /** Every event of `es` can happen when its turn comes. */
  ghost predicate Allowed<V>(a: Arith, s: State<V>, es: seq<Event<V>>)
    decreases |es|
  {
    es == [] || (s.Shaped() && Enabled(s, es[0]) && Allowed(a, Step(a, s, es[0]), es[1..]))
  }

  ghost function Exec<V>(a: Arith, s: State<V>, es: seq<Event<V>>): State<V>
    requires Allowed(a, s, es)
    decreases |es|
  {
    if es == [] then s else Exec(a, Step(a, s, es[0]), es[1..])
  }

  lemma {:induction false} RunKeepsInvariant<V>(s: State<V>, es: seq<Event<V>>)
    requires Inv(s) && Allowed(Unbounded, s, es)
    ensures Inv(Exec(Unbounded, s, es))
    ensures |s.ring.put| <= |Exec(Unbounded, s, es).ring.put| && s.ring.n == Exec(Unbounded, s, es).ring.n
    decreases |es|
  {
    if es != [] {
      StepKeepsInv(s, es[0]);
      RunKeepsInvariant(Step(Unbounded, s, es[0]), es[1..]);
    }
  }

  /** Over every interleaving of any number of threads: the cursors stay within one
      ring of each other, the value returned for a ticket is the value enqueued under
      it, no ticket is returned twice, and the tickets one thread gets back increase,
      so what one consumer sees is in the order of enqueuing. */
  lemma ReturnedValues<V>(n: nat, threads: nat, es: seq<Event<V>>)
    requires n >= 2 && Allowed(Unbounded, Initial<V>(n, threads), es)
    ensures var r := Exec(Unbounded, Initial<V>(n, threads), es).ring;
            && r.deq <= r.enq == |r.put| <= r.deq + n
            && (forall k :: 0 <= k < |r.results| ==>
                  r.results[k].ticket < r.deq && r.results[k].value == r.put[r.results[k].ticket])
            && (forall j, k :: 0 <= j < k < |r.results| ==>
                  && r.results[j].ticket != r.results[k].ticket
                  && (r.results[j].thread == r.results[k].thread ==>
                        r.results[j].ticket < r.results[k].ticket))
  {
    var s0 := Initial<V>(n, threads);
    InitialInv<V>(n, threads);
    RunKeepsInvariant(s0, es);
    var r := Exec(Unbounded, s0, es).ring;
    forall k: nat | k < |r.results|
      ensures r.results[k].ticket < r.deq && r.results[k].value == r.put[r.results[k].ticket]
    {
      assert ResultInv(r, k);
    }
  }

  /** A dequeue that answers "found" hands its caller the value enqueued under the
      ticket it claimed, and that is what `results` records. */
  lemma FoundValue<V>(s: State<V>, x: nat)
    requires Inv(s) && Enabled(s, Run(x))
    requires Step(Unbounded, s, Run(x)).locs[x].DeqDone?
    ensures var l, r := Step(Unbounded, s, Run(x)).locs[x], Step(Unbounded, s, Run(x)).ring;
            if l.found then
              && s.locs[x].DeqRelease? && s.locs[x].pos < |s.ring.put|
              && l.got == Some(s.ring.put[s.locs[x].pos])
              && r.results == s.ring.results + [Taken(x, s.locs[x].pos, s.ring.put[s.locs[x].pos])]
            else
              l.got == None && r == s.ring
  {
    assert LocInv(s.ring, x, s.locs[x]);
  }

  /** Between a successful compare-and-swap and the sequence store, only the claimer
      touches the cell, and nobody else holds that cell. */
  lemma CellIsExclusive<V>(s: State<V>, x: nat, y: nat)
    requires Inv(s) && x < |s.locs| && s.locs[x].Owning()
    requires y != x && Enabled(s, Run(y))
    ensures var i := s.locs[x].pos % s.ring.n;
            && Step(Unbounded, s, Run(y)).ring.cells[i] == s.ring.cells[i]
            && (s.locs[y].Owning() ==> s.locs[y].pos % s.ring.n != i)
  {
    var r := s.ring;
    assert LocInv(r, x, s.locs[x]);
    assert LocInv(r, y, s.locs[y]);
  }

  /** `enqueue` answers "full" exactly when its position is the current one and the
      cell is not back yet: the ring holds n unclaimed records, or the thread that
      claimed the record n tickets earlier has not stored its sequence. */
  lemma FullIsHonest<V>(s: State<V>, x: nat)
    requires Inv(s) && x < |s.locs| && s.locs[x].EnqCheck?
    ensures var r, pos := s.ring, s.locs[x].pos;
            Step(Unbounded, s, Run(x)).locs[x] == EnqDone(false)
            <==>
            && pos == r.enq
            && (|| r.enq == r.deq + r.n
                || (r.n <= r.enq && r.enq - r.n < r.deq
                    && r.takenBy[r.enq - r.n] < |s.locs|
                    && s.locs[r.takenBy[r.enq - r.n]].Emptying(r.enq - r.n)))
  {
    var r, pos := s.ring, s.locs[x].pos;
    var i := pos % r.n;
    assert LocInv(r, x, s.locs[x]);
    assert CellInv(r, s.locs, i);
    SameCellGap(r.ticket[i], pos, r.n);
    if r.n <= pos {
      NextRoundSameCell(pos - r.n, r.n);
      if r.enq - r.n < r.deq && r.takenBy[r.enq - r.n] < |s.locs| {
        var y := r.takenBy[r.enq - r.n];
        assert LocInv(r, y, s.locs[y]);
      }
    }
  }

  /** `dequeue` answers "empty" exactly when its position is the current one and that
      ticket is unclaimed, or claimed by an enqueue that has not published it. */
  lemma EmptyIsHonest<V>(s: State<V>, x: nat)
    requires Inv(s) && x < |s.locs| && s.locs[x].DeqCheck?
    ensures var r, pos := s.ring, s.locs[x].pos;
            Step(Unbounded, s, Run(x)).locs[x] == DeqDone(false, None)
            <==>
            && pos == r.deq
            && (r.enq == r.deq
                || (r.putBy[r.deq] < |s.locs| && s.locs[r.putBy[r.deq]].Filling(r.deq)))
  {
    var r, pos := s.ring, s.locs[x].pos;
    var i := pos % r.n;
    assert LocInv(r, x, s.locs[x]);
    assert CellInv(r, s.locs, i);
    SameCellGap(r.ticket[i], pos, r.n);
    if r.deq < r.enq && r.putBy[r.deq] < |s.locs| {
      assert LocInv(r, r.putBy[r.deq], s.locs[r.putBy[r.deq]]);
    }
  }

  /** A thread whose position is stale goes round the compare-and-swap again exactly
      while the claimer of that ticket has not stored its sequence. */
  lemma StaleRetry<V>(s: State<V>, x: nat)
    requires Inv(s) && x < |s.locs|
    ensures s.locs[x].EnqCheck? && s.locs[x].pos < s.ring.enq ==>
              (Step(Unbounded, s, Run(x)).locs[x].EnqCas? <==>
               var y := s.ring.putBy[s.locs[x].pos]; y < |s.locs| && s.locs[y].Filling(s.locs[x].pos))
    ensures s.locs[x].DeqCheck? && s.locs[x].pos < s.ring.deq ==>
              (Step(Unbounded, s, Run(x)).locs[x].DeqCas? <==>
               var y := s.ring.takenBy[s.locs[x].pos]; y < |s.locs| && s.locs[y].Emptying(s.locs[x].pos))
  {
    var r, l := s.ring, s.locs[x];
    if l.EnqCheck? || l.DeqCheck? {
      var i := l.pos % r.n;
      assert CellInv(r, s.locs, i);
      SameCellGap(r.ticket[i], l.pos, r.n);
      if l.EnqCheck? && l.pos < r.enq && r.putBy[l.pos] < |s.locs| {
        assert LocInv(r, r.putBy[l.pos], s.locs[r.putBy[l.pos]]);
      }
      if l.DeqCheck? && l.pos < r.deq && r.takenBy[l.pos] < |s.locs| {
        assert LocInv(r, r.takenBy[l.pos], s.locs[r.takenBy[l.pos]]);
      }
    }
  }

  // ----- 64-bit words -----

  lemma IndexAgrees(pos: nat, n: nat)
    requires n > 0 && IsPowerOfTwo(n)
    ensures Word64.Index(pos, n) == Unbounded.Index(pos, n)
  {
    var k: nat :| n == Pow2(k);
    MaskIsRemainder(pos, k);
  }

  lemma AddAgrees(a: nat, b: nat)
    requires a + b < TWO64
    ensures Word64.Add(a, b) == Unbounded.Add(a, b)
  {
  }

  /** Nothing a thread adds or compares leaves the signed range. */
  lemma InRange<V>(s: State<V>, x: nat)
    requires Inv(s) && x < |s.locs| && s.locs[x].Running() && !s.locs[x].EnqLoad? && !s.locs[x].DeqLoad?
    requires s.ring.enq + s.ring.n <= TWO63
    ensures s.locs[x].pos <= s.ring.enq
    ensures s.ring.cells[s.locs[x].pos % s.ring.n].sq < TWO63
  {
    assert LocInv(s.ring, x, s.locs[x]);
    assert CellInv(s.ring, s.locs, s.locs[x].pos % s.ring.n);
  }

  lemma WordEnqueueAgrees<V>(s: State<V>, x: nat)
    requires Inv(s) && x < |s.locs| && s.locs[x].Enqueuing()
    requires IsPowerOfTwo(s.ring.n) && s.ring.enq + s.ring.n <= TWO63
    ensures EnqueueStep(Word64, s.ring, x, s.locs[x]) == EnqueueStep(Unbounded, s.ring, x, s.locs[x])
  {
    if !s.locs[x].EnqLoad? {
      InRange(s, x);
      var r, pos := s.ring, s.locs[x].pos;
      IndexAgrees(pos, r.n);
      DifAgrees(r.cells[pos % r.n].sq, pos);
      AddAgrees(pos, 1);
    }
  }

  lemma WordCheckAgrees<V>(s: State<V>, x: nat)
    requires Inv(s) && x < |s.locs| && s.locs[x].DeqCheck?
    requires IsPowerOfTwo(s.ring.n) && s.ring.enq + s.ring.n <= TWO63
    ensures DequeueStep(Word64, s.ring, x, s.locs[x]) == DequeueStep(Unbounded, s.ring, x, s.locs[x])
  {
    InRange(s, x);
    var r, pos := s.ring, s.locs[x].pos;
    IndexAgrees(pos, r.n);
    AddAgrees(pos, 1);
    DifAgrees(r.cells[pos % r.n].sq, pos + 1);
  }

  lemma WordDequeueAgrees<V>(s: State<V>, x: nat)
    requires Inv(s) && x < |s.locs| && s.locs[x].Dequeuing()
    requires IsPowerOfTwo(s.ring.n) && s.ring.enq + s.ring.n <= TWO63
    ensures DequeueStep(Word64, s.ring, x, s.locs[x]) == DequeueStep(Unbounded, s.ring, x, s.locs[x])
  {
    if s.locs[x].DeqCheck? {
      WordCheckAgrees(s, x);
    } else if !s.locs[x].DeqLoad? {
      InRange(s, x);
      var r, pos := s.ring, s.locs[x].pos;
      IndexAgrees(pos, r.n);
      AddAgrees(pos, 1);
      AddAgrees(pos, r.n - 1);
      AddAgrees(pos + r.n - 1, 1);
    }
  }

  /** As long as at most 2^63 - n tickets have been claimed, the masked index and the
      wrapping signed difference take the same branch as unbounded arithmetic. */
  lemma WordStepAgrees<V>(s: State<V>, e: Event<V>)
    requires Inv(s) && Enabled(s, e)
    requires IsPowerOfTwo(s.ring.n) && s.ring.enq + s.ring.n <= TWO63
    ensures Step(Word64, s, e) == Step(Unbounded, s, e)
  {
    if e.Run? {
      if s.locs[e.x].Enqueuing() { WordEnqueueAgrees(s, e.x); } else { WordDequeueAgrees(s, e.x); }
    }
  }

  /** Every 64-bit run that claims at most 2^63 - n tickets is the unbounded run. */
  lemma {:induction false} WordRunAgrees<V>(s: State<V>, es: seq<Event<V>>)
    requires Inv(s) && IsPowerOfTwo(s.ring.n)
    requires Allowed(Word64, s, es) && |Exec(Word64, s, es).ring.put| + s.ring.n <= TWO63
    ensures Allowed(Unbounded, s, es) && Exec(Unbounded, s, es) == Exec(Word64, s, es)
    decreases |es|
  {
    if es != [] {
      PutGrows(s, es);
      WordStepAgrees(s, es[0]);
      StepKeepsInv(s, es[0]);
      WordRunAgrees(Step(Word64, s, es[0]), es[1..]);
    }
  }

  lemma {:induction false} PutGrows<V>(s: State<V>, es: seq<Event<V>>)
    requires Allowed(Word64, s, es)
    ensures |s.ring.put| <= |Exec(Word64, s, es).ring.put|
    decreases |es|
  {
    if es != [] { PutGrows(Step(Word64, s, es[0]), es[1..]); }
  }
}
