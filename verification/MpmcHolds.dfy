/** What the cells of the queue hold: the unclaimed records and nothing else, so that no record
    outlives its taking. */
module MpmcHolds {
  import opened Common
  import opened Words
  import opened Mpmc
  import opened MpmcRuns

  /** A cell that is free for its ticket holds no value until that ticket's claimer has
      written one. */
  ghost predicate CleanCell<V>(r: Ring<V>, locs: seq<Loc<V>>, i: nat)
    requires r.Shaped() && i < r.n
  {
    var t, c := r.ticket[i], r.cells[i];
    c.sq == t && c.val.Some? ==> t < r.enq && t < |r.putBy| && r.putBy[t] < |locs| && locs[r.putBy[t]].EnqPublish?
  }

  /** A taker about to store the sequence has emptied its cell. */
  ghost predicate CleanLoc<V>(r: Ring<V>, l: Loc<V>)
    requires r.Shaped()
  {
    l.DeqRelease? ==> r.cells[l.pos % r.n].val.None?
  }

  ghost predicate Clean<V>(s: State<V>)
    requires s.Shaped()
  {
    && (forall i: nat :: i < s.ring.n ==> CleanCell(s.ring, s.locs, i))
    && (forall x: nat :: x < |s.locs| ==> CleanLoc(s.ring, s.locs[x]))
  }

  lemma InitialClean<V>(n: nat, threads: nat)
    requires n >= 2
    ensures Clean(Initial<V>(n, threads))
  {
    var s := Initial<V>(n, threads);
    forall i: nat | i < n ensures CleanCell(s.ring, s.locs, i) { assert s.ring.cells[i] == Cell(i, None); }
  }

  /** Thread x moves without touching a cell. */
  lemma MovesClean<V>(s: State<V>, s': State<V>, x: nat)
    requires Inv(s) && Clean(s) && x < |s.locs| == |s'.locs| && s'.locs == s.locs[x := s'.locs[x]]
    requires !s.locs[x].EnqPublish? && !s'.locs[x].DeqRelease?
    requires var r, r' := s.ring, s'.ring;
             r'.n == r.n && r'.cells == r.cells && r'.ticket == r.ticket && r.enq <= r'.enq && r.putBy <= r'.putBy
    ensures s'.Shaped() && Clean(s')
  {
    forall i: nat | i < s.ring.n ensures CleanCell(s'.ring, s'.locs, i) { assert CleanCell(s.ring, s.locs, i); }
    forall y: nat | y < |s.locs| ensures CleanLoc(s'.ring, s'.locs[y]) { assert CleanLoc(s.ring, s.locs[y]); }
  }

  lemma WriteClean<V>(s: State<V>, x: nat)
    requires Inv(s) && Clean(s) && x < |s.locs| && s.locs[x].EnqWrite?
    ensures Clean(Step(Unbounded, s, Run(x)))
  {
    var s' := Step(Unbounded, s, Run(x));
    assert LocInv(s.ring, x, s.locs[x]);
    forall i: nat | i < s.ring.n ensures CleanCell(s'.ring, s'.locs, i) { assert CleanCell(s.ring, s.locs, i); }
    forall y: nat | y < |s.locs| ensures CleanLoc(s'.ring, s'.locs[y]) {
      assert CleanLoc(s.ring, s.locs[y]) && LocInv(s.ring, y, s.locs[y]);
    }
  }

  lemma PublishClean<V>(s: State<V>, x: nat)
    requires Inv(s) && Clean(s) && x < |s.locs| && s.locs[x].EnqPublish?
    ensures Clean(Step(Unbounded, s, Run(x)))
  {
    var s' := Step(Unbounded, s, Run(x));
    assert LocInv(s.ring, x, s.locs[x]);
    forall i: nat | i < s.ring.n ensures CleanCell(s'.ring, s'.locs, i) {
      assert CleanCell(s.ring, s.locs, i) && CellInv(s.ring, s.locs, i);
    }
    forall y: nat | y < |s.locs| ensures CleanLoc(s'.ring, s'.locs[y]) { assert CleanLoc(s.ring, s.locs[y]); }
  }

  lemma ClearClean<V>(s: State<V>, x: nat)
    requires Inv(s) && Clean(s) && x < |s.locs| && s.locs[x].DeqClear?
    ensures Clean(Step(Unbounded, s, Run(x)))
  {
    var s' := Step(Unbounded, s, Run(x));
    forall i: nat | i < s.ring.n ensures CleanCell(s'.ring, s'.locs, i) { assert CleanCell(s.ring, s.locs, i); }
    forall y: nat | y < |s.locs| ensures CleanLoc(s'.ring, s'.locs[y]) { assert CleanLoc(s.ring, s.locs[y]); }
  }

  lemma ReleaseClean<V>(s: State<V>, x: nat)
    requires Inv(s) && Clean(s) && x < |s.locs| && s.locs[x].DeqRelease?
    ensures Clean(Step(Unbounded, s, Run(x)))
  {
    var s' := Step(Unbounded, s, Run(x));
    assert LocInv(s.ring, x, s.locs[x]) && CleanLoc(s.ring, s.locs[x]);
    forall i: nat | i < s.ring.n ensures CleanCell(s'.ring, s'.locs, i) { assert CleanCell(s.ring, s.locs, i); }
    forall y: nat | y < |s.locs| ensures CleanLoc(s'.ring, s'.locs[y]) { assert CleanLoc(s.ring, s.locs[y]); }
  }

  lemma StepKeepsClean<V>(s: State<V>, e: Event<V>)
    requires Inv(s) && Clean(s) && Enabled(s, e)
    ensures Clean(Step(Unbounded, s, e))
  {
    var s', l := Step(Unbounded, s, e), s.locs[e.x];
    if e.Run? && l.EnqWrite? {
      WriteClean(s, e.x);
    } else if e.Run? && l.EnqPublish? {
      PublishClean(s, e.x);
    } else if e.Run? && l.DeqClear? {
      ClearClean(s, e.x);
    } else if e.Run? && l.DeqRelease? {
      ReleaseClean(s, e.x);
    } else {
      MovesClean(s, s', e.x);
    }
  }

  lemma {:induction false} RunKeepsClean<V>(s: State<V>, es: seq<Event<V>>)
    requires Inv(s) && Clean(s) && Allowed(Unbounded, s, es)
    ensures Inv(Exec(Unbounded, s, es)) && Clean(Exec(Unbounded, s, es))
    decreases |es|
  {
    if es != [] {
      StepKeepsInv(s, es[0]);
      StepKeepsClean(s, es[0]);
      RunKeepsClean(Step(Unbounded, s, es[0]), es[1..]);
    }
  }

  ghost predicate NobodyOwns<V>(s: State<V>) {
    forall x: nat :: x < |s.locs| ==> !s.locs[x].Owning()
  }

  /** When no operation holds a ticket, the cells hold the unclaimed records, each in its own,
      and nothing else. */
  lemma CellsHold<V>(s: State<V>, i: nat)
    requires Inv(s) && Clean(s) && i < s.ring.n && NobodyOwns(s)
    ensures var r := s.ring; var t := r.ticket[i];
            && t % r.n == i
            && r.cells[i].val == if r.deq <= t < r.enq then Some(r.put[t]) else None
  {
    assert CellInv(s.ring, s.locs, i) && CleanCell(s.ring, s.locs, i);
  }

  /** In every run: a record that has been taken, its taker being done, is no longer in the
      ring, and one that has not been is. */
  lemma NothingRetained<V>(n: nat, threads: nat, es: seq<Event<V>>, i: nat)
    requires n >= 2 && Allowed(Unbounded, Initial<V>(n, threads), es) && i < n
    requires NobodyOwns(Exec(Unbounded, Initial<V>(n, threads), es))
    ensures var r := Exec(Unbounded, Initial<V>(n, threads), es).ring;
            && r.Shaped() && r.n == n && Counts(r) && r.ticket[i] % n == i
            && r.cells[i].val == if r.deq <= r.ticket[i] < r.enq then Some(r.put[r.ticket[i]]) else None
  {
    var s0 := Initial<V>(n, threads);
    InitialInv<V>(n, threads);
    InitialClean<V>(n, threads);
    RunKeepsInvariant(s0, es);
    RunKeepsClean(s0, es);
    CellsHold(Exec(Unbounded, s0, es), i);
  }
}
