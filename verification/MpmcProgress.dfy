/** A thread that is left alone inside `enqueue` or `dequeue` finishes within a fixed number of
    its own steps, and with the right answer. */
module MpmcProgress {
  import opened Common
  import opened Words
  import opened Mpmc
  import opened MpmcRuns

  /** No other thread holds a ticket. */
  ghost predicate Alone<V>(s: State<V>, x: nat) {
    x < |s.locs| && forall y: nat :: y < |s.locs| && y != x ==> !s.locs[y].Owning()
  }

  /** A stale position is given up at the next sequence load, and the cursor loaded again, once
      the claimer of that ticket has stored its sequence. */
  lemma StaleGivesUp<V>(s: State<V>, x: nat)
    requires Inv(s) && x < |s.locs|
    ensures s.locs[x].EnqCheck? && s.locs[x].pos < s.ring.enq ==>
              var y := s.ring.putBy[s.locs[x].pos];
              (Step(Unbounded, s, Run(x)).locs[x] == EnqLoad(s.locs[x].v)
               <==> !(y < |s.locs| && s.locs[y].Filling(s.locs[x].pos)))
    ensures s.locs[x].DeqCheck? && s.locs[x].pos < s.ring.deq ==>
              var y := s.ring.takenBy[s.locs[x].pos];
              (Step(Unbounded, s, Run(x)).locs[x] == DeqLoad
               <==> !(y < |s.locs| && s.locs[y].Emptying(s.locs[x].pos)))
  {
    StaleRetry(s, x);
    if s.locs[x].EnqCheck? { FullIsHonest(s, x); }
    if s.locs[x].DeqCheck? { EmptyIsHonest(s, x); }
  }

  /** A thread that loses its compare-and-swap looks at the cell again with the position it
      had: after two of its steps it is about to load the cursor exactly when the winner has
      stored its sequence, and otherwise about to compare and swap again. */
  lemma LosesTheSwap<V>(s: State<V>, x: nat)
    requires Inv(s) && x < |s.locs| && (s.locs[x].EnqCas? || s.locs[x].DeqCas?)
    requires s.locs[x].pos < if s.locs[x].EnqCas? then s.ring.enq else s.ring.deq
    ensures var s1, l := Step(Unbounded, s, Run(x)), s.locs[x];
            && Inv(s1) && s1.ring == s.ring && Enabled(s1, Run(x))
            && var s2, y := Step(Unbounded, s1, Run(x)), if l.EnqCas? then s.ring.putBy[l.pos] else s.ring.takenBy[l.pos];
               && s2.ring == s.ring
               && (l.EnqCas? ==> s2.locs[x] == if y < |s.locs| && s.locs[y].Filling(l.pos) then l else EnqLoad(l.v))
               && (l.DeqCas? ==> s2.locs[x] == if y < |s.locs| && s.locs[y].Emptying(l.pos) then l else DeqLoad)
  {
    var s1 := Step(Unbounded, s, Run(x));
    assert LocInv(s.ring, x, s.locs[x]);
    StepKeepsInv(s, Run(x));
    StaleGivesUp(s1, x);
    StaleRetry(s1, x);
  }

  /** How many steps a thread alone has still to take at most. */
  function Rank<V>(r: Ring<V>, l: Loc<V>): nat {
    match l
    case EnqPublish(_, _) => 1
    case EnqWrite(_, _) => 2
    case EnqCas(_, pos) => if pos == r.enq then 3 else 7
    case EnqCheck(_, pos) => if pos == r.enq then 4 else 6
    case EnqLoad(_) => 5
    case DeqRelease(_, _) => 1
    case DeqClear(_, _) => 2
    case DeqRead(_) => 3
    case DeqCas(pos) => if pos == r.deq then 4 else 8
    case DeqCheck(pos) => if pos == r.deq then 5 else 7
    case DeqLoad => 6
    case _ => 0
  }

  /** What becomes of an operation whose thread is left alone: the answer, the values put so
      far, and the number of tickets taken. */
  datatype Fate<V> = Fate(done: Loc<V>, put: seq<V>, deq: nat)

  function FateOf<V>(r: Ring<V>, l: Loc<V>): Fate<V>
    requires Counts(r)
    requires l.DeqRead? ==> l.pos < |r.put|
  {
    match l
    case EnqPublish(_, _) => Fate(EnqDone(true), r.put, r.deq)
    case EnqWrite(_, _) => Fate(EnqDone(true), r.put, r.deq)
    case DeqRelease(_, got) => Fate(DeqDone(true, got), r.put, r.deq)
    case DeqClear(_, got) => Fate(DeqDone(true, got), r.put, r.deq)
    case DeqRead(pos) => Fate(DeqDone(true, Some(r.put[pos])), r.put, r.deq)
    case _ =>
      if l.Enqueuing() then
        if r.enq < r.deq + r.n then Fate(EnqDone(true), r.put + [l.v], r.deq) else Fate(EnqDone(false), r.put, r.deq)
      else if l.Dequeuing() then
        if r.deq < r.enq then Fate(DeqDone(true, Some(r.put[r.deq])), r.put, r.deq + 1)
        else Fate(DeqDone(false, None), r.put, r.deq)
      else Fate(l, r.put, r.deq)
  }

  ghost predicate Known<V>(s: State<V>, x: nat) {
    x < |s.locs| && (s.locs[x].DeqRead? ==> s.locs[x].pos < |s.ring.put|)
  }

  lemma LocKnown<V>(s: State<V>, x: nat)
    requires Inv(s) && x < |s.locs|
    ensures Known(s, x)
  {
    assert LocInv(s.ring, x, s.locs[x]);
  }

  /** A sequence load by a thread alone gives up a stale position, and decides a current one. */
  lemma CheckAlone<V>(s: State<V>, x: nat)
    requires Inv(s) && Alone(s, x) && (s.locs[x].EnqCheck? || s.locs[x].DeqCheck?)
    ensures var s', l := Step(Unbounded, s, Run(x)), s.locs[x];
            && s'.ring == s.ring
            && (l.EnqCheck? && l.pos < s.ring.enq ==> s'.locs[x] == EnqLoad(l.v))
            && (l.EnqCheck? && l.pos == s.ring.enq ==>
                  s'.locs[x] == if s.ring.enq < s.ring.deq + s.ring.n then EnqCas(l.v, l.pos) else EnqDone(false))
            && (l.DeqCheck? && l.pos < s.ring.deq ==> s'.locs[x] == DeqLoad)
            && (l.DeqCheck? && l.pos == s.ring.deq ==>
                  s'.locs[x] == if s.ring.deq < s.ring.enq then DeqCas(l.pos) else DeqDone(false, None))
  {
    var r, l := s.ring, s.locs[x];
    StaleGivesUp(s, x);
    var i := l.pos % r.n;
    assert LocInv(r, x, l);
    assert CellInv(r, s.locs, i);
    SameCellGap(r.ticket[i], l.pos, r.n);
    if l.EnqCheck? { FullIsHonest(s, x); } else { EmptyIsHonest(s, x); }
  }

  lemma StaysAlone<V>(s: State<V>, x: nat)
    requires Inv(s) && Alone(s, x) && Enabled(s, Run(x))
    ensures Alone(Step(Unbounded, s, Run(x)), x) && Inv(Step(Unbounded, s, Run(x)))
  {
    StepKeepsInv(s, Run(x));
  }

  lemma EnqueueAlone<V>(s: State<V>, x: nat)
    requires Inv(s) && Alone(s, x) && s.locs[x].Enqueuing() && Inv(Step(Unbounded, s, Run(x)))
    ensures var s' := Step(Unbounded, s, Run(x));
            && Known(s', x) && Rank(s'.ring, s'.locs[x]) < Rank(s.ring, s.locs[x])
            && FateOf(s'.ring, s'.locs[x]) == FateOf(s.ring, s.locs[x])
  {
    var l := s.locs[x];
    assert LocInv(s.ring, x, l);
    if l.EnqCheck? { CheckAlone(s, x); }
    if l.EnqCas? && l.pos == s.ring.enq { NextPut(s); }
  }

  lemma DequeueAlone<V>(s: State<V>, x: nat)
    requires Inv(s) && Alone(s, x) && s.locs[x].Dequeuing() && Inv(Step(Unbounded, s, Run(x))) && Known(s, x)
    ensures var s' := Step(Unbounded, s, Run(x));
            && Known(s', x) && Rank(s'.ring, s'.locs[x]) < Rank(s.ring, s.locs[x])
            && FateOf(s'.ring, s'.locs[x]) == FateOf(s.ring, s.locs[x])
  {
    var l := s.locs[x];
    assert LocInv(s.ring, x, l);
    if l.DeqCheck? { CheckAlone(s, x); }
    if l.DeqCas? && l.pos == s.ring.deq { NextTake(s); }
    if l.DeqRead? { assert CellInv(s.ring, s.locs, l.pos % s.ring.n); }
  }

  lemma AloneStep<V>(s: State<V>, x: nat)
    requires Inv(s) && Alone(s, x) && Enabled(s, Run(x))
    ensures var s' := Step(Unbounded, s, Run(x));
            && Inv(s') && Alone(s', x) && Known(s, x) && Known(s', x)
            && Rank(s'.ring, s'.locs[x]) < Rank(s.ring, s.locs[x])
            && FateOf(s'.ring, s'.locs[x]) == FateOf(s.ring, s.locs[x])
  {
    StaysAlone(s, x);
    LocKnown(s, x);
    if s.locs[x].Enqueuing() { EnqueueAlone(s, x); } else { DequeueAlone(s, x); }
  }

  ghost predicate OnlyRuns<V>(es: seq<Event<V>>, x: nat) {
    forall i :: 0 <= i < |es| ==> es[i] == Run(x)
  }

  lemma {:induction false} AloneRun<V>(s: State<V>, x: nat, es: seq<Event<V>>)
    requires Inv(s) && Alone(s, x) && OnlyRuns(es, x) && Allowed(Unbounded, s, es)
    ensures var s' := Exec(Unbounded, s, es);
            && Inv(s') && Known(s, x) && Known(s', x)
            && |es| + Rank(s'.ring, s'.locs[x]) <= Rank(s.ring, s.locs[x])
            && FateOf(s'.ring, s'.locs[x]) == FateOf(s.ring, s.locs[x])
    decreases |es|
  {
    LocKnown(s, x);
    if es != [] {
      AloneStep(s, x);
      AloneRun(Step(Unbounded, s, Run(x)), x, es[1..]);
    }
  }

  lemma RankOfRunning<V>(r: Ring<V>, l: Loc<V>)
    ensures l.Running() <==> Rank(r, l) > 0
    ensures l.Enqueuing() ==> Rank(r, l) <= 7
    ensures Rank(r, l) <= 8
  {
  }

  /** A call left alone is over after at most seven of its own steps for `enqueue` and eight for
      `dequeue`, whatever position it had loaded before. `enqueue` then answers "full"
      exactly when n records are unclaimed, and otherwise has put its value last; `dequeue`
      answers "empty" exactly when none is, and otherwise has taken the oldest. */
  lemma AloneFinishes<V>(s: State<V>, x: nat, es: seq<Event<V>>)
    requires Inv(s) && Alone(s, x) && s.locs[x].Running() && OnlyRuns(es, x) && Allowed(Unbounded, s, es)
    ensures |es| <= if s.locs[x].Enqueuing() then 7 else 8
    ensures var s' := Exec(Unbounded, s, es);
            && Known(s, x) && s'.Shaped() && x < |s'.locs|
            && (s'.locs[x].Running() ==> |es| < if s.locs[x].Enqueuing() then 7 else 8)
            && (!s'.locs[x].Running() ==> Fate(s'.locs[x], s'.ring.put, s'.ring.deq) == FateOf(s.ring, s.locs[x]))
  {
    AloneRun(s, x, es);
    var s' := Exec(Unbounded, s, es);
    RankOfRunning(s.ring, s.locs[x]);
    RankOfRunning(s'.ring, s'.locs[x]);
  }

  /** The two answers written out, for a thread that has claimed nothing yet. */
  lemma AloneAnswers<V>(s: State<V>, x: nat, es: seq<Event<V>>)
    requires Inv(s) && Alone(s, x) && s.locs[x].Running() && !s.locs[x].Owning()
    requires OnlyRuns(es, x) && Allowed(Unbounded, s, es)
    ensures var s', r := Exec(Unbounded, s, es), s.ring;
            && s'.Shaped() && x < |s'.locs|
            && (s.locs[x].Enqueuing() && s'.locs[x].EnqDone? ==>
                  && s'.locs[x].ok == (r.enq < r.deq + r.n)
                  && s'.ring.put == r.put + if s'.locs[x].ok then [s.locs[x].v] else [])
            && (s.locs[x].Dequeuing() && s'.locs[x].DeqDone? ==>
                  && s'.locs[x].found == (r.deq < r.enq)
                  && (r.deq < r.enq ==> s'.locs[x].got == Some(r.put[r.deq]) && s'.ring.deq == r.deq + 1))
  {
    AloneFinishes(s, x, es);
    assert s.ring.put + [] == s.ring.put;
  }
}
