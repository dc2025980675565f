/** Whole runs of the lock-free transport. */
module DisruptorRuns {
  import opened Common
  import opened Words
  import opened Mpmc
  import MpmcRuns
  import opened Order
  import opened Sums
  import opened Disruptor
  import opened DisruptorRefines
  import F = BoundedFifo

  // ----- runs -----

  ghost predicate Allowed<V>(s: Disruptor.State<V>, es: seq<Disruptor.Event<V>>)
    decreases |es|
  {
    es == [] || (s.Shaped() && Disruptor.Enabled(s, es[0]) && Allowed(Disruptor.Step(s, es[0]), es[1..]))
  }

  ghost function Exec<V>(s: Disruptor.State<V>, es: seq<Disruptor.Event<V>>): Disruptor.State<V>
    requires Allowed(s, es)
    decreases |es|
  {
    if es == [] then s else Exec(Disruptor.Step(s, es[0]), es[1..])
  }

  /** What a run does to the bounded queue. */
  ghost function Trace<V>(s: Disruptor.State<V>, es: seq<Disruptor.Event<V>>): seq<F.Event<V>>
    requires Allowed(s, es)
    decreases |es|
  {
    if es == [] then [] else Means(s, es[0]) + Trace(Disruptor.Step(s, es[0]), es[1..])
  }

  /** Every run is a run of the bounded queue. */
  lemma {:induction false} RunRefines<V>(s: Disruptor.State<V>, es: seq<Disruptor.Event<V>>)
    requires Disruptor.Inv(s) && Abs(s).Valid() && Allowed(s, es)
    ensures Disruptor.Inv(Exec(s, es)) && Abs(Exec(s, es)).Valid() && Exec(s, es).policy == s.policy
    ensures F.CanAll(Abs(s), Trace(s, es)) && Abs(Exec(s, es)) == F.ApplyAll(Abs(s), Trace(s, es))
    decreases |es|
  {
    if es != [] {
      Disruptor.StepKeepsInv(s, es[0]);
      Refines(s, es[0]);
      RunRefines(Disruptor.Step(s, es[0]), es[1..]);
      F.AllAppend(Abs(s), Means(s, es[0]), Trace(Disruptor.Step(s, es[0]), es[1..]));
    }
  }

  lemma InitialAbs<V>(n: nat, policy: Policy, callers: nat)
    requires n >= 2
    ensures var s := Disruptor.Initial<V>(n, policy, callers);
            Disruptor.Inv(s) && Abs(s).Valid() && Abs(s).owed == {} && Counted(s)
  {
    var s := Disruptor.Initial<V>(n, policy, callers);
    Disruptor.InitialInv<V>(n, policy, callers);
    SumOfNothing(Uncounteds(s));
  }

  // ----- the counter -----

  /** A loss that thread x has still to count. */
  ghost function Uncounted<V>(p: Policy, t: Task<V>, l: Loc<V>): nat {
    if t.CountNewest? || t.CountOldest?
       || (p.DropNewest? && t.Sending? && l == EnqDone(false))
       || (t.Evicting? && (l.DeqRead? || l.DeqClear? || l.DeqRelease? || (l.DeqDone? && l.found)))
    then 1 else 0
  }

  ghost function Uncounteds<V>(s: Disruptor.State<V>): seq<nat>
    requires s.Shaped()
  {
    seq(|s.tasks|, x requires 0 <= x < |s.tasks| => Uncounted(s.policy, s.tasks[x], s.q.locs[x]))
  }

  /** The records the queue has given up are those lost and those about to be counted. */
  ghost predicate Counted<V>(s: Disruptor.State<V>)
    requires s.Shaped()
  {
    F.Losses(Abs(s)) == |s.lost| + Sum(Uncounteds(s))
  }

  lemma OneUncounted<V>(s: Disruptor.State<V>, s': Disruptor.State<V>, x: nat)
    requires s.Shaped() && s'.Shaped() && x < |s.tasks| == |s'.tasks| && s'.policy == s.policy
    requires s'.tasks == s.tasks[x := s'.tasks[x]] && s'.q.locs == s.q.locs[x := s'.q.locs[x]]
    ensures Sum(Uncounteds(s')) + Uncounted(s.policy, s.tasks[x], s.q.locs[x])
         == Sum(Uncounteds(s)) + Uncounted(s.policy, s'.tasks[x], s'.q.locs[x])
  {
    var w := Uncounted(s.policy, s'.tasks[x], s'.q.locs[x]);
    assert Uncounteds(s') == Uncounteds(s)[x := w];
    SumUpdate(Uncounteds(s), x, w);
  }

  ghost predicate Loss<V>(es: seq<F.Event<V>>) {
    es != [] && F.Loses(es[0])
  }

  /** A thread owes the counter one more exactly after a step that loses a record. */
  lemma RunningCounts<V>(s: Disruptor.State<V>, x: nat)
    requires s.Shaped() && x < |s.tasks| && s.q.locs[x].Running()
    requires TaskInv(s.policy, x, s.tasks[x], s.q.locs[x])
    ensures var s' := Disruptor.Step(s, Work(x));
            Uncounted(s.policy, s.tasks[x], s'.q.locs[x])
            == Uncounted(s.policy, s.tasks[x], s.q.locs[x]) + if Loss(Shows(s, x)) then 1 else 0
  {
    match s.q.locs[x] {
      case EnqCheck(v, pos) =>
      case DeqCas(pos) =>
      case DeqRelease(pos, got) =>
      case _ =>
    }
  }

  lemma AfterCounts<V>(s: Disruptor.State<V>, x: nat)
    requires Disruptor.Inv(s) && x < |s.tasks| && !s.q.locs[x].Running() && Disruptor.Enabled(s, Work(x))
    ensures var s' := Disruptor.Step(s, Work(x));
            |s'.lost| + Uncounted(s.policy, s'.tasks[x], s'.q.locs[x])
            == |s.lost| + Uncounted(s.policy, s.tasks[x], s.q.locs[x])
  {
    assert TaskInv(s.policy, x, s.tasks[x], s.q.locs[x]);
    assert LocInv(s.q.ring, x, s.q.locs[x]);
  }

  /** A step changes what is lost or about to be counted by the records the queue gives up. */
  lemma StepUncounted<V>(s: Disruptor.State<V>, e: Disruptor.Event<V>)
    requires Disruptor.Inv(s) && Disruptor.Enabled(s, e)
    ensures var s' := Disruptor.Step(s, e);
            |s'.lost| + Sum(Uncounteds(s')) == |s.lost| + Sum(Uncounteds(s)) + F.LossCount(Means(s, e))
  {
    var s' := Disruptor.Step(s, e);
    if e.Work? {
      WorkUncounted(s, e.x);
    } else if e.Dispatch? {
      OneUncounted(s, s', e.x);
    } else {
      assert Uncounteds(s') == Uncounteds(s);
    }
  }

  lemma WorkUncounted<V>(s: Disruptor.State<V>, x: nat)
    requires Disruptor.Inv(s) && Disruptor.Enabled(s, Work(x))
    ensures var s' := Disruptor.Step(s, Work(x));
            |s'.lost| + Sum(Uncounteds(s')) == |s.lost| + Sum(Uncounteds(s)) + F.LossCount(Means(s, Work(x)))
  {
    var s', es := Disruptor.Step(s, Work(x)), Means(s, Work(x));
    if es != [] {
      assert es == [es[0]];
      F.LossOfOne(es[0]);
    }
    assert TaskInv(s.policy, x, s.tasks[x], s.q.locs[x]);
    if s.q.locs[x].Running() {
      RunningCounts(s, x);
    } else {
      AfterCounts(s, x);
      AfterShape(s, x);
    }
    OneUncounted(s, s', x);
  }

  lemma StepCounts<V>(s: Disruptor.State<V>, e: Disruptor.Event<V>)
    requires Disruptor.Inv(s) && Disruptor.Enabled(s, e) && Abs(s).Valid() && Counted(s)
    ensures Counted(Disruptor.Step(s, e))
  {
    Refines(s, e);
    F.LossesOfAll(Abs(s), Means(s, e));
    StepUncounted(s, e);
  }

  lemma {:induction false} RunCounts<V>(s: Disruptor.State<V>, es: seq<Disruptor.Event<V>>)
    requires Disruptor.Inv(s) && Abs(s).Valid() && Allowed(s, es) && Counted(s)
    ensures Disruptor.Inv(Exec(s, es)) && Counted(Exec(s, es))
    decreases |es|
  {
    if es != [] {
      Disruptor.StepKeepsInv(s, es[0]);
      Refines(s, es[0]);
      StepCounts(s, es[0]);
      RunCounts(Disruptor.Step(s, es[0]), es[1..]);
    }
  }

  /** In every state of every run, whoever dispatches and closes when: each record
      passed to Dispatch is in exactly one place, the run is one of the bounded queue, the
      counter is the losses of that queue but for those about to be counted, Block loses
      none, and what the sink has received is the delivered part of the queue's order,
      short of what the consumer still has in hand. */
  lemma EveryRun<V>(n: nat, policy: Policy, callers: nat, es: seq<Disruptor.Event<V>>)
    requires n >= 2 && Allowed(Disruptor.Initial<V>(n, policy, callers), es)
    ensures var s0 := Disruptor.Initial<V>(n, policy, callers);
            var s := Exec(s0, es);
            && s.Shaped() && Counts(s.q.ring)
            && multiset(s.offered) == Total(AllHeld(s)) + multiset(s.q.ring.put[s.q.ring.deq..])
                                      + multiset(s.emitted) + multiset(s.lost)
            && F.CanAll(Abs(s0), Trace(s0, es)) && Abs(s) == F.ApplyAll(Abs(s0), Trace(s0, es))
            && Abs(s).Valid()
            && s.dropped == |s.lost| && F.Losses(Abs(s)) == |s.lost| + Sum(Uncounteds(s))
            && (policy.Block? ==> s.lost == [])
            && s.emitted <= F.DeliveredOf(s.q.ring.put, Fates(s.q.ring.takenBy))
  {
    var s0 := Disruptor.Initial<V>(n, policy, callers);
    InitialAbs<V>(n, policy, callers);
    RunRefines(s0, es);
    RunCounts(s0, es);
  }

  /** An eviction is by a Dispatch call that found the ring full before it, and evicted
      nothing for it since. */
  lemma EvictionsAreOwed<V>(n: nat, policy: Policy, callers: nat, es: seq<Disruptor.Event<V>>, j: nat)
    requires n >= 2 && Allowed(Disruptor.Initial<V>(n, policy, callers), es)
    requires var t := Trace(Disruptor.Initial<V>(n, policy, callers), es); j < |t| && t[j].Late?
    ensures var t := Trace(Disruptor.Initial<V>(n, policy, callers), es); exists i :: F.SawFullAt(t, t[j].x, i, j)
  {
    var s0 := Disruptor.Initial<V>(n, policy, callers);
    InitialAbs<V>(n, policy, callers);
    RunRefines(s0, es);
    F.LossesAreOwed(Abs(s0), Trace(s0, es), j);
  }

  /** No thread is ever stopped: one that is neither between Dispatch calls nor past
      its exit has a next step, and no dequeued record is nil. */
  lemma NobodyIsStuck<V>(s: Disruptor.State<V>, x: nat)
    requires Disruptor.Inv(s) && x < |s.tasks| && !s.tasks[x].Ready? && !s.tasks[x].Exited?
    ensures Disruptor.Enabled(s, Work(x))
  {
    assert TaskInv(s.policy, x, s.tasks[x], s.q.locs[x]);
    assert LocInv(s.q.ring, x, s.q.locs[x]);
  }

  // ----- the end of a run -----

  /** No Dispatch call is under way. */
  ghost predicate Settled<V>(s: Disruptor.State<V>) {
    forall x: nat :: 0 < x < |s.tasks| ==> s.tasks[x].Ready?
  }

  /** Close is called when every Dispatch has returned, and none follows it. */
  ghost predicate Orderly<V>(s: Disruptor.State<V>, e: Disruptor.Event<V>) {
    (e.Close? ==> Settled(s)) && (e.Dispatch? ==> s.closer.Open?)
  }

  ghost predicate OrderlyRun<V>(s: Disruptor.State<V>, es: seq<Disruptor.Event<V>>)
    requires Allowed(s, es)
    decreases |es|
  {
    es == [] || (Orderly(s, es[0]) && OrderlyRun(Disruptor.Step(s, es[0]), es[1..]))
  }

  ghost predicate ClosingInv<V>(s: Disruptor.State<V>)
    requires s.Shaped()
  {
    && (!s.closer.Open? ==> Settled(s))
    && (s.tasks[0].Draining? || s.tasks[0].EmittingLast? || s.tasks[0].Exited? ==> !s.closer.Open?)
    && (s.tasks[0].Draining? && s.q.locs[0].DeqDone? && !s.q.locs[0].found ==> s.q.ring.enq == s.q.ring.deq)
    && (s.tasks[0].Exited? ==> s.q.ring.enq == s.q.ring.deq)
    && (s.closer.Returned? ==> s.tasks[0].Exited?)
  }

  /** Once everybody else has left, "empty" means empty. */
  lemma DrainSeesAll<V>(s: Disruptor.State<V>)
    requires Disruptor.Inv(s) && Settled(s) && s.q.locs[0].DeqCheck?
    requires Disruptor.Step(s, Work(0)).q.locs[0] == DeqDone(false, None)
    ensures s.q.ring.enq == s.q.ring.deq
  {
    MpmcRuns.EmptyIsHonest(s.q, 0);
    forall y: nat | y < |s.q.locs| ensures !s.q.locs[y].Filling(s.q.ring.deq) {
      assert TaskInv(s.policy, y, s.tasks[y], s.q.locs[y]);
    }
  }

  lemma OrderlyRuns<V>(s: Disruptor.State<V>, x: nat)
    requires Disruptor.Inv(s) && x < |s.tasks| && s.q.locs[x].Running() && ClosingInv(s)
    ensures ClosingInv(Disruptor.Step(s, Work(x)))
  {
    var s' := Disruptor.Step(s, Work(x));
    assert s'.tasks == s.tasks && s'.closer == s.closer;
    assert TaskInv(s.policy, x, s.tasks[x], s.q.locs[x]);
    if x == 0 {
      assert LocInv(s.q.ring, 0, s.q.locs[0]);
      if s.q.locs[0].DeqCheck? && s'.q.locs[0] == DeqDone(false, None) && s.tasks[0].Draining? { DrainSeesAll(s); }
    } else {
      assert s.closer.Open? && s'.q.locs[0] == s.q.locs[0];
    }
  }

  lemma OrderlyAfter<V>(s: Disruptor.State<V>, x: nat)
    requires Disruptor.Inv(s) && Disruptor.Enabled(s, Work(x)) && !s.q.locs[x].Running() && ClosingInv(s)
    ensures ClosingInv(Disruptor.Step(s, Work(x)))
  {
    AfterShape(s, x);
    assert TaskInv(s.policy, x, s.tasks[x], s.q.locs[x]);
    assert LocInv(s.q.ring, x, s.q.locs[x]);
  }

  lemma OrderlyStep<V>(s: Disruptor.State<V>, e: Disruptor.Event<V>)
    requires Disruptor.Inv(s) && Disruptor.Enabled(s, e) && ClosingInv(s) && Orderly(s, e)
    ensures ClosingInv(Disruptor.Step(s, e))
  {
    if e.Work? {
      if s.q.locs[e.x].Running() { OrderlyRuns(s, e.x); } else { OrderlyAfter(s, e.x); }
    }
  }

  lemma {:induction false} OrderlyRunCloses<V>(s: Disruptor.State<V>, es: seq<Disruptor.Event<V>>)
    requires Disruptor.Inv(s) && ClosingInv(s) && Allowed(s, es) && OrderlyRun(s, es)
    ensures Disruptor.Inv(Exec(s, es)) && ClosingInv(Exec(s, es))
    decreases |es|
  {
    if es != [] {
      Disruptor.StepKeepsInv(s, es[0]);
      OrderlyStep(s, es[0]);
      OrderlyRunCloses(Disruptor.Step(s, es[0]), es[1..]);
    }
  }

  lemma NothingHeld<V>(s: Disruptor.State<V>)
    requires Disruptor.Inv(s) && Settled(s) && s.tasks[0].Exited?
    ensures Total(AllHeld(s)) == multiset{}
  {
    var held := AllHeld(s);
    forall x | 0 <= x < |held| ensures held[x] == multiset{} {
      assert TaskInv(s.policy, x, s.tasks[x], s.q.locs[x]);
    }
    TotalOfNothing(held);
  }

  lemma NobodyHolds<V>(s: Disruptor.State<V>)
    requires Disruptor.Inv(s) && Settled(s) && s.tasks[0].Exited? && s.q.ring.enq == s.q.ring.deq
    ensures multiset(s.offered) == multiset(s.emitted) + multiset(s.lost)
    ensures |s.offered| == |s.emitted| + s.dropped
  {
    NothingHeld(s);
    assert s.q.ring.put[s.q.ring.deq..] == [];
    assert |multiset(s.offered)| == |multiset(s.emitted) + multiset(s.lost)|;
  }

  /** Once every Dispatch call has returned, the counter is the losses of the queue. */
  lemma SettledRun<V>(n: nat, policy: Policy, callers: nat, es: seq<Disruptor.Event<V>>)
    requires n >= 2 && Allowed(Disruptor.Initial<V>(n, policy, callers), es)
    requires Settled(Exec(Disruptor.Initial<V>(n, policy, callers), es))
    ensures var s := Exec(Disruptor.Initial<V>(n, policy, callers), es);
            s.Shaped() && s.dropped == |s.lost| == F.Losses(Abs(s))
  {
    var s0 := Disruptor.Initial<V>(n, policy, callers);
    InitialAbs<V>(n, policy, callers);
    RunRefines(s0, es);
    RunCounts(s0, es);
    NothingUncounted(Exec(s0, es));
  }

  lemma NothingUncounted<V>(s: Disruptor.State<V>)
    requires Disruptor.Inv(s) && Settled(s)
    ensures Sum(Uncounteds(s)) == 0
  {
    assert TaskInv(s.policy, 0, s.tasks[0], s.q.locs[0]);
    SumOfNothing(Uncounteds(s));
  }

  /** When all Dispatch calls return before Close is called, Close returns only with
      the ring empty, and every record has been emitted or counted as dropped; under
      Block every one has been emitted. */
  lemma CloseLosesNothing<V>(n: nat, policy: Policy, callers: nat, es: seq<Disruptor.Event<V>>)
    requires n >= 2
    requires Allowed(Disruptor.Initial<V>(n, policy, callers), es)
    requires OrderlyRun(Disruptor.Initial<V>(n, policy, callers), es)
    requires Exec(Disruptor.Initial<V>(n, policy, callers), es).closer.Returned?
    ensures var s := Exec(Disruptor.Initial<V>(n, policy, callers), es);
            && s.q.ring.enq == s.q.ring.deq
            && multiset(s.offered) == multiset(s.emitted) + multiset(s.lost)
            && |s.offered| == |s.emitted| + s.dropped
            && (policy.Block? ==> s.dropped == 0)
  {
    var s0 := Disruptor.Initial<V>(n, policy, callers);
    Disruptor.InitialInv<V>(n, policy, callers);
    OrderlyRunCloses(s0, es);
    EveryRun(n, policy, callers, es);
    NobodyHolds(Exec(s0, es));
  }

  /** The order matters: once the consumer has exited the sink receives nothing more,
      so a record dispatched after that is never emitted. */
  lemma {:induction false} NothingAfterExit<V>(s: Disruptor.State<V>, es: seq<Disruptor.Event<V>>)
    requires Disruptor.Inv(s) && s.tasks[0].Exited? && Allowed(s, es)
    ensures Exec(s, es).emitted == s.emitted
    decreases |es|
  {
    if es != [] {
      StaysExited(s, es[0]);
      Disruptor.StepKeepsInv(s, es[0]);
      NothingAfterExit(Disruptor.Step(s, es[0]), es[1..]);
    }
  }

  lemma StaysExited<V>(s: Disruptor.State<V>, e: Disruptor.Event<V>)
    requires Disruptor.Inv(s) && s.tasks[0].Exited? && Disruptor.Enabled(s, e)
    ensures var s' := Disruptor.Step(s, e); s'.tasks[0].Exited? && s'.emitted == s.emitted
  {
    if e.Work? {
      assert TaskInv(s.policy, e.x, s.tasks[e.x], s.q.locs[e.x]);
      assert TaskInv(s.policy, 0, s.tasks[0], s.q.locs[0]);
    }
  }

  // ----- per-producer order -----

  /** The records passed to Dispatch by thread x, in order. */
  ghost function OffersOf<V>(es: seq<Disruptor.Event<V>>, x: nat): seq<V> {
    if es == [] then [] else OfferOf(es[0], x) + OffersOf(es[1..], x)
  }

  ghost function OfferOf<V>(e: Disruptor.Event<V>, x: nat): seq<V> {
    if e.Dispatch? && e.x == x then [e.v] else []
  }

  ghost predicate InOrder<V>(s: Disruptor.State<V>, x: nat, asked: seq<V>)
    requires s.Shaped()
  {
    x < |s.tasks| && Placed(s.q.ring.put, s.q.ring.putBy, ToPlace(s.tasks[x], s.q.locs[x]), x, asked)
  }

  lemma PutInOrder<V>(s: Disruptor.State<V>, y: nat, x: nat, asked: seq<V>)
    requires Disruptor.Inv(s) && y < |s.tasks| && s.q.locs[y].EnqCas? && s.q.locs[y].pos == s.q.ring.enq
    requires InOrder(s, x, asked)
    ensures InOrder(Disruptor.Step(s, Work(y)), x, asked)
  {
    var s', r, v := Disruptor.Step(s, Work(y)), s.q.ring, s.q.locs[y].v;
    ClaimPutRing(s.q, y);
    assert TaskInv(s.policy, y, s.tasks[y], s.q.locs[y]);
    Enters(r.put, r.putBy, v, y, ToPlace(s.tasks[x], s.q.locs[x]), ToPlace(s'.tasks[x], s'.q.locs[x]), x, asked);
  }

  lemma AfterInOrder<V>(s: Disruptor.State<V>, y: nat, x: nat, asked: seq<V>)
    requires s.Shaped() && Disruptor.Enabled(s, Work(y)) && !s.q.locs[y].Running() && InOrder(s, x, asked)
    requires TaskInv(s.policy, y, s.tasks[y], s.q.locs[y]) && LocInv(s.q.ring, y, s.q.locs[y])
    ensures InOrder(Disruptor.Step(s, Work(y)), x, asked)
  {
    var r := s.q.ring;
    AfterShape(s, y);
    AfterHeld(s, r.put, y, s.tasks[y], s.q.locs[y]);
    GivesUp(r.put, r.putBy, ToPlace(s.tasks[x], s.q.locs[x]), x, asked);
  }

  /** An instruction that puts nothing into the queue. */
  lemma OtherInOrder<V>(s: Disruptor.State<V>, y: nat, x: nat, asked: seq<V>)
    requires Disruptor.Inv(s) && y < |s.tasks| && s.q.locs[y].Running() && InOrder(s, x, asked)
    requires !(s.q.locs[y].EnqCas? && s.q.locs[y].pos == s.q.ring.enq)
    ensures InOrder(Disruptor.Step(s, Work(y)), x, asked)
  {
    var s', l := Disruptor.Step(s, Work(y)), s.q.locs[y];
    assert TaskInv(s.policy, y, s.tasks[y], l);
    if l.DeqCas? && l.pos == s.q.ring.deq {
      ClaimTakeRing(s.q, y);
    } else {
      QuietRing(s.q, y, s.policy, s.tasks[y]);
    }
    assert s'.q.locs == s.q.locs[y := s'.q.locs[y]];
    assert ToPlace(s.tasks[x], s'.q.locs[x]) == ToPlace(s.tasks[x], s.q.locs[x]);
  }

  lemma WorkInOrder<V>(s: Disruptor.State<V>, y: nat, x: nat, asked: seq<V>)
    requires Disruptor.Inv(s) && Disruptor.Enabled(s, Work(y)) && InOrder(s, x, asked)
    ensures InOrder(Disruptor.Step(s, Work(y)), x, asked)
  {
    var l := s.q.locs[y];
    if !l.Running() {
      assert TaskInv(s.policy, y, s.tasks[y], l);
      assert LocInv(s.q.ring, y, l);
      AfterInOrder(s, y, x, asked);
    } else if l.EnqCas? && l.pos == s.q.ring.enq {
      PutInOrder(s, y, x, asked);
    } else {
      OtherInOrder(s, y, x, asked);
    }
  }

  lemma StepInOrder<V>(s: Disruptor.State<V>, e: Disruptor.Event<V>, x: nat, asked: seq<V>)
    requires Disruptor.Inv(s) && Disruptor.Enabled(s, e) && InOrder(s, x, asked)
    ensures InOrder(Disruptor.Step(s, e), x, asked + OfferOf(e, x))
  {
    assert asked + [] == asked;
    if e.Work? {
      WorkInOrder(s, e.x, x, asked);
    } else if e.Dispatch? && e.x == x {
      Asks(s.q.ring.put, s.q.ring.putBy, x, e.v, asked);
    }
  }

  lemma {:induction false} RunInOrder<V>(s: Disruptor.State<V>, es: seq<Disruptor.Event<V>>, x: nat, asked: seq<V>)
    requires Disruptor.Inv(s) && Allowed(s, es) && InOrder(s, x, asked)
    ensures Disruptor.Inv(Exec(s, es)) && InOrder(Exec(s, es), x, asked + OffersOf(es, x))
    decreases |es|
  {
    if es == [] {
      assert asked + [] == asked;
    } else {
      Disruptor.StepKeepsInv(s, es[0]);
      StepInOrder(s, es[0], x, asked);
      RunInOrder(Disruptor.Step(s, es[0]), es[1..], x, asked + OfferOf(es[0], x));
      Associate(asked, OfferOf(es[0], x), OffersOf(es[1..], x));
    }
  }

  /** Under every policy and schedule, what one goroutine contributes to the ring and to the
      sink is in the order in which it dispatched it. */
  lemma ProducersInOrder<V>(n: nat, policy: Policy, callers: nat, es: seq<Disruptor.Event<V>>, x: nat)
    requires n >= 2 && Allowed(Disruptor.Initial<V>(n, policy, callers), es) && 0 < x <= callers
    ensures var s := Exec(Disruptor.Initial<V>(n, policy, callers), es);
            ProducerOrder(s.q.ring.put, s.q.ring.putBy, Fates(s.q.ring.takenBy), s.emitted, x, OffersOf(es, x))
  {
    var s0 := Disruptor.Initial<V>(n, policy, callers);
    InitialAbs<V>(n, policy, callers);
    assert Placed<V>([], [], [], x, []);
    RunInOrder(s0, es, x, []);
    var s := Exec(s0, es);
    assert [] + OffersOf(es, x) == OffersOf(es, x);
    OrderOfEmitted(s.q.ring.put, s.q.ring.putBy, Fates(s.q.ring.takenBy), s.emitted,
                   ToPlace(s.tasks[x], s.q.locs[x]), x, OffersOf(es, x));
  }

  // ----- 64-bit words -----

  /** The same transport on the queue with 64-bit words. */
  function WordStep<V>(s: Disruptor.State<V>, e: Disruptor.Event<V>): Disruptor.State<V>
    requires s.Shaped() && Disruptor.Enabled(s, e)
  {
    if e.Work? && s.q.locs[e.x].Running() then Advance(s, e.x, Mpmc.Step(Word64, s.q, Run(e.x)))
    else Disruptor.Step(s, e)
  }

  ghost predicate WordAllowed<V>(s: Disruptor.State<V>, es: seq<Disruptor.Event<V>>)
    decreases |es|
  {
    es == [] || (s.Shaped() && Disruptor.Enabled(s, es[0]) && WordAllowed(WordStep(s, es[0]), es[1..]))
  }

  ghost function WordExec<V>(s: Disruptor.State<V>, es: seq<Disruptor.Event<V>>): Disruptor.State<V>
    requires WordAllowed(s, es)
    decreases |es|
  {
    if es == [] then s else WordExec(WordStep(s, es[0]), es[1..])
  }

  lemma {:induction false} WordPutGrows<V>(s: Disruptor.State<V>, es: seq<Disruptor.Event<V>>)
    requires WordAllowed(s, es)
    ensures |s.q.ring.put| <= |WordExec(s, es).q.ring.put|
    decreases |es|
  {
    if es != [] { WordPutGrows(WordStep(s, es[0]), es[1..]); }
  }

  /** Every run of the transport with 64-bit words that claims at most 2^63 - n tickets is a
      run with unbounded tickets, so all of the above holds of it. */
  lemma {:induction false} WordRunAgrees<V>(s: Disruptor.State<V>, es: seq<Disruptor.Event<V>>)
    requires Disruptor.Inv(s) && IsPowerOfTwo(s.q.ring.n)
    requires WordAllowed(s, es) && |WordExec(s, es).q.ring.put| + s.q.ring.n <= TWO63
    ensures Allowed(s, es) && Exec(s, es) == WordExec(s, es)
    decreases |es|
  {
    if es != [] {
      WordPutGrows(s, es);
      if es[0].Work? && s.q.locs[es[0].x].Running() { MpmcRuns.WordStepAgrees(s.q, Run(es[0].x)); }
      assert WordStep(s, es[0]) == Disruptor.Step(s, es[0]);
      SizeStays(s, es[0]);
      Disruptor.StepKeepsInv(s, es[0]);
      WordRunAgrees(Disruptor.Step(s, es[0]), es[1..]);
    }
  }

  lemma {:induction false} PutGrows<V>(s: Disruptor.State<V>, es: seq<Disruptor.Event<V>>)
    requires Allowed(s, es)
    ensures |s.q.ring.put| <= |Exec(s, es).q.ring.put|
    decreases |es|
  {
    if es != [] { PutGrows(Disruptor.Step(s, es[0]), es[1..]); }
  }

  /** And the other way round. */
  lemma {:induction false} RunAgreesWord<V>(s: Disruptor.State<V>, es: seq<Disruptor.Event<V>>)
    requires Disruptor.Inv(s) && IsPowerOfTwo(s.q.ring.n)
    requires Allowed(s, es) && |Exec(s, es).q.ring.put| + s.q.ring.n <= TWO63
    ensures WordAllowed(s, es) && WordExec(s, es) == Exec(s, es)
    decreases |es|
  {
    if es != [] {
      PutGrows(s, es);
      if es[0].Work? && s.q.locs[es[0].x].Running() { MpmcRuns.WordStepAgrees(s.q, Run(es[0].x)); }
      assert WordStep(s, es[0]) == Disruptor.Step(s, es[0]);
      SizeStays(s, es[0]);
      Disruptor.StepKeepsInv(s, es[0]);
      RunAgreesWord(Disruptor.Step(s, es[0]), es[1..]);
    }
  }

  lemma SizeStays<V>(s: Disruptor.State<V>, e: Disruptor.Event<V>)
    requires s.Shaped() && Disruptor.Enabled(s, e)
    ensures Disruptor.Step(s, e).q.ring.n == s.q.ring.n
  {
  }
}
