/** How the lock-free transport gets on when it is left to itself: Close returns, the consumer
    delivers, and a Dispatch call comes to an end. */
module DisruptorProgress {
  import opened Common
  import opened Words
  import opened Mpmc
  import opened MpmcProgress
  import opened Disruptor
  import opened DisruptorRuns
  import F = BoundedFifo

  // ----- one instruction of a thread that is alone -----

  /** A thread has gone from location l to l' and the ring from r to r'. */
  ghost predicate Advances<V>(r: Ring<V>, l: Loc<V>, r': Ring<V>, l': Loc<V>) {
    && r'.n == r.n && r.deq <= r.enq <= r.deq + r.n && r'.deq <= r'.enq
    && Rank(r', l') < Rank(r, l)
    && r'.enq == r.enq + (if l.EnqCas? && l'.EnqWrite? then 1 else 0)
    && r'.deq == r.deq + (if l.DeqCas? && l'.DeqRead? then 1 else 0)
    && (l'.DeqDone? && !l'.found ==> l.DeqCheck? && r.deq == r.enq)
    && (l'.DeqDone? && l'.found ==> l.DeqRelease?)
    && (l' == EnqDone(false) ==> l.EnqCheck? && r.enq == r.deq + r.n)
    && (l' == EnqDone(true) ==> l.EnqPublish?)
    && (l'.EnqWrite? ==> l.EnqCas? && r.enq < r.deq + r.n)
    && (l'.DeqRead? ==> l.DeqCas? && r.deq < r.enq)
    && (l'.EnqPublish? ==> l.EnqWrite?) && (l'.DeqClear? ==> l.DeqRead?) && (l'.DeqRelease? ==> l.DeqClear?)
    && (l.EnqWrite? ==> l'.EnqPublish?) && (l.EnqPublish? ==> l' == EnqDone(true))
    && (l.DeqRead? ==> l'.DeqClear?) && (l.DeqClear? ==> l'.DeqRelease?) && (l.DeqRelease? ==> l'.DeqDone? && l'.found)
    && (l.Enqueuing() ==> l'.Enqueuing() || l'.EnqDone?)
    && (l.Dequeuing() ==> l'.Dequeuing() || l'.DeqDone?)
  }

  lemma QueueAdvances<V>(q: Mpmc.State<V>, x: nat)
    requires Mpmc.Inv(q) && Alone(q, x) && q.locs[x].Running()
    ensures var q' := Mpmc.Step(Unbounded, q, Run(x));
            Mpmc.Inv(q') && Alone(q', x) && Advances(q.ring, q.locs[x], q'.ring, q'.locs[x])
  {
    var l := q.locs[x];
    assert LocInv(q.ring, x, l);
    AloneStep(q, x);
    if l.EnqCheck? || l.DeqCheck? { CheckAlone(q, x); }
    if l.EnqCas? && l.pos == q.ring.enq { NextPut(q); }
    if l.DeqCas? && l.pos == q.ring.deq { NextTake(q); }
  }

  lemma RunsOn<V>(s: Disruptor.State<V>, x: nat)
    requires s.Shaped() && Mpmc.Inv(s.q) && Alone(s.q, x) && x < |s.tasks| && s.q.locs[x].Running()
    ensures var s' := Disruptor.Step(s, Work(x));
            && s'.tasks == s.tasks && s'.policy == s.policy && s'.closer == s.closer && Alone(s'.q, x)
            && Advances(s.q.ring, s.q.locs[x], s'.q.ring, s'.q.locs[x])
  {
    QueueAdvances(s.q, x);
  }

  /** Thread x between two operations of the queue. */
  lemma TurnsTo<V>(s: Disruptor.State<V>, x: nat)
    requires s.Shaped() && Alone(s.q, x) && x < |s.tasks| && !s.q.locs[x].Running() && Disruptor.Enabled(s, Work(x))
    ensures var s', (t', l') := Disruptor.Step(s, Work(x)), After(s, s.tasks[x], s.q.locs[x]);
            && s'.q.ring == s.q.ring && s'.tasks == s.tasks[x := t'] && s'.q.locs == s.q.locs[x := l']
            && s'.policy == s.policy && s'.closer == s.closer && Alone(s'.q, x)
  {
    AfterShape(s, x);
  }

  // ----- the consumer -----

  ghost predicate OnlyWork<V>(es: seq<Disruptor.Event<V>>, x: nat) {
    es == [] || (es[0] == Work(x) && OnlyWork(es[1..], x))
  }

  lemma SettledAlone<V>(s: Disruptor.State<V>)
    requires s.Shaped() && Settled(s) && forall x: nat :: x < |s.tasks| ==> TaskInv(s.policy, x, s.tasks[x], s.q.locs[x])
    ensures Alone(s.q, 0)
    ensures forall x :: x > 0 ==> !Disruptor.Enabled(s, Work(x))
  {
    forall x: nat | 0 < x < |s.tasks| ensures s.q.locs[x].Idle? {
      assert TaskInv(s.policy, x, s.tasks[x], s.q.locs[x]);
    }
  }

  /** A record the consumer has claimed and not yet emitted. */
  function Claimed<V>(l: Loc<V>): nat {
    if l.DeqRead? || l.DeqClear? || l.DeqRelease? || (l.DeqDone? && l.found) then 8 else 0
  }

  /** What the consumer has still to do besides, once the transport is closed. */
  function Stage<V>(t: Task<V>): nat {
    match t
    case Draining => 1
    case EmittingLast(_) => 8
    case Checking => 8
    case Polling => 9
    case Emitting(_) => 16
    case _ => 0
  }

  function ToExit<V>(r: Ring<V>, t: Task<V>, l: Loc<V>): nat
    requires r.deq <= r.enq
  {
    8 * (r.enq - r.deq) + Stage(t) + Rank(r, l) + Claimed(l)
  }

  lemma AdvancesToExit<V>(r: Ring<V>, t: Task<V>, l: Loc<V>, r': Ring<V>, l': Loc<V>)
    requires Advances(r, l, r', l') && l.Dequeuing()
    ensures ToExit(r', t, l') < ToExit(r, t, l)
  {
  }

  lemma TurnsToExit<V>(s: Disruptor.State<V>, r: Ring<V>, t: Task<V>, l: Loc<V>)
    requires TaskInv(s.policy, 0, t, l) && CanWork(t, l) && !l.Running() && !s.closer.Open? && r.deq <= r.enq
    ensures var (t', l') := After(s, t, l); ToExit(r, t', l') < ToExit(r, t, l)
  {
  }

  predicate Internal<V>(e: Disruptor.Event<V>) {
    e.Work? || e.CloseReturns?
  }

  ghost predicate AllInternal<V>(es: seq<Disruptor.Event<V>>) {
    es == [] || (Internal(es[0]) && AllInternal(es[1..]))
  }

  /** An upper bound on the steps until Close has returned. */
  function Measure<V>(s: Disruptor.State<V>): nat
    requires s.Shaped() && s.q.ring.deq <= s.q.ring.enq
  {
    ToExit(s.q.ring, s.tasks[0], s.q.locs[0]) + if s.closer.Waiting? then 1 else 0
  }

  lemma ConsumerStepsDown<V>(s: Disruptor.State<V>)
    requires s.Shaped() && Mpmc.Inv(s.q) && Alone(s.q, 0) && TaskInv(s.policy, 0, s.tasks[0], s.q.locs[0])
    requires !s.closer.Open? && Disruptor.Enabled(s, Work(0))
    ensures var s' := Disruptor.Step(s, Work(0));
            && s'.q.ring.deq <= s'.q.ring.enq && Measure(s') < Measure(s)
            && s'.closer == s.closer && (Settled(s) ==> Settled(s'))
  {
    var r, t, l := s.q.ring, s.tasks[0], s.q.locs[0];
    if l.Running() {
      RunsOn(s, 0);
      var q' := Disruptor.Step(s, Work(0)).q;
      AdvancesToExit(r, t, l, q'.ring, q'.locs[0]);
    } else {
      TurnsTo(s, 0);
      TurnsToExit(s, r, t, l);
    }
  }

  /** Close has been called, and no Dispatch is under way. */
  ghost predicate Closing<V>(s: Disruptor.State<V>) {
    Disruptor.Inv(s) && Settled(s) && !s.closer.Open? && (s.closer.Returned? ==> s.tasks[0].Exited?)
  }

  /** It will be over within m steps. */
  ghost predicate ClosingIn<V>(s: Disruptor.State<V>, m: nat) {
    Closing(s) && Measure(s) <= m
  }

  lemma ClosingWorks<V>(s: Disruptor.State<V>)
    requires s.Shaped() && Mpmc.Inv(s.q) && Settled(s) && !s.closer.Open? && Disruptor.Enabled(s, Work(0))
    requires forall x: nat :: x < |s.tasks| ==> TaskInv(s.policy, x, s.tasks[x], s.q.locs[x])
    ensures var s' := Disruptor.Step(s, Work(0));
            && s'.q.ring.deq <= s'.q.ring.enq && Measure(s') < Measure(s)
            && s'.closer == s.closer && Settled(s') && (s.tasks[0].Exited? ==> s'.tasks[0].Exited?)
  {
    assert TaskInv(s.policy, 0, s.tasks[0], s.q.locs[0]);
    SettledAlone(s);
    ConsumerStepsDown(s);
  }

  /** Then every step counts. */
  lemma ClosingStepsDown<V>(s: Disruptor.State<V>, e: Disruptor.Event<V>, m: nat)
    requires ClosingIn(s, m) && Internal(e) && Disruptor.Enabled(s, e)
    ensures m > 0 && ClosingIn(Disruptor.Step(s, e), m - 1)
  {
    Disruptor.StepKeepsInv(s, e);
    if e.Work? {
      SettledAlone(s);
      ClosingWorks(s);
    }
  }

  /** The consumer or Close can go on until both are done. */
  lemma ClosingGoesOn<V>(s: Disruptor.State<V>) returns (e: Disruptor.Event<V>)
    requires Closing(s) && !s.closer.Returned?
    ensures Disruptor.Enabled(s, e) && Internal(e) && (e.CloseReturns? <==> s.tasks[0].Exited?)
  {
    if s.tasks[0].Exited? {
      e := CloseReturns;
    } else {
      assert TaskInv(s.policy, 0, s.tasks[0], s.q.locs[0]);
      NobodyIsStuck(s, 0);
      e := Work(0);
    }
  }

  lemma {:induction false} ClosingRun<V>(s: Disruptor.State<V>, es: seq<Disruptor.Event<V>>, m: nat)
    requires ClosingIn(s, m) && Allowed(s, es) && AllInternal(es)
    ensures |es| <= m && ClosingIn(Exec(s, es), m - |es|)
    decreases |es|
  {
    if es != [] {
      ClosingStepsDown(s, es[0], m);
      ClosingRun(Disruptor.Step(s, es[0]), es[1..], m - 1);
    }
  }

  /** Close returns: once it has been called and no Dispatch is under way, whatever the
      scheduler does, at most Measure(s) steps happen, and they can only stop with the
      consumer gone and Close returned. */
  lemma CloseFinishes<V>(s: Disruptor.State<V>, es: seq<Disruptor.Event<V>>)
    requires Closing(s) && Allowed(s, es) && AllInternal(es)
    ensures |es| <= Measure(s)
    ensures var s' := Exec(s, es);
            && s'.Shaped()
            && ((forall e :: Internal(e) ==> !Disruptor.Enabled(s', e)) ==> s'.tasks[0].Exited? && s'.closer.Returned?)
  {
    ClosingRun(s, es, Measure(s));
    if !Exec(s, es).closer.Returned? { var e := ClosingGoesOn(Exec(s, es)); }
  }

  /** And there is a run in which it does. */
  lemma {:induction false} CloseCanReturn<V>(s: Disruptor.State<V>, m: nat) returns (es: seq<Disruptor.Event<V>>)
    requires ClosingIn(s, m)
    ensures Allowed(s, es) && Exec(s, es).closer.Returned?
    decreases m
  {
    if s.closer.Returned? {
      es := [];
    } else {
      var e := ClosingGoesOn(s);
      ClosingStepsDown(s, e, m);
      var rest := CloseCanReturn(Disruptor.Step(s, e), m - 1);
      es := [e] + rest;
      assert es[1..] == rest;
    }
  }

  // ----- delivery while open -----

  predicate InMainLoop<V>(t: Task<V>) {
    t.Polling? || t.Emitting? || t.Checking?
  }

  /** The ring is empty and the consumer has nothing in hand. */
  predicate AllOut<V>(r: Ring<V>, t: Task<V>, l: Loc<V>) {
    r.enq == r.deq && !t.Emitting? && Claimed(l) == 0
  }

  /** An upper bound on the consumer's steps until everything is out. */
  function Backlog<V>(r: Ring<V>, t: Task<V>, l: Loc<V>): nat
    requires r.deq <= r.enq
  {
    8 * (r.enq - r.deq) + Rank(r, l) + Claimed(l)
    + (if t.Polling? then (if l.DeqDone? && !l.found then 8 else 0) else 7)
  }

  lemma AdvancesDelivery<V>(r: Ring<V>, t: Task<V>, l: Loc<V>, r': Ring<V>, l': Loc<V>)
    requires Advances(r, l, r', l') && l.Dequeuing() && t.Polling?
    ensures AllOut(r, t, l) ==> AllOut(r', t, l')
    ensures AllOut(r', t, l') || Backlog(r', t, l') < Backlog(r, t, l)
  {
  }

  lemma TurnsDelivery<V>(s: Disruptor.State<V>, r: Ring<V>, t: Task<V>, l: Loc<V>)
    requires TaskInv(s.policy, 0, t, l) && CanWork(t, l) && !l.Running() && s.closer.Open? && InMainLoop(t) && r.deq <= r.enq
    ensures var (t', l') := After(s, t, l);
            && InMainLoop(t') && (AllOut(r, t, l) ==> AllOut(r, t', l'))
            && (AllOut(r, t', l') || Backlog(r, t', l') < Backlog(r, t, l))
  {
  }

  /** The consumer goes round its main loop, and no Dispatch is under way. */
  ghost predicate Serving<V>(s: Disruptor.State<V>) {
    Disruptor.Inv(s) && Settled(s) && s.closer.Open? && InMainLoop(s.tasks[0])
  }

  ghost predicate Out<V>(s: Disruptor.State<V>)
    requires s.Shaped()
  {
    AllOut(s.q.ring, s.tasks[0], s.q.locs[0])
  }

  function BacklogOf<V>(s: Disruptor.State<V>): nat
    requires s.Shaped() && s.q.ring.deq <= s.q.ring.enq
  {
    Backlog(s.q.ring, s.tasks[0], s.q.locs[0])
  }

  lemma ConsumerDelivers<V>(s: Disruptor.State<V>)
    requires s.Shaped() && Mpmc.Inv(s.q) && Alone(s.q, 0) && TaskInv(s.policy, 0, s.tasks[0], s.q.locs[0])
    requires s.closer.Open? && InMainLoop(s.tasks[0]) && Disruptor.Enabled(s, Work(0))
    ensures var s' := Disruptor.Step(s, Work(0));
            && s'.q.ring.deq <= s'.q.ring.enq && InMainLoop(s'.tasks[0]) && s'.closer == s.closer
            && (Settled(s) ==> Settled(s')) && (Out(s) ==> Out(s')) && (Out(s') || BacklogOf(s') < BacklogOf(s))
  {
    var r, t, l := s.q.ring, s.tasks[0], s.q.locs[0];
    if l.Running() {
      RunsOn(s, 0);
      var q' := Disruptor.Step(s, Work(0)).q;
      AdvancesDelivery(r, t, l, q'.ring, q'.locs[0]);
    } else {
      TurnsTo(s, 0);
      TurnsDelivery(s, r, t, l);
    }
  }

  lemma ServingStep<V>(s: Disruptor.State<V>)
    requires Serving(s) && Disruptor.Enabled(s, Work(0))
    ensures var s' := Disruptor.Step(s, Work(0));
            Serving(s') && (Out(s) ==> Out(s')) && (Out(s') || BacklogOf(s') < BacklogOf(s))
  {
    Disruptor.StepKeepsInv(s, Work(0));
    assert TaskInv(s.policy, 0, s.tasks[0], s.q.locs[0]);
    SettledAlone(s);
    ConsumerDelivers(s);
  }

  lemma {:induction false} ServingRun<V>(s: Disruptor.State<V>, es: seq<Disruptor.Event<V>>)
    requires Serving(s) && Allowed(s, es) && OnlyWork(es, 0)
    ensures Serving(Exec(s, es)) && (Out(s) || |es| > BacklogOf(s) ==> Out(Exec(s, es)))
    decreases |es|
  {
    if es != [] {
      ServingStep(s);
      ServingRun(Disruptor.Step(s, Work(0)), es[1..]);
    }
  }

  /** Without Close: when no Dispatch is under way, after more than BacklogOf(s) steps of the
      consumer the ring is empty and every record that was not evicted has been emitted. */
  lemma Delivers<V>(s: Disruptor.State<V>, es: seq<Disruptor.Event<V>>)
    requires Serving(s) && Allowed(s, es) && OnlyWork(es, 0) && |es| > BacklogOf(s)
    ensures var s' := Exec(s, es);
            && s'.Shaped() && Counts(s'.q.ring) && s'.q.ring.enq == s'.q.ring.deq
            && s'.emitted == F.DeliveredOf(s'.q.ring.put, Fates(s'.q.ring.takenBy))
  {
    ServingRun(s, es);
    OutIsEmitted(Exec(s, es));
  }

  lemma OutIsEmitted<V>(s: Disruptor.State<V>)
    requires Serving(s) && Out(s)
    ensures s.emitted == F.DeliveredOf(s.q.ring.put, Fates(s.q.ring.takenBy))
  {
    assert TaskInv(s.policy, 0, s.tasks[0], s.q.locs[0]);
    assert LocInv(s.q.ring, 0, s.q.locs[0]);
    assert Disruptor.InHand(s.q.ring.put, s.tasks[0], s.q.locs[0]) == [];
    assert s.emitted + [] == s.emitted;
  }

  // ----- one Dispatch call -----

  predicate RingFull<V>(r: Ring<V>) {
    r.enq == r.deq + r.n
  }

  /** What a Dispatch call has still to do if it is left alone. */
  function Left<V>(r: Ring<V>, t: Task<V>, l: Loc<V>): nat {
    var full := RingFull(r);
    match t
    case Sending(_) =>
      if l == EnqDone(false) then 45
      else if l.EnqLoad? || l.EnqCheck? || l.EnqCas? then (if full then 50 else 1) + Rank(r, l)
      else 1 + Rank(r, l)
    case CountNewest(_) => 1
    case Evicting(_) =>
      if l.DeqLoad? || l.DeqCheck? || l.DeqCas? then 30 + Rank(r, l)
      else if l.DeqDone? && !l.found then (if full then 60 else 9)
      else (if full then 70 else 20) + Rank(r, l)
    case CountOldest(_, _) => if full then 66 else 15
    case _ => 0
  }

  /** Under Block the call waits for room; under the other policies it never waits. */
  predicate CanEnd<V>(p: Policy, r: Ring<V>, l: Loc<V>) {
    p.Block? ==> !RingFull(r) || l.EnqWrite? || l.EnqPublish? || l == EnqDone(true) || l.Idle?
  }

  lemma AdvancesDispatch<V>(p: Policy, x: nat, r: Ring<V>, t: Task<V>, l: Loc<V>, r': Ring<V>, l': Loc<V>)
    requires Advances(r, l, r', l') && l.Running() && x > 0 && TaskInv(p, x, t, l) && r.n >= 2
    ensures CanEnd(p, r, l) ==> CanEnd(p, r', l') && Left(r', t, l') < Left(r, t, l)
  {
    RankOfRunning(r, l);
    RankOfRunning(r', l');
  }

  lemma TurnsDispatch<V>(s: Disruptor.State<V>, x: nat, r: Ring<V>, t: Task<V>, l: Loc<V>)
    requires x > 0 && TaskInv(s.policy, x, t, l) && CanWork(t, l) && !l.Running() && CanEnd(s.policy, r, l)
    ensures var (t', l') := After(s, t, l); CanEnd(s.policy, r, l') && Left(r, t', l') < Left(r, t, l)
  {
  }

  lemma DispatchStepsDown<V>(s: Disruptor.State<V>, x: nat)
    requires s.Shaped() && Mpmc.Inv(s.q) && Alone(s.q, x) && 0 < x < |s.tasks| && TaskInv(s.policy, x, s.tasks[x], s.q.locs[x])
    requires Disruptor.Enabled(s, Work(x)) && CanEnd(s.policy, s.q.ring, s.q.locs[x])
    ensures var s' := Disruptor.Step(s, Work(x));
            && Alone(s'.q, x) && CanEnd(s'.policy, s'.q.ring, s'.q.locs[x])
            && Left(s'.q.ring, s'.tasks[x], s'.q.locs[x]) < Left(s.q.ring, s.tasks[x], s.q.locs[x])
  {
    var r, t, l := s.q.ring, s.tasks[x], s.q.locs[x];
    if l.Running() {
      RunsOn(s, x);
      var q' := Disruptor.Step(s, Work(x)).q;
      AdvancesDispatch(s.policy, x, r, t, l, q'.ring, q'.locs[x]);
    } else {
      TurnsTo(s, x);
      TurnsDispatch(s, x, r, t, l);
    }
  }

  /** Thread x is the only one inside the queue. */
  ghost predicate Lonely<V>(s: Disruptor.State<V>, x: nat) {
    Disruptor.Inv(s) && 0 < x < |s.tasks| && Alone(s.q, x)
  }

  /** And its call will be over within m steps. */
  ghost predicate LonelyIn<V>(s: Disruptor.State<V>, x: nat, m: nat) {
    && Lonely(s, x) && CanEnd(s.policy, s.q.ring, s.q.locs[x])
    && Left(s.q.ring, s.tasks[x], s.q.locs[x]) <= m
  }

  lemma LonelyStep<V>(s: Disruptor.State<V>, x: nat, m: nat)
    requires LonelyIn(s, x, m) && Disruptor.Enabled(s, Work(x))
    ensures m > 0 && LonelyIn(Disruptor.Step(s, Work(x)), x, m - 1)
  {
    Disruptor.StepKeepsInv(s, Work(x));
    assert TaskInv(s.policy, x, s.tasks[x], s.q.locs[x]);
    DispatchStepsDown(s, x);
  }

  lemma LeftIsBounded<V>(r: Ring<V>, t: Task<V>, l: Loc<V>)
    ensures Left(r, t, l) <= 78
  {
    RankOfRunning(r, l);
  }

  lemma {:induction false} LonelyRun<V>(s: Disruptor.State<V>, x: nat, es: seq<Disruptor.Event<V>>, m: nat)
    requires LonelyIn(s, x, m) && Allowed(s, es) && OnlyWork(es, x)
    ensures |es| <= m && LonelyIn(Exec(s, es), x, m - |es|)
    decreases |es|
  {
    if es != [] {
      LonelyStep(s, x, m);
      LonelyRun(Disruptor.Step(s, Work(x)), x, es[1..], m - 1);
    }
  }

  lemma ReadyOrGoesOn<V>(s: Disruptor.State<V>, x: nat)
    requires Lonely(s, x)
    ensures s.tasks[x].Ready? || Disruptor.Enabled(s, Work(x))
  {
    assert TaskInv(s.policy, x, s.tasks[x], s.q.locs[x]);
    if !s.tasks[x].Ready? { NobodyIsStuck(s, x); }
  }

  /** A Dispatch call left alone returns within 78 of its own steps, unless it is under Block
      and the ring is full. */
  lemma DispatchFinishes<V>(s: Disruptor.State<V>, x: nat, es: seq<Disruptor.Event<V>>)
    requires Lonely(s, x) && CanEnd(s.policy, s.q.ring, s.q.locs[x]) && Allowed(s, es) && OnlyWork(es, x)
    ensures |es| <= 78
    ensures var s' := Exec(s, es);
            s'.Shaped() && x < |s'.tasks| && (s'.tasks[x].Ready? || Disruptor.Enabled(s', Work(x)))
  {
    LeftIsBounded(s.q.ring, s.tasks[x], s.q.locs[x]);
    LonelyRun(s, x, es, 78);
    ReadyOrGoesOn(Exec(s, es), x);
  }

  lemma AdvancesWaiting<V>(r: Ring<V>, t: Task<V>, l: Loc<V>, r': Ring<V>, l': Loc<V>)
    requires Advances(r, l, r', l') && l.Enqueuing() && !CanEnd(Block, r, l)
    ensures !CanEnd(Block, r', l')
  {
  }

  /** Thread x waits for room under Block. */
  ghost predicate Waits<V>(s: Disruptor.State<V>, x: nat) {
    Lonely(s, x) && s.tasks[x].Sending? && s.policy.Block? && !CanEnd(s.policy, s.q.ring, s.q.locs[x])
  }

  lemma WaitsOn<V>(s: Disruptor.State<V>, x: nat)
    requires Waits(s, x) && Disruptor.Enabled(s, Work(x))
    ensures var s' := Disruptor.Step(s, Work(x)); Waits(s', x) && s'.q.ring == s.q.ring && s'.tasks == s.tasks
  {
    Disruptor.StepKeepsInv(s, Work(x));
    assert TaskInv(s.policy, x, s.tasks[x], s.q.locs[x]);
    WaitingStep(s, x);
  }

  lemma WaitingStep<V>(s: Disruptor.State<V>, x: nat)
    requires s.Shaped() && Mpmc.Inv(s.q) && Alone(s.q, x) && 0 < x < |s.tasks| && TaskInv(s.policy, x, s.tasks[x], s.q.locs[x])
    requires Disruptor.Enabled(s, Work(x)) && s.tasks[x].Sending? && s.policy.Block? && !CanEnd(s.policy, s.q.ring, s.q.locs[x])
    ensures var s' := Disruptor.Step(s, Work(x));
            && Alone(s'.q, x) && s'.q.ring == s.q.ring && s'.tasks == s.tasks && s'.policy == s.policy
            && !CanEnd(s'.policy, s'.q.ring, s'.q.locs[x])
  {
    if s.q.locs[x].Running() {
      RunsOn(s, x);
      var q' := Disruptor.Step(s, Work(x)).q;
      AdvancesWaiting(s.q.ring, s.tasks[x], s.q.locs[x], q'.ring, q'.locs[x]);
    } else {
      TurnsTo(s, x);
      assert s.tasks[x := s.tasks[x]] == s.tasks;
    }
  }

  lemma {:induction false} WaitingRun<V>(s: Disruptor.State<V>, x: nat, es: seq<Disruptor.Event<V>>)
    requires Waits(s, x) && Allowed(s, es) && OnlyWork(es, x)
    ensures var s' := Exec(s, es); Waits(s', x) && s'.q.ring == s.q.ring && s'.tasks == s.tasks
    decreases |es|
  {
    if es != [] {
      WaitsOn(s, x);
      WaitingRun(Disruptor.Step(s, Work(x)), x, es[1..]);
    }
  }

  /** With the ring full it goes round and changes nothing: the condition above is exact. */
  lemma BlockWaits<V>(s: Disruptor.State<V>, x: nat, es: seq<Disruptor.Event<V>>)
    requires Waits(s, x) && Allowed(s, es) && OnlyWork(es, x)
    ensures var s' := Exec(s, es);
            s'.Shaped() && x < |s'.tasks| && s'.q.ring == s.q.ring && s'.tasks == s.tasks && Disruptor.Enabled(s', Work(x))
  {
    WaitingRun(s, x, es);
    ReadyOrGoesOn(Exec(s, es), x);
  }
}
