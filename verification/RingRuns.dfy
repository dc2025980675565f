/** Whole runs of the ring transport. */
module RingRuns {
  import opened Common
  import opened Order
  import opened RingTransport
  import opened RingSteps
  import opened Sums
  import F = BoundedFifo

  // ----- refinement -----

  /** What a step does to the bounded queue. */
  ghost function Means<V>(s: State<V>, e: Event<V>): seq<F.Event<V>>
    requires Enabled(s, e) && s.core.cap > 0
  {
    match e
    case Caller(x) =>
      if s.callers[x].Counting? then []
      else match Ends(s, x) {
        case Stored => [F.Push(s.callers[x].c)]
        case StoredEvicting => [F.Evict, F.Push(s.callers[x].c)]
        case DroppedNewest => [F.Reject(s.callers[x].c)]
        case _ => []
      }
    case Work(_) => if !s.worker.Emitting? && s.core.queue != [] then [F.Pop(false)] else []
    case _ => []
  }

  lemma SectionRefines<V>(s: State<V>, x: nat)
    requires PolicyKept(s) && Fifo(s) && x < |s.callers| && (s.callers[x].Locking? || s.callers[x].Woken?)
    ensures F.CanAll(Abs(s), Means(s, Caller(x)))
    ensures Abs(Step(s, Caller(x))) == F.ApplyAll(Abs(s), Means(s, Caller(x)))
  {
    var c, f := s.callers[x].c, Abs(s);
    F.FullMeansCap(f);
    if Ends(s, x).StoredEvicting? {
      F.ApplyKeepsValid(f, F.Evict);
      F.AllOfTwo(f, F.Evict, F.Push(c));
    } else if Ends(s, x).Stored? {
      F.AllOfOne(f, F.Push(c));
    } else if Ends(s, x).DroppedNewest? {
      F.AllOfOne(f, F.Reject(c));
    }
  }

  lemma WorkRefines<V>(s: State<V>, wake: Option<nat>)
    requires PolicyKept(s) && Fifo(s) && Enabled(s, Work(wake))
    ensures F.CanAll(Abs(s), Means(s, Work(wake)))
    ensures Abs(Step(s, Work(wake))) == F.ApplyAll(Abs(s), Means(s, Work(wake)))
  {
    if !s.worker.Emitting? && s.core.queue != [] { F.AllOfOne(Abs(s), F.Pop(false)); }
  }

  /** Each step is at most one arrival, one departure of the head, or one rejection on the
      queue the circular buffer stands for; a record is evicted or rejected only while the
      ring is full. */
  lemma Refines<V>(s: State<V>, e: Event<V>)
    requires Inv(s) && Enabled(s, e)
    ensures F.CanAll(Abs(s), Means(s, e))
    ensures Abs(Step(s, e)) == F.ApplyAll(Abs(s), Means(s, e))
    ensures Means(s, e) != [] && F.Loses(Means(s, e)[0]) ==> |s.core.queue| == s.core.cap
  {
    match e {
      case Caller(x) => if !s.callers[x].Counting? { SectionRefines(s, x); }
      case Work(wake) => WorkRefines(s, wake);
      case _ =>
    }
    LosesWhenFull(s, e);
  }

  lemma LosesWhenFull<V>(s: State<V>, e: Event<V>)
    requires s.core.cap > 0 && Enabled(s, e)
    ensures Means(s, e) != [] && F.Loses(Means(s, e)[0]) ==> |s.core.queue| == s.core.cap
  {
  }

  lemma SettingsStay<V>(s: State<V>, e: Event<V>)
    requires s.core.cap > 0 && Enabled(s, e)
    ensures Step(s, e).core.policy == s.core.policy && Step(s, e).core.cap == s.core.cap
  {
  }

  // ----- runs -----

  ghost predicate Allowed<V>(s: State<V>, es: seq<Event<V>>)
    decreases |es|
  {
    es == [] || (s.core.cap > 0 && Enabled(s, es[0]) && Allowed(Step(s, es[0]), es[1..]))
  }

  ghost function Exec<V>(s: State<V>, es: seq<Event<V>>): State<V>
    requires Allowed(s, es)
    decreases |es|
  {
    if es == [] then s else Exec(Step(s, es[0]), es[1..])
  }

  /** What a run does to the bounded queue. */
  ghost function Trace<V>(s: State<V>, es: seq<Event<V>>): seq<F.Event<V>>
    requires Allowed(s, es)
    decreases |es|
  {
    if es == [] then [] else Means(s, es[0]) + Trace(Step(s, es[0]), es[1..])
  }

  /** Every run is a run of the bounded queue. */
  lemma {:induction false} RunRefines<V>(s: State<V>, es: seq<Event<V>>)
    requires Inv(s) && Allowed(s, es)
    ensures Inv(Exec(s, es)) && Exec(s, es).core.policy == s.core.policy && Exec(s, es).core.cap == s.core.cap
    ensures F.CanAll(Abs(s), Trace(s, es)) && Abs(Exec(s, es)) == F.ApplyAll(Abs(s), Trace(s, es))
    decreases |es|
  {
    if es != [] {
      StepKeepsInv(s, es[0]);
      SettingsStay(s, es[0]);
      Refines(s, es[0]);
      RunRefines(Step(s, es[0]), es[1..]);
      F.AllAppend(Abs(s), Means(s, es[0]), Trace(Step(s, es[0]), es[1..]));
    }
  }

  // ----- the counter -----

  /** A loss that its caller has still to count. */
  ghost function Uncounted<V>(c: Caller<V>): nat {
    if c.Counting? then 1 else 0
  }

  ghost function Uncounteds<V>(callers: seq<Caller<V>>): seq<nat> {
    seq(|callers|, i requires 0 <= i < |callers| => Uncounted(callers[i]))
  }

  /** The records the queue has given up are those lost and those about to be counted. */
  ghost predicate Counted<V>(s: State<V>) {
    F.Losses(Abs(s)) == |s.lost| + Sum(Uncounteds(s.callers))
  }

  lemma OneUncounted<V>(callers: seq<Caller<V>>, x: nat, c: Caller<V>)
    requires x < |callers|
    ensures Sum(Uncounteds(callers[x := c])) + Uncounted(callers[x]) == Sum(Uncounteds(callers)) + Uncounted(c)
  {
    var w := Uncounted(c);
    assert Uncounteds(callers[x := c]) == Uncounteds(callers)[x := w];
    SumUpdate(Uncounteds(callers), x, w);
  }

  lemma CallerCounts<V>(s: State<V>, x: nat)
    requires s.core.cap > 0 && Enabled(s, Caller(x))
    ensures var s' := Step(s, Caller(x));
            && s'.callers == s.callers[x := s'.callers[x]]
            && |s'.lost| + Uncounted(s'.callers[x])
               == |s.lost| + Uncounted(s.callers[x]) + F.LossCount(Means(s, Caller(x)))
  {
    if !s.callers[x].Counting? {
      var c := s.callers[x].c;
      match Ends(s, x) {
        case Stored => F.LossOfOne(F.Push(c));
        case StoredEvicting => F.LossOfTwo(F.Evict, F.Push(c));
        case DroppedNewest => F.LossOfOne(F.Reject(c));
        case _ =>
      }
    }
  }

  lemma WorkCounts<V>(s: State<V>, wake: Option<nat>)
    requires s.core.cap > 0 && Enabled(s, Work(wake))
    ensures var s' := Step(s, Work(wake));
            && Uncounteds(s'.callers) == Uncounteds(s.callers) && s'.lost == s.lost
            && F.LossCount(Means(s, Work(wake))) == 0
  {
    F.LossOfOne<V>(F.Pop(false));
    assert Uncounteds(Step(s, Work(wake)).callers) == Uncounteds(s.callers);
  }

  /** A step changes what is lost or about to be counted by the records the queue gives up. */
  lemma StepUncounted<V>(s: State<V>, e: Event<V>)
    requires s.core.cap > 0 && Enabled(s, e)
    ensures var s' := Step(s, e);
            |s'.lost| + Sum(Uncounteds(s'.callers)) == |s.lost| + Sum(Uncounteds(s.callers)) + F.LossCount(Means(s, e))
  {
    match e {
      case Dispatch(x, v) => OneUncounted(s.callers, x, Locking(v));
      case Caller(x) => CallerCounts(s, x); OneUncounted(s.callers, x, Step(s, e).callers[x]);
      case Work(wake) => WorkCounts(s, wake);
      case Close => assert Uncounteds(Step(s, e).callers) == Uncounteds(s.callers);
      case CloseReturns =>
    }
  }

  lemma StepCounts<V>(s: State<V>, e: Event<V>)
    requires Inv(s) && Enabled(s, e) && Counted(s)
    ensures Counted(Step(s, e))
  {
    Refines(s, e);
    F.LossesOfAll(Abs(s), Means(s, e));
    StepUncounted(s, e);
  }

  lemma {:induction false} RunCounts<V>(s: State<V>, es: seq<Event<V>>)
    requires Inv(s) && Allowed(s, es) && Counted(s)
    ensures Counted(Exec(s, es))
    decreases |es|
  {
    if es != [] {
      StepKeepsInv(s, es[0]);
      StepCounts(s, es[0]);
      RunCounts(Step(s, es[0]), es[1..]);
    }
  }

  lemma InitialCounted<V>(cap: nat, policy: Policy, callers: nat)
    ensures Counted(Initial<V>(cap, policy, callers))
  {
    SumOfNothing(Uncounteds(Initial<V>(cap, policy, callers).callers));
  }

  /** Every run, with any number of callers and Close at any time: each record is in exactly
      one place, the run is one of the bounded queue, the counter is the losses of that
      queue but for those about to be counted, Block loses nothing, records are refused
      only once the transport is closed, nobody waits on a closed transport, and when Close
      returns the ring is empty and the worker has exited. */
  lemma EveryRun<V>(cap: nat, policy: Policy, callers: nat, es: seq<Event<V>>)
    requires cap >= 2 && Allowed(Initial<V>(cap, policy, callers), es)
    ensures var s0 := Initial<V>(cap, policy, callers);
            var s := Exec(s0, es);
            && multiset(s.offered) == Total(AllHeld(s.callers)) + multiset(s.core.queue) + multiset(InHand(s.worker))
                                      + multiset(s.emitted) + multiset(s.lost) + multiset(s.refused)
            && F.CanAll(Abs(s0), Trace(s0, es)) && Abs(s) == F.ApplyAll(Abs(s0), Trace(s0, es))
            && Abs(s).Valid() && s.core.queue == Abs(s).Queue() && |s.core.queue| <= cap
            && s.emitted <= F.DeliveredOf(s.entered, s.fates)
            && s.core.dropped == |s.lost| && F.Losses(Abs(s)) == |s.lost| + Sum(Uncounteds(s.callers))
            && (policy.Block? ==> s.lost == [])
            && (!s.core.closed ==> s.refused == [])
            && (s.core.closed ==> !SomeoneWaits(s.callers))
            && (s.closer.Returned? ==> s.core.queue == [] && s.worker.Exited?)
  {
    var s0 := Initial<V>(cap, policy, callers);
    InitialInv<V>(cap, policy, callers);
    InitialCounted<V>(cap, policy, callers);
    RunRefines(s0, es);
    RunCounts(s0, es);
  }

  // ----- the end of a run -----

  ghost predicate Settled<V>(s: State<V>) {
    forall x :: 0 <= x < |s.callers| ==> s.callers[x].Ready?
  }

  /** Once every call has returned the counter is the losses of the queue; if Close has
      returned too, every record was emitted, counted as dropped, or refused. */
  lemma SettledRun<V>(cap: nat, policy: Policy, callers: nat, es: seq<Event<V>>)
    requires cap >= 2 && Allowed(Initial<V>(cap, policy, callers), es)
    requires Settled(Exec(Initial<V>(cap, policy, callers), es))
    ensures var s := Exec(Initial<V>(cap, policy, callers), es);
            && s.core.dropped == |s.lost| == F.Losses(Abs(s))
            && (s.closer.Returned? ==>
                  && multiset(s.offered) == multiset(s.emitted) + multiset(s.lost) + multiset(s.refused)
                  && |s.offered| == |s.emitted| + s.core.dropped + |s.refused|
                  && (policy.Block? ==> s.core.dropped == 0))
  {
    EveryRun(cap, policy, callers, es);
    var s := Exec(Initial<V>(cap, policy, callers), es);
    SumOfNothing(Uncounteds(s.callers));
    if s.closer.Returned? {
      TotalOfNothing(AllHeld(s.callers));
      assert |multiset(s.offered)| == |multiset(s.emitted) + multiset(s.lost) + multiset(s.refused)|;
    }
  }

  /** Close is called when every Dispatch has returned, and none follows it. */
  ghost predicate OrderlyRun<V>(s: State<V>, es: seq<Event<V>>)
    requires Allowed(s, es)
    decreases |es|
  {
    es == [] ||
    (&& (es[0].Close? ==> Settled(s))
     && (es[0].Dispatch? ==> s.closer.Open?)
     && OrderlyRun(Step(s, es[0]), es[1..]))
  }

  ghost predicate Quiet<V>(s: State<V>) {
    s.refused == [] && (!s.closer.Open? ==> Settled(s))
  }

  lemma OrderlyStep<V>(s: State<V>, e: Event<V>)
    requires s.core.cap > 0 && Enabled(s, e) && Quiet(s) && NoLostWakeup(s)
    requires (e.Close? ==> Settled(s)) && (e.Dispatch? ==> s.closer.Open?)
    ensures Quiet(Step(s, e))
  {
    if e.Caller? { CallerPlaces(s, e.x); }
  }

  lemma {:induction false} OrderlySettles<V>(s: State<V>, es: seq<Event<V>>)
    requires Inv(s) && Allowed(s, es) && OrderlyRun(s, es) && Quiet(s)
    ensures Quiet(Exec(s, es))
    decreases |es|
  {
    if es != [] {
      StepKeepsInv(s, es[0]);
      OrderlyStep(s, es[0]);
      OrderlySettles(Step(s, es[0]), es[1..]);
    }
  }

  /** When all Dispatch calls return before Close is called, none is refused, Close returns
      with the ring empty, and every record has been emitted or counted as dropped; under
      Block every one has been emitted. */
  lemma CloseLosesNothing<V>(cap: nat, policy: Policy, callers: nat, es: seq<Event<V>>)
    requires cap >= 2 && Allowed(Initial<V>(cap, policy, callers), es)
    requires OrderlyRun(Initial<V>(cap, policy, callers), es)
    requires Exec(Initial<V>(cap, policy, callers), es).closer.Returned?
    ensures var s := Exec(Initial<V>(cap, policy, callers), es);
            && Settled(s) && s.core.queue == [] && s.refused == []
            && multiset(s.offered) == multiset(s.emitted) + multiset(s.lost)
            && |s.offered| == |s.emitted| + s.core.dropped
            && (policy.Block? ==> s.core.dropped == 0)
  {
    InitialInv<V>(cap, policy, callers);
    OrderlySettles(Initial<V>(cap, policy, callers), es);
    SettledRun(cap, policy, callers, es);
    EveryRun(cap, policy, callers, es);
  }

  // ----- after Close -----

  lemma ClosedStep<V>(s: State<V>, e: Event<V>)
    requires s.core.closed && s.core.cap > 0 && Enabled(s, e)
    ensures var s' := Step(s, e);
            && s'.core.closed && s'.core.cap == s.core.cap && s'.entered == s.entered && s'.rejected == s.rejected
            && (s'.fates == s.fates || s'.fates == s.fates + [F.Delivered])
            && (s'.core.queue == s.core.queue || (s.core.queue != [] && s'.core.queue == s.core.queue[1..]))
  {
  }

  /** Once the ring is closed nothing enters it, nothing is turned away, and what is in it
      leaves for the sink only. */
  lemma {:induction false} NothingEntersClosed<V>(s: State<V>, es: seq<Event<V>>)
    requires s.core.closed && s.core.cap > 0 && Allowed(s, es)
    ensures var s' := Exec(s, es);
            && s'.core.closed && s'.entered == s.entered && s'.rejected == s.rejected
            && F.Evictions(s'.fates) == F.Evictions(s.fates)
            && |s'.core.queue| <= |s.core.queue|
            && s'.core.queue == s.core.queue[|s.core.queue| - |s'.core.queue|..]
    decreases |es|
  {
    if es != [] {
      var s1 := Step(s, es[0]);
      ClosedStep(s, es[0]);
      if s1.fates != s.fates { assert s1.fates[..|s.fates|] == s.fates; }
      NothingEntersClosed(s1, es[1..]);
      SuffixOfTail(s.core.queue, s1.core.queue, Exec(s1, es[1..]).core.queue);
    }
  }

  lemma SuffixOfTail<V>(a: seq<V>, b: seq<V>, c: seq<V>)
    requires b == a || (a != [] && b == a[1..])
    requires |c| <= |b| && c == b[|b| - |c|..]
    ensures |c| <= |a| && c == a[|a| - |c|..]
  {
  }

  /** A Dispatch that finds the ring closed is refused. */
  lemma LateIsRefused<V>(s: State<V>, x: nat)
    requires s.core.closed && s.core.cap > 0 && x < |s.callers| && (s.callers[x].Locking? || s.callers[x].Woken?)
    ensures var s' := Step(s, Caller(x)); s'.refused == s.refused + [s.callers[x].c] && s'.callers[x].Ready?
  {
  }

  // ----- per-producer order -----

  /** The records passed to Dispatch by caller x, in order. */
  ghost function OffersOf<V>(es: seq<Event<V>>, x: nat): seq<V> {
    if es == [] then [] else OfferOf(es[0], x) + OffersOf(es[1..], x)
  }

  ghost function OfferOf<V>(e: Event<V>, x: nat): seq<V> {
    if e.Dispatch? && e.x == x then [e.v] else []
  }

  /** The record a call may still put into the ring. */
  ghost function Placing<V>(c: Caller<V>): seq<V> {
    if c.Ready? || c.Counting? then [] else [c.c]
  }

  ghost predicate InOrder<V>(s: State<V>, x: nat, asked: seq<V>) {
    x < |s.callers| && Placed(s.entered, s.enteredBy, Placing(s.callers[x]), x, asked)
  }

  /** What a critical section does to the queue and to its caller. */
  lemma CallerPlaces<V>(s: State<V>, y: nat)
    requires s.core.cap > 0 && Enabled(s, Caller(y))
    ensures var s', p := Step(s, Caller(y)), Placing(s.callers[y]);
            && s'.callers == s.callers[y := s'.callers[y]]
            && if s'.entered == s.entered then s'.enteredBy == s.enteredBy && Placing(s'.callers[y]) in {p, []}
               else && s'.entered == s.entered + [s.callers[y].c] && s'.enteredBy == s.enteredBy + [y]
                    && p == [s.callers[y].c] && Placing(s'.callers[y]) == []
  {
  }

  lemma CallerInOrder<V>(s: State<V>, y: nat, x: nat, asked: seq<V>)
    requires s.core.cap > 0 && Enabled(s, Caller(y)) && InOrder(s, x, asked)
    ensures InOrder(Step(s, Caller(y)), x, asked)
  {
    var s', p := Step(s, Caller(y)), Placing(s.callers[x]);
    CallerPlaces(s, y);
    if s'.entered == s.entered {
      GivesUp(s.entered, s.enteredBy, p, x, asked);
    } else {
      Enters(s.entered, s.enteredBy, s.callers[y].c, y, p, Placing(s'.callers[x]), x, asked);
    }
  }

  lemma StepInOrder<V>(s: State<V>, e: Event<V>, x: nat, asked: seq<V>)
    requires s.core.cap > 0 && Enabled(s, e) && InOrder(s, x, asked)
    ensures InOrder(Step(s, e), x, asked + OfferOf(e, x))
  {
    assert asked + [] == asked;
    if e.Caller? {
      CallerInOrder(s, e.x, x, asked);
    } else if e.Dispatch? && e.x == x {
      Asks(s.entered, s.enteredBy, x, e.v, asked);
    } else {
      assert Placing(Step(s, e).callers[x]) == Placing(s.callers[x]);
    }
  }

  lemma {:induction false} RunInOrder<V>(s: State<V>, es: seq<Event<V>>, x: nat, asked: seq<V>)
    requires Allowed(s, es) && InOrder(s, x, asked)
    ensures InOrder(Exec(s, es), x, asked + OffersOf(es, x))
    decreases |es|
  {
    if es == [] {
      assert asked + [] == asked;
    } else {
      StepInOrder(s, es[0], x, asked);
      RunInOrder(Step(s, es[0]), es[1..], x, asked + OfferOf(es[0], x));
      Associate(asked, OfferOf(es[0], x), OffersOf(es[1..], x));
    }
  }

  /** Under every policy and schedule, what one caller contributes to the ring and to the
      sink is in the order in which that caller dispatched it. */
  lemma ProducersInOrder<V>(cap: nat, policy: Policy, callers: nat, es: seq<Event<V>>, x: nat)
    requires cap >= 2 && Allowed(Initial<V>(cap, policy, callers), es) && x < callers
    ensures var s := Exec(Initial<V>(cap, policy, callers), es);
            ProducerOrder(s.entered, s.enteredBy, s.fates, s.emitted, x, OffersOf(es, x))
  {
    var s0 := Initial<V>(cap, policy, callers);
    InitialInv<V>(cap, policy, callers);
    RunRefines(s0, es);
    assert Placed<V>([], [], [], x, []);
    RunInOrder(s0, es, x, []);
    var s := Exec(s0, es);
    assert [] + OffersOf(es, x) == OffersOf(es, x);
    OrderOfEmitted(s.entered, s.enteredBy, s.fates, s.emitted, Placing(s.callers[x]), x, OffersOf(es, x));
  }

  // ----- progress -----

  /** Somebody is still owed something: a Dispatch or Close under way, or a record on
      its way to the sink. */
  ghost predicate Pending<V>(s: State<V>) {
    || (exists x :: 0 <= x < |s.callers| && !s.callers[x].Ready?)
    || s.core.queue != []
    || s.worker.Emitting?
    || s.closer.Waits?
  }

  /** No reachable state is deadlocked with work pending. */
  lemma NoDeadlock<V>(s: State<V>) returns (e: Event<V>)
    requires Inv(s) && Pending(s)
    ensures Enabled(s, e) && Internal(e)
  {
    if x :| 0 <= x < |s.callers| && (s.callers[x].Locking? || s.callers[x].Woken? || s.callers[x].Counting?) {
      e := Caller(x);
    } else if s.worker.Emitting? {
      e := Work(None);
    } else if s.worker.AtLock? || s.worker.Roused? {
      if s.core.queue != [] && SomeoneWaits(s.callers) {
        var y :| 0 <= y < |s.callers| && s.callers[y].Waiting?;
        e := Work(Some(y));
      } else {
        e := Work(None);
      }
    } else {
      NobodyOnTheirWay(s.callers);
      assert !SomeoneWaits(s.callers);
      e := CloseReturns;
    }
  }

  lemma {:induction false} NobodyOnTheirWay<V>(callers: seq<Caller<V>>)
    requires forall x :: 0 <= x < |callers| ==> !callers[x].Woken?
    ensures Sum(Wakes(callers)) == 0
  {
    if callers != [] {
      assert Wakes(callers)[1..] == Wakes(callers[1..]);
      NobodyOnTheirWay(callers[1..]);
    }
  }

  ghost function Effort<V>(c: Caller<V>): nat {
    match c
    case Ready => 0
    case Counting(_) => 1
    case Waiting(_) => 5
    case Woken(_) => 6
    case Locking(_) => 7
  }

  ghost function Efforts<V>(callers: seq<Caller<V>>): seq<nat> {
    seq(|callers|, i requires 0 <= i < |callers| => Effort(callers[i]))
  }

  /** An upper bound on the steps still to come if nobody calls Dispatch or Close. */
  ghost function Measure<V>(s: State<V>): nat {
    Sum(Efforts(s.callers)) + 4 * |s.core.queue|
    + (if s.worker.Emitting? then 2 else if s.worker.AtLock? || s.worker.Roused? then 1 else 0)
    + (if s.closer.Waits? then 1 else 0)
  }

  lemma OneCallerEffort<V>(callers: seq<Caller<V>>, x: nat, c: Caller<V>)
    requires x < |callers|
    ensures Sum(Efforts(callers[x := c])) + Effort(callers[x]) == Sum(Efforts(callers)) + Effort(c)
  {
    var w := Effort(c);
    assert Efforts(callers[x := c]) == Efforts(callers)[x := w];
    SumUpdate(Efforts(callers), x, w);
  }

  lemma CallerStepsDown<V>(s: State<V>, x: nat)
    requires s.core.cap > 0 && Enabled(s, Caller(x))
    ensures Measure(Step(s, Caller(x))) < Measure(s)
  {
    var s' := Step(s, Caller(x));
    assert s'.callers == s.callers[x := s'.callers[x]];
    OneCallerEffort(s.callers, x, s'.callers[x]);
  }

  lemma WorkStepsDown<V>(s: State<V>, wake: Option<nat>)
    requires s.core.cap > 0 && Enabled(s, Work(wake))
    ensures Measure(Step(s, Work(wake))) < Measure(s)
  {
    if wake.Some? { OneCallerEffort(s.callers, wake.value, Woken(s.callers[wake.value].c)); }
  }

  lemma InternalStepsDown<V>(s: State<V>, e: Event<V>)
    requires s.core.cap > 0 && Enabled(s, e) && Internal(e)
    ensures Measure(Step(s, e)) < Measure(s)
  {
    match e {
      case Caller(x) => CallerStepsDown(s, x);
      case Work(wake) => WorkStepsDown(s, wake);
      case CloseReturns =>
    }
  }

  /** Left alone, the transport comes to rest: whatever the scheduler does, at most
      Measure(s) steps happen, and it can only stop once every Dispatch has returned,
      every record has reached the sink, and a called Close has returned. */
  lemma {:induction false} EverythingFinishes<V>(s: State<V>, es: seq<Event<V>>)
    requires Inv(s) && Allowed(s, es) && (forall i :: 0 <= i < |es| ==> Internal(es[i]))
    ensures |es| <= Measure(s)
    ensures (forall e :: Internal(e) ==> !Enabled(Exec(s, es), e)) ==> !Pending(Exec(s, es))
    decreases |es|
  {
    if es == [] {
      if Pending(s) { var e := NoDeadlock(s); }
    } else {
      StepKeepsInv(s, es[0]);
      InternalStepsDown(s, es[0]);
      EverythingFinishes(Step(s, es[0]), es[1..]);
    }
  }
}
