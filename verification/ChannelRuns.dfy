/** Whole runs of the bounded-channel transport. */
module ChannelRuns {
  import opened Common
  import opened Sums
  import opened Order
  import opened ChannelTransport
  import F = BoundedFifo

  // ----- refinement -----

  /** What a step does to the bounded queue. */
  ghost function Means<V>(s: State<V>, e: Event<V>): seq<F.Event<V>>
    requires Enabled(s, e)
  {
    match e
    case Caller(x) =>
      (match s.callers[x]
       case Sending(c) => if s.Closed() then [] else [F.Push(c)]
       case TrySend(c) =>
         if s.Closed() then []
         else if |s.queue| < s.cap then [F.Push(c)]
         else if s.policy.DropOldest? then [F.SeeFull(x)]
         else [F.Reject(c)]
       case TryEvict(c) => if s.queue != [] then [F.Late(x, false)] else [F.Forget(x)]
       case _ => [])
    case Work => if !s.worker.Emitting? && s.queue != [] then [F.Pop(false)] else []
    case _ => []
  }

  lemma OwedUpdate<V>(callers: seq<Caller<V>>, x: nat, c: Caller<V>)
    requires x < |callers|
    ensures Owed(callers[x := c]) == if c.TryEvict? then Owed(callers) + {x} else Owed(callers) - {x}
  {
  }

  lemma SentRefines<V>(s: State<V>, x: nat, c: V)
    requires Inv(s) && x < |s.callers| && !s.callers[x].TryEvict? && !s.Closed() && |s.queue| < s.cap
    ensures F.CanAll(Abs(s), [F.Push(c)])
    ensures Abs(Sent(s, x, c)) == F.ApplyAll(Abs(s), [F.Push(c)])
  {
    OwedUpdate(s.callers, x, Ready);
    F.AllOfOne(Abs(s), F.Push(c));
  }

  lemma FullRefines<V>(s: State<V>, x: nat)
    requires Inv(s) && Enabled(s, Caller(x)) && s.callers[x].TrySend? && !s.Closed() && |s.queue| == s.cap
    ensures F.CanAll(Abs(s), Means(s, Caller(x)))
    ensures Abs(CallerStep(s, x)) == F.ApplyAll(Abs(s), Means(s, Caller(x)))
  {
    var c := s.callers[x].c;
    assert CallerInv(s.policy, s.callers[x]);
    FullStep(s, x);
    F.FullMeansCap(Abs(s));
    OwedUpdate(s.callers, x, CallerStep(s, x).callers[x]);
    if s.policy.DropOldest? { F.AllOfOne(Abs(s), F.SeeFull(x)); } else { F.AllOfOne(Abs(s), F.Reject(c)); }
  }

  lemma SendRefines<V>(s: State<V>, x: nat)
    requires Inv(s) && Enabled(s, Caller(x)) && (s.callers[x].Sending? || s.callers[x].TrySend?)
    ensures F.CanAll(Abs(s), Means(s, Caller(x)))
    ensures Abs(CallerStep(s, x)) == F.ApplyAll(Abs(s), Means(s, Caller(x)))
  {
    var c := s.callers[x].c;
    if s.Closed() {
      PanicRefines(s, x);
    } else if |s.queue| < s.cap {
      assert Means(s, Caller(x)) == [F.Push(c)];
      StepIsSent(s, x);
      SentRefines(s, x, c);
    } else {
      FullRefines(s, x);
    }
  }

  lemma PanicRefines<V>(s: State<V>, x: nat)
    requires Enabled(s, Caller(x)) && (s.callers[x].Sending? || s.callers[x].TrySend?) && s.Closed()
    ensures Means(s, Caller(x)) == [] && Abs(CallerStep(s, x)) == Abs(s)
  {
    StepIsSent(s, x);
    OwedUpdate(s.callers, x, Panicked(s.callers[x].c));
  }

  lemma CountRefines<V>(s: State<V>, x: nat)
    requires Enabled(s, Caller(x)) && (s.callers[x].Counting? || s.callers[x].CountEvicted?)
    ensures Means(s, Caller(x)) == [] && Abs(CallerStep(s, x)) == Abs(s)
  {
    var s' := CallerStep(s, x);
    assert OnlyMoves(s, s', x) && s'.rejected == s.rejected;
    OwedUpdate(s.callers, x, s'.callers[x]);
  }

  lemma EvictRefines<V>(s: State<V>, x: nat)
    requires Inv(s) && Enabled(s, Caller(x)) && s.callers[x].TryEvict?
    ensures F.CanAll(Abs(s), Means(s, Caller(x)))
    ensures Abs(CallerStep(s, x)) == F.ApplyAll(Abs(s), Means(s, Caller(x)))
  {
    var s' := CallerStep(s, x);
    assert CallerInv(s.policy, s.callers[x]);
    assert s'.callers == s.callers[x := s'.callers[x]];
    OwedUpdate(s.callers, x, s'.callers[x]);
    if s.queue != [] { F.AllOfOne(Abs(s), F.Late(x, false)); } else { F.AllOfOne(Abs(s), F.Forget(x)); }
  }

  lemma CallerRefines<V>(s: State<V>, x: nat)
    requires Inv(s) && Enabled(s, Caller(x))
    ensures F.CanAll(Abs(s), Means(s, Caller(x)))
    ensures Abs(CallerStep(s, x)) == F.ApplyAll(Abs(s), Means(s, Caller(x)))
  {
    var l := s.callers[x];
    if l.Sending? || l.TrySend? {
      SendRefines(s, x);
    } else if l.TryEvict? {
      EvictRefines(s, x);
    } else {
      CountRefines(s, x);
    }
  }

  /** Each step is at most one event of the bounded queue: an arrival while there is room,
      a departure of the head, a rejection by a full channel, a caller finding the channel
      full, or its eviction of the head. */
  lemma Refines<V>(s: State<V>, e: Event<V>)
    requires Inv(s) && Enabled(s, e)
    ensures F.CanAll(Abs(s), Means(s, e))
    ensures Abs(Step(s, e)) == F.ApplyAll(Abs(s), Means(s, e))
  {
    match e {
      case Dispatch(x, v) => OwedUpdate(s.callers, x, Step(s, e).callers[x]);
      case Caller(x) => CallerRefines(s, x);
      case Work => if Means(s, e) != [] { F.AllOfOne(Abs(s), F.Pop(false)); }
      case _ =>
    }
  }

  // ----- runs -----

  ghost predicate Allowed<V>(s: State<V>, es: seq<Event<V>>)
    decreases |es|
  {
    es == [] || (Enabled(s, es[0]) && Allowed(Step(s, es[0]), es[1..]))
  }

  ghost function Exec<V>(s: State<V>, es: seq<Event<V>>): State<V>
    requires Allowed(s, es)
    decreases |es|
  {
    if es == [] then s else Exec(Step(s, es[0]), es[1..])
  }

  /** What a run does to the bounded queue. */
  ghost function Trace<V>(s: State<V>, es: seq<Event<V>>): seq<F.Event<V>>
    requires Allowed(s, es)
    decreases |es|
  {
    if es == [] then [] else Means(s, es[0]) + Trace(Step(s, es[0]), es[1..])
  }

  lemma SettingsStay<V>(s: State<V>, e: Event<V>)
    requires Enabled(s, e)
    ensures Step(s, e).policy == s.policy && Step(s, e).cap == s.cap && |Step(s, e).callers| == |s.callers|
  {
  }

  /** Every run is a run of the bounded queue. */
  lemma {:induction false} RunRefines<V>(s: State<V>, es: seq<Event<V>>)
    requires Inv(s) && Allowed(s, es)
    ensures Inv(Exec(s, es)) && Exec(s, es).policy == s.policy && Exec(s, es).cap == s.cap
    ensures F.CanAll(Abs(s), Trace(s, es)) && Abs(Exec(s, es)) == F.ApplyAll(Abs(s), Trace(s, es))
    decreases |es|
  {
    if es != [] {
      StepKeepsInv(s, es[0]);
      SettingsStay(s, es[0]);
      Refines(s, es[0]);
      RunRefines(Step(s, es[0]), es[1..]);
      F.AllAppend(Abs(s), Means(s, es[0]), Trace(Step(s, es[0]), es[1..]));
    }
  }

  // ----- the counter -----

  /** A loss that its caller has still to count. */
  ghost function Uncounted<V>(c: Caller<V>): nat {
    if c.Counting? || (c.CountEvicted? && c.victim.Some?) then 1 else 0
  }

  ghost function Uncounteds<V>(callers: seq<Caller<V>>): seq<nat> {
    seq(|callers|, i requires 0 <= i < |callers| => Uncounted(callers[i]))
  }

  /** The records the queue has given up are those lost and those about to be counted. */
  ghost predicate Counted<V>(s: State<V>) {
    F.Losses(Abs(s)) == |s.lost| + Sum(Uncounteds(s.callers))
  }

  lemma OneUncounted<V>(callers: seq<Caller<V>>, x: nat, c: Caller<V>)
    requires x < |callers|
    ensures Sum(Uncounteds(callers[x := c])) + Uncounted(callers[x]) == Sum(Uncounteds(callers)) + Uncounted(c)
  {
    var w := Uncounted(c);
    assert Uncounteds(callers[x := c]) == Uncounteds(callers)[x := w];
    SumUpdate(Uncounteds(callers), x, w);
  }

  lemma CallerCounts<V>(s: State<V>, x: nat)
    requires Enabled(s, Caller(x))
    ensures var s' := CallerStep(s, x);
            && s'.callers == s.callers[x := s'.callers[x]]
            && |s'.lost| + Uncounted(s'.callers[x])
               == |s.lost| + Uncounted(s.callers[x]) + F.LossCount(Means(s, Caller(x)))
  {
    if |Means(s, Caller(x))| == 1 {
      assert Means(s, Caller(x)) == [Means(s, Caller(x))[0]];
      F.LossOfOne(Means(s, Caller(x))[0]);
    }
  }

  /** A step changes what is lost or about to be counted by the records the queue gives up. */
  lemma StepUncounted<V>(s: State<V>, e: Event<V>)
    requires Enabled(s, e)
    ensures var s' := Step(s, e);
            |s'.lost| + Sum(Uncounteds(s'.callers)) == |s.lost| + Sum(Uncounteds(s.callers)) + F.LossCount(Means(s, e))
  {
    match e {
      case Dispatch(x, v) => OneUncounted(s.callers, x, Step(s, e).callers[x]);
      case Caller(x) => CallerCounts(s, x); OneUncounted(s.callers, x, CallerStep(s, x).callers[x]);
      case Work => F.LossOfOne<V>(F.Pop(false));
      case _ =>
    }
  }

  lemma StepCounts<V>(s: State<V>, e: Event<V>)
    requires Inv(s) && Enabled(s, e) && Counted(s)
    ensures Counted(Step(s, e))
  {
    Refines(s, e);
    F.LossesOfAll(Abs(s), Means(s, e));
    StepUncounted(s, e);
  }

  lemma {:induction false} RunCounts<V>(s: State<V>, es: seq<Event<V>>)
    requires Inv(s) && Allowed(s, es) && Counted(s)
    ensures Counted(Exec(s, es))
    decreases |es|
  {
    if es != [] {
      StepKeepsInv(s, es[0]);
      StepCounts(s, es[0]);
      RunCounts(Step(s, es[0]), es[1..]);
    }
  }

  lemma InitialCounted<V>(capacity: int, policy: Policy, callers: nat)
    ensures Counted(Initial<V>(capacity, policy, callers))
  {
    SumOfNothing(Uncounteds(Initial<V>(capacity, policy, callers).callers));
  }

  /** Every run: each record is in exactly one place, the run is one of the bounded queue,
      the counter equals the losses but for at most one phantom for each caller that is
      about to panic or has, Block drops nothing, and when Close returns the channel is
      empty and the worker has exited. */
  lemma EveryRun<V>(capacity: int, policy: Policy, callers: nat, es: seq<Event<V>>)
    requires Allowed(Initial<V>(capacity, policy, callers), es)
    ensures var s0 := Initial<V>(capacity, policy, callers);
            var s := Exec(s0, es);
            && multiset(s.offered) == Total(AllHeld(s.callers)) + multiset(s.queue) + multiset(InHand(s.worker))
                                      + multiset(s.emitted) + multiset(s.lost)
            && F.CanAll(Abs(s0), Trace(s0, es)) && Abs(s) == F.ApplyAll(Abs(s0), Trace(s0, es))
            && Abs(s).Valid() && s.queue == Abs(s).Queue() && |s.queue| <= s.cap
            && s.cap == (if capacity < 1 then 1024 else capacity)
            && s.emitted <= F.DeliveredOf(s.entered, s.fates)
            && s.dropped == |s.lost| + s.phantoms
            && F.Losses(Abs(s)) == |s.lost| + Sum(Uncounteds(s.callers))
            && s.phantoms <= Sum(Strandeds(s.callers))
            && (s.closer.Open? ==> s.phantoms == 0)
            && (policy.Block? ==> s.dropped == 0)
            && (s.closer.Returned? ==> s.queue == [] && s.worker.Exited?)
  {
    var s0 := Initial<V>(capacity, policy, callers);
    InitialInv<V>(capacity, policy, callers);
    InitialCounted<V>(capacity, policy, callers);
    RunRefines(s0, es);
    RunCounts(s0, es);
  }

  /** An eviction is by a caller that found the channel full before it, and evicted
      nothing for it since. */
  lemma EvictionsAreOwed<V>(capacity: int, policy: Policy, callers: nat, es: seq<Event<V>>, j: nat)
    requires Allowed(Initial<V>(capacity, policy, callers), es)
    requires var t := Trace(Initial<V>(capacity, policy, callers), es); j < |t| && t[j].Late?
    ensures var t := Trace(Initial<V>(capacity, policy, callers), es); exists i :: F.SawFullAt(t, t[j].x, i, j)
  {
    var s0 := Initial<V>(capacity, policy, callers);
    InitialInv<V>(capacity, policy, callers);
    RunRefines(s0, es);
    F.LossesAreOwed(Abs(s0), Trace(s0, es), j);
  }

  // ----- the end of a run -----

  ghost predicate Settled<V>(s: State<V>) {
    forall x :: 0 <= x < |s.callers| ==> s.callers[x].Ready?
  }

  /** Once every call has returned and none has panicked, the counter is the losses of the
      queue; if Close has returned too, every record was emitted or counted. */
  lemma SettledAccount<V>(s: State<V>)
    requires Inv(s) && Counted(s) && Settled(s)
    ensures s.dropped == |s.lost| == F.Losses(Abs(s))
    ensures s.closer.Returned? ==>
              && multiset(s.offered) == multiset(s.emitted) + multiset(s.lost)
              && |s.offered| == |s.emitted| + s.dropped
  {
    SumOfNothing(Strandeds(s.callers));
    SumOfNothing(Uncounteds(s.callers));
    if s.closer.Returned? {
      TotalOfNothing(AllHeld(s.callers));
      assert |multiset(s.offered)| == |multiset(s.emitted) + multiset(s.lost)|;
    }
  }

  lemma SettledRun<V>(capacity: int, policy: Policy, callers: nat, es: seq<Event<V>>)
    requires Allowed(Initial<V>(capacity, policy, callers), es)
    requires Settled(Exec(Initial<V>(capacity, policy, callers), es))
    ensures var s := Exec(Initial<V>(capacity, policy, callers), es);
            && s.dropped == |s.lost| == F.Losses(Abs(s))
            && (s.closer.Returned? ==>
                  && multiset(s.offered) == multiset(s.emitted) + multiset(s.lost)
                  && |s.offered| == |s.emitted| + s.dropped
                  && (policy.Block? ==> s.dropped == 0))
  {
    var s0 := Initial<V>(capacity, policy, callers);
    InitialInv<V>(capacity, policy, callers);
    InitialCounted<V>(capacity, policy, callers);
    RunRefines(s0, es);
    RunCounts(s0, es);
    SettledAccount(Exec(s0, es));
  }

  // ----- phantom drops -----

  /** A receive from a channel that is closed and empty. */
  predicate NilReceive<V>(s: State<V>, e: Event<V>) {
    e.Caller? && e.x < |s.callers| && s.callers[e.x].TryEvict? && s.Closed() && s.queue == []
  }

  ghost function NilReceives<V>(s: State<V>, es: seq<Event<V>>): nat
    requires Allowed(s, es)
    decreases |es|
  {
    if es == [] then 0 else (if NilReceive(s, es[0]) then 1 else 0) + NilReceives(Step(s, es[0]), es[1..])
  }

  /** A phantom drop that its caller has still to count. */
  ghost function Nil<V>(c: Caller<V>): nat {
    if c.CountEvicted? && c.victim.None? then 1 else 0
  }

  ghost function Nils<V>(callers: seq<Caller<V>>): seq<nat> {
    seq(|callers|, i requires 0 <= i < |callers| => Nil(callers[i]))
  }

  lemma OneNil<V>(callers: seq<Caller<V>>, x: nat, c: Caller<V>)
    requires x < |callers|
    ensures Sum(Nils(callers[x := c])) + Nil(callers[x]) == Sum(Nils(callers)) + Nil(c)
  {
    var w := Nil(c);
    assert Nils(callers[x := c]) == Nils(callers)[x := w];
    SumUpdate(Nils(callers), x, w);
  }

  lemma CallerNil<V>(s: State<V>, x: nat)
    requires Enabled(s, Caller(x))
    ensures var s' := CallerStep(s, x);
            && s'.callers == s.callers[x := s'.callers[x]]
            && s'.phantoms + Nil(s'.callers[x])
               == s.phantoms + Nil(s.callers[x]) + if NilReceive(s, Caller(x)) then 1 else 0
  {
  }

  lemma StepNil<V>(s: State<V>, e: Event<V>)
    requires Enabled(s, e)
    ensures var s' := Step(s, e);
            s'.phantoms + Sum(Nils(s'.callers))
            == s.phantoms + Sum(Nils(s.callers)) + if NilReceive(s, e) then 1 else 0
  {
    match e {
      case Dispatch(x, v) => OneNil(s.callers, x, Step(s, e).callers[x]);
      case Caller(x) => CallerNil(s, x); OneNil(s.callers, x, CallerStep(s, x).callers[x]);
      case _ =>
    }
  }

  lemma {:induction false} RunNil<V>(s: State<V>, es: seq<Event<V>>)
    requires Allowed(s, es)
    ensures var s' := Exec(s, es);
            s'.phantoms + Sum(Nils(s'.callers)) == s.phantoms + Sum(Nils(s.callers)) + NilReceives(s, es)
    decreases |es|
  {
    if es != [] {
      StepNil(s, es[0]);
      RunNil(Step(s, es[0]), es[1..]);
    }
  }

  /** No Dispatch call is under way: each has returned or panicked. */
  ghost predicate Quiescent<V>(s: State<V>) {
    forall x :: 0 <= x < |s.callers| ==> s.callers[x].Ready? || s.callers[x].Panicked?
  }

  /** In every run the counter is the records lost and the phantoms; with what is about to be
      counted, the former are the losses of the queue and the latter the receives from a
      closed and empty channel. */
  lemma CounterOfRun<V>(capacity: int, policy: Policy, callers: nat, es: seq<Event<V>>)
    requires Allowed(Initial<V>(capacity, policy, callers), es)
    ensures var s0 := Initial<V>(capacity, policy, callers);
            var s := Exec(s0, es);
            && s.dropped == |s.lost| + s.phantoms
            && F.Losses(Abs(s)) == |s.lost| + Sum(Uncounteds(s.callers))
            && NilReceives(s0, es) == s.phantoms + Sum(Nils(s.callers))
  {
    var s0 := Initial<V>(capacity, policy, callers);
    SumOfNothing(Nils(s0.callers));
    RunNil(s0, es);
    EveryRun(capacity, policy, callers, es);
  }

  /** Whenever no call is under way, whoever has panicked: the counter is the number of
      records lost exactly when nobody has received from a closed and empty channel, and
      otherwise it is too high by the number of those receives. */
  lemma CounterIsExact<V>(capacity: int, policy: Policy, callers: nat, es: seq<Event<V>>)
    requires Allowed(Initial<V>(capacity, policy, callers), es)
    requires Quiescent(Exec(Initial<V>(capacity, policy, callers), es))
    ensures var s0 := Initial<V>(capacity, policy, callers);
            var s := Exec(s0, es);
            && |s.lost| == F.Losses(Abs(s))
            && s.dropped == |s.lost| + NilReceives(s0, es)
            && (s.dropped == |s.lost| <==> NilReceives(s0, es) == 0)
  {
    CounterOfRun(capacity, policy, callers, es);
    NothingToCount(Exec(Initial<V>(capacity, policy, callers), es).callers);
  }

  lemma NothingToCount<V>(callers: seq<Caller<V>>)
    requires forall x :: 0 <= x < |callers| ==> callers[x].Ready? || callers[x].Panicked?
    ensures Sum(Uncounteds(callers)) == 0 && Sum(Nils(callers)) == 0
  {
    SumOfNothing(Uncounteds(callers));
    SumOfNothing(Nils(callers));
  }

  /** Close is called when every Dispatch has returned, and none follows it. */
  ghost predicate OrderlyRun<V>(s: State<V>, es: seq<Event<V>>)
    requires Allowed(s, es)
    decreases |es|
  {
    es == [] ||
    (&& (es[0].Close? ==> Settled(s))
     && (es[0].Dispatch? ==> s.closer.Open?)
     && OrderlyRun(Step(s, es[0]), es[1..]))
  }

  lemma {:induction false} OrderlySettles<V>(s: State<V>, es: seq<Event<V>>)
    requires Allowed(s, es) && OrderlyRun(s, es) && (s.Closed() ==> Settled(s))
    ensures Exec(s, es).Closed() ==> Settled(Exec(s, es))
    decreases |es|
  {
    if es != [] { OrderlySettles(Step(s, es[0]), es[1..]); }
  }

  /** When all Dispatch calls return before Close is called, nobody panics, Close returns
      with the channel empty, and every record has been emitted or counted as dropped;
      under Block every one has been emitted. */
  lemma CloseLosesNothing<V>(capacity: int, policy: Policy, callers: nat, es: seq<Event<V>>)
    requires Allowed(Initial<V>(capacity, policy, callers), es)
    requires OrderlyRun(Initial<V>(capacity, policy, callers), es)
    requires Exec(Initial<V>(capacity, policy, callers), es).closer.Returned?
    ensures var s := Exec(Initial<V>(capacity, policy, callers), es);
            && Settled(s) && s.queue == []
            && multiset(s.offered) == multiset(s.emitted) + multiset(s.lost)
            && |s.offered| == |s.emitted| + s.dropped
            && (policy.Block? ==> s.dropped == 0)
  {
    OrderlySettles(Initial<V>(capacity, policy, callers), es);
    SettledRun(capacity, policy, callers, es);
    EveryRun(capacity, policy, callers, es);
  }

  // ----- after Close -----

  /** Once the channel is closed nothing enters it and nothing is turned away. */
  lemma {:induction false} NothingEntersClosed<V>(s: State<V>, es: seq<Event<V>>)
    requires s.Closed() && Allowed(s, es)
    ensures var s' := Exec(s, es); s'.Closed() && s'.entered == s.entered && s'.rejected == s.rejected
    decreases |es|
  {
    if es != [] { NothingEntersClosed(Step(s, es[0]), es[1..]); }
  }

  /** A call that comes to send on it panics and keeps its record. */
  lemma LatePanics<V>(s: State<V>, x: nat)
    requires s.Closed() && Enabled(s, Caller(x)) && (s.callers[x].Sending? || s.callers[x].TrySend?)
    ensures Step(s, Caller(x)).callers[x] == Panicked(s.callers[x].c)
  {
  }

  // ----- per-producer order -----

  /** The records passed to Dispatch by caller x, in order. */
  ghost function OffersOf<V>(es: seq<Event<V>>, x: nat): seq<V> {
    if es == [] then [] else OfferOf(es[0], x) + OffersOf(es[1..], x)
  }

  ghost function OfferOf<V>(e: Event<V>, x: nat): seq<V> {
    if e.Dispatch? && e.x == x then [e.v] else []
  }

  /** The record a call may still put into the channel. */
  ghost function Placing<V>(c: Caller<V>): seq<V> {
    if c.Ready? || c.Counting? || c.Panicked? then [] else [c.c]
  }

  ghost predicate InOrder<V>(s: State<V>, x: nat, asked: seq<V>) {
    x < |s.callers| && Placed(s.entered, s.enteredBy, Placing(s.callers[x]), x, asked)
  }

  /** What a step of a caller does to the queue and to that caller. */
  lemma CallerPlaces<V>(s: State<V>, y: nat)
    requires Enabled(s, Caller(y))
    ensures var s', p := CallerStep(s, y), Placing(s.callers[y]);
            && s'.callers == s.callers[y := s'.callers[y]]
            && if s'.entered == s.entered then s'.enteredBy == s.enteredBy && Placing(s'.callers[y]) in {p, []}
               else && s'.entered == s.entered + [s.callers[y].c] && s'.enteredBy == s.enteredBy + [y]
                    && p == [s.callers[y].c] && Placing(s'.callers[y]) == []
  {
  }

  lemma CallerInOrder<V>(s: State<V>, y: nat, x: nat, asked: seq<V>)
    requires Enabled(s, Caller(y)) && InOrder(s, x, asked)
    ensures InOrder(Step(s, Caller(y)), x, asked)
  {
    var s', p := Step(s, Caller(y)), Placing(s.callers[x]);
    CallerPlaces(s, y);
    if s'.entered == s.entered {
      GivesUp(s.entered, s.enteredBy, p, x, asked);
    } else {
      Enters(s.entered, s.enteredBy, s.callers[y].c, y, p, Placing(s'.callers[x]), x, asked);
    }
  }

  lemma StepInOrder<V>(s: State<V>, e: Event<V>, x: nat, asked: seq<V>)
    requires Enabled(s, e) && InOrder(s, x, asked)
    ensures InOrder(Step(s, e), x, asked + OfferOf(e, x))
  {
    assert asked + [] == asked;
    if e.Caller? {
      CallerInOrder(s, e.x, x, asked);
    } else if e.Dispatch? && e.x == x {
      Asks(s.entered, s.enteredBy, x, e.v, asked);
    } else {
      assert Placing(Step(s, e).callers[x]) == Placing(s.callers[x]);
    }
  }

  lemma {:induction false} RunInOrder<V>(s: State<V>, es: seq<Event<V>>, x: nat, asked: seq<V>)
    requires Allowed(s, es) && InOrder(s, x, asked)
    ensures InOrder(Exec(s, es), x, asked + OffersOf(es, x))
    decreases |es|
  {
    if es == [] {
      assert asked + [] == asked;
    } else {
      StepInOrder(s, es[0], x, asked);
      RunInOrder(Step(s, es[0]), es[1..], x, asked + OfferOf(es[0], x));
      Associate(asked, OfferOf(es[0], x), OffersOf(es[1..], x));
    }
  }

  /** Under every policy and schedule, what one caller contributes to the channel and to
      the sink is in the order in which that caller dispatched it. */
  lemma ProducersInOrder<V>(capacity: int, policy: Policy, callers: nat, es: seq<Event<V>>, x: nat)
    requires Allowed(Initial<V>(capacity, policy, callers), es) && x < callers
    ensures var s := Exec(Initial<V>(capacity, policy, callers), es);
            ProducerOrder(s.entered, s.enteredBy, s.fates, s.emitted, x, OffersOf(es, x))
  {
    var s0 := Initial<V>(capacity, policy, callers);
    InitialInv<V>(capacity, policy, callers);
    RunRefines(s0, es);
    assert Placed<V>([], [], [], x, []);
    RunInOrder(s0, es, x, []);
    var s := Exec(s0, es);
    assert [] + OffersOf(es, x) == OffersOf(es, x);
    OrderOfEmitted(s.entered, s.enteredBy, s.fates, s.emitted, Placing(s.callers[x]), x, OffersOf(es, x));
  }

  // ----- two runs -----

  /** One worker and one caller up to the moment when the channel, of size `capacity` and
      holding the records vs, is full and the caller has found it so. */
  lemma {:induction false} FindsFull<V>(capacity: nat, vs: seq<V>, w: V) returns (es: seq<Event<V>>)
    requires capacity == |vs| >= 1
    ensures Allowed(Initial<V>(capacity, DropOldest, 1), es)
    ensures var s := Exec(Initial<V>(capacity, DropOldest, 1), es);
            && s.queue == vs && s.callers == [TryEvict(w)] && s.worker == Receiving && s.closer == Open
            && s.cap == capacity && s.policy == DropOldest && s.dropped == 0 && s.lost == [] && s.phantoms == 0
  {
    es := Fills(capacity, vs);
    var s0 := Initial<V>(capacity, DropOldest, 1);
    Afterwards(s0, es, Dispatch(0, w));
    Afterwards(s0, es + [Dispatch(0, w)], Caller(0));
    es := es + [Dispatch(0, w)] + [Caller(0)];
  }

  lemma {:induction false} Fills<V>(capacity: nat, vs: seq<V>) returns (es: seq<Event<V>>)
    requires 1 <= capacity && |vs| <= capacity
    ensures Allowed(Initial<V>(capacity, DropOldest, 1), es)
    ensures var s := Exec(Initial<V>(capacity, DropOldest, 1), es);
            && s.queue == vs && s.callers == [Ready] && s.worker == Receiving && s.closer == Open
            && s.cap == capacity && s.policy == DropOldest && s.dropped == 0 && s.lost == [] && s.phantoms == 0
  {
    if vs == [] {
      es := [];
    } else {
      var k := |vs| - 1;
      es := Fills(capacity, vs[..k]);
      var s0 := Initial<V>(capacity, DropOldest, 1);
      Afterwards(s0, es, Dispatch(0, vs[k]));
      Afterwards(s0, es + [Dispatch(0, vs[k])], Caller(0));
      es := es + [Dispatch(0, vs[k])] + [Caller(0)];
    }
  }

  lemma {:induction false} Afterwards<V>(s: State<V>, es: seq<Event<V>>, e: Event<V>)
    requires Allowed(s, es) && Enabled(Exec(s, es), e)
    ensures Allowed(s, es + [e]) && Exec(s, es + [e]) == Step(Exec(s, es), e)
    decreases |es|
  {
    if es == [] {
      assert (es + [e])[1..] == [];
    } else {
      Afterwards(Step(s, es[0]), es[1..], e);
      assert (es + [e])[1..] == es[1..] + [e];
    }
  }

  /** DropOldest can evict while there is room: between finding the channel full and
      receiving, the worker may have taken a record. */
  lemma EvictsWithRoom<V>(v: V, v': V, w: V) returns (es: seq<Event<V>>)
    ensures Allowed(Initial<V>(2, DropOldest, 1), es)
    ensures var s := Exec(Initial<V>(2, DropOldest, 1), es);
            && Enabled(s, Caller(0)) && Means(s, Caller(0)) == [F.Late(0, false)]
            && |s.queue| == 1 < s.cap
  {
    es := FindsFull(2, [v, v'], w);
    Afterwards(Initial<V>(2, DropOldest, 1), es, Work);
    es := es + [Work];
  }

  /** An eviction that caller x makes some time after the channel was full is one by a full
      channel exactly when, in between, as many records have arrived as have left. */
  lemma EvictionIsOverflow<V>(s: State<V>, es: seq<Event<V>>, x: nat)
    requires Inv(s) && |s.queue| == s.cap && Allowed(s, es)
    requires Enabled(Exec(s, es), Caller(x)) && Means(Exec(s, es), Caller(x)) == [F.Late(x, false)]
    ensures Abs(Exec(s, es)).Valid()
    ensures F.Can(Abs(Exec(s, es)), F.Evict) <==> F.Balance(Trace(s, es)) == 0
  {
    RunRefines(s, es);
    F.BalanceOfAll(Abs(s), Trace(s, es));
    OverflowNow(Exec(s, es), x);
  }

  lemma OverflowNow<V>(s: State<V>, x: nat)
    requires Inv(s) && Enabled(s, Caller(x)) && Means(s, Caller(x)) == [F.Late(x, false)]
    ensures Abs(s).Valid() && (F.Can(Abs(s), F.Evict) <==> |Abs(s).Queue()| == s.cap)
  {
    assert CallerInv(s.policy, s.callers[x]);
    F.FullMeansCap(Abs(s));
  }

  /** A drop that no record corresponds to: Close comes between finding the channel full and
      receiving, and the worker has emptied it. The caller then panics. */
  lemma CountsPhantom<V>(v: V, w: V) returns (es: seq<Event<V>>)
    ensures Allowed(Initial<V>(1, DropOldest, 1), es)
    ensures var s := Exec(Initial<V>(1, DropOldest, 1), es);
            s.dropped == 1 && s.lost == [] && s.phantoms == 1 && s.callers == [Panicked(w)] && Quiescent(s)
  {
    es := FindsFull(1, [v], w);
    var s0 := Initial<V>(1, DropOldest, 1);
    Afterwards(s0, es, Work); es := es + [Work];
    Afterwards(s0, es, Close); es := es + [Close];
    Afterwards(s0, es, Caller(0)); es := es + [Caller(0)];
    Afterwards(s0, es, Caller(0)); es := es + [Caller(0)];
    Afterwards(s0, es, Caller(0)); es := es + [Caller(0)];
  }
}
