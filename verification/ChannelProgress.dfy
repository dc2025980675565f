/** The bounded-channel transport comes to rest when nobody calls it. */
module ChannelProgress {
  import opened Sums
  import opened ChannelTransport
  import opened ChannelRuns

  predicate Internal<V>(e: Event<V>) {
    e.Caller? || e.Work? || e.CloseReturns?
  }

  /** A call that has neither returned nor panicked. */
  predicate UnderWay<V>(c: Caller<V>) {
    !c.Ready? && !c.Panicked?
  }

  /** Somebody is still owed something: a Dispatch or Close under way, or a record on
      its way to the sink. */
  ghost predicate Pending<V>(s: State<V>) {
    || (exists x :: 0 <= x < |s.callers| && UnderWay(s.callers[x]))
    || s.queue != []
    || s.worker.Emitting?
    || s.closer.Waits?
  }

  /** No reachable state is deadlocked with work pending. */
  lemma NoDeadlock<V>(s: State<V>) returns (e: Event<V>)
    requires Inv(s) && Pending(s)
    ensures Enabled(s, e) && Internal(e)
  {
    if x :| 0 <= x < |s.callers| && UnderWay(s.callers[x]) {
      e := if Enabled(s, Caller(x)) then Caller(x) else Work;
    } else if s.closer.Waits? && s.worker.Exited? {
      e := CloseReturns;
    } else {
      e := Work;
    }
  }

  // ----- a bound on the steps to come -----

  /** A select on the send would find the channel full. */
  predicate Jammed<V>(s: State<V>) {
    !s.Closed() && |s.queue| >= s.cap
  }

  /** What a call still has to do, k being the weight of its being under way at all. Going
      round the loop of DropOldest is paid for by the record evicted, or by the channel
      no longer being full. */
  function Effort<V>(c: Caller<V>, k: nat, jammed: bool): nat {
    match c
    case Ready => 0
    case Panicked(_) => 0
    case Sending(_) => k
    case Counting(_) => k + 2
    case TrySend(_) => k + if jammed then 5 else 1
    case TryEvict(_) => k + 4
    case CountEvicted(_, victim) => k + if victim.Some? then 6 else 3
  }

  ghost function Efforts<V>(callers: seq<Caller<V>>, k: nat, jammed: bool): seq<nat> {
    seq(|callers|, i requires 0 <= i < |callers| => Effort(callers[i], k, jammed))
  }

  function Weight<V>(s: State<V>): nat {
    4 * |s.callers| + 5
  }

  ghost function Toil<V>(s: State<V>): nat {
    Sum(Efforts(s.callers, Weight(s), Jammed(s)))
  }

  /** An upper bound on the steps still to come if nobody calls Dispatch or Close. */
  ghost function Measure<V>(s: State<V>): nat {
    Toil(s) + 4 * |s.queue|
    + (if s.worker.Emitting? then 2 else if s.worker.Receiving? then 1 else 0)
    + (if s.closer.Waits? then 1 else 0)
  }

  lemma OneCallerEffort<V>(callers: seq<Caller<V>>, x: nat, c: Caller<V>, k: nat, jammed: bool)
    requires x < |callers|
    ensures Sum(Efforts(callers[x := c], k, jammed)) + Effort(callers[x], k, jammed)
         == Sum(Efforts(callers, k, jammed)) + Effort(c, k, jammed)
  {
    var w := Effort(c, k, jammed);
    assert Efforts(callers[x := c], k, jammed) == Efforts(callers, k, jammed)[x := w];
    SumUpdate(Efforts(callers, k, jammed), x, w);
  }

  lemma {:induction false} SumWithin(ws: seq<nat>, ws': seq<nat>, d: nat)
    requires |ws| == |ws'| && forall i :: 0 <= i < |ws| ==> ws[i] <= ws'[i] <= ws[i] + d
    ensures Sum(ws) <= Sum(ws') <= Sum(ws) + d * |ws|
  {
    if ws != [] {
      SumWithin(ws[1..], ws'[1..], d);
      assert d * |ws| == d * |ws[1..]| + d;
    }
  }

  /** A channel that fills up makes at most four more steps necessary for each call. */
  lemma JamCosts<V>(callers: seq<Caller<V>>, k: nat)
    ensures Sum(Efforts(callers, k, false)) <= Sum(Efforts(callers, k, true))
         <= Sum(Efforts(callers, k, false)) + 4 * |callers|
  {
    SumWithin(Efforts(callers, k, false), Efforts(callers, k, true), 4);
  }

  /** What a step of a caller does to what it has to do and to the queue. */
  lemma CallerPays<V>(s: State<V>, x: nat)
    requires Enabled(s, Caller(x)) && s.cap >= 1 && |s.queue| <= s.cap && CallerInv(s.policy, s.callers[x])
    requires s.callers[x].CountEvicted? && s.callers[x].victim.None? ==> s.Closed()
    ensures var s', k := CallerStep(s, x), Weight(s);
            var before, after := Effort(s.callers[x], k, Jammed(s')), Effort(s'.callers[x], k, Jammed(s'));
            && s'.callers == s.callers[x := s'.callers[x]] && s'.worker == s.worker && s'.closer == s.closer
            && (|| (s'.queue == s.queue && after < before)
                || (|s'.queue| == |s.queue| - 1 && !Jammed(s') && after == before + 2)
                || (|s'.queue| == |s.queue| + 1 && !Jammed(s) && after == 0 && before >= k))
  {
  }

  lemma CallerStepsDown<V>(s: State<V>, x: nat)
    requires PolicyKept(s) && |s.queue| <= s.cap && Enabled(s, Caller(x))
    ensures Measure(Step(s, Caller(x))) < Measure(s)
  {
    var s', k := CallerStep(s, x), Weight(s);
    assert CallerInv(s.policy, s.callers[x]);
    CallerPays(s, x);
    ToilAfter(s.callers, x, s'.callers[x], k, Jammed(s), Jammed(s'));
  }

  lemma ToilAfter<V>(callers: seq<Caller<V>>, x: nat, c: Caller<V>, k: nat, jammed: bool, jammed': bool)
    requires x < |callers|
    ensures Sum(Efforts(callers[x := c], k, jammed')) + Effort(callers[x], k, jammed')
         <= Sum(Efforts(callers, k, jammed)) + Effort(c, k, jammed') + if jammed' && !jammed then 4 * |callers| else 0
  {
    OneCallerEffort(callers, x, c, k, jammed');
    JamCosts(callers, k);
  }

  lemma WorkStepsDown<V>(s: State<V>)
    requires Inv(s) && Enabled(s, Work)
    ensures Measure(Step(s, Work)) < Measure(s)
  {
    JamCosts(s.callers, Weight(s));
  }

  lemma InternalStepsDown<V>(s: State<V>, e: Event<V>)
    requires Inv(s) && Enabled(s, e) && Internal(e)
    ensures Measure(Step(s, e)) < Measure(s)
  {
    match e {
      case Caller(x) => CallerStepsDown(s, x);
      case Work => WorkStepsDown(s);
      case CloseReturns =>
    }
  }

  /** Left alone, the transport comes to rest, the loop of DropOldest included: whatever the
      scheduler does, at most Measure(s) steps happen, and it can only stop once every
      Dispatch has returned or panicked, every record has reached the sink, and a called
      Close has returned. */
  lemma {:induction false} EverythingFinishes<V>(s: State<V>, es: seq<Event<V>>)
    requires Inv(s) && Allowed(s, es) && (forall i :: 0 <= i < |es| ==> Internal(es[i]))
    ensures |es| <= Measure(s)
    ensures (forall e :: Internal(e) ==> !Enabled(Exec(s, es), e)) ==> !Pending(Exec(s, es))
    decreases |es|
  {
    if es == [] {
      if Pending(s) { var e := NoDeadlock(s); }
    } else {
      StepKeepsInv(s, es[0]);
      InternalStepsDown(s, es[0]);
      EverythingFinishes(Step(s, es[0]), es[1..]);
    }
  }
}
