/** Any number of Dispatch calls, the worker and Close around the mutex of
    `RingTransport`. A critical section is one step; waiting on a condition variable,
    being signalled, and getting the lock back are steps of their own. */
module RingSteps {
  import opened Common
  import opened RingTransport
  import opened Sums
  import F = BoundedFifo

  datatype Caller<V> =
    | Ready                // not in Dispatch
    | Locking(c: V)        // about to take the lock
    | Waiting(c: V)        // waiting on notFull, not signalled
    | Woken(c: V)          // signalled, about to take the lock back
    | Counting(c: V)       // dropped as newest, about to add to the counter

  datatype Worker<V> = AtLock | Sleeping | Roused | Emitting(r: V) | Exited

  datatype Closer = Open | Waits | Returned

  /** `entered`, `enteredBy`, `fates`, `rejected`, `offered`, `emitted`, `lost` and
      `refused` record the past: the records stored, by whom, and how they left, those
      dropped as newest, passed to Dispatch, given to the sink, counted as given up, and
      turned away because the transport was closed. */
  datatype State<V> = State(
    core: Core<V>,
    callers: seq<Caller<V>>,
    worker: Worker<V>,
    closer: Closer,
    entered: seq<V>,
    enteredBy: seq<nat>,
    fates: seq<F.Fate>,
    rejected: seq<V>,
    offered: seq<V>,
    emitted: seq<V>,
    lost: seq<V>,
    refused: seq<V>)

  function Initial<V>(cap: nat, policy: Policy, callers: nat): State<V> {
    State(Core(cap, policy, [], false, 0), seq(callers, _ => Ready), AtLock, Open,
          [], [], [], [], [], [], [], [])
  }

  /** `wake` is the waiter a signal on notFull reaches, if there is one. */
  datatype Event<V> =
    | Dispatch(x: nat, v: V)
    | Caller(x: nat)
    | Work(wake: Option<nat>)
    | Close
    | CloseReturns

  predicate Internal<V>(e: Event<V>) {
    e.Caller? || e.Work? || e.CloseReturns?
  }

  predicate SomeoneWaits<V>(callers: seq<Caller<V>>) {
    exists y :: 0 <= y < |callers| && callers[y].Waiting?
  }

  predicate Enabled<V>(s: State<V>, e: Event<V>) {
    match e
    case Dispatch(x, _) => x < |s.callers| && s.callers[x].Ready?
    case Caller(x) => x < |s.callers| && (s.callers[x].Locking? || s.callers[x].Woken? || s.callers[x].Counting?)
    case Work(wake) =>
      match s.worker {
        case Sleeping => false
        case Exited => false
        case Emitting(_) => wake == None
        case _ =>
          if s.core.queue != [] && SomeoneWaits(s.callers)
          then wake.Some? && wake.value < |s.callers| && s.callers[wake.value].Waiting?
          else wake == None
      }
    case Close => s.closer.Open?
    case CloseReturns => s.closer.Waits? && s.worker.Exited?
  }

  /** Dispatch's critical section by caller x; a store signals notEmpty. */
  function CallerSection<V>(s: State<V>, x: nat): State<V>
    requires s.core.cap > 0 && x < |s.callers| && (s.callers[x].Locking? || s.callers[x].Woken?)
  {
    var c := s.callers[x].c;
    var (core, o) := if s.callers[x].Locking? then Enter(s.core, c) else Resume(s.core, c);
    var s1 := s.(core := core);
    match o
    case Refused => s1.(callers := s.callers[x := Ready], refused := s.refused + [c])
    case MustWait => s1.(callers := s.callers[x := Waiting(c)])
    case DroppedNewest => s1.(callers := s.callers[x := Counting(c)], rejected := s.rejected + [c])
    case Stored => Signalled(s1, x).(entered := s.entered + [c], enteredBy := s.enteredBy + [x])
    case StoredEvicting =>
      Signalled(s1, x).(entered := s.entered + [c], enteredBy := s.enteredBy + [x], fates := s.fates + [F.Evicted], lost := s.lost + [s.core.queue[0]])
  }

  function Signalled<V>(s: State<V>, x: nat): State<V>
    requires x < |s.callers|
  {
    s.(callers := s.callers[x := Ready], worker := if s.worker.Sleeping? then Roused else s.worker)
  }

  function WorkerStep<V>(s: State<V>, wake: Option<nat>): State<V>
    requires Enabled(s, Work(wake))
  {
    if s.worker.Emitting? then s.(emitted := s.emitted + [s.worker.r], worker := AtLock)
    else
      var (core, p) := Take(s.core);
      match p
      case Sleep => s.(core := core, worker := Sleeping)
      case Exit => s.(core := core, worker := Exited)
      case Got(r) =>
        s.(core := core, worker := Emitting(r), fates := s.fates + [F.Delivered],
           callers := if wake.Some? then s.callers[wake.value := Woken(s.callers[wake.value].c)] else s.callers)
  }

  function Broadcast<V>(callers: seq<Caller<V>>): (r: seq<Caller<V>>)
    ensures |r| == |callers|
    ensures forall i :: 0 <= i < |r| ==>
              r[i] == if callers[i].Waiting? then Woken(callers[i].c) else callers[i]
  {
    seq(|callers|, i requires 0 <= i < |callers| =>
      if callers[i].Waiting? then Woken(callers[i].c) else callers[i])
  }

  function Step<V>(s: State<V>, e: Event<V>): State<V>
    requires Enabled(s, e) && s.core.cap > 0
  {
    match e
    case Dispatch(x, v) => s.(callers := s.callers[x := Locking(v)], offered := s.offered + [v])
    case Caller(x) =>
      if s.callers[x].Counting? then
        s.(callers := s.callers[x := Ready], core := s.core.(dropped := s.core.dropped + 1),
           lost := s.lost + [s.callers[x].c])
      else CallerSection(s, x)
    case Work(wake) => WorkerStep(s, wake)
    case Close =>
      s.(core := s.core.(closed := true), closer := Waits, callers := Broadcast(s.callers),
         worker := if s.worker.Sleeping? then Roused else s.worker)
    case CloseReturns => s.(closer := Returned)
  }

  // ----- the invariant -----

  /** The bounded queue a state stands for. */
  ghost function Abs<V>(s: State<V>): F.Fifo<V> {
    F.Fifo(s.core.cap, s.core.policy, s.entered, s.fates, s.rejected, {}, {})
  }

  ghost function InHand<V>(w: Worker<V>): seq<V> {
    if w.Emitting? then [w.r] else []
  }

  ghost function Held<V>(c: Caller<V>): multiset<V> {
    if c.Ready? then multiset{} else multiset{c.c}
  }

  ghost function AllHeld<V>(callers: seq<Caller<V>>): seq<multiset<V>> {
    seq(|callers|, i requires 0 <= i < |callers| => Held(callers[i]))
  }

  ghost function OnItsWay<V>(c: Caller<V>): nat {
    if c.Woken? then 1 else 0
  }

  ghost function Wakes<V>(callers: seq<Caller<V>>): seq<nat> {
    seq(|callers|, i requires 0 <= i < |callers| => OnItsWay(callers[i]))
  }

  /** A waiting caller that no signal has reached implies that the records queued and
      the callers already on their way are enough to fill the ring. */
  ghost predicate NoLostWakeup<V>(s: State<V>) {
    && (SomeoneWaits(s.callers) ==> !s.core.closed && |s.core.queue| + Sum(Wakes(s.callers)) >= s.core.cap)
    && (s.worker.Sleeping? ==> s.core.queue == [] && !s.core.closed)
    && (s.worker.Exited? ==> s.core.queue == [] && s.core.closed)
    && (s.core.closed <==> !s.closer.Open?)
    && (s.closer.Returned? ==> s.worker.Exited?)
  }

  ghost predicate Conserved<V>(s: State<V>) {
    multiset(s.offered)
    == Total(AllHeld(s.callers)) + multiset(s.core.queue) + multiset(InHand(s.worker))
       + multiset(s.emitted) + multiset(s.lost) + multiset(s.refused)
  }

  ghost predicate Fifo<V>(s: State<V>) {
    && Abs(s).Valid()
    && s.core.queue == Abs(s).Queue()
    && F.DeliveredOf(s.entered, s.fates) == s.emitted + InHand(s.worker)
  }

  ghost predicate PolicyKept<V>(s: State<V>) {
    && s.core.cap >= 2
    && |s.enteredBy| == |s.entered|
    && s.core.dropped == |s.lost|
    && (s.core.policy.Block? ==> s.lost == [])
    && (forall x :: 0 <= x < |s.callers| ==>
          && (s.callers[x].Counting? ==> s.core.policy.DropNewest?)
          && (s.callers[x].Waiting? || s.callers[x].Woken? ==> s.core.policy.Block?))
    && (s.refused != [] ==> s.core.closed)
  }

  ghost predicate Inv<V>(s: State<V>) {
    PolicyKept(s) && Fifo(s) && NoLostWakeup(s) && Conserved(s)
  }

  lemma InitialInv<V>(cap: nat, policy: Policy, callers: nat)
    requires cap >= 2
    ensures Inv(Initial<V>(cap, policy, callers))
  {
    var s := Initial<V>(cap, policy, callers);
    TotalOfNothing(AllHeld(s.callers));
  }

  lemma OneCallerHeld<V>(callers: seq<Caller<V>>, x: nat, c: Caller<V>)
    requires x < |callers|
    ensures Total(AllHeld(callers[x := c])) + Held(callers[x]) == Total(AllHeld(callers)) + Held(c)
  {
    var m := Held(c);
    assert AllHeld(callers[x := c]) == AllHeld(callers)[x := m];
    TotalUpdate(AllHeld(callers), x, m);
  }

  lemma OneCallerWakes<V>(callers: seq<Caller<V>>, x: nat, c: Caller<V>)
    requires x < |callers|
    ensures Sum(Wakes(callers[x := c])) + OnItsWay(callers[x]) == Sum(Wakes(callers)) + OnItsWay(c)
  {
    var w := OnItsWay(c);
    assert Wakes(callers[x := c]) == Wakes(callers)[x := w];
    SumUpdate(Wakes(callers), x, w);
  }

  /** Moving one copy of a record between two of the places keeps the sum. */
  lemma Moves<V>(t: multiset<V>, q: multiset<V>, i: multiset<V>, e: multiset<V>, l: multiset<V>, r: multiset<V>, c: V)
    ensures var all := (t + multiset{c}) + q + i + e + l + r;
            && all == t + (q + multiset{c}) + i + e + l + r
            && all == t + q + i + e + (l + multiset{c}) + r
            && all == t + q + i + e + l + (r + multiset{c})
            && all == t + q + i + e + l + r + multiset{c}
  {
  }

  lemma EvictMoves<V>(t: multiset<V>, t': multiset<V>, q: multiset<V>, i: multiset<V>, e: multiset<V>, l: multiset<V>,
                      r: multiset<V>, c: V, front: V)
    requires t == t' + multiset{c}
    ensures t + (multiset{front} + q) + i + e + l + r
         == t' + (q + multiset{c}) + i + e + (l + multiset{front}) + r
  {
  }

  /** Caller x gives up its record c and is done. */
  lemma CallerDone<V>(s: State<V>, x: nat)
    requires x < |s.callers| && !s.callers[x].Ready?
    ensures Total(AllHeld(s.callers)) == Total(AllHeld(s.callers[x := Ready])) + multiset{s.callers[x].c}
  {
    OneCallerHeld(s.callers, x, Ready);
  }

  lemma CallerStays<V>(s: State<V>, x: nat, l: Caller<V>)
    requires x < |s.callers| && !s.callers[x].Ready? && !l.Ready? && l.c == s.callers[x].c
    ensures Total(AllHeld(s.callers[x := l])) == Total(AllHeld(s.callers))
  {
    assert AllHeld(s.callers[x := l]) == AllHeld(s.callers);
  }

  /** What a critical section does to the places a record can be in. */
  lemma SectionMoves<V>(s: State<V>, x: nat)
    requires s.core.cap >= 2 && x < |s.callers| && (s.callers[x].Locking? || s.callers[x].Woken?)
    ensures var s', c := CallerSection(s, x), s.callers[x].c;
            && s'.offered == s.offered && s'.emitted == s.emitted && InHand(s'.worker) == InHand(s.worker)
            && s'.callers == s.callers[x := s'.callers[x]]
            && match Ends(s, x)
               case Refused => s'.callers[x] == Ready && s'.core.queue == s.core.queue && s'.lost == s.lost && s'.refused == s.refused + [c]
               case MustWait => s'.callers[x] == Waiting(c) && s'.core.queue == s.core.queue && s'.lost == s.lost && s'.refused == s.refused
               case DroppedNewest => s'.callers[x] == Counting(c) && s'.core.queue == s.core.queue && s'.lost == s.lost && s'.refused == s.refused
               case Stored => s'.callers[x] == Ready && s'.core.queue == s.core.queue + [c] && s'.lost == s.lost && s'.refused == s.refused
               case StoredEvicting =>
                 s'.callers[x] == Ready && s.core.queue != [] && s'.core.queue == s.core.queue[1..] + [c]
                 && s'.lost == s.lost + [s.core.queue[0]] && s'.refused == s.refused
  {
  }

  lemma EvictingConserves<V>(s: State<V>, x: nat)
    requires Conserved(s) && s.core.cap >= 2 && x < |s.callers| && (s.callers[x].Locking? || s.callers[x].Woken?)
    requires Ends(s, x).StoredEvicting?
    ensures Conserved(CallerSection(s, x))
  {
    SectionMoves(s, x);
    EvictedConserves(s, CallerSection(s, x), x);
  }

  lemma EvictedConserves<V>(s: State<V>, s': State<V>, x: nat)
    requires Conserved(s) && x < |s.callers| && !s.callers[x].Ready? && s'.callers == s.callers[x := Ready]
    requires s'.offered == s.offered && s'.emitted == s.emitted && InHand(s'.worker) == InHand(s.worker)
    requires s.core.queue != [] && s'.core.queue == s.core.queue[1..] + [s.callers[x].c]
    requires s'.lost == s.lost + [s.core.queue[0]] && s'.refused == s.refused
    ensures Conserved(s')
  {
    var c, front, rest := s.callers[x].c, s.core.queue[0], s.core.queue[1..];
    CallerDone(s, x);
    Rotated(s.core.queue, c);
    EvictMoves(Total(AllHeld(s.callers)), Total(AllHeld(s'.callers)), multiset(rest), multiset(InHand(s.worker)),
               multiset(s.emitted), multiset(s.lost), multiset(s.refused), c, front);
  }

  lemma Rotated<V>(q: seq<V>, c: V)
    requires q != []
    ensures multiset(q) == multiset{q[0]} + multiset(q[1..]) && multiset(q[1..] + [c]) == multiset(q[1..]) + multiset{c}
  {
    assert q == [q[0]] + q[1..];
  }

  lemma SectionConserves<V>(s: State<V>, x: nat)
    requires Conserved(s) && s.core.cap >= 2 && x < |s.callers| && (s.callers[x].Locking? || s.callers[x].Woken?)
    requires !Ends(s, x).StoredEvicting?
    ensures Conserved(CallerSection(s, x))
  {
    var s', c := CallerSection(s, x), s.callers[x].c;
    SectionMoves(s, x);
    if s'.callers[x].Ready? {
      CallerDone(s, x);
      Moves(Total(AllHeld(s'.callers)), multiset(s.core.queue), multiset(InHand(s.worker)),
            multiset(s.emitted), multiset(s.lost), multiset(s.refused), c);
    } else {
      CallerStays(s, x, s'.callers[x]);
    }
  }

  lemma CallerConserves<V>(s: State<V>, x: nat)
    requires Inv(s) && Enabled(s, Caller(x))
    ensures Conserved(Step(s, Caller(x)))
  {
    if s.callers[x].Counting? {
      CallerDone(s, x);
      Moves(Total(AllHeld(s.callers[x := Ready])), multiset(s.core.queue), multiset(InHand(s.worker)),
            multiset(s.emitted), multiset(s.lost), multiset(s.refused), s.callers[x].c);
    } else if Ends(s, x).StoredEvicting? {
      EvictingConserves(s, x);
    } else {
      SectionConserves(s, x);
    }
  }

  lemma DispatchConserves<V>(s: State<V>, x: nat, v: V)
    requires Conserved(s) && s.core.cap > 0 && Enabled(s, Dispatch(x, v))
    ensures Conserved(Step(s, Dispatch(x, v)))
  {
    OneCallerHeld(s.callers, x, Locking(v));
    Moves(Total(AllHeld(s.callers)), multiset(s.core.queue), multiset(InHand(s.worker)),
          multiset(s.emitted), multiset(s.lost), multiset(s.refused), v);
  }

  lemma DispatchKeepsInv<V>(s: State<V>, x: nat, v: V)
    requires Inv(s) && Enabled(s, Dispatch(x, v))
    ensures Inv(Step(s, Dispatch(x, v)))
  {
    DispatchPolicy(s, x, v);
    DispatchWakeups(s, x, v);
    DispatchConserves(s, x, v);
    SameFifo(s, Step(s, Dispatch(x, v)));
  }

  lemma DispatchPolicy<V>(s: State<V>, x: nat, v: V)
    requires PolicyKept(s) && Enabled(s, Dispatch(x, v))
    ensures PolicyKept(Step(s, Dispatch(x, v)))
  {
  }

  lemma DispatchWakeups<V>(s: State<V>, x: nat, v: V)
    requires NoLostWakeup(s) && s.core.cap > 0 && Enabled(s, Dispatch(x, v))
    ensures NoLostWakeup(Step(s, Dispatch(x, v)))
  {
    OneCallerWakes(s.callers, x, Locking(v));
  }

  /** A step that leaves the queue and the worker's hand alone. */
  lemma SameFifo<V>(s: State<V>, s': State<V>)
    requires Fifo(s) && Abs(s') == Abs(s) && s'.core.queue == s.core.queue
    requires s'.emitted == s.emitted && InHand(s'.worker) == InHand(s.worker)
    ensures Fifo(s')
  {
  }

  /** How caller x's critical section ends in state s. */
  function Ends<V>(s: State<V>, x: nat): Outcome
    requires s.core.cap > 0 && x < |s.callers| && (s.callers[x].Locking? || s.callers[x].Woken?)
  {
    var c := s.callers[x].c;
    if s.callers[x].Locking? then Enter(s.core, c).1 else Resume(s.core, c).1
  }

  lemma EvictingFifo<V>(s: State<V>, x: nat)
    requires Fifo(s) && s.core.cap >= 2 && x < |s.callers| && (s.callers[x].Locking? || s.callers[x].Woken?)
    requires Ends(s, x).StoredEvicting?
    ensures Fifo(CallerSection(s, x))
  {
    var s', c := CallerSection(s, x), s.callers[x].c;
    F.DeliveredIgnoresTail(s.entered, [c], s.fates);
    F.DeliveredSnoc(s.entered + [c], s.fates, F.Evicted);
    assert s'.core.queue == (s.entered + [c])[|s.fates| + 1..];
  }

  lemma StoredFifo<V>(s: State<V>, x: nat)
    requires Fifo(s) && s.core.cap >= 2 && x < |s.callers| && (s.callers[x].Locking? || s.callers[x].Woken?)
    requires Ends(s, x).Stored?
    ensures Fifo(CallerSection(s, x))
  {
    var s', c := CallerSection(s, x), s.callers[x].c;
    F.DeliveredIgnoresTail(s.entered, [c], s.fates);
    assert s'.core.queue == (s.entered + [c])[|s.fates|..];
  }

  /** A section that stores nothing leaves the queue alone. */
  lemma UnstoredFifo<V>(s: State<V>, x: nat)
    requires Fifo(s) && s.core.cap >= 2 && x < |s.callers| && (s.callers[x].Locking? || s.callers[x].Woken?)
    requires !Ends(s, x).Stored? && !Ends(s, x).StoredEvicting?
    ensures Fifo(CallerSection(s, x))
  {
  }

  lemma SectionFifo<V>(s: State<V>, x: nat)
    requires Fifo(s) && s.core.cap >= 2 && x < |s.callers| && (s.callers[x].Locking? || s.callers[x].Woken?)
    ensures Fifo(CallerSection(s, x))
  {
    if Ends(s, x).StoredEvicting? {
      EvictingFifo(s, x);
    } else if Ends(s, x).Stored? {
      StoredFifo(s, x);
    } else {
      UnstoredFifo(s, x);
    }
  }

  lemma SectionPolicy<V>(s: State<V>, x: nat)
    requires PolicyKept(s) && x < |s.callers| && (s.callers[x].Locking? || s.callers[x].Woken?)
    ensures PolicyKept(CallerSection(s, x))
  {
  }

  lemma CountingFifo<V>(s: State<V>, x: nat)
    requires PolicyKept(s) && Fifo(s) && x < |s.callers| && s.callers[x].Counting?
    ensures Fifo(Step(s, Caller(x))) && PolicyKept(Step(s, Caller(x)))
  {
  }

  lemma CallerWakeups<V>(s: State<V>, x: nat)
    requires PolicyKept(s) && NoLostWakeup(s) && |s.core.queue| <= s.core.cap && Enabled(s, Caller(x))
    ensures NoLostWakeup(Step(s, Caller(x)))
  {
    var s' := Step(s, Caller(x));
    assert s'.callers == s.callers[x := s'.callers[x]];
    OneCallerWakes(s.callers, x, s'.callers[x]);
    if SomeoneWaits(s'.callers) && !s'.callers[x].Waiting? {
      var y :| 0 <= y < |s'.callers| && s'.callers[y].Waiting?;
      assert s.callers[y].Waiting?;
    }
  }

  lemma CallerKeepsInv<V>(s: State<V>, x: nat)
    requires Inv(s) && Enabled(s, Caller(x))
    ensures Inv(Step(s, Caller(x)))
  {
    CallerConserves(s, x);
    CallerWakeups(s, x);
    if s.callers[x].Counting? {
      CountingFifo(s, x);
    } else {
      SectionFifo(s, x);
      SectionPolicy(s, x);
    }
  }

  // ----- the worker and Close -----

  lemma EmitKeepsInv<V>(s: State<V>)
    requires Inv(s) && s.worker.Emitting?
    ensures Inv(Step(s, Work(None)))
  {
    var r := s.worker.r;
    Moves(Total(AllHeld(s.callers)), multiset(s.core.queue), multiset{}, multiset(s.emitted), multiset(s.lost), multiset(s.refused), r);
    EmitMoves(Total(AllHeld(s.callers)), multiset(s.core.queue), multiset(s.emitted), multiset(s.lost), multiset(s.refused), r);
    assert multiset([r]) == multiset{r};
  }

  lemma EmitMoves<V>(t: multiset<V>, q: multiset<V>, e: multiset<V>, l: multiset<V>, r: multiset<V>, v: V)
    ensures t + q + multiset{v} + e + l + r == t + q + multiset{} + (e + multiset{v}) + l + r
    ensures t + (multiset{v} + q) + multiset{} + e + l + r == t + q + multiset{v} + e + l + r
  {
  }

  lemma TakeConserves<V>(s: State<V>, wake: Option<nat>)
    requires Inv(s) && Enabled(s, Work(wake)) && !s.worker.Emitting? && s.core.queue != []
    ensures Conserved(Step(s, Work(wake)))
  {
    var s' := Step(s, Work(wake));
    var front, rest := s.core.queue[0], s.core.queue[1..];
    assert s.core.queue == [front] + rest;
    assert AllHeld(s'.callers) == AllHeld(s.callers);
    EmitMoves(Total(AllHeld(s.callers)), multiset(rest), multiset(s.emitted), multiset(s.lost), multiset(s.refused), front);
  }

  /** Taking a record makes room for one more, and signals one more. */
  lemma TakeWakeups<V>(s: State<V>, wake: Option<nat>)
    requires NoLostWakeup(s) && s.core.cap > 0 && Enabled(s, Work(wake)) && !s.worker.Emitting? && s.core.queue != []
    ensures NoLostWakeup(Step(s, Work(wake)))
  {
    var s' := Step(s, Work(wake));
    if SomeoneWaits(s'.callers) {
      var y :| 0 <= y < |s'.callers| && s'.callers[y].Waiting?;
      assert s.callers[y].Waiting?;
      assert SomeoneWaits(s.callers);
      OneCallerWakes(s.callers, wake.value, Woken(s.callers[wake.value].c));
      assert |s'.core.queue| == |s.core.queue| - 1;
    }
  }

  /** s' is s after the worker has taken the head. */
  ghost predicate Took<V>(s: State<V>, s': State<V>) {
    && s.core.queue != [] && s'.core == s.core.(queue := s.core.queue[1..]) && s'.worker == Emitting(s.core.queue[0])
    && s'.entered == s.entered && s'.fates == s.fates + [F.Delivered] && s'.rejected == s.rejected
    && s'.emitted == s.emitted
  }

  lemma TookFifo<V>(s: State<V>, s': State<V>)
    requires Fifo(s) && !s.worker.Emitting? && Took(s, s')
    ensures Fifo(s')
  {
    assert s.core.queue[0] == s.entered[|s.fates|];
    assert s'.core.queue == s.entered[|s.fates| + 1..];
    F.DeliveredSnoc(s.entered, s.fates, F.Delivered);
    assert s.emitted + [] == s.emitted;
  }

  lemma TakeFifo<V>(s: State<V>, wake: Option<nat>)
    requires Fifo(s) && s.core.cap > 0 && Enabled(s, Work(wake)) && !s.worker.Emitting? && s.core.queue != []
    ensures Fifo(Step(s, Work(wake)))
  {
    assert Took(s, Step(s, Work(wake)));
    TookFifo(s, Step(s, Work(wake)));
  }

  lemma TakePolicy<V>(s: State<V>, wake: Option<nat>)
    requires PolicyKept(s) && Enabled(s, Work(wake)) && !s.worker.Emitting? && s.core.queue != []
    ensures PolicyKept(Step(s, Work(wake)))
  {
  }

  lemma TakeKeepsInv<V>(s: State<V>, wake: Option<nat>)
    requires Inv(s) && Enabled(s, Work(wake)) && !s.worker.Emitting? && s.core.queue != []
    ensures Inv(Step(s, Work(wake)))
  {
    TakeConserves(s, wake);
    TakeWakeups(s, wake);
    TakeFifo(s, wake);
    TakePolicy(s, wake);
  }

  lemma CloseKeepsInv<V>(s: State<V>)
    requires Inv(s) && s.closer.Open?
    ensures Inv(Step(s, Close))
  {
    ClosePolicy(s);
    CloseConserves(s);
    CloseWakeups(s);
    SameFifo(s, Step(s, Close));
  }

  lemma ClosePolicy<V>(s: State<V>)
    requires PolicyKept(s) && Enabled(s, Close)
    ensures PolicyKept(Step(s, Close))
  {
  }

  lemma CloseWakeups<V>(s: State<V>)
    requires NoLostWakeup(s) && s.core.cap > 0 && Enabled(s, Close)
    ensures NoLostWakeup(Step(s, Close))
  {
  }

  lemma CloseConserves<V>(s: State<V>)
    requires Conserved(s) && s.core.cap > 0 && Enabled(s, Close)
    ensures Conserved(Step(s, Close))
  {
    var s' := Step(s, Close);
    SameHeld(s.callers, s'.callers);
  }

  lemma SameHeld<V>(a: seq<Caller<V>>, b: seq<Caller<V>>)
    requires |a| == |b| && forall x :: 0 <= x < |a| ==> Held(a[x]) == Held(b[x])
    ensures AllHeld(a) == AllHeld(b)
  {
  }

  lemma WorkKeepsInv<V>(s: State<V>, wake: Option<nat>)
    requires Inv(s) && Enabled(s, Work(wake))
    ensures Inv(Step(s, Work(wake)))
  {
    if s.worker.Emitting? {
      EmitKeepsInv(s);
    } else if s.core.queue != [] {
      TakeKeepsInv(s, wake);
    }
  }

  /** Every step keeps the order, the accounting and the absence of lost wake-ups. */
  lemma StepKeepsInv<V>(s: State<V>, e: Event<V>)
    requires Inv(s) && Enabled(s, e)
    ensures Inv(Step(s, e))
  {
    match e {
      case Dispatch(x, v) => DispatchKeepsInv(s, x, v);
      case Caller(x) => CallerKeepsInv(s, x);
      case Work(wake) => WorkKeepsInv(s, wake);
      case Close => CloseKeepsInv(s);
      case CloseReturns =>
    }
  }
}
