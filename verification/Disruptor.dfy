/** The lock-free transport: any number of goroutines in `Dispatch`, one consumer in
    `run`, one call of `Close`, all on the queue of `Mpmc`. Thread 0 is the consumer.
    `Dispatch` never looks at `closed`. */
module Disruptor {
  import opened Common
  import opened Words
  import opened Mpmc
  import opened Sums
  import F = BoundedFifo

  /** What a thread is doing outside the queue. While inside an operation of the queue
      its location there tells the rest. */
  datatype Task<V> =
    | Ready                        // not in Dispatch
    | Sending(c: V)                // in enqueue(c)
    | CountNewest(c: V)            // enqueue failed, about to count c as dropped
    | Evicting(c: V)               // enqueue failed, in dequeue
    | CountOldest(c: V, victim: V) // evicted it, about to count it as dropped
    | Polling                      // consumer, in dequeue of the main loop
    | Emitting(r: V)
    | Checking                     // found nothing, about to load closed
    | Draining                     // in dequeue of the closing loop
    | EmittingLast(r: V)
    | Exited                       // done is closed

  datatype Closer = Open | Waiting | Returned

  /** `offered`, `emitted`, `rejected` and `lost` record the past: the records passed to
      Dispatch, to the sink, turned away by a full ring under DropNewest, and counted as
      given up. */
  datatype State<V> = State(
    q: Mpmc.State<V>,
    policy: Policy,
    tasks: seq<Task<V>>,
    dropped: nat,
    closer: Closer,
    offered: seq<V>,
    emitted: seq<V>,
    rejected: seq<V>,
    lost: seq<V>)
  {
    predicate Shaped() {
      q.Shaped() && |tasks| == |q.locs| && |tasks| >= 1
    }
  }

  function Initial<V>(n: nat, policy: Policy, callers: nat): State<V>
    requires n >= 2
  {
    var q := Mpmc.Initial<V>(n, callers + 1);
    State.State(q.(locs := q.locs[0 := DeqLoad]), policy,
          seq(callers + 1, i => if i == 0 then Polling else Ready), 0, Open, [], [], [], [])
  }

  datatype Event<V> =
    | Dispatch(x: nat, v: V)
    | Work(x: nat)
    | Close
    | CloseReturns

  predicate Enabled<V>(s: State<V>, e: Event<V>)
    requires s.Shaped()
  {
    match e
    case Dispatch(x, v) => 0 < x < |s.tasks| && s.tasks[x].Ready? && s.q.locs[x].Idle?
    case Work(x) => x < |s.tasks| && CanWork(s.tasks[x], s.q.locs[x])
    case Close => s.closer.Open?
    case CloseReturns => s.closer.Waiting? && s.tasks[0].Exited?
  }

  /** A thread can always go on, except that a dequeued nil would crash it. */
  predicate CanWork<V>(t: Task<V>, l: Loc<V>) {
    l.Running() ||
    match t
    case Ready => false
    case Exited => false
    case Sending(_) => l.EnqDone?
    case Evicting(_) => l.DeqDone? && (l.found ==> l.got.Some?)
    case Polling => l.DeqDone? && (l.found ==> l.got.Some?)
    case Draining => l.DeqDone? && (l.found ==> l.got.Some?)
    case _ => l.Idle?
  }

  /** Thread x's next task and location once its queue operation has finished. */
  function After<V>(s: State<V>, t: Task<V>, l: Loc<V>): (Task<V>, Loc<V>)
    requires CanWork(t, l) && !l.Running()
  {
    match t
    case Sending(c) =>
      if l.ok then (Ready, Idle)
      else match s.policy {
        case Block => (Sending(c), EnqLoad(c))
        case DropNewest => (CountNewest(c), Idle)
        case DropOldest => (Evicting(c), DeqLoad)
      }
    case CountNewest(_) => (Ready, Idle)
    case Evicting(c) => if l.found then (CountOldest(c, l.got.value), Idle) else (Sending(c), EnqLoad(c))
    case CountOldest(c, _) => (Sending(c), EnqLoad(c))
    case Polling => if l.found then (Emitting(l.got.value), Idle) else (Checking, Idle)
    case Emitting(_) => (Polling, DeqLoad)
    case Checking => if s.closer.Open? then (Polling, DeqLoad) else (Draining, DeqLoad)
    case Draining => if l.found then (EmittingLast(l.got.value), Idle) else (Exited, Idle)
    case EmittingLast(_) => (Draining, DeqLoad)
  }

  /** Thread x has found the ring full. */
  predicate FindsFull<V>(s: State<V>, x: nat, q: Mpmc.State<V>)
    requires x < |s.q.locs| == |q.locs|
  {
    s.q.locs[x].EnqCheck? && q.locs[x] == EnqDone(false)
  }

  /** Thread x has taken a step of the queue, to q. */
  function Advance<V>(s: State<V>, x: nat, q: Mpmc.State<V>): State<V>
    requires x < |s.q.locs| == |q.locs|
  {
    var s1 := s.(q := q);
    if s.policy.DropNewest? && FindsFull(s, x, q) then s1.(rejected := s.rejected + [s.q.locs[x].v]) else s1
  }

  function Step<V>(s: State<V>, e: Event<V>): (s': State<V>)
    requires s.Shaped() && Enabled(s, e)
    ensures s'.Shaped() && |s'.tasks| == |s.tasks|
  {
    match e
    case Dispatch(x, v) =>
      s.(q := s.q.(locs := s.q.locs[x := EnqLoad(v)]), tasks := s.tasks[x := Sending(v)],
         offered := s.offered + [v])
    case Work(x) =>
      if s.q.locs[x].Running() then Advance(s, x, Mpmc.Step(Unbounded, s.q, Run(x)))
      else
        var t := s.tasks[x];
        var (t', l') := After(s, t, s.q.locs[x]);
        var s1 := s.(q := s.q.(locs := s.q.locs[x := l']), tasks := s.tasks[x := t']);
        (match t
         case CountNewest(c) => s1.(dropped := s.dropped + 1, lost := s.lost + [c])
         case CountOldest(_, victim) => s1.(dropped := s.dropped + 1, lost := s.lost + [victim])
         case Emitting(r) => s1.(emitted := s.emitted + [r])
         case EmittingLast(r) => s1.(emitted := s.emitted + [r])
         case _ => s1)
    case Close => s.(closer := Waiting)
    case CloseReturns => s.(closer := Returned)
  }

  // ----- the invariant -----

  ghost predicate TaskInv<V>(p: Policy, x: nat, t: Task<V>, l: Loc<V>) {
    && (x == 0 <==> t.Polling? || t.Emitting? || t.Checking? || t.Draining? || t.EmittingLast? || t.Exited?)
    && match t
       case Sending(c) => l.EnqDone? || (l.Enqueuing() && l.v == c)
       case Evicting(_) => (l.DeqDone? || l.Dequeuing()) && p.DropOldest?
       case Polling => l.DeqDone? || l.Dequeuing()
       case Draining => l.DeqDone? || l.Dequeuing()
       case CountNewest(_) => l.Idle? && p.DropNewest?
       case CountOldest(_, _) => l.Idle? && p.DropOldest?
       case _ => l.Idle?
  }

  /** The record a thread has taken out of the queue and not handed on. */
  ghost function InHand<V>(put: seq<V>, t: Task<V>, l: Loc<V>): seq<V> {
    match t
    case CountOldest(_, victim) => [victim]
    case Emitting(r) => [r]
    case EmittingLast(r) => [r]
    case _ =>
      match l
      case DeqRead(pos) => if pos < |put| then [put[pos]] else []
      case DeqClear(_, got) => if got.Some? then [got.value] else []
      case DeqRelease(_, got) => if got.Some? then [got.value] else []
      case DeqDone(_, got) => if got.Some? then [got.value] else []
      case _ => []
  }

  /** The record a Dispatch call still has to place. */
  ghost function ToPlace<V>(t: Task<V>, l: Loc<V>): seq<V> {
    match t
    case Sending(c) => if l.EnqWrite? || l.EnqPublish? || l == EnqDone(true) then [] else [c]
    case CountNewest(c) => [c]
    case Evicting(c) => [c]
    case CountOldest(c, _) => [c]
    case _ => []
  }

  ghost function Held<V>(put: seq<V>, t: Task<V>, l: Loc<V>): multiset<V> {
    multiset(InHand(put, t, l)) + multiset(ToPlace(t, l))
  }

  ghost function AllHeld<V>(s: State<V>): seq<multiset<V>>
    requires s.Shaped()
  {
    seq(|s.tasks|, x requires 0 <= x < |s.tasks| => Held(s.q.ring.put, s.tasks[x], s.q.locs[x]))
  }

  /** Every record passed to Dispatch is in exactly one place: with a thread, in the
      queue, emitted, or lost. */
  ghost predicate Conserved<V>(s: State<V>)
    requires s.Shaped() && Counts(s.q.ring)
  {
    multiset(s.offered)
    == Total(AllHeld(s)) + multiset(s.q.ring.put[s.q.ring.deq..]) + multiset(s.emitted) + multiset(s.lost)
  }

  ghost function Fates(takenBy: seq<nat>): (f: seq<F.Fate>)
    ensures |f| == |takenBy|
  {
    seq(|takenBy|, t requires 0 <= t < |takenBy| => if takenBy[t] == 0 then F.Delivered else F.Evicted)
  }

  ghost predicate Inv<V>(s: State<V>) {
    && s.Shaped()
    && Mpmc.Inv(s.q)
    && (forall x: nat :: x < |s.tasks| ==> TaskInv(s.policy, x, s.tasks[x], s.q.locs[x]))
    && s.dropped == |s.lost|
    && (s.policy.Block? ==> s.lost == [])
    && Conserved(s)
    && F.DeliveredOf(s.q.ring.put, Fates(s.q.ring.takenBy))
         == s.emitted + InHand(s.q.ring.put, s.tasks[0], s.q.locs[0])
  }

  /** A step of thread x leaves the other threads' holdings alone. */
  ghost predicate OthersKept<V>(s: State<V>, s': State<V>, x: nat)
    requires s.Shaped() && s'.Shaped() && |s.tasks| == |s'.tasks|
  {
    forall y: nat :: y < |s.tasks| && y != x ==>
      Held(s'.q.ring.put, s'.tasks[y], s'.q.locs[y]) == Held(s.q.ring.put, s.tasks[y], s.q.locs[y])
  }

  lemma SameHeld<V>(s: State<V>, s': State<V>, x: nat)
    requires s.Shaped() && s'.Shaped() && x < |s.tasks| == |s'.tasks| && s'.q.ring.put == s.q.ring.put
    requires s'.tasks == s.tasks[x := s'.tasks[x]] && s'.q.locs == s.q.locs[x := s'.q.locs[x]]
    ensures OthersKept(s, s', x)
  {
  }

  lemma HoldersUpdate<V>(s: State<V>, s': State<V>, x: nat)
    requires s.Shaped() && s'.Shaped() && x < |s.tasks| == |s'.tasks|
    requires OthersKept(s, s', x)
    ensures Total(AllHeld(s')) + Held(s.q.ring.put, s.tasks[x], s.q.locs[x])
         == Total(AllHeld(s)) + Held(s'.q.ring.put, s'.tasks[x], s'.q.locs[x])
  {
    var h' := Held(s'.q.ring.put, s'.tasks[x], s'.q.locs[x]);
    assert AllHeld(s') == AllHeld(s)[x := h'];
    TotalUpdate(AllHeld(s), x, h');
  }

  /** Growing `put` changes nobody's holdings. */
  lemma HeldIgnoresTail<V>(s: State<V>, v: V, y: nat)
    requires s.Shaped() && Mpmc.Inv(s.q) && y < |s.tasks|
    ensures Held(s.q.ring.put + [v], s.tasks[y], s.q.locs[y]) == Held(s.q.ring.put, s.tasks[y], s.q.locs[y])
    ensures InHand(s.q.ring.put + [v], s.tasks[y], s.q.locs[y]) == InHand(s.q.ring.put, s.tasks[y], s.q.locs[y])
  {
    assert LocInv(s.q.ring, y, s.q.locs[y]);
  }

  /** What thread x has, plus what is in nobody's hands. */
  ghost function Share<V>(s: State<V>, x: nat): multiset<V>
    requires s.Shaped() && s.q.ring.deq <= |s.q.ring.put| && x < |s.tasks|
  {
    Held(s.q.ring.put, s.tasks[x], s.q.locs[x])
    + multiset(s.q.ring.put[s.q.ring.deq..]) + multiset(s.emitted) + multiset(s.lost)
  }

  /** If a step of thread x changes nobody else's holdings and balances its own share,
      nothing is lost or duplicated. */
  lemma Balanced<V>(s: State<V>, s': State<V>, x: nat, fresh': multiset<V>)
    requires s.Shaped() && s'.Shaped() && x < |s.tasks| == |s'.tasks|
    requires Counts(s.q.ring) && Counts(s'.q.ring) && Conserved(s)
    requires OthersKept(s, s', x)
    requires multiset(s'.offered) == multiset(s.offered) + fresh'
    requires Share(s', x) == Share(s, x) + fresh'
    ensures Conserved(s')
  {
    HoldersUpdate(s, s', x);
    var t, t' := Total(AllHeld(s)), Total(AllHeld(s'));
    var h, h' := Held(s.q.ring.put, s.tasks[x], s.q.locs[x]), Held(s'.q.ring.put, s'.tasks[x], s'.q.locs[x]);
    var q, q' := multiset(s.q.ring.put[s.q.ring.deq..]), multiset(s'.q.ring.put[s'.q.ring.deq..]);
    Exchange(t, h, q, multiset(s.emitted), multiset(s.lost),
             t', h', q', multiset(s'.emitted), multiset(s'.lost), fresh');
  }

  lemma Exchange<V>(t: multiset<V>, h: multiset<V>, q: multiset<V>, e: multiset<V>, l: multiset<V>,
                    t': multiset<V>, h': multiset<V>, q': multiset<V>, e': multiset<V>, l': multiset<V>,
                    fresh': multiset<V>)
    requires t' + h == t + h' && h' + q' + e' + l' == h + q + e + l + fresh'
    ensures t' + q' + e' + l' == t + q + e + l + fresh'
  {
    forall v ensures (t' + q' + e' + l')[v] == (t + q + e + l + fresh')[v] {
      assert (t' + h)[v] == (t + h')[v];
      assert (h' + q' + e' + l')[v] == (h + q + e + l + fresh')[v];
    }
  }

  lemma TaskRuns<V>(p: Policy, x: nat, t: Task<V>, r: Ring<V>, l: Loc<V>)
    requires r.Shaped() && l.Running() && TaskInv(p, x, t, l)
    ensures TaskInv(p, x, t, if l.Enqueuing() then EnqueueStep(Unbounded, r, x, l).1 else DequeueStep(Unbounded, r, x, l).1)
  {
  }

  lemma TasksKept<V>(s: State<V>, x: nat)
    requires s.Shaped() && x < |s.tasks| && s.q.locs[x].Running()
    requires forall y: nat :: y < |s.tasks| ==> TaskInv(s.policy, y, s.tasks[y], s.q.locs[y])
    ensures var s' := Step(s, Work(x));
            forall y: nat :: y < |s'.tasks| ==> TaskInv(s'.policy, y, s'.tasks[y], s'.q.locs[y])
  {
    var s' := Step(s, Work(x));
    assert s'.tasks == s.tasks && s'.policy == s.policy;
    forall y: nat | y < |s'.tasks| ensures TaskInv(s'.policy, y, s'.tasks[y], s'.q.locs[y]) {
      assert TaskInv(s.policy, y, s.tasks[y], s.q.locs[y]);
      if y == x { TaskRuns(s.policy, x, s.tasks[x], s.q.ring, s.q.locs[x]); }
    }
  }

  lemma ClaimPutRing<V>(q: Mpmc.State<V>, x: nat)
    requires Mpmc.Inv(q) && x < |q.locs| && q.locs[x].EnqCas? && q.locs[x].pos == q.ring.enq
    ensures var q', v := Mpmc.Step(Unbounded, q, Run(x)), q.locs[x].v;
            && q' == Mpmc.State(q.ring.(enq := q.ring.enq + 1, put := q.ring.put + [v], putBy := q.ring.putBy + [x]),
                                q.locs[x := EnqWrite(v, q.ring.enq)])
            && Counts(q'.ring)
  {
    Mpmc.StepKeepsInv(q, Run(x));
  }

  lemma PutHeld<V>(put: seq<V>, v: V, p: Policy, x: nat, t: Task<V>, pos: nat)
    requires TaskInv(p, x, t, EnqCas(v, pos))
    ensures Held(put, t, EnqCas(v, pos)) == multiset{v} && Held(put + [v], t, EnqWrite(v, pos)) == multiset{}
  {
  }

  lemma PutMoves<V>(q: multiset<V>, e: multiset<V>, l: multiset<V>, v: V)
    ensures multiset{} + (q + multiset{v}) + e + l == multiset{v} + q + e + l
    ensures multiset{v} + q + e + l == multiset{} + (multiset{v} + q) + e + l
  {
  }

  /** s' is s after thread x has claimed a ticket to fill. */
  ghost predicate HasPut<V>(s: State<V>, s': State<V>, x: nat)
    requires x < |s.q.locs|
  {
    var r, l := s.q.ring, s.q.locs[x];
    && l.EnqCas? && l.pos == r.enq
    && s' == s.(q := Mpmc.State(r.(enq := r.enq + 1, put := r.put + [l.v], putBy := r.putBy + [x]),
                                s.q.locs[x := EnqWrite(l.v, r.enq)]))
  }

  lemma PutShare<V>(s: State<V>, s': State<V>, x: nat)
    requires s.Shaped() && x < |s.tasks| && HasPut(s, s', x) && s.q.ring.deq <= |s.q.ring.put|
    requires TaskInv(s.policy, x, s.tasks[x], s.q.locs[x])
    ensures Share(s', x) == Share(s, x)
  {
    var r, v := s.q.ring, s.q.locs[x].v;
    PutHeld(r.put, v, s.policy, x, s.tasks[x], r.enq);
    assert (r.put + [v])[r.deq..] == r.put[r.deq..] + [v];
    PutMoves(multiset(r.put[r.deq..]), multiset(s.emitted), multiset(s.lost), v);
  }

  lemma ClaimPutShare<V>(s: State<V>, x: nat)
    requires Inv(s) && x < |s.tasks| && s.q.locs[x].EnqCas? && s.q.locs[x].pos == s.q.ring.enq
    ensures HasPut(s, Step(s, Work(x)), x)
    ensures Counts(Step(s, Work(x)).q.ring) && Share(Step(s, Work(x)), x) == Share(s, x)
  {
    ClaimPutRing(s.q, x);
    assert TaskInv(s.policy, x, s.tasks[x], s.q.locs[x]);
    PutShare(s, Step(s, Work(x)), x);
  }

  lemma ClaimPutConserves<V>(s: State<V>, x: nat)
    requires Inv(s) && x < |s.tasks| && s.q.locs[x].EnqCas? && s.q.locs[x].pos == s.q.ring.enq
    ensures Counts(Step(s, Work(x)).q.ring) && Conserved(Step(s, Work(x)))
  {
    var s' := Step(s, Work(x));
    forall y: nat | y < |s.tasks| && y != x
      ensures Held(s'.q.ring.put, s'.tasks[y], s'.q.locs[y]) == Held(s.q.ring.put, s.tasks[y], s.q.locs[y])
    {
      HeldIgnoresTail(s, s.q.locs[x].v, y);
    }
    assert OthersKept(s, s', x);
    ClaimPutShare(s, x);
    AddNothing(multiset(s.offered), Share(s, x));
    Balanced(s, s', x, multiset{});
  }

  lemma ClaimPutDelivers<V>(s: State<V>, x: nat)
    requires Inv(s) && x < |s.tasks| && s.q.locs[x].EnqCas? && s.q.locs[x].pos == s.q.ring.enq
    ensures var s' := Step(s, Work(x));
            |s'.q.ring.takenBy| <= |s'.q.ring.put| &&
            F.DeliveredOf(s'.q.ring.put, Fates(s'.q.ring.takenBy))
              == s'.emitted + InHand(s'.q.ring.put, s'.tasks[0], s'.q.locs[0])
  {
    var r, v := s.q.ring, s.q.locs[x].v;
    HeldIgnoresTail(s, v, 0);
    assert TaskInv(s.policy, x, s.tasks[x], s.q.locs[x]);
    F.DeliveredIgnoresTail(r.put, [v], Fates(r.takenBy));
  }

  lemma ClaimPutKeepsInv<V>(s: State<V>, x: nat)
    requires Inv(s) && x < |s.tasks| && s.q.locs[x].EnqCas? && s.q.locs[x].pos == s.q.ring.enq
    ensures Inv(Step(s, Work(x)))
  {
    Mpmc.StepKeepsInv(s.q, Run(x));
    TasksKept(s, x);
    ClaimPutConserves(s, x);
    ClaimPutDelivers(s, x);
  }

  lemma TakeHeld<V>(put: seq<V>, p: Policy, x: nat, t: Task<V>, pos: nat)
    requires TaskInv(p, x, t, DeqCas(pos)) && pos < |put|
    ensures InHand(put, t, DeqCas(pos)) == [] && InHand(put, t, DeqRead(pos)) == [put[pos]]
    ensures Held(put, t, DeqRead(pos)) == Held(put, t, DeqCas(pos)) + multiset{put[pos]}
  {
  }

  lemma ClaimTakeRing<V>(q: Mpmc.State<V>, x: nat)
    requires Mpmc.Inv(q) && x < |q.locs| && q.locs[x].DeqCas? && q.locs[x].pos == q.ring.deq
    ensures q.ring.deq < q.ring.enq == |q.ring.put|
    ensures var q' := Mpmc.Step(Unbounded, q, Run(x));
            q' == Mpmc.State(q.ring.(deq := q.ring.deq + 1, takenBy := q.ring.takenBy + [x]),
                             q.locs[x := DeqRead(q.ring.deq)])
    ensures Counts(Mpmc.Step(Unbounded, q, Run(x)).ring)
  {
    assert LocInv(q.ring, x, q.locs[x]);
    NextTake(q);
  }

  /** s' is s after thread x has claimed a ticket to empty. */
  ghost predicate HasTaken<V>(s: State<V>, s': State<V>, x: nat)
    requires x < |s.q.locs|
  {
    var r, l := s.q.ring, s.q.locs[x];
    && l.DeqCas? && l.pos == r.deq < |r.put|
    && s' == s.(q := Mpmc.State(r.(deq := r.deq + 1, takenBy := r.takenBy + [x]), s.q.locs[x := DeqRead(r.deq)]))
  }

  lemma TakeShare<V>(s: State<V>, s': State<V>, x: nat)
    requires s.Shaped() && x < |s.tasks| && HasTaken(s, s', x)
    requires TaskInv(s.policy, x, s.tasks[x], s.q.locs[x])
    ensures Share(s', x) == Share(s, x)
  {
    var r := s.q.ring;
    TakeHeld(r.put, s.policy, x, s.tasks[x], r.deq);
    assert r.put[r.deq..] == [r.put[r.deq]] + r.put[r.deq + 1..];
    TakeMoves(Held(r.put, s.tasks[x], DeqCas(r.deq)), multiset(r.put[r.deq + 1..]), multiset(s.emitted),
              multiset(s.lost), r.put[r.deq]);
  }

  lemma TakeDelivers<V>(s: State<V>, s': State<V>, x: nat)
    requires s.Shaped() && x < |s.tasks| && HasTaken(s, s', x) && |s.q.ring.takenBy| == s.q.ring.deq
    requires TaskInv(s.policy, x, s.tasks[x], s.q.locs[x])
    requires F.DeliveredOf(s.q.ring.put, Fates(s.q.ring.takenBy))
               == s.emitted + InHand(s.q.ring.put, s.tasks[0], s.q.locs[0])
    ensures |s'.q.ring.takenBy| <= |s'.q.ring.put|
    ensures F.DeliveredOf(s'.q.ring.put, Fates(s'.q.ring.takenBy))
              == s'.emitted + InHand(s'.q.ring.put, s'.tasks[0], s'.q.locs[0])
  {
    var r := s.q.ring;
    TakeHeld(r.put, s.policy, x, s.tasks[x], r.deq);
    FatesSnoc(r.takenBy, x);
    F.DeliveredSnoc(r.put, Fates(r.takenBy), if x == 0 then F.Delivered else F.Evicted);
  }

  lemma ClaimTakeShape<V>(s: State<V>, x: nat)
    requires Inv(s) && x < |s.tasks| && s.q.locs[x].DeqCas? && s.q.locs[x].pos == s.q.ring.deq
    ensures HasTaken(s, Step(s, Work(x)), x) && Counts(Step(s, Work(x)).q.ring)
  {
    ClaimTakeRing(s.q, x);
  }

  lemma TakeMoves<V>(h: multiset<V>, q: multiset<V>, e: multiset<V>, l: multiset<V>, v: V)
    ensures (h + multiset{v}) + q + e + l == h + (multiset{v} + q) + e + l
  {
  }

  lemma ClaimTakeConserves<V>(s: State<V>, x: nat)
    requires Inv(s) && x < |s.tasks| && s.q.locs[x].DeqCas? && s.q.locs[x].pos == s.q.ring.deq
    ensures Counts(Step(s, Work(x)).q.ring) && Conserved(Step(s, Work(x)))
  {
    var s' := Step(s, Work(x));
    ClaimTakeShape(s, x);
    assert TaskInv(s.policy, x, s.tasks[x], s.q.locs[x]);
    SameHeld(s, s', x);
    TakeShare(s, s', x);
    AddNothing(multiset(s.offered), Share(s, x));
    Balanced(s, s', x, multiset{});
  }

  lemma FatesSnoc(takenBy: seq<nat>, x: nat)
    ensures Fates(takenBy + [x]) == Fates(takenBy) + [if x == 0 then F.Delivered else F.Evicted]
  {
  }

  lemma ClaimTakeKeepsInv<V>(s: State<V>, x: nat)
    requires Inv(s) && x < |s.tasks| && s.q.locs[x].DeqCas? && s.q.locs[x].pos == s.q.ring.deq
    ensures Inv(Step(s, Work(x)))
  {
    Mpmc.StepKeepsInv(s.q, Run(x));
    TasksKept(s, x);
    ClaimTakeConserves(s, x);
    ClaimTakeShape(s, x);
    assert TaskInv(s.policy, x, s.tasks[x], s.q.locs[x]);
    TakeDelivers(s, Step(s, Work(x)), x);
  }

  predicate Claims<V>(r: Ring<V>, l: Loc<V>) {
    (l.EnqCas? && l.pos == r.enq) || (l.DeqCas? && l.pos == r.deq)
  }

  /** Every other instruction of the queue leaves the record where it is. */
  lemma QuietRing<V>(q: Mpmc.State<V>, x: nat, p: Policy, t: Task<V>)
    requires Mpmc.Inv(q) && x < |q.locs| && q.locs[x].Running() && !Claims(q.ring, q.locs[x])
    requires TaskInv(p, x, t, q.locs[x])
    ensures var q' := Mpmc.Step(Unbounded, q, Run(x));
            && q'.ring.put == q.ring.put && q'.ring.putBy == q.ring.putBy && q'.ring.takenBy == q.ring.takenBy
            && q'.ring.enq == q.ring.enq && q'.ring.deq == q.ring.deq && q'.ring.n == q.ring.n
            && InHand(q.ring.put, t, q'.locs[x]) == InHand(q.ring.put, t, q.locs[x])
            && ToPlace(t, q'.locs[x]) == ToPlace(t, q.locs[x])
  {
    var l := q.locs[x];
    assert LocInv(q.ring, x, l);
    if l.DeqRead? { assert CellInv(q.ring, q.locs, l.pos % q.ring.n); }
  }

  lemma QuietKeepsInv<V>(s: State<V>, x: nat)
    requires Inv(s) && x < |s.tasks| && s.q.locs[x].Running() && !Claims(s.q.ring, s.q.locs[x])
    ensures Inv(Step(s, Work(x)))
  {
    var s' := Step(s, Work(x));
    Mpmc.StepKeepsInv(s.q, Run(x));
    TasksKept(s, x);
    assert TaskInv(s.policy, x, s.tasks[x], s.q.locs[x]);
    QuietRing(s.q, x, s.policy, s.tasks[x]);
    Balanced(s, s', x, multiset{});
  }

  lemma AfterTask<V>(s: State<V>, x: nat)
    requires s.Shaped() && x < |s.tasks| && !s.q.locs[x].Running() && Enabled(s, Work(x))
    requires TaskInv(s.policy, x, s.tasks[x], s.q.locs[x])
    ensures var s' := Step(s, Work(x));
            && TaskInv(s.policy, x, s'.tasks[x], s'.q.locs[x])
            && LocInv(s.q.ring, x, s'.q.locs[x]) && !s'.q.locs[x].Owning()
            && s'.dropped - s.dropped == |s'.lost| - |s.lost|
            && (s.policy.Block? ==> s'.lost == s.lost)
  {
    assert !s.q.locs[x].Owning();
  }

  /** What a thread gives up when it leaves task t: a record it was to place, or one
      it had taken out. */
  ghost function Forsaken<V>(t: Task<V>): seq<V> {
    if t.CountNewest? then [t.c] else []
  }

  ghost function PassedOn<V>(t: Task<V>): seq<V> {
    match t
    case CountOldest(_, victim) => [victim]
    case Emitting(r) => [r]
    case EmittingLast(r) => [r]
    case _ => []
  }

  lemma AfterHeld<V>(s: State<V>, put: seq<V>, x: nat, t: Task<V>, l: Loc<V>)
    requires CanWork(t, l) && !l.Running() && TaskInv(s.policy, x, t, l)
    requires l.DeqDone? ==> l.found == l.got.Some?
    ensures var (t', l') := After(s, t, l);
            && InHand(put, t, l) == PassedOn(t) + InHand(put, t', l')
            && ToPlace(t, l) == Forsaken(t) + ToPlace(t', l')
  {
  }

  lemma Accounted<V>(s: State<V>, x: nat)
    requires s.Shaped() && x < |s.tasks| && !s.q.locs[x].Running() && Enabled(s, Work(x))
    ensures var s', t := Step(s, Work(x)), s.tasks[x];
            multiset(s'.emitted) + multiset(s'.lost)
            == multiset(s.emitted) + multiset(s.lost) + multiset(PassedOn(t)) + multiset(Forsaken(t))
  {
    match s.tasks[x] {
      case CountNewest(c) =>
      case CountOldest(_, victim) =>
      case _ =>
    }
  }

  /** Between queue operations a thread only passes on what it holds. */
  lemma AfterShare<V>(s: State<V>, x: nat)
    requires s.Shaped() && x < |s.tasks| && !s.q.locs[x].Running() && Enabled(s, Work(x))
    requires TaskInv(s.policy, x, s.tasks[x], s.q.locs[x])
    requires s.q.locs[x].DeqDone? ==> s.q.locs[x].found == s.q.locs[x].got.Some?
    requires s.q.ring.deq <= |s.q.ring.put|
    ensures Share(Step(s, Work(x)), x) == Share(s, x)
  {
    var s', put, t, l := Step(s, Work(x)), s.q.ring.put, s.tasks[x], s.q.locs[x];
    var (t', l') := After(s, t, l);
    assert s'.tasks[x] == t' && s'.q.locs[x] == l' && s'.q.ring == s.q.ring;
    AfterHeld(s, put, x, t, l);
    Accounted(s, x);
    Regroup(multiset(InHand(put, t, l)), multiset(ToPlace(t, l)), multiset(put[s.q.ring.deq..]),
            multiset(s.emitted), multiset(s.lost), multiset(PassedOn(t)), multiset(Forsaken(t)),
            multiset(InHand(put, t', l')), multiset(ToPlace(t', l')), multiset(s'.emitted), multiset(s'.lost));
  }

  lemma Regroup<V>(i: multiset<V>, p: multiset<V>, q: multiset<V>, e: multiset<V>, l: multiset<V>,
                   o: multiset<V>, f: multiset<V>,
                   i': multiset<V>, p': multiset<V>, e': multiset<V>, l': multiset<V>)
    requires i == o + i' && p == f + p' && e' + l' == e + l + o + f
    ensures (i' + p') + q + e' + l' == (i + p) + q + e + l
  {
    forall v ensures ((i' + p') + q + e' + l')[v] == ((i + p) + q + e + l)[v] {
      assert (e' + l')[v] == (e + l + o + f)[v];
    }
  }

  lemma AfterShape<V>(s: State<V>, x: nat)
    requires s.Shaped() && x < |s.tasks| && !s.q.locs[x].Running() && Enabled(s, Work(x))
    ensures var s', (t', l') := Step(s, Work(x)), After(s, s.tasks[x], s.q.locs[x]);
            && s'.q == s.q.(locs := s.q.locs[x := l']) && s'.tasks == s.tasks[x := t']
            && s'.offered == s.offered && s'.rejected == s.rejected && s'.policy == s.policy
  {
  }

  lemma AfterConserves<V>(s: State<V>, x: nat)
    requires Inv(s) && x < |s.tasks| && !s.q.locs[x].Running() && Enabled(s, Work(x))
    ensures Conserved(Step(s, Work(x)))
  {
    var s' := Step(s, Work(x));
    assert TaskInv(s.policy, x, s.tasks[x], s.q.locs[x]);
    assert LocInv(s.q.ring, x, s.q.locs[x]);
    AfterShape(s, x);
    SameHeld(s, s', x);
    AfterShare(s, x);
    AddNothing(multiset(s.offered), Share(s, x));
    Balanced(s, s', x, multiset{});
  }

  lemma AddNothing<V>(a: multiset<V>, b: multiset<V>)
    ensures a == a + multiset{} && b == b + multiset{}
  {
  }

  lemma AfterDelivers<V>(s: State<V>, x: nat)
    requires s.Shaped() && x < |s.tasks| && !s.q.locs[x].Running() && Enabled(s, Work(x))
    requires TaskInv(s.policy, x, s.tasks[x], s.q.locs[x]) && LocInv(s.q.ring, x, s.q.locs[x])
    ensures var s', put := Step(s, Work(x)), s.q.ring.put;
            s'.emitted + InHand(put, s'.tasks[0], s'.q.locs[0]) == s.emitted + InHand(put, s.tasks[0], s.q.locs[0])
  {
  }

  lemma Assemble<V>(s: State<V>, s': State<V>, x: nat)
    requires Inv(s) && s'.Shaped() && x < |s.tasks| == |s'.tasks|
    requires s'.q.ring == s.q.ring && Mpmc.Inv(s'.q) && s'.policy == s.policy
    requires forall y: nat :: y < |s.tasks| && y != x ==> s'.tasks[y] == s.tasks[y] && s'.q.locs[y] == s.q.locs[y]
    requires TaskInv(s.policy, x, s'.tasks[x], s'.q.locs[x])
    requires s'.dropped - s.dropped == |s'.lost| - |s.lost| && (s.policy.Block? ==> s'.lost == s.lost)
    requires Conserved(s')
    requires var put := s.q.ring.put;
             s'.emitted + InHand(put, s'.tasks[0], s'.q.locs[0]) == s.emitted + InHand(put, s.tasks[0], s.q.locs[0])
    ensures Inv(s')
  {
    forall y: nat | y < |s'.tasks| ensures TaskInv(s'.policy, y, s'.tasks[y], s'.q.locs[y]) {
      assert TaskInv(s.policy, y, s.tasks[y], s.q.locs[y]);
    }
  }

  lemma AfterQueue<V>(s: State<V>, x: nat)
    requires Inv(s) && x < |s.tasks| && !s.q.locs[x].Running() && Enabled(s, Work(x))
    ensures var s' := Step(s, Work(x)); s'.q.ring == s.q.ring && Mpmc.Inv(s'.q)
  {
    var s' := Step(s, Work(x));
    assert TaskInv(s.policy, x, s.tasks[x], s.q.locs[x]);
    AfterTask(s, x);
    LocalStep(s.q, x, s'.q.locs[x]);
    assert s'.q == Mpmc.State(s.q.ring, s.q.locs[x := s'.q.locs[x]]);
  }

  lemma AfterKeepsInv<V>(s: State<V>, x: nat)
    requires Inv(s) && x < |s.tasks| && !s.q.locs[x].Running() && Enabled(s, Work(x))
    ensures Inv(Step(s, Work(x)))
  {
    var s' := Step(s, Work(x));
    assert TaskInv(s.policy, x, s.tasks[x], s.q.locs[x]);
    AfterQueue(s, x);
    AfterTask(s, x);
    AfterConserves(s, x);
    AfterDelivers(s, x);
    Assemble(s, s', x);
  }

  lemma DispatchKeepsInv<V>(s: State<V>, x: nat, v: V)
    requires Inv(s) && Enabled(s, Dispatch(x, v))
    ensures Inv(Step(s, Dispatch(x, v)))
  {
    var s' := Step(s, Dispatch(x, v));
    LocalStep(s.q, x, EnqLoad(v));
    assert Held(s.q.ring.put, s'.tasks[x], s'.q.locs[x]) == Held(s.q.ring.put, s.tasks[x], s.q.locs[x]) + multiset{v};
    Balanced(s, s', x, multiset{v});
    Assemble(s, s', x);
  }

  /** Every step of the transport keeps the queue invariant, the accounting and the
      order of delivery. */
  lemma StepKeepsInv<V>(s: State<V>, e: Event<V>)
    requires Inv(s) && Enabled(s, e)
    ensures Inv(Step(s, e))
  {
    match e {
      case Dispatch(x, v) => DispatchKeepsInv(s, x, v);
      case Work(x) =>
        var l := s.q.locs[x];
        if !l.Running() { AfterKeepsInv(s, x); }
        else if !Claims(s.q.ring, l) { QuietKeepsInv(s, x); }
        else if l.EnqCas? { ClaimPutKeepsInv(s, x); }
        else { ClaimTakeKeepsInv(s, x); }
      case Close => assert AllHeld(Step(s, e)) == AllHeld(s);
      case CloseReturns => assert AllHeld(Step(s, e)) == AllHeld(s);
    }
  }

  lemma InitialInv<V>(n: nat, policy: Policy, callers: nat)
    requires n >= 2
    ensures Inv(Initial<V>(n, policy, callers))
  {
    var s, q := Initial<V>(n, policy, callers), Mpmc.Initial<V>(n, callers + 1);
    Mpmc.InitialInv<V>(n, callers + 1);
    LocalStep(q, 0, DeqLoad);
    assert s.q == Mpmc.State(q.ring, q.locs[0 := DeqLoad]);
    InitialHoldsNothing<V>(n, policy, callers);
  }

  lemma InitialHoldsNothing<V>(n: nat, policy: Policy, callers: nat)
    requires n >= 2
    ensures var s := Initial<V>(n, policy, callers);
            && Conserved(s)
            && (forall x: nat :: x < |s.tasks| ==> TaskInv(s.policy, x, s.tasks[x], s.q.locs[x]))
  {
    var s := Initial<V>(n, policy, callers);
    forall x: nat | x < |s.tasks|
      ensures AllHeld(s)[x] == multiset{} && TaskInv(s.policy, x, s.tasks[x], s.q.locs[x])
    {
    }
    TotalOfNothing(AllHeld(s));
  }
}
