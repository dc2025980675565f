/** The lock-free transport is a bounded queue. */
module DisruptorRefines {
  import opened Common
  import opened Words
  import opened Mpmc
  import opened Disruptor
  import F = BoundedFifo

  /** The records that have been claimed for dequeuing and still occupy their cell. */
  ghost function Busy<V>(r: Ring<V>): set<nat>
    requires r.Shaped()
  {
    set t: nat | t < r.deq && r.ticket[t % r.n] == t
  }

  /** A Dispatch call that found the ring full and has not evicted anything for it yet. */
  predicate Owes<V>(p: Policy, t: Task<V>, l: Loc<V>) {
    && p.DropOldest?
    && (|| (t.Sending? && l == EnqDone(false))
        || (t.Evicting? && (l.DeqLoad? || l.DeqCheck? || l.DeqCas? || (l.DeqDone? && !l.found))))
  }

  ghost function Owed<V>(s: Disruptor.State<V>): set<nat>
    requires s.Shaped()
  {
    set x: nat | x < |s.tasks| && Owes(s.policy, s.tasks[x], s.q.locs[x])
  }

  /** The bounded queue a state stands for: the records between the two cursors. A
      record claimed by the consumer counts as delivered, one claimed by a Dispatch
      call as evicted. */
  ghost function Abs<V>(s: Disruptor.State<V>): F.Fifo<V>
    requires s.Shaped()
  {
    F.Fifo(s.q.ring.n, s.policy, s.q.ring.put, Fates(s.q.ring.takenBy), s.rejected, Busy(s.q.ring), Owed(s))
  }

  /** What an instruction of the queue by thread x does to the bounded queue: a successful
      compare-and-swap, a "full", and the last store of a dequeue are visible. */
  ghost function Shows<V>(s: Disruptor.State<V>, x: nat): seq<F.Event<V>>
    requires s.Shaped() && x < |s.tasks| && s.q.locs[x].Running()
  {
    var r, l := s.q.ring, s.q.locs[x];
    match l
    case EnqCheck(v, pos) =>
      if !FindsFull(s, x, Mpmc.Step(Unbounded, s.q, Run(x))) || s.policy.Block? then []
      else if s.policy.DropOldest? then [F.SeeFull(x)]
      else [F.Reject(v)]
    case EnqCas(v, pos) => if pos == r.enq then [F.Push(v)] else []
    case DeqCas(pos) => if pos != r.deq then [] else if x == 0 then [F.Pop(true)] else [F.Late(x, true)]
    case DeqRelease(pos, _) => [F.Free(pos)]
    case _ => []
  }

  ghost function Means<V>(s: Disruptor.State<V>, e: Disruptor.Event<V>): (es: seq<F.Event<V>>)
    requires s.Shaped() && Disruptor.Enabled(s, e)
    ensures |es| <= 1
  {
    if !e.Work? then []
    else if s.q.locs[e.x].Running() then Shows(s, e.x)
    else if s.tasks[e.x].Evicting? && !s.q.locs[e.x].found then [F.Forget(e.x)]
    else []
  }

  // ----- what changes in the two sets -----

  lemma OwedUpdate<V>(s: Disruptor.State<V>, s': Disruptor.State<V>, x: nat)
    requires s.Shaped() && s'.Shaped() && x < |s.tasks| == |s'.tasks| && s'.policy == s.policy
    requires s'.tasks == s.tasks[x := s'.tasks[x]] && s'.q.locs == s.q.locs[x := s'.q.locs[x]]
    ensures Owed(s') == if Owes(s.policy, s'.tasks[x], s'.q.locs[x]) then Owed(s) + {x} else Owed(s) - {x}
  {
  }

  lemma BusyTake<V>(r: Ring<V>)
    requires r.Shaped() && r.ticket[r.deq % r.n] == r.deq
    ensures Busy(r.(deq := r.deq + 1)) == Busy(r) + {r.deq}
  {
  }

  lemma BusyRelease<V>(r: Ring<V>, pos: nat)
    requires r.Shaped() && r.ticket[pos % r.n] == pos && r.deq <= pos + r.n
    ensures Busy(r.(ticket := r.ticket[pos % r.n := pos + r.n])) == Busy(r) - {pos}
  {
  }

  /** The cell of the next ticket to enqueue is behind exactly when there is no free slot. */
  lemma FullRing<V>(q: Mpmc.State<V>, f: F.Fifo<V>)
    requires Mpmc.Inv(q) && f.cap == q.ring.n && |f.entered| == q.ring.enq && |f.fates| == q.ring.deq && f.busy == Busy(q.ring)
    ensures f.Full() <==> q.ring.ticket[q.ring.enq % q.ring.n] < q.ring.enq
  {
    var r := q.ring;
    var i := r.enq % r.n;
    assert CellInv(r, q.locs, i);
    SameCellGap(r.ticket[i], r.enq, r.n);
    if r.n <= r.enq { NextRoundSameCell(r.enq - r.n, r.n); }
  }

  // ----- one instruction -----

  /** s' is s after an instruction of thread x that leaves the queue as it is. */
  ghost predicate SameQueue<V>(s: Disruptor.State<V>, s': Disruptor.State<V>, x: nat) {
    var r, r' := s.q.ring, s'.q.ring;
    && s.Shaped() && s'.Shaped() && x < |s.tasks| && s'.tasks == s.tasks && s'.policy == s.policy
    && s'.q.locs == s.q.locs[x := s'.q.locs[x]]
    && r'.n == r.n && r'.put == r.put && r'.takenBy == r.takenBy && r'.deq == r.deq && r'.ticket == r.ticket
  }

  lemma SameAbs<V>(s: Disruptor.State<V>, s': Disruptor.State<V>, x: nat)
    requires SameQueue(s, s', x)
    ensures var o := Owes(s.policy, s.tasks[x], s'.q.locs[x]);
            Abs(s') == Abs(s).(rejected := s'.rejected, owed := if o then Owed(s) + {x} else Owed(s) - {x})
  {
    OwedUpdate(s, s', x);
  }

  lemma CheckShape<V>(s: Disruptor.State<V>, x: nat)
    requires s.Shaped() && x < |s.tasks| && s.q.locs[x].EnqCheck?
    requires TaskInv(s.policy, x, s.tasks[x], s.q.locs[x])
    ensures var s' := Disruptor.Step(s, Work(x));
            && SameQueue(s, s', x) && x !in Owed(s)
            && (Owes(s.policy, s.tasks[x], s'.q.locs[x]) <==> s.policy.DropOldest? && FindsFull(s, x, s'.q))
            && s'.rejected == if s.policy.DropNewest? && FindsFull(s, x, s'.q) then s.rejected + [s.q.locs[x].v] else s.rejected
  {
  }

  /** "Full" means that there is no free slot. */
  lemma CheckRefines<V>(s: Disruptor.State<V>, x: nat)
    requires Disruptor.Inv(s) && x < |s.tasks| && Abs(s).Valid() && s.q.locs[x].EnqCheck?
    ensures F.CanAll(Abs(s), Shows(s, x))
    ensures Abs(Disruptor.Step(s, Work(x))) == F.ApplyAll(Abs(s), Shows(s, x))
  {
    var s', l := Disruptor.Step(s, Work(x)), s.q.locs[x];
    assert TaskInv(s.policy, x, s.tasks[x], l);
    CheckShape(s, x);
    SameAbs(s, s', x);
    if FindsFull(s, x, s'.q) {
      FullMeansBehind(s.q, x);
      FullRing(s.q, Abs(s));
      if s.policy.DropOldest? {
        F.AllOfOne(Abs(s), F.SeeFull(x));
      } else if s.policy.DropNewest? {
        F.AllOfOne(Abs(s), F.Reject(l.v));
      }
    }
  }

  lemma FullMeansBehind<V>(q: Mpmc.State<V>, x: nat)
    requires Mpmc.Inv(q) && x < |q.locs| && q.locs[x].EnqCheck?
    requires Mpmc.Step(Unbounded, q, Run(x)).locs[x] == EnqDone(false)
    ensures q.locs[x].pos == q.ring.enq && q.ring.ticket[q.ring.enq % q.ring.n] < q.ring.enq
  {
    var r, pos := q.ring, q.locs[x].pos;
    assert LocInv(r, x, q.locs[x]);
    assert CellInv(r, q.locs, pos % r.n);
    SameCellGap(r.ticket[pos % r.n], pos, r.n);
  }

  lemma PutShown<V>(s: Disruptor.State<V>, s': Disruptor.State<V>, x: nat)
    requires s.Shaped() && s'.Shaped() && x < |s.tasks| && HasPut(s, s', x)
    requires Abs(s).Valid() && !Abs(s).Full() && TaskInv(s.policy, x, s.tasks[x], s.q.locs[x])
    ensures F.CanAll(Abs(s), [F.Push(s.q.locs[x].v)])
    ensures Abs(s') == F.ApplyAll(Abs(s), [F.Push(s.q.locs[x].v)])
  {
    OwedUpdate(s, s', x);
    assert Busy(s'.q.ring) == Busy(s.q.ring);
    F.AllOfOne(Abs(s), F.Push(s.q.locs[x].v));
  }

  lemma PutRefines<V>(s: Disruptor.State<V>, x: nat)
    requires Disruptor.Inv(s) && x < |s.tasks| && Abs(s).Valid()
    requires s.q.locs[x].EnqCas? && s.q.locs[x].pos == s.q.ring.enq
    ensures F.CanAll(Abs(s), Shows(s, x))
    ensures Abs(Disruptor.Step(s, Work(x))) == F.ApplyAll(Abs(s), Shows(s, x))
  {
    assert LocInv(s.q.ring, x, s.q.locs[x]);
    assert TaskInv(s.policy, x, s.tasks[x], s.q.locs[x]);
    NextPut(s.q);
    FullRing(s.q, Abs(s));
    ClaimPutRing(s.q, x);
    PutShown(s, Disruptor.Step(s, Work(x)), x);
  }

  ghost function TakeEvent<V>(x: nat): F.Event<V> {
    if x == 0 then F.Pop(true) else F.Late(x, true)
  }

  lemma TakeShown<V>(s: Disruptor.State<V>, s': Disruptor.State<V>, x: nat)
    requires s.Shaped() && s'.Shaped() && x < |s.tasks| && HasTaken(s, s', x)
    requires |s.q.ring.takenBy| == s.q.ring.deq && s.q.ring.ticket[s.q.ring.deq % s.q.ring.n] == s.q.ring.deq
    requires Abs(s).Valid() && TaskInv(s.policy, x, s.tasks[x], s.q.locs[x])
    ensures F.CanAll(Abs(s), [TakeEvent<V>(x)])
    ensures Abs(s') == F.ApplyAll(Abs(s), [TakeEvent<V>(x)])
  {
    var r := s.q.ring;
    BusyTake(r);
    assert Busy(s'.q.ring) == Busy(r.(deq := r.deq + 1));
    FatesSnoc(r.takenBy, x);
    OwedUpdate(s, s', x);
    F.AllOfOne(Abs(s), TakeEvent(x));
  }

  lemma TakeRefines<V>(s: Disruptor.State<V>, x: nat)
    requires Disruptor.Inv(s) && x < |s.tasks| && Abs(s).Valid()
    requires s.q.locs[x].DeqCas? && s.q.locs[x].pos == s.q.ring.deq
    ensures F.CanAll(Abs(s), Shows(s, x))
    ensures Abs(Disruptor.Step(s, Work(x))) == F.ApplyAll(Abs(s), Shows(s, x))
  {
    assert TaskInv(s.policy, x, s.tasks[x], s.q.locs[x]);
    assert LocInv(s.q.ring, x, s.q.locs[x]);
    NextTake(s.q);
    ClaimTakeShape(s, x);
    TakeShown(s, Disruptor.Step(s, Work(x)), x);
  }

  lemma ReleaseRefines<V>(s: Disruptor.State<V>, x: nat)
    requires Disruptor.Inv(s) && x < |s.tasks| && Abs(s).Valid() && s.q.locs[x].DeqRelease?
    ensures F.CanAll(Abs(s), Shows(s, x))
    ensures Abs(Disruptor.Step(s, Work(x))) == F.ApplyAll(Abs(s), Shows(s, x))
  {
    var s', r, pos := Disruptor.Step(s, Work(x)), s.q.ring, s.q.locs[x].pos;
    assert TaskInv(s.policy, x, s.tasks[x], s.q.locs[x]);
    assert LocInv(r, x, s.q.locs[x]);
    assert CellInv(r, s.q.locs, pos % r.n);
    ReleaseBound(s.q, x);
    BusyRelease(r, pos);
    OwedUpdate(s, s', x);
    F.AllOfOne(Abs(s), F.Free(pos));
  }

  lemma ReleaseBound<V>(q: Mpmc.State<V>, x: nat)
    requires Mpmc.Inv(q) && x < |q.locs| && q.locs[x].DeqRelease?
    ensures q.ring.deq <= q.locs[x].pos + q.ring.n
  {
    assert LocInv(q.ring, x, q.locs[x]);
    assert CellInv(q.ring, q.locs, q.locs[x].pos % q.ring.n);
  }

  lemma QuietShape<V>(s: Disruptor.State<V>, x: nat)
    requires s.Shaped() && x < |s.tasks| && s.q.locs[x].Running() && !Claims(s.q.ring, s.q.locs[x])
    requires !s.q.locs[x].EnqCheck? && !s.q.locs[x].DeqRelease?
    requires TaskInv(s.policy, x, s.tasks[x], s.q.locs[x])
    ensures var s' := Disruptor.Step(s, Work(x));
            && SameQueue(s, s', x) && s'.rejected == s.rejected
            && Owes(s.policy, s.tasks[x], s'.q.locs[x]) == Owes(s.policy, s.tasks[x], s.q.locs[x])
  {
  }

  lemma QuietRefines<V>(s: Disruptor.State<V>, x: nat)
    requires Disruptor.Inv(s) && x < |s.tasks| && s.q.locs[x].Running() && !Claims(s.q.ring, s.q.locs[x])
    requires !s.q.locs[x].EnqCheck? && !s.q.locs[x].DeqRelease?
    ensures Shows(s, x) == [] && Abs(Disruptor.Step(s, Work(x))) == Abs(s)
  {
    assert TaskInv(s.policy, x, s.tasks[x], s.q.locs[x]);
    QuietShape(s, x);
    SameAbs(s, Disruptor.Step(s, Work(x)), x);
  }

  lemma RunningRefines<V>(s: Disruptor.State<V>, x: nat)
    requires Disruptor.Inv(s) && x < |s.tasks| && s.q.locs[x].Running() && Abs(s).Valid()
    ensures F.CanAll(Abs(s), Shows(s, x))
    ensures Abs(Disruptor.Step(s, Work(x))) == F.ApplyAll(Abs(s), Shows(s, x))
  {
    var l := s.q.locs[x];
    if l.EnqCheck? { CheckRefines(s, x); }
    else if l.DeqRelease? { ReleaseRefines(s, x); }
    else if !Claims(s.q.ring, l) { QuietRefines(s, x); }
    else if l.EnqCas? { PutRefines(s, x); }
    else { TakeRefines(s, x); }
  }

  /** Between queue operations only what a thread owes can change. */
  lemma AfterAbs<V>(s: Disruptor.State<V>, x: nat)
    requires s.Shaped() && x < |s.tasks| && !s.q.locs[x].Running() && Disruptor.Enabled(s, Work(x))
    ensures var s', (t', l') := Disruptor.Step(s, Work(x)), After(s, s.tasks[x], s.q.locs[x]);
            Abs(s') == Abs(s).(owed := if Owes(s.policy, t', l') then Owed(s) + {x} else Owed(s) - {x})
  {
    AfterShape(s, x);
    OwedUpdate(s, Disruptor.Step(s, Work(x)), x);
  }

  lemma AfterOwes<V>(s: Disruptor.State<V>, x: nat)
    requires s.Shaped() && x < |s.tasks| && !s.q.locs[x].Running() && Disruptor.Enabled(s, Work(x))
    requires TaskInv(s.policy, x, s.tasks[x], s.q.locs[x])
    ensures var p, t, l := s.policy, s.tasks[x], s.q.locs[x];
            var (t', l') := After(s, t, l);
            if t.Evicting? && !l.found then Owes(p, t, l) && !Owes(p, t', l') else Owes(p, t', l') == Owes(p, t, l)
  {
  }

  lemma AfterRefines<V>(s: Disruptor.State<V>, x: nat)
    requires Disruptor.Inv(s) && x < |s.tasks| && !s.q.locs[x].Running() && Disruptor.Enabled(s, Work(x))
    requires Abs(s).Valid()
    ensures F.CanAll(Abs(s), Means(s, Work(x)))
    ensures Abs(Disruptor.Step(s, Work(x))) == F.ApplyAll(Abs(s), Means(s, Work(x)))
  {
    assert TaskInv(s.policy, x, s.tasks[x], s.q.locs[x]);
    AfterAbs(s, x);
    AfterOwes(s, x);
    if Means(s, Work(x)) != [] { F.AllOfOne(Abs(s), F.Forget(x)); }
  }

  lemma OtherRefines<V>(s: Disruptor.State<V>, e: Disruptor.Event<V>)
    requires Disruptor.Inv(s) && Disruptor.Enabled(s, e) && !e.Work?
    ensures Abs(Disruptor.Step(s, e)) == Abs(s)
  {
    var s' := Disruptor.Step(s, e);
    if e.Dispatch? { OwedUpdate(s, s', e.x); } else { assert Owed(s') == Owed(s); }
  }

  lemma StepRefines<V>(s: Disruptor.State<V>, e: Disruptor.Event<V>)
    requires Disruptor.Inv(s) && Disruptor.Enabled(s, e) && Abs(s).Valid()
    ensures F.CanAll(Abs(s), Means(s, e))
    ensures Abs(Disruptor.Step(s, e)) == F.ApplyAll(Abs(s), Means(s, e))
  {
    if !e.Work? {
      OtherRefines(s, e);
    } else if s.q.locs[e.x].Running() {
      RunningRefines(s, e.x);
    } else {
      AfterRefines(s, e.x);
    }
  }

  /** Each step is at most one event of the bounded queue: an arrival into a free slot, a
      departure of the head, the freeing of its slot, a rejection when no slot is free, a
      Dispatch call finding no free slot, or that call evicting the head. */
  lemma Refines<V>(s: Disruptor.State<V>, e: Disruptor.Event<V>)
    requires Disruptor.Inv(s) && Disruptor.Enabled(s, e) && Abs(s).Valid()
    ensures F.CanAll(Abs(s), Means(s, e))
    ensures Abs(Disruptor.Step(s, e)) == F.ApplyAll(Abs(s), Means(s, e))
    ensures Abs(Disruptor.Step(s, e)).Valid()
  {
    StepRefines(s, e);
    F.AllKeepsValid(Abs(s), Means(s, e));
  }

  /** There is no free slot although the queue has room exactly when the thread that has
      claimed the record n arrivals ago is still emptying its cell. */
  lemma FullWithRoom<V>(s: Disruptor.State<V>)
    requires Disruptor.Inv(s) && Abs(s).Valid()
    ensures var r := s.q.ring;
            Abs(s).Full() && |Abs(s).Queue()| < r.n
            <==>
            && r.n <= r.enq && r.enq - r.n < r.deq
            && r.takenBy[r.enq - r.n] < |s.q.locs|
            && s.q.locs[r.takenBy[r.enq - r.n]].Emptying(r.enq - r.n)
  {
    var r := s.q.ring;
    if r.n <= r.enq && r.enq - r.n < r.deq { StillBusy(s.q, r.enq - r.n); }
  }

  /** A claimed record occupies its cell exactly as long as its taker is emptying it. */
  lemma StillBusy<V>(q: Mpmc.State<V>, t: nat)
    requires Mpmc.Inv(q) && t < q.ring.deq
    ensures t in Busy(q.ring) <==>
            q.ring.takenBy[t] < |q.locs| && q.locs[q.ring.takenBy[t]].Emptying(t)
  {
    var r := q.ring;
    assert CellInv(r, q.locs, t % r.n);
    if r.takenBy[t] < |q.locs| { assert LocInv(r, r.takenBy[t], q.locs[r.takenBy[t]]); }
  }
}
