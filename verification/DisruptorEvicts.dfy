/** When the lock-free transport evicts a record although there is a free slot. */
module DisruptorEvicts {
  import opened Common
  import opened Words
  import opened Mpmc
  import opened Disruptor
  import opened DisruptorRefines
  import opened DisruptorRuns
  import F = BoundedFifo

  /** An eviction is one by a full ring exactly when the cell of the next ticket to enqueue
      is still behind at that moment. */
  lemma EvictionIsOverflow<V>(s: Disruptor.State<V>, x: nat)
    requires Disruptor.Inv(s) && Abs(s).Valid() && Disruptor.Enabled(s, Work(x))
    requires Means(s, Work(x)) == [F.Late(x, true)]
    ensures F.Can(Abs(s), F.Evict) <==> s.q.ring.ticket[s.q.ring.enq % s.q.ring.n] < s.q.ring.enq
  {
    Refines(s, Work(x));
    assert F.Can(Abs(s), Means(s, Work(x))[0]);
    FullRing(s.q, Abs(s));
  }

  // ----- a run with one Dispatch call at a time -----

  ghost predicate Reaches<V>(n: nat, es: seq<Disruptor.Event<V>>, s: Disruptor.State<V>)
    requires n >= 2
  {
    Allowed(Disruptor.Initial<V>(n, DropOldest, 1), es) && Exec(Disruptor.Initial<V>(n, DropOldest, 1), es) == s
  }

  /** Some run leads to a state with this ring, the consumer at t0 and l0, and the only
      producer at t1 and l1. */
  ghost predicate At<V(!new)>(n: nat, s: Disruptor.State<V>, r: Ring<V>, t0: Task<V>, l0: Loc<V>, t1: Task<V>, l1: Loc<V>) {
    && n >= 2 && (exists es :: Reaches(n, es, s))
    && r.Shaped() && r.n == n && s.q == Mpmc.State(r, [l0, l1]) && s.tasks == [t0, t1]
    && s.policy.DropOldest?
  }

  lemma {:induction false} Afterwards<V>(s: Disruptor.State<V>, es: seq<Disruptor.Event<V>>, e: Disruptor.Event<V>)
    requires Allowed(s, es) && Exec(s, es).Shaped() && Disruptor.Enabled(Exec(s, es), e)
    ensures Allowed(s, es + [e]) && Exec(s, es + [e]) == Disruptor.Step(Exec(s, es), e)
    decreases |es|
  {
    if es == [] {
      assert (es + [e])[1..] == [];
    } else {
      Afterwards(Disruptor.Step(s, es[0]), es[1..], e);
      assert (es + [e])[1..] == es[1..] + [e];
    }
  }

  lemma Next<V(!new)>(n: nat, s: Disruptor.State<V>, e: Disruptor.Event<V>)
    requires n >= 2 && (exists es :: Reaches(n, es, s)) && s.Shaped() && Disruptor.Enabled(s, e)
    ensures exists es :: Reaches(n, es, Disruptor.Step(s, e))
  {
    var es :| Reaches(n, es, s);
    Afterwards(Disruptor.Initial<V>(n, DropOldest, 1), es, e);
    assert Reaches(n, es + [e], Disruptor.Step(s, e));
  }

  /** What an instruction of the queue does to the ring and to the thread's location. */
  function Instruction<V>(r: Ring<V>, x: nat, l: Loc<V>): (Ring<V>, Loc<V>)
    requires r.Shaped() && l.Running()
  {
    if l.Enqueuing() then EnqueueStep(Unbounded, r, x, l) else DequeueStep(Unbounded, r, x, l)
  }

  lemma Produce<V(!new)>(n: nat, s: Disruptor.State<V>, r: Ring<V>, t0: Task<V>, l0: Loc<V>, t1: Task<V>, l1: Loc<V>,
                         r': Ring<V>, l1': Loc<V>) returns (s': Disruptor.State<V>)
    requires At(n, s, r, t0, l0, t1, l1) && l1.Running() && Instruction(r, 1, l1) == (r', l1') && r'.Shaped() && r'.n == n
    ensures At(n, s', r', t0, l0, t1, l1')
  {
    Next(n, s, Work(1));
    assert [l0, l1][1 := l1'] == [l0, l1'];
    s' := Disruptor.Step(s, Work(1));
  }

  lemma Consume<V(!new)>(n: nat, s: Disruptor.State<V>, r: Ring<V>, t0: Task<V>, l0: Loc<V>, t1: Task<V>, l1: Loc<V>,
                         r': Ring<V>, l0': Loc<V>) returns (s': Disruptor.State<V>)
    requires At(n, s, r, t0, l0, t1, l1) && l0.Running() && Instruction(r, 0, l0) == (r', l0') && r'.Shaped() && r'.n == n
    ensures At(n, s', r', t0, l0', t1, l1)
  {
    Next(n, s, Work(0));
    assert [l0, l1][0 := l0'] == [l0', l1];
    s' := Disruptor.Step(s, Work(0));
  }

  /** The producer calls Dispatch. */
  lemma Ask<V(!new)>(n: nat, s: Disruptor.State<V>, r: Ring<V>, t0: Task<V>, l0: Loc<V>, v: V) returns (s': Disruptor.State<V>)
    requires At(n, s, r, t0, l0, Ready, Idle)
    ensures At(n, s', r, t0, l0, Sending(v), EnqLoad(v))
  {
    Next(n, s, Dispatch(1, v));
    assert [l0, Idle][1 := EnqLoad(v)] == [l0, EnqLoad(v)] && [t0, Ready][1 := Sending(v)] == [t0, Sending(v)];
    s' := Disruptor.Step(s, Dispatch(1, v));
  }

  /** The producer's `enqueue` has returned. */
  lemma Answer<V(!new)>(n: nat, s: Disruptor.State<V>, r: Ring<V>, t0: Task<V>, l0: Loc<V>, v: V, ok: bool)
    returns (s': Disruptor.State<V>)
    requires At(n, s, r, t0, l0, Sending(v), EnqDone(ok))
    ensures if ok then At(n, s', r, t0, l0, Ready, Idle) else At(n, s', r, t0, l0, Evicting(v), DeqLoad)
  {
    Next(n, s, Work(1));
    var t1, l1 := if ok then Ready else Evicting(v), if ok then Idle else DeqLoad;
    assert [l0, EnqDone(ok)][1 := l1] == [l0, l1] && [t0, Sending(v)][1 := t1] == [t0, t1];
    s' := Disruptor.Step(s, Work(1));
  }

  /** The ring after k records have been put into it and none taken out. */
  ghost predicate Holds<V>(r: Ring<V>, n: nat, k: nat) {
    && r.Shaped() && r.n == n && r.enq == k <= n && r.deq == 0 && |r.put| == k
    && (forall i: nat :: i < n ==> r.ticket[i] == i && r.cells[i].sq == if i < k then i + 1 else i)
  }

  lemma EnqueueOne<V(!new)>(n: nat, s: Disruptor.State<V>, r: Ring<V>, v: V, k: nat)
    returns (s': Disruptor.State<V>, r': Ring<V>)
    requires At(n, s, r, Polling, DeqLoad, Ready, Idle) && Holds(r, n, k) && k < n
    ensures At(n, s', r', Polling, DeqLoad, Ready, Idle) && Holds(r', n, k + 1)
  {
    ModOf(k, n, 0, k);
    s' := Ask(n, s, r, Polling, DeqLoad, v);
    s' := Produce(n, s', r, Polling, DeqLoad, Sending(v), EnqLoad(v), r, EnqCheck(v, k));
    s' := Produce(n, s', r, Polling, DeqLoad, Sending(v), EnqCheck(v, k), r, EnqCas(v, k));
    var r1 := r.(enq := k + 1, put := r.put + [v], putBy := r.putBy + [1]);
    s' := Produce(n, s', r, Polling, DeqLoad, Sending(v), EnqCas(v, k), r1, EnqWrite(v, k));
    s', r' := FillOne(n, s', r1, v, k);
  }

  lemma FillOne<V(!new)>(n: nat, s: Disruptor.State<V>, r: Ring<V>, v: V, k: nat)
    returns (s': Disruptor.State<V>, r': Ring<V>)
    requires At(n, s, r, Polling, DeqLoad, Sending(v), EnqWrite(v, k)) && k < n
    ensures At(n, s', r', Polling, DeqLoad, Ready, Idle)
    ensures r' == r.(cells := r.cells[k := Cell(k + 1, Some(v))])
  {
    ModOf(k, n, 0, k);
    var r1 := r.(cells := r.cells[k := r.cells[k].(val := Some(v))]);
    s' := Produce(n, s, r, Polling, DeqLoad, Sending(v), EnqWrite(v, k), r1, EnqPublish(v, k));
    r' := r1.(cells := r1.cells[k := r1.cells[k].(sq := k + 1)]);
    s' := Produce(n, s', r1, Polling, DeqLoad, Sending(v), EnqPublish(v, k), r', EnqDone(true));
    s' := Answer(n, s', r', Polling, DeqLoad, v, true);
  }

  lemma {:induction false} FillUp<V(!new)>(n: nat, v: V, k: nat) returns (s: Disruptor.State<V>, r: Ring<V>)
    requires n >= 2 && k <= n
    ensures At(n, s, r, Polling, DeqLoad, Ready, Idle) && Holds(r, n, k)
  {
    if k == 0 {
      s := Disruptor.Initial<V>(n, DropOldest, 1);
      r := s.q.ring;
      var none: seq<Disruptor.Event<V>> := [];
      assert Reaches(n, none, s);
      assert s.q == Mpmc.State(r, [DeqLoad, Idle]);
    } else {
      s, r := FillUp(n, v, k - 1);
      s, r := EnqueueOne(n, s, r, v, k - 1);
    }
  }

  /** The producer finds the ring full and is about to evict. */
  lemma FindsItFull<V(!new)>(n: nat, v: V) returns (s: Disruptor.State<V>, r: Ring<V>)
    requires n >= 2
    ensures At(n, s, r, Polling, DeqLoad, Evicting(v), DeqLoad) && Holds(r, n, n)
  {
    s, r := FillUp(n, v, n);
    ModOf(n, n, 1, 0);
    s := Ask(n, s, r, Polling, DeqLoad, v);
    s := Produce(n, s, r, Polling, DeqLoad, Sending(v), EnqLoad(v), r, EnqCheck(v, n));
    s := Produce(n, s, r, Polling, DeqLoad, Sending(v), EnqCheck(v, n), r, EnqDone(false));
    s := Answer(n, s, r, Polling, DeqLoad, v, false);
  }

  /** Meanwhile the consumer claims the oldest record and releases its cell. */
  lemma ConsumerTakes<V(!new)>(n: nat, s: Disruptor.State<V>, r: Ring<V>, v: V)
    returns (s': Disruptor.State<V>, r': Ring<V>, l0: Loc<V>)
    requires At(n, s, r, Polling, DeqLoad, Evicting(v), DeqLoad) && Holds(r, n, n)
    ensures At(n, s', r', Polling, l0, Evicting(v), DeqLoad)
    ensures r'.enq == n && r'.deq == 1 && |r'.put| == n && r'.ticket[0] == n && r'.cells[1].sq == 2
  {
    ModOf(0, n, 0, 0);
    s' := Consume(n, s, r, Polling, DeqLoad, Evicting(v), DeqLoad, r, DeqCheck(0));
    s' := Consume(n, s', r, Polling, DeqCheck(0), Evicting(v), DeqLoad, r, DeqCas(0));
    var r1 := r.(deq := 1, takenBy := r.takenBy + [0]);
    s' := Consume(n, s', r, Polling, DeqCas(0), Evicting(v), DeqLoad, r1, DeqRead(0));
    s', r', l0 := ConsumerEmpties(n, s', r1, v);
  }

  lemma ConsumerEmpties<V(!new)>(n: nat, s: Disruptor.State<V>, r: Ring<V>, v: V)
    returns (s': Disruptor.State<V>, r': Ring<V>, l0: Loc<V>)
    requires At(n, s, r, Polling, DeqRead(0), Evicting(v), DeqLoad)
    ensures At(n, s', r', Polling, l0, Evicting(v), DeqLoad)
    ensures r'.enq == r.enq && r'.deq == r.deq && r'.put == r.put && r'.ticket[0] == n && r'.cells[1] == r.cells[1]
  {
    ModOf(0, n, 0, 0);
    var got := r.cells[0].val;
    s' := Consume(n, s, r, Polling, DeqRead(0), Evicting(v), DeqLoad, r, DeqClear(0, got));
    var r1 := r.(cells := r.cells[0 := r.cells[0].(val := None)]);
    s' := Consume(n, s', r, Polling, DeqClear(0, got), Evicting(v), DeqLoad, r1, DeqRelease(0, got));
    r', l0 := DequeueStep(Unbounded, r1, 0, DeqRelease(0, got)).0, DeqDone(true, got);
    s' := Consume(n, s', r1, Polling, DeqRelease(0, got), Evicting(v), DeqLoad, r', l0);
  }

  /** The producer is about to win its compare-and-swap on a record, with a slot free. */
  lemma AboutToEvict<V(!new)>(n: nat, v: V) returns (s: Disruptor.State<V>, r: Ring<V>, l0: Loc<V>)
    requires n >= 2
    ensures At(n, s, r, Polling, l0, Evicting(v), DeqCas(1))
    ensures r.enq == n && r.deq == 1 && |r.put| == n && r.ticket[0] == n
  {
    s, r := FindsItFull(n, v);
    s, r, l0 := ConsumerTakes(n, s, r, v);
    ModOf(1, n, 0, 1);
    s := Produce(n, s, r, Polling, l0, Evicting(v), DeqLoad, r, DeqCheck(1));
    s := Produce(n, s, r, Polling, l0, Evicting(v), DeqCheck(1), r, DeqCas(1));
  }

  /** Thread 1 is about to evict a record with a free slot in the ring. */
  ghost predicate LateWithRoom<V>(s: Disruptor.State<V>) {
    && s.Shaped() && Disruptor.Enabled(s, Work(1)) && Means(s, Work(1)) == [F.Late(1, true)]
    && Abs(s).Valid() && !Abs(s).Full() && |Abs(s).Queue()| < Abs(s).cap
  }

  lemma SlotIsFree<V>(s: Disruptor.State<V>, r: Ring<V>, n: nat, l0: Loc<V>, v: V)
    requires Disruptor.Inv(s) && Abs(s).Valid() && s.q == Mpmc.State(r, [l0, DeqCas(1)]) && s.tasks == [Polling, Evicting(v)]
    requires r.n == n && r.enq == n && r.deq == 1 && r.ticket[0] == n
    ensures LateWithRoom(s)
  {
    ModOf(n, n, 1, 0);
    FullRing(s.q, Abs(s));
  }

  /** DropOldest can evict although there is a free slot: between the answer "full" and
      the eviction the consumer has taken a record and released its cell. So it does for
      every ring size, and with 64-bit words. */
  lemma EvictsWithRoom<V(!new)>(n: nat, v: V) returns (es: seq<Disruptor.Event<V>>)
    requires n >= 2
    ensures var s0 := Disruptor.Initial<V>(n, DropOldest, 1);
            && Allowed(s0, es) && LateWithRoom(Exec(s0, es))
            && (IsPowerOfTwo(n) && 2 * n <= TWO63 ==> WordAllowed(s0, es) && WordExec(s0, es) == Exec(s0, es))
  {
    var s0 := Disruptor.Initial<V>(n, DropOldest, 1);
    var s, r, l0 := AboutToEvict(n, v);
    es :| Reaches(n, es, s);
    InitialAbs<V>(n, DropOldest, 1);
    RunRefines(s0, es);
    SlotIsFree(s, r, n, l0, v);
    if IsPowerOfTwo(n) && 2 * n <= TWO63 { RunAgreesWord(s0, es); }
  }
}
