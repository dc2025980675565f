/** Two states that the queue does reach, with 64-bit words as with unbounded tickets: one
    where the 64-bit `enqueue` wrongly answers "full", one ticket beyond the number up to
    which the two agree; and one where "full" comes while there is room in the queue. */
module MpmcBound {
  import opened Common
  import opened Words
  import opened Mpmc
  import opened MpmcRuns

  ghost predicate Reaches<V>(a: Arith, n: nat, threads: nat, es: seq<Event<V>>, s: State<V>)
    requires n >= 2
  {
    Allowed(a, Initial<V>(n, threads), es) && Exec(a, Initial<V>(n, threads), es) == s
  }

  /** Some run leads to s in both arithmetics. */
  ghost predicate Reachable<V(!new)>(n: nat, threads: nat, s: State<V>)
    requires n >= 2
  {
    exists es :: Reaches(Word64, n, threads, es, s) && Reaches(Unbounded, n, threads, es, s)
  }

  lemma {:induction false} ExecAppend<V>(a: Arith, s: State<V>, es: seq<Event<V>>, e: Event<V>)
    requires Allowed(a, s, es) && Exec(a, s, es).Shaped() && Enabled(Exec(a, s, es), e)
    ensures Allowed(a, s, es + [e]) && Exec(a, s, es + [e]) == Step(a, Exec(a, s, es), e)
    decreases |es|
  {
    if es == [] {
      assert (es + [e])[1..] == [];
    } else {
      ExecAppend(a, Step(a, s, es[0]), es[1..], e);
      assert (es + [e])[1..] == es[1..] + [e];
    }
  }

  lemma ReachableInv<V(!new)>(n: nat, threads: nat, s: State<V>)
    requires n >= 2 && Reachable(n, threads, s)
    ensures Inv(s)
  {
    var s0 := Initial<V>(n, threads);
    InitialInv<V>(n, threads);
    var es :| Reaches(Word64, n, threads, es, s) && Reaches(Unbounded, n, threads, es, s);
    RunKeepsInvariant(s0, es);
  }

  lemma ReachableStep<V(!new)>(n: nat, threads: nat, s: State<V>, e: Event<V>, s': State<V>)
    requires n >= 2 && Reachable(n, threads, s) && s.Shaped() && Enabled(s, e)
    requires s' == Step(Unbounded, s, e) == Step(Word64, s, e)
    ensures Reachable(n, threads, s')
  {
    var s0 := Initial<V>(n, threads);
    var es :| Reaches(Word64, n, threads, es, s) && Reaches(Unbounded, n, threads, es, s);
    ExecAppend(Word64, s0, es, e);
    ExecAppend(Unbounded, s0, es, e);
    assert Reaches(Word64, n, threads, es + [e], s') && Reaches(Unbounded, n, threads, es + [e], s');
  }

  lemma InitialReachable<V(!new)>(n: nat, threads: nat)
    requires n >= 2
    ensures Reachable(n, threads, Initial<V>(n, threads))
  {
    var none: seq<Event<V>> := [];
    var s := Initial<V>(n, threads);
    assert Reaches(Word64, n, threads, none, s) && Reaches(Unbounded, n, threads, none, s);
  }

  // ----- one thread at a time -----

  /** Thread 0 takes a step on which the arithmetics agree. */
  lemma Go<V(!new)>(n: nat, r: Ring<V>, l: Loc<V>, other: Loc<V>, r': Ring<V>, l': Loc<V>)
    requires n >= 2 && r.Shaped() && Reachable(n, 2, State(r, [l, other])) && l.Running()
    requires l.Enqueuing() ==> (r', l') == EnqueueStep(Unbounded, r, 0, l) == EnqueueStep(Word64, r, 0, l)
    requires l.Dequeuing() ==> (r', l') == DequeueStep(Unbounded, r, 0, l) == DequeueStep(Word64, r, 0, l)
    ensures Reachable(n, 2, State(r', [l', other]))
  {
    assert [l, other][0 := l'] == [l', other];
    ReachableStep(n, 2, State(r, [l, other]), Run(0), State(r', [l', other]));
  }

  /** Thread 0 calls an operation or returns from one. */
  lemma Turn<V(!new)>(n: nat, r: Ring<V>, l: Loc<V>, other: Loc<V>, e: Event<V>, l': Loc<V>)
    requires n >= 2 && r.Shaped() && Reachable(n, 2, State(r, [l, other]))
    requires || (l.Idle? && e.CallEnqueue? && e.x == 0 && l' == EnqLoad(e.v))
             || (l.Idle? && e == CallDequeue(0) && l' == DeqLoad)
             || ((l.EnqDone? || l.DeqDone?) && e == Return(0) && l' == Idle)
    ensures Reachable(n, 2, State(r, [l', other]))
  {
    assert [l, other][0 := l'] == [l', other];
    ReachableStep(n, 2, State(r, [l, other]), e, State(r, [l', other]));
  }

  lemma Small(n: nat, k: nat)
    requires n >= 2 && IsPowerOfTwo(n) && k + n <= TWO63
    ensures Word64.Index(k, n) == k % n && Word64.Add(k, 1) == k + 1
    ensures Word64.Add(Word64.Add(k, n - 1), 1) == k + n
    ensures Word64.Dif(k, k) == 0 && Word64.Dif(k + 1, k + 1) == 0
  {
    IndexAgrees(k, n);
    AddAgrees(k, n - 1);
    AddAgrees(k + n - 1, 1);
    DifAgrees(k, k);
    DifAgrees(k + 1, k + 1);
  }

  lemma EnqueueOnce<V(!new)>(n: nat, r: Ring<V>, v: V, other: Loc<V>) returns (r': Ring<V>)
    requires n >= 2 && r.Shaped() && r.n == n && Reachable(n, 2, State(r, [Idle, other]))
    requires IsPowerOfTwo(n) && r.enq + n <= TWO63
    requires r.cells[r.enq % n].sq == r.enq
    ensures Reachable(n, 2, State(r', [Idle, other])) && r'.Shaped()
    ensures r'.n == n && r'.enq == r.enq + 1 && r'.deq == r.deq && r'.ticket == r.ticket
    ensures r'.cells == r.cells[r.enq % n := Cell(r.enq + 1, Some(v))]
  {
    var k := r.enq;
    var r1 := r.(enq := k + 1, put := r.put + [v], putBy := r.putBy + [0]);
    assert Reachable(n, 2, State(r1, [EnqWrite(v, k), other])) by {
      Small(n, k);
      Turn(n, r, Idle, other, CallEnqueue(0, v), EnqLoad(v));
      Go(n, r, EnqLoad(v), other, r, EnqCheck(v, k));
      Go(n, r, EnqCheck(v, k), other, r, EnqCas(v, k));
      Go(n, r, EnqCas(v, k), other, r1, EnqWrite(v, k));
    }
    r' := FillOnce(n, r1, v, k, other);
  }

  lemma FillOnce<V(!new)>(n: nat, r: Ring<V>, v: V, k: nat, other: Loc<V>) returns (r': Ring<V>)
    requires n >= 2 && r.Shaped() && r.n == n && Reachable(n, 2, State(r, [EnqWrite(v, k), other]))
    requires IsPowerOfTwo(n) && k + n <= TWO63
    ensures Reachable(n, 2, State(r', [Idle, other]))
    ensures r' == r.(cells := r.cells[k % n := Cell(k + 1, Some(v))])
  {
    var i := k % n;
    Small(n, k);
    var r1 := r.(cells := r.cells[i := r.cells[i].(val := Some(v))]);
    Go(n, r, EnqWrite(v, k), other, r1, EnqPublish(v, k));
    r' := r1.(cells := r1.cells[i := r1.cells[i].(sq := k + 1)]);
    Go(n, r1, EnqPublish(v, k), other, r', EnqDone(true));
    Turn(n, r', EnqDone(true), other, Return(0), Idle);
  }

  /** Up to the claim of the next ticket. */
  lemma ClaimOnce<V(!new)>(n: nat, r: Ring<V>, other: Loc<V>) returns (r': Ring<V>)
    requires n >= 2 && r.Shaped() && r.n == n && Reachable(n, 2, State(r, [Idle, other]))
    requires IsPowerOfTwo(n) && r.deq + n <= TWO63
    requires r.cells[r.deq % n].sq == r.deq + 1
    ensures r' == r.(deq := r.deq + 1, takenBy := r.takenBy + [0])
    ensures Reachable(n, 2, State(r', [DeqRead(r.deq), other]))
  {
    var k := r.deq;
    r' := r.(deq := k + 1, takenBy := r.takenBy + [0]);
    Small(n, k);
    Turn(n, r, Idle, other, CallDequeue(0), DeqLoad);
    Go(n, r, DeqLoad, other, r, DeqCheck(k));
    Go(n, r, DeqCheck(k), other, r, DeqCas(k));
    Go(n, r, DeqCas(k), other, r', DeqRead(k));
  }

  lemma DequeueOnce<V(!new)>(n: nat, r: Ring<V>, other: Loc<V>) returns (r': Ring<V>)
    requires n >= 2 && r.Shaped() && r.n == n && Reachable(n, 2, State(r, [Idle, other]))
    requires IsPowerOfTwo(n) && r.deq + n <= TWO63
    requires r.cells[r.deq % n].sq == r.deq + 1
    ensures Reachable(n, 2, State(r', [Idle, other])) && r'.Shaped()
    ensures r'.n == n && r'.enq == r.enq && r'.deq == r.deq + 1
    ensures r'.ticket == r.ticket[r.deq % n := r.deq + n]
    ensures r'.cells == r.cells[r.deq % n := Cell(r.deq + n, None)]
  {
    var r1 := ClaimOnce(n, r, other);
    r' := EmptyOnce(n, r1, r.deq, other);
  }

  lemma EmptyOnce<V(!new)>(n: nat, r: Ring<V>, k: nat, other: Loc<V>) returns (r': Ring<V>)
    requires n >= 2 && r.Shaped() && r.n == n && Reachable(n, 2, State(r, [DeqRead(k), other]))
    requires IsPowerOfTwo(n) && k + n <= TWO63
    ensures Reachable(n, 2, State(r', [Idle, other])) && r'.Shaped()
    ensures r'.n == n && r'.enq == r.enq && r'.deq == r.deq
    ensures r'.ticket == r.ticket[k % n := k + n]
    ensures r'.cells == r.cells[k % n := Cell(k + n, None)]
  {
    var got := r.cells[k % n].val;
    Small(n, k);
    Go(n, r, DeqRead(k), other, r, DeqClear(k, got));
    var r1 := r.(cells := r.cells[k % n := r.cells[k % n].(val := None)]);
    Go(n, r, DeqClear(k, got), other, r1, DeqRelease(k, got));
    r' := ReleaseOnce(n, r1, k, got, other);
  }

  lemma ReleaseOnce<V(!new)>(n: nat, r: Ring<V>, k: nat, got: Option<V>, other: Loc<V>) returns (r': Ring<V>)
    requires n >= 2 && r.Shaped() && r.n == n && Reachable(n, 2, State(r, [DeqRelease(k, got), other]))
    requires IsPowerOfTwo(n) && k + n <= TWO63
    ensures Reachable(n, 2, State(r', [Idle, other])) && r'.Shaped()
    ensures r'.n == n && r'.enq == r.enq && r'.deq == r.deq
    ensures r'.ticket == r.ticket[k % n := k + n]
    ensures r'.cells == r.cells[k % n := r.cells[k % n].(sq := k + n)]
  {
    Small(n, k);
    r' := DequeueStep(Unbounded, r, 0, DeqRelease(k, got)).0;
    Go(n, r, DeqRelease(k, got), other, r', DeqDone(true, got));
    Turn(n, r', DeqDone(true, got), other, Return(0), Idle);
  }

  // ----- beyond the bound -----

  /** Thread 0 is between calls and the ring is empty after k tickets; thread 1 loaded
      enq before the first of them and has not moved since. */
  ghost predicate Quiet<V(!new)>(n: nat, s: State<V>, v: V, k: nat)
    requires n >= 2
  {
    && Reachable(n, 2, s) && s.Shaped() && s.ring.n == n
    && s.locs == [Idle, EnqCheck(v, 0)]
    && s.ring.enq == k && s.ring.deq == k
    && (forall i: nat :: i < n ==> s.ring.cells[i].sq == s.ring.ticket[i])
  }

  lemma QuietCell<V(!new)>(n: nat, s: State<V>, v: V, k: nat, t: nat)
    requires n >= 2 && Quiet(n, s, v, k) && k <= t < k + n
    ensures s.ring.ticket[t % n] == t && s.ring.cells[t % n].sq == t
  {
    ReachableInv(n, 2, s);
    assert CellInv(s.ring, s.locs, t % n);
    SameCellGap(s.ring.ticket[t % n], t, n);
  }

  lemma NoTickets<V(!new)>(n: nat, v: V) returns (s: State<V>)
    requires n >= 2
    ensures Quiet(n, s, v, 0)
  {
    var s0 := Initial<V>(n, 2);
    InitialReachable<V>(n, 2);
    var s1 := State(s0.ring, [Idle, EnqLoad(v)]);
    assert s0.locs[1 := EnqLoad(v)] == [Idle, EnqLoad(v)];
    ReachableStep(n, 2, s0, CallEnqueue(1, v), s1);
    s := State(s0.ring, [Idle, EnqCheck(v, 0)]);
    assert s1.locs[1 := EnqCheck(v, 0)] == [Idle, EnqCheck(v, 0)];
    ReachableStep(n, 2, s1, Run(1), s);
  }

  lemma {:induction false} ManyTickets<V(!new)>(n: nat, v: V, k: nat) returns (s: State<V>)
    requires n >= 2 && IsPowerOfTwo(n) && k + n <= TWO63 + 1
    ensures Quiet(n, s, v, k)
  {
    if k == 0 {
      s := NoTickets(n, v);
    } else {
      var s0 := ManyTickets(n, v, k - 1);
      QuietCell(n, s0, v, k - 1, k - 1);
      assert s0 == State(s0.ring, [Idle, EnqCheck(v, 0)]);
      var r1 := EnqueueOnce(n, s0.ring, v, EnqCheck(v, 0));
      var r2 := DequeueOnce(n, r1, EnqCheck(v, 0));
      s := State(r2, [Idle, EnqCheck(v, 0)]);
    }
  }

  /** With one ticket more the two arithmetics part, in a state both reach: thread 1 still
      holds position 0, cell 0 has come round to ticket 2^63, the signed difference is
      negative, and the 64-bit `enqueue` answers "full" on an empty ring. */
  lemma BoundIsTight<V(!new)>(n: nat, v: V) returns (s: State<V>)
    requires n >= 2 && IsPowerOfTwo(n) && n <= TWO63
    ensures exists es :: Reaches(Word64, n, 2, es, s) && Reaches(Unbounded, n, 2, es, s)
    ensures s.Shaped() && Enabled(s, Run(1))
    ensures |s.ring.put| + n == TWO63 + 1 && s.ring.enq == s.ring.deq
    ensures Step(Word64, s, Run(1)).locs[1] == EnqDone(false)
    ensures Step(Unbounded, s, Run(1)).locs[1] == EnqLoad(v)
  {
    var m: nat := TWO63;
    s := ManyTickets(n, v, m - n + 1);
    assert Reachable(n, 2, s);
    ReachableInv(n, 2, s);
    PowerDivides(n);
    QuietCell(n, s, v, m - n + 1, m);
    IndexAgrees(0, n);
  }

  lemma PowerDivides(n: nat)
    requires IsPowerOfTwo(n) && 0 < n <= TWO63
    ensures TWO63 % n == 0
  {
    var k: nat :| n == Pow2(k);
    Pow2Literals();
    if k > 63 {
      Pow2Add(63, k - 63);
    } else {
      Pow2Add(63 - k, k);
      ModOf(TWO63, n, Pow2(63 - k), 0);
    }
  }

  // ----- full with room -----

  /** Thread 0 has enqueued k values and nobody has dequeued any. */
  ghost predicate Filled<V(!new)>(n: nat, r: Ring<V>, k: nat)
    requires n >= 2
  {
    && Reachable(n, 2, State(r, [Idle, Idle])) && r.Shaped() && r.n == n && r.enq == k && r.deq == 0
    && (forall i: nat :: i < n ==> r.cells[i].sq == if i < k then i + 1 else i)
  }

  lemma {:induction false} FillUp<V(!new)>(n: nat, v: V, k: nat) returns (r: Ring<V>)
    requires n >= 2 && IsPowerOfTwo(n) && 2 * n <= TWO63 && k <= n
    ensures Filled(n, r, k)
  {
    if k == 0 {
      var s := Initial<V>(n, 2);
      InitialReachable<V>(n, 2);
      r := s.ring;
      assert s == State(r, [Idle, Idle]);
    } else {
      var r0 := FillUp(n, v, k - 1);
      ModOf(k - 1, n, 0, k - 1);
      r := EnqueueOnce(n, r0, v, Idle);
    }
  }

  /** "Full" with a free place in the queue: thread 0 has claimed the oldest of n records
      and not yet released its cell. */
  lemma FullWithRoom<V(!new)>(n: nat, v: V) returns (s: State<V>)
    requires n >= 2 && IsPowerOfTwo(n) && 2 * n <= TWO63
    ensures exists es :: Reaches(Word64, n, 2, es, s) && Reaches(Unbounded, n, 2, es, s)
    ensures s.Shaped() && Enabled(s, Run(1)) && s.ring.n == n && s.ring.enq < s.ring.deq + n
    ensures Step(Word64, s, Run(1)).locs[1] == Step(Unbounded, s, Run(1)).locs[1] == EnqDone(false)
  {
    var r := FillUp(n, v, n);
    ModOf(0, n, 0, 0);
    var r1 := ClaimOnce(n, r, Idle);
    var s1 := State(r1, [DeqRead(0), EnqLoad(v)]);
    assert [DeqRead(0), Idle][1 := EnqLoad(v)] == [DeqRead(0), EnqLoad(v)];
    ReachableStep(n, 2, State(r1, [DeqRead(0), Idle]), CallEnqueue(1, v), s1);
    s := State(r1, [DeqRead(0), EnqCheck(v, n)]);
    assert s1.locs[1 := EnqCheck(v, n)] == s.locs;
    ReachableStep(n, 2, s1, Run(1), s);
    assert Reachable(n, 2, s);
    ModOf(n, n, 1, 0);
    IndexAgrees(n, n);
    DifAgrees(1, n);
  }
}
