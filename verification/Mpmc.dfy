/** The lock-free bounded queue as a transition system. Any number of threads run
    `enqueue` and `dequeue`; every atomic load, compare-and-swap, value access and
    sequence store is a step of its own, so a run is any interleaving of them. */
module Mpmc {
  import opened Common
  import opened Words

  datatype Cell<V> = Cell(sq: nat, val: Option<V>)

  /** Where a thread stands inside `enqueue` or `dequeue`, with its locals. */
  datatype Loc<V> =
    | Idle
    | EnqLoad(v: V)                          // about to load enq
    | EnqCheck(v: V, pos: nat)               // about to load the cell's seq
    | EnqCas(v: V, pos: nat)                 // about to compare-and-swap enq
    | EnqWrite(v: V, pos: nat)               // owns the ticket, about to write val
    | EnqPublish(v: V, pos: nat)             // about to store seq
    | EnqDone(ok: bool)
    | DeqLoad
    | DeqCheck(pos: nat)
    | DeqCas(pos: nat)
    | DeqRead(pos: nat)                      // owns the ticket, about to read val
    | DeqClear(pos: nat, got: Option<V>)     // about to write nil
    | DeqRelease(pos: nat, got: Option<V>)   // about to store seq
    | DeqDone(found: bool, got: Option<V>)
  {
    predicate Enqueuing() {
      EnqLoad? || EnqCheck? || EnqCas? || EnqWrite? || EnqPublish?
    }

    predicate Dequeuing() {
      DeqLoad? || DeqCheck? || DeqCas? || DeqRead? || DeqClear? || DeqRelease?
    }

    predicate Running() {
      Enqueuing() || Dequeuing()
    }

    /** Holds a ticket: its compare-and-swap succeeded and its store is to come. */
    predicate Owning() {
      EnqWrite? || EnqPublish? || DeqRead? || DeqClear? || DeqRelease?
    }

    /** Between a successful compare-and-swap on enq and the sequence store. */
    predicate Filling(t: nat) {
      (EnqWrite? || EnqPublish?) && pos == t
    }

    /** Between a successful compare-and-swap on deq and the sequence store. */
    predicate Emptying(t: nat) {
      (DeqRead? || DeqClear? || DeqRelease?) && pos == t
    }
  }

  /** One value handed back by a successful dequeue. */
  datatype Taken<V> = Taken(thread: nat, ticket: nat, value: V)

  /** The memory the threads share. `cells`, `enq` and `deq` are the program's; the
      rest only records the past and never decides a branch: `put[t]` is the value
      enqueued under ticket t by thread `putBy[t]`, `takenBy[t]` the thread that
      claimed t for dequeuing, `ticket[i]` the ticket cell i currently serves,
      `results` every value handed back, in order of return. */
  datatype Ring<V> = Ring(
    n: nat,
    cells: seq<Cell<V>>,
    enq: nat,
    deq: nat,
    put: seq<V>,
    putBy: seq<nat>,
    takenBy: seq<nat>,
    ticket: seq<nat>,
    results: seq<Taken<V>>)
  {
    predicate Shaped() {
      n >= 2 && |cells| == n && |ticket| == n
    }
  }

  datatype State<V> = State(ring: Ring<V>, locs: seq<Loc<V>>) {
    predicate Shaped() {
      ring.Shaped()
    }
  }

  function Initial<V>(n: nat, threads: nat): (s: State<V>)
    requires n >= 2
  {
    State(
      Ring(n, seq(n, i requires 0 <= i => Cell(i, None)), 0, 0,
           [], [], [], seq(n, i requires 0 <= i => i), []),
      seq(threads, _ => Idle))
  }

  datatype Event<V> =
    | CallEnqueue(x: nat, v: V)
    | CallDequeue(x: nat)
    | Run(x: nat)
    | Return(x: nat)

  predicate Enabled<V>(s: State<V>, e: Event<V>) {
    e.x < |s.locs| &&
    match e
    case CallEnqueue(x, _) => s.locs[x].Idle?
    case CallDequeue(x) => s.locs[x].Idle?
    case Run(x) => s.locs[x].Running()
    case Return(x) => s.locs[x].EnqDone? || s.locs[x].DeqDone?
  }

  function Step<V>(a: Arith, s: State<V>, e: Event<V>): (s': State<V>)
    requires s.Shaped() && Enabled(s, e)
  {
    var (ring, l) :=
      match e
      case CallEnqueue(x, v) => (s.ring, EnqLoad(v))
      case CallDequeue(x) => (s.ring, DeqLoad)
      case Return(x) => (s.ring, Idle)
      case Run(x) =>
        if s.locs[x].Enqueuing() then EnqueueStep(a, s.ring, x, s.locs[x])
        else DequeueStep(a, s.ring, x, s.locs[x]);
    State(ring, s.locs[e.x := l])
  }

  /** One step of `enqueue` by thread x. A failed compare-and-swap goes back to the
      sequence load with the old position. */
  function EnqueueStep<V>(a: Arith, r: Ring<V>, x: nat, l: Loc<V>): (Ring<V>, Loc<V>)
    requires r.Shaped() && l.Enqueuing()
  {
    match l
    case EnqLoad(v) => (r, EnqCheck(v, r.enq))
    case EnqCheck(v, pos) =>
      var dif := a.Dif(r.cells[a.Index(pos, r.n)].sq, pos);
      (r, if dif == 0 then EnqCas(v, pos) else if dif < 0 then EnqDone(false) else EnqLoad(v))
    case EnqCas(v, pos) =>
      if r.enq == pos then
        (r.(enq := a.Add(pos, 1), put := r.put + [v], putBy := r.putBy + [x]), EnqWrite(v, pos))
      else
        (r, EnqCheck(v, pos))
    case EnqWrite(v, pos) =>
      var i := a.Index(pos, r.n);
      (r.(cells := r.cells[i := r.cells[i].(val := Some(v))]), EnqPublish(v, pos))
    case EnqPublish(v, pos) =>
      var i := a.Index(pos, r.n);
      (r.(cells := r.cells[i := r.cells[i].(sq := a.Add(pos, 1))]), EnqDone(true))
  }

  /** One step of `dequeue` by thread x. */
  function DequeueStep<V>(a: Arith, r: Ring<V>, x: nat, l: Loc<V>): (Ring<V>, Loc<V>)
    requires r.Shaped() && l.Dequeuing()
  {
    match l
    case DeqLoad => (r, DeqCheck(r.deq))
    case DeqCheck(pos) =>
      var dif := a.Dif(r.cells[a.Index(pos, r.n)].sq, a.Add(pos, 1));
      (r, if dif == 0 then DeqCas(pos) else if dif < 0 then DeqDone(false, None) else DeqLoad)
    case DeqCas(pos) =>
      if r.deq == pos then
        (r.(deq := a.Add(pos, 1), takenBy := r.takenBy + [x]), DeqRead(pos))
      else
        (r, DeqCheck(pos))
    case DeqRead(pos) => (r, DeqClear(pos, r.cells[a.Index(pos, r.n)].val))
    case DeqClear(pos, got) =>
      var i := a.Index(pos, r.n);
      (r.(cells := r.cells[i := r.cells[i].(val := None)]), DeqRelease(pos, got))
    case DeqRelease(pos, got) =>
      var i := a.Index(pos, r.n);
      (r.(cells := r.cells[i := r.cells[i].(sq := a.Add(a.Add(pos, r.n - 1), 1))],
          ticket := r.ticket[i := pos + r.n],
          results := if got.Some? then r.results + [Taken(x, pos, got.value)] else r.results),
       DeqDone(true, got))
  }

  // ----- the inductive invariant -----

  /** What cell i says about its ticket: free for it, being filled, full, or being
      emptied, and by whom. */
  ghost predicate CellInv<V>(r: Ring<V>, locs: seq<Loc<V>>, i: nat)
    requires r.Shaped() && i < r.n
  {
    var t, c := r.ticket[i], r.cells[i];
    && t % r.n == i
    && r.enq <= t + r.n
    && t < r.deq + r.n
    && (c.sq == t || c.sq == t + 1)
    && (c.sq == t ==>
          && r.deq <= t
          && (t < r.enq ==> t < |r.putBy| && r.putBy[t] < |locs| && locs[r.putBy[t]].Filling(t)))
    && (c.sq == t + 1 ==>
          && t < r.enq && t < |r.put|
          && (t < r.deq ==> t < |r.takenBy| && r.takenBy[t] < |locs| && locs[r.takenBy[t]].Emptying(t))
          && ((t < r.deq && locs[r.takenBy[t]].DeqRelease?) || c.val == Some(r.put[t])))
  }

  /** What thread x may rely on at location l. */
  ghost predicate LocInv<V>(r: Ring<V>, x: nat, l: Loc<V>)
    requires r.Shaped()
  {
    match l
    case EnqCheck(v, pos) => pos <= r.enq
    case EnqCas(v, pos) => pos <= r.enq && r.ticket[pos % r.n] >= pos
    case EnqWrite(v, pos) => OwnsPut(r, x, v, pos)
    case EnqPublish(v, pos) => OwnsPut(r, x, v, pos) && r.cells[pos % r.n].val == Some(v)
    case DeqCheck(pos) => pos <= r.deq
    case DeqCas(pos) =>
      pos <= r.deq &&
      (r.ticket[pos % r.n] > pos || (r.ticket[pos % r.n] == pos && r.cells[pos % r.n].sq == pos + 1))
    case DeqRead(pos) => OwnsTake(r, x, pos)
    case DeqClear(pos, got) => OwnsTake(r, x, pos) && got == Some(r.put[pos])
    case DeqRelease(pos, got) => OwnsTake(r, x, pos) && got == Some(r.put[pos])
    case DeqDone(found, got) => found == got.Some?
    case _ => true
  }

  ghost predicate OwnsPut<V>(r: Ring<V>, x: nat, v: V, pos: nat)
    requires r.Shaped()
  {
    && pos < r.enq && pos < |r.put| && pos < |r.putBy|
    && r.putBy[pos] == x && r.put[pos] == v
    && r.ticket[pos % r.n] == pos && r.cells[pos % r.n].sq == pos
  }

  ghost predicate OwnsTake<V>(r: Ring<V>, x: nat, pos: nat)
    requires r.Shaped()
  {
    && pos < r.deq && pos < |r.takenBy| && pos < |r.put|
    && r.takenBy[pos] == x
    && r.ticket[pos % r.n] == pos && r.cells[pos % r.n].sq == pos + 1
    && (forall k :: 0 <= k < |r.results| && r.results[k].thread == x ==> r.results[k].ticket < pos)
  }

  ghost predicate ResultInv<V>(r: Ring<V>, k: nat)
    requires r.Shaped() && k < |r.results|
  {
    var got := r.results[k];
    && got.ticket < r.deq && got.ticket < |r.takenBy| && got.ticket < |r.put|
    && r.takenBy[got.ticket] == got.thread
    && got.value == r.put[got.ticket]
    && r.ticket[got.ticket % r.n] > got.ticket
  }

  ghost predicate ResultsInv<V>(r: Ring<V>)
    requires r.Shaped()
  {
    && (forall k: nat :: k < |r.results| ==> ResultInv(r, k))
    && (forall j, k :: 0 <= j < k < |r.results| ==>
          && r.results[j].ticket != r.results[k].ticket
          && (r.results[j].thread == r.results[k].thread ==> r.results[j].ticket < r.results[k].ticket))
  }

  ghost predicate Counts<V>(r: Ring<V>) {
    && |r.put| == r.enq && |r.putBy| == r.enq && |r.takenBy| == r.deq
    && r.deq <= r.enq <= r.deq + r.n
  }

  ghost predicate Inv<V>(s: State<V>) {
    && s.Shaped()
    && Counts(s.ring)
    && (forall i: nat :: i < s.ring.n ==> CellInv(s.ring, s.locs, i))
    && (forall x: nat :: x < |s.locs| ==> LocInv(s.ring, x, s.locs[x]))
    && ResultsInv(s.ring)
  }

  lemma InitialInv<V>(n: nat, threads: nat)
    requires n >= 2
    ensures Inv(Initial<V>(n, threads))
  {
    var s := Initial<V>(n, threads);
    forall i: nat | i < n ensures CellInv(s.ring, s.locs, i) {
      assert s.ring.ticket[i] == i && s.ring.cells[i] == Cell(i, None);
      ModOf(i, n, 0, i);
    }
    forall x: nat | x < threads ensures LocInv(s.ring, x, s.locs[x]) {
      assert s.locs[x] == Idle;
    }
  }

  /** A step that only moves thread x, which owns no ticket before or after. */
  lemma LocalStep<V>(s: State<V>, x: nat, l: Loc<V>)
    requires Inv(s) && x < |s.locs|
    requires !s.locs[x].Owning() && !l.Owning() && LocInv(s.ring, x, l)
    ensures Inv(State(s.ring, s.locs[x := l]))
  {
    var locs := s.locs[x := l];
    forall i: nat | i < s.ring.n ensures CellInv(s.ring, locs, i) {
      assert CellInv(s.ring, s.locs, i);
    }
  }

  /** The cell of the next ticket to enqueue: if it has reached that ticket it is
      free for it, and no other cell waits for the ticket a ring earlier. */
  lemma NextPut<V>(s: State<V>)
    requires Inv(s) && s.ring.ticket[s.ring.enq % s.ring.n] >= s.ring.enq
    ensures var r := s.ring; var i := r.enq % r.n;
            && r.ticket[i] == r.enq && r.cells[i].sq == r.enq
            && r.enq < r.deq + r.n
            && (forall j: nat :: j < r.n ==> r.enq < r.ticket[j] + r.n)
  {
    var r := s.ring;
    var i := r.enq % r.n;
    assert CellInv(r, s.locs, i);
    SameCellGap(r.ticket[i], r.enq, r.n);
    forall j: nat | j < r.n ensures r.enq < r.ticket[j] + r.n {
      assert CellInv(r, s.locs, j);
      if r.enq == r.ticket[j] + r.n {
        NextRoundSameCell(r.ticket[j], r.n);
      }
    }
  }

  lemma ClaimPut<V>(s: State<V>, x: nat)
    requires Inv(s) && x < |s.locs| && s.locs[x].EnqCas? && s.locs[x].pos == s.ring.enq
    ensures Inv(Step(Unbounded, s, Run(x)))
  {
    var s' := Step(Unbounded, s, Run(x));
    var r, r' := s.ring, s'.ring;
    assert LocInv(r, x, s.locs[x]);
    NextPut(s);
    forall j: nat | j < r'.n ensures CellInv(r', s'.locs, j) {
      assert CellInv(r, s.locs, j);
    }
    forall y: nat | y < |s'.locs| ensures LocInv(r', y, s'.locs[y]) {
      assert LocInv(r, y, s.locs[y]);
    }
    forall k: nat | k < |r'.results| ensures ResultInv(r', k) { assert ResultInv(r, k); }
  }

  /** Writing the value, reading it, clearing it: thread x owns the cell, so nobody
      else's claim mentions what changes. */
  lemma WriteValue<V>(s: State<V>, x: nat)
    requires Inv(s) && x < |s.locs| && s.locs[x].EnqWrite?
    ensures Inv(Step(Unbounded, s, Run(x)))
  {
    var s' := Step(Unbounded, s, Run(x));
    var r, r' := s.ring, s'.ring;
    assert LocInv(r, x, s.locs[x]);
    forall j: nat | j < r'.n ensures CellInv(r', s'.locs, j) {
      assert CellInv(r, s.locs, j);
    }
    forall y: nat | y < |s'.locs| ensures LocInv(r', y, s'.locs[y]) {
      assert LocInv(r, y, s.locs[y]);
    }
    forall k: nat | k < |r'.results| ensures ResultInv(r', k) { assert ResultInv(r, k); }
  }

  lemma PublishCells<V>(s: State<V>, x: nat)
    requires Inv(s) && x < |s.locs| && s.locs[x].EnqPublish?
    ensures var s' := Step(Unbounded, s, Run(x));
            forall j: nat :: j < s'.ring.n ==> CellInv(s'.ring, s'.locs, j)
  {
    var s' := Step(Unbounded, s, Run(x));
    assert LocInv(s.ring, x, s.locs[x]);
    forall j: nat | j < s'.ring.n ensures CellInv(s'.ring, s'.locs, j) {
      assert CellInv(s.ring, s.locs, j);
    }
  }

  lemma Publish<V>(s: State<V>, x: nat)
    requires Inv(s) && x < |s.locs| && s.locs[x].EnqPublish?
    ensures Inv(Step(Unbounded, s, Run(x)))
  {
    var s' := Step(Unbounded, s, Run(x));
    var r, r' := s.ring, s'.ring;
    PublishCells(s, x);
    assert LocInv(r, x, s.locs[x]);
    forall y: nat | y < |s'.locs| ensures LocInv(r', y, s'.locs[y]) {
      assert LocInv(r, y, s.locs[y]);
      assert CellInv(r, s.locs, s.locs[x].pos % r.n);
    }
    forall k: nat | k < |r'.results| ensures ResultInv(r', k) { assert ResultInv(r, k); }
  }

  /** The cell of the next ticket to dequeue, once seen full or past it, is full for
      exactly that ticket. */
  lemma NextTake<V>(s: State<V>)
    requires Inv(s)
    requires var r := s.ring; var i := r.deq % r.n;
             r.ticket[i] > r.deq || (r.ticket[i] == r.deq && r.cells[i].sq == r.deq + 1)
    ensures var r := s.ring; var i := r.deq % r.n;
            r.ticket[i] == r.deq && r.cells[i].sq == r.deq + 1 && r.deq < r.enq
  {
    var r := s.ring;
    var i := r.deq % r.n;
    assert CellInv(r, s.locs, i);
    SameCellGap(r.ticket[i], r.deq, r.n);
  }

  lemma ClaimTake<V>(s: State<V>, x: nat)
    requires Inv(s) && x < |s.locs| && s.locs[x].DeqCas? && s.locs[x].pos == s.ring.deq
    ensures Inv(Step(Unbounded, s, Run(x)))
  {
    var s' := Step(Unbounded, s, Run(x));
    var r, r' := s.ring, s'.ring;
    assert LocInv(r, x, s.locs[x]);
    NextTake(s);
    forall j: nat | j < r'.n ensures CellInv(r', s'.locs, j) {
      assert CellInv(r, s.locs, j);
    }
    forall k: nat | k < |r'.results| ensures ResultInv(r', k) { assert ResultInv(r, k); }
    forall y: nat | y < |s'.locs| ensures LocInv(r', y, s'.locs[y]) {
      assert LocInv(r, y, s.locs[y]);
      forall k: nat | k < |r.results| ensures r.results[k].ticket < r.deq { assert ResultInv(r, k); }
    }
  }

  lemma ReadOrClearCells<V>(s: State<V>, x: nat)
    requires Inv(s) && x < |s.locs| && (s.locs[x].DeqRead? || s.locs[x].DeqClear?)
    ensures var s' := Step(Unbounded, s, Run(x));
            forall j: nat :: j < s'.ring.n ==> CellInv(s'.ring, s'.locs, j)
  {
    var s' := Step(Unbounded, s, Run(x));
    assert LocInv(s.ring, x, s.locs[x]);
    forall j: nat | j < s'.ring.n ensures CellInv(s'.ring, s'.locs, j) {
      assert CellInv(s.ring, s.locs, j);
    }
  }

  lemma ReadOrClearLocs<V>(s: State<V>, x: nat)
    requires Inv(s) && x < |s.locs| && (s.locs[x].DeqRead? || s.locs[x].DeqClear?)
    ensures var s' := Step(Unbounded, s, Run(x));
            forall y: nat :: y < |s'.locs| ==> LocInv(s'.ring, y, s'.locs[y])
  {
    var s' := Step(Unbounded, s, Run(x));
    assert LocInv(s.ring, x, s.locs[x]);
    assert CellInv(s.ring, s.locs, s.locs[x].pos % s.ring.n);
    forall y: nat | y < |s'.locs| ensures LocInv(s'.ring, y, s'.locs[y]) {
      assert LocInv(s.ring, y, s.locs[y]);
    }
  }

  lemma ReadOrClear<V>(s: State<V>, x: nat)
    requires Inv(s) && x < |s.locs| && (s.locs[x].DeqRead? || s.locs[x].DeqClear?)
    ensures Inv(Step(Unbounded, s, Run(x)))
  {
    var r, r' := s.ring, Step(Unbounded, s, Run(x)).ring;
    ReadOrClearCells(s, x);
    ReadOrClearLocs(s, x);
    forall k: nat | k < |r'.results| ensures ResultInv(r', k) { assert ResultInv(r, k); }
  }

  /** Releasing moves the cell to the ticket one round later, free. */
  lemma ReleaseCells<V>(s: State<V>, x: nat)
    requires Inv(s) && x < |s.locs| && s.locs[x].DeqRelease?
    ensures var s' := Step(Unbounded, s, Run(x));
            forall j: nat :: j < s'.ring.n ==> CellInv(s'.ring, s'.locs, j)
  {
    var s' := Step(Unbounded, s, Run(x));
    var r, r' := s.ring, s'.ring;
    var pos := s.locs[x].pos;
    assert LocInv(r, x, s.locs[x]);
    NextRoundSameCell(pos, r.n);
    forall j: nat | j < r'.n ensures CellInv(r', s'.locs, j) {
      assert CellInv(r, s.locs, j);
    }
  }

  lemma ReleaseResults<V>(s: State<V>, x: nat)
    requires Inv(s) && x < |s.locs| && s.locs[x].DeqRelease?
    ensures ResultsInv(Step(Unbounded, s, Run(x)).ring)
  {
    var r, r' := s.ring, Step(Unbounded, s, Run(x)).ring;
    var pos := s.locs[x].pos;
    assert LocInv(r, x, s.locs[x]);
    assert CellInv(r, s.locs, pos % r.n);
    forall k: nat | k < |r'.results| ensures ResultInv(r', k) {
      if k < |r.results| { assert ResultInv(r, k); }
    }
    forall k: nat | k < |r.results| ensures r.results[k].ticket != pos { assert ResultInv(r, k); }
  }

  lemma ReleaseLocs<V>(s: State<V>, x: nat)
    requires Inv(s) && x < |s.locs| && s.locs[x].DeqRelease?
    ensures var s' := Step(Unbounded, s, Run(x));
            forall y: nat :: y < |s'.locs| ==> LocInv(s'.ring, y, s'.locs[y])
  {
    var s' := Step(Unbounded, s, Run(x));
    var r, r' := s.ring, s'.ring;
    var pos := s.locs[x].pos;
    assert LocInv(r, x, s.locs[x]);
    forall y: nat | y < |s'.locs| ensures LocInv(r', y, s'.locs[y]) {
      assert LocInv(r, y, s.locs[y]);
    }
  }

  lemma Release<V>(s: State<V>, x: nat)
    requires Inv(s) && x < |s.locs| && s.locs[x].DeqRelease?
    ensures Inv(Step(Unbounded, s, Run(x)))
  {
    assert LocInv(s.ring, x, s.locs[x]);
    ReleaseCells(s, x);
    ReleaseResults(s, x);
    ReleaseLocs(s, x);
  }

  /** A loaded sequence that equals the position is the cell being free for that very
      ticket: with a single cell it could be the previous ticket, published. */
  lemma EnqCheckStep<V>(s: State<V>, x: nat)
    requires Inv(s) && x < |s.locs| && s.locs[x].EnqCheck?
    ensures Inv(Step(Unbounded, s, Run(x)))
    ensures var i := s.locs[x].pos % s.ring.n;
            Step(Unbounded, s, Run(x)).locs[x].EnqCas? <==>
              s.ring.ticket[i] == s.locs[x].pos && s.ring.cells[i].sq == s.locs[x].pos
  {
    var r, l := s.ring, s.locs[x];
    var i := l.pos % r.n;
    assert LocInv(r, x, l);
    assert CellInv(r, s.locs, i);
    SameCellGap(r.ticket[i], l.pos, r.n);
    LocalStep(s, x, EnqueueStep(Unbounded, r, x, l).1);
  }

  /** A loaded sequence one past the position is the cell being full under that very
      ticket. */
  lemma DeqCheckStep<V>(s: State<V>, x: nat)
    requires Inv(s) && x < |s.locs| && s.locs[x].DeqCheck?
    ensures Inv(Step(Unbounded, s, Run(x)))
    ensures var i := s.locs[x].pos % s.ring.n;
            Step(Unbounded, s, Run(x)).locs[x].DeqCas? <==>
              s.ring.ticket[i] == s.locs[x].pos && s.ring.cells[i].sq == s.locs[x].pos + 1
  {
    var r, l := s.ring, s.locs[x];
    var i := l.pos % r.n;
    assert LocInv(r, x, l);
    assert CellInv(r, s.locs, i);
    SameCellGap(r.ticket[i], l.pos, r.n);
    LocalStep(s, x, DequeueStep(Unbounded, r, x, l).1);
  }

  lemma RunKeepsInv<V>(s: State<V>, x: nat)
    requires Inv(s) && Enabled(s, Run(x))
    ensures Inv(Step(Unbounded, s, Run(x)))
  {
    var r, l := s.ring, s.locs[x];
    assert LocInv(r, x, l);
    match l {
      case EnqLoad(v) => LocalStep(s, x, EnqCheck(v, r.enq));
      case EnqCheck(v, pos) => EnqCheckStep(s, x);
      case EnqCas(v, pos) => if pos == r.enq { ClaimPut(s, x); } else { LocalStep(s, x, EnqCheck(v, pos)); }
      case EnqWrite(v, pos) => WriteValue(s, x);
      case EnqPublish(v, pos) => Publish(s, x);
      case DeqLoad => LocalStep(s, x, DeqCheck(r.deq));
      case DeqCheck(pos) => DeqCheckStep(s, x);
      case DeqCas(pos) => if pos == r.deq { ClaimTake(s, x); } else { LocalStep(s, x, DeqCheck(pos)); }
      case DeqRead(pos) => ReadOrClear(s, x);
      case DeqClear(pos, got) => ReadOrClear(s, x);
      case DeqRelease(pos, got) => Release(s, x);
    }
  }

  /** Every step of every thread keeps the ring invariant. */
  lemma StepKeepsInv<V>(s: State<V>, e: Event<V>)
    requires Inv(s) && Enabled(s, e)
    ensures Inv(Step(Unbounded, s, e))
  {
    match e {
      case CallEnqueue(x, v) => LocalStep(s, x, EnqLoad(v));
      case CallDequeue(x) => LocalStep(s, x, DeqLoad);
      case Return(x) => LocalStep(s, x, Idle);
      case Run(x) => RunKeepsInv(s, x);
    }
  }
}
