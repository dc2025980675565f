/** The bounded-channel transport: Dispatch calls sending on, and under DropOldest also
    receiving from, one buffered channel that a worker ranges over. A channel
    operation is one step. */
module ChannelTransport {
  import opened Common
  import opened Sums
  import F = BoundedFifo

  datatype Caller<V> =
    | Ready
    | Sending(c: V)                       // Block: in the send
    | TrySend(c: V)                       // about to select on the send
    | Counting(c: V)                      // DropNewest: full, about to count
    | TryEvict(c: V)                      // DropOldest: full, about to select on a receive
    | CountEvicted(c: V, victim: Option<V>)
    | Panicked(c: V)                      // sent on a closed channel

  datatype Worker<V> = Receiving | Emitting(r: V) | Exited

  datatype Closer = Open | Waits | Returned

  /** `entered`, `enteredBy`, `fates`, `rejected`, `offered`, `emitted` and `lost` record
      the past. A receive from a closed and empty channel yields nil, which DropOldest
      counts as a drop although no record is lost: `phantoms` counts those. */
  datatype State<V> = State(
    cap: nat,
    policy: Policy,
    queue: seq<V>,
    callers: seq<Caller<V>>,
    worker: Worker<V>,
    closer: Closer,
    dropped: nat,
    entered: seq<V>,
    enteredBy: seq<nat>,
    fates: seq<F.Fate>,
    rejected: seq<V>,
    offered: seq<V>,
    emitted: seq<V>,
    lost: seq<V>,
    phantoms: nat)
  {
    predicate Closed() { !closer.Open? }
  }

  function Initial<V>(capacity: int, policy: Policy, callers: nat): State<V> {
    State(if capacity < 1 then 1024 else capacity, policy, [], seq(callers, _ => Ready), Receiving, Open, 0,
          [], [], [], [], [], [], [], 0)
  }

  datatype Event<V> =
    | Dispatch(x: nat, v: V)
    | Caller(x: nat)
    | Work
    | Close
    | CloseReturns

  predicate Enabled<V>(s: State<V>, e: Event<V>) {
    match e
    case Dispatch(x, _) => x < |s.callers| && s.callers[x].Ready?
    case Caller(x) =>
      x < |s.callers| && !s.callers[x].Ready? && !s.callers[x].Panicked?
      && (s.callers[x].Sending? ==> s.Closed() || |s.queue| < s.cap)
    case Work => s.worker.Emitting? || (s.worker.Receiving? && (s.queue != [] || s.Closed()))
    case Close => s.closer.Open?
    case CloseReturns => s.closer.Waits? && s.worker.Exited?
  }

  function Sent<V>(s: State<V>, x: nat, c: V): State<V>
    requires x < |s.callers|
  {
    if s.Closed() then s.(callers := s.callers[x := Panicked(c)])
    else s.(callers := s.callers[x := Ready], queue := s.queue + [c], entered := s.entered + [c],
            enteredBy := s.enteredBy + [x])
  }

  function CallerStep<V>(s: State<V>, x: nat): State<V>
    requires Enabled(s, Caller(x))
  {
    match s.callers[x]
    case Sending(c) => Sent(s, x, c)
    case TrySend(c) =>
      if s.Closed() || |s.queue| < s.cap then Sent(s, x, c)
      else if s.policy.DropOldest? then s.(callers := s.callers[x := TryEvict(c)])
      else s.(callers := s.callers[x := Counting(c)], rejected := s.rejected + [c])
    case Counting(c) => s.(callers := s.callers[x := Ready], dropped := s.dropped + 1, lost := s.lost + [c])
    case TryEvict(c) =>
      if s.queue != [] then
        s.(callers := s.callers[x := CountEvicted(c, Some(s.queue[0]))], queue := s.queue[1..],
           fates := s.fates + [F.Evicted])
      else if s.Closed() then s.(callers := s.callers[x := CountEvicted(c, None)])
      else s.(callers := s.callers[x := TrySend(c)])
    case CountEvicted(c, victim) =>
      var s1 := s.(callers := s.callers[x := TrySend(c)], dropped := s.dropped + 1);
      if victim.Some? then s1.(lost := s.lost + [victim.value]) else s1.(phantoms := s.phantoms + 1)
  }

  function WorkerStep<V>(s: State<V>): State<V>
    requires Enabled(s, Work)
  {
    if s.worker.Emitting? then s.(emitted := s.emitted + [s.worker.r], worker := Receiving)
    else if s.queue != [] then
      s.(queue := s.queue[1..], worker := Emitting(s.queue[0]), fates := s.fates + [F.Delivered])
    else s.(worker := Exited)
  }

  function Step<V>(s: State<V>, e: Event<V>): State<V>
    requires Enabled(s, e)
  {
    match e
    case Dispatch(x, v) =>
      s.(callers := s.callers[x := if s.policy.Block? then Sending(v) else TrySend(v)], offered := s.offered + [v])
    case Caller(x) => CallerStep(s, x)
    case Work => WorkerStep(s)
    case Close => s.(closer := Waits)
    case CloseReturns => s.(closer := Returned)
  }

  // ----- the invariant -----

  /** The callers that found the channel full and are about to receive. */
  ghost function Owed<V>(callers: seq<Caller<V>>): set<nat> {
    set x: nat | x < |callers| && callers[x].TryEvict?
  }

  ghost function Abs<V>(s: State<V>): F.Fifo<V> {
    F.Fifo(s.cap, s.policy, s.entered, s.fates, s.rejected, {}, Owed(s.callers))
  }

  ghost function InHand<V>(w: Worker<V>): seq<V> {
    if w.Emitting? then [w.r] else []
  }

  ghost function Held<V>(c: Caller<V>): multiset<V> {
    if c.Ready? then multiset{}
    else if c.CountEvicted? && c.victim.Some? then multiset{c.c} + multiset{c.victim.value}
    else multiset{c.c}
  }

  ghost function AllHeld<V>(callers: seq<Caller<V>>): seq<multiset<V>> {
    seq(|callers|, i requires 0 <= i < |callers| => Held(callers[i]))
  }

  ghost predicate Conserved<V>(s: State<V>) {
    multiset(s.offered)
    == Total(AllHeld(s.callers)) + multiset(s.queue) + multiset(InHand(s.worker)) + multiset(s.emitted) + multiset(s.lost)
  }

  ghost predicate Fifo<V>(s: State<V>) {
    && Abs(s).Valid()
    && s.queue == Abs(s).Queue()
    && F.DeliveredOf(s.entered, s.fates) == s.emitted + InHand(s.worker)
  }

  /** A caller that can only panic, or has. */
  ghost function Stranded<V>(c: Caller<V>): nat {
    if c.TrySend? || c.Panicked? then 1 else 0
  }

  ghost function Strandeds<V>(callers: seq<Caller<V>>): seq<nat> {
    seq(|callers|, i requires 0 <= i < |callers| => Stranded(callers[i]))
  }

  ghost predicate CallerInv<V>(p: Policy, c: Caller<V>) {
    && (c.Sending? ==> p.Block?)
    && (c.TrySend? ==> !p.Block?)
    && (c.Counting? ==> p.DropNewest?)
    && (c.TryEvict? || c.CountEvicted? ==> p.DropOldest?)
  }

  ghost predicate PolicyKept<V>(s: State<V>) {
    && s.cap >= 1
    && s.dropped == |s.lost| + s.phantoms
    && (!s.Closed() ==> s.phantoms == 0)
    && s.phantoms <= Sum(Strandeds(s.callers))
    && |s.enteredBy| == |s.entered|
    && (s.policy.Block? ==> s.dropped == 0)
    && (forall x :: 0 <= x < |s.callers| ==> CallerInv(s.policy, s.callers[x]))
    && (forall x :: 0 <= x < |s.callers| && s.callers[x].CountEvicted? && s.callers[x].victim.None? ==> s.Closed())
    && (forall x :: 0 <= x < |s.callers| && s.callers[x].Panicked? ==> s.Closed())
    && (s.worker.Exited? ==> s.Closed() && s.queue == [])
    && (s.closer.Returned? ==> s.worker.Exited?)
  }

  ghost predicate Inv<V>(s: State<V>) {
    PolicyKept(s) && Fifo(s) && Conserved(s)
  }

  lemma InitialInv<V>(capacity: int, policy: Policy, callers: nat)
    ensures Inv(Initial<V>(capacity, policy, callers))
  {
    TotalOfNothing(AllHeld(Initial<V>(capacity, policy, callers).callers));
  }

  lemma OneCaller<V>(callers: seq<Caller<V>>, x: nat, c: Caller<V>)
    requires x < |callers|
    ensures Total(AllHeld(callers[x := c])) + Held(callers[x]) == Total(AllHeld(callers)) + Held(c)
  {
    var m := Held(c);
    assert AllHeld(callers[x := c]) == AllHeld(callers)[x := m];
    TotalUpdate(AllHeld(callers), x, m);
  }

  /** Caller x parts with v, which then turns up elsewhere. */
  lemma Parts<V>(t: multiset<V>, t': multiset<V>, h: multiset<V>, h': multiset<V>, v: V)
    requires t' + h == t + h' && h == h' + multiset{v}
    ensures t == t' + multiset{v}
  {
    forall w ensures t[w] == (t' + multiset{v})[w] { assert (t' + h)[w] == (t + h')[w]; }
  }

  lemma Moves<V>(t: multiset<V>, q: multiset<V>, i: multiset<V>, e: multiset<V>, l: multiset<V>, v: V)
    ensures var all := (t + multiset{v}) + q + i + e + l;
            && all == t + (q + multiset{v}) + i + e + l
            && all == t + (multiset{v} + q) + i + e + l
            && all == t + q + (i + multiset{v}) + e + l
            && all == t + q + i + (e + multiset{v}) + l
            && all == t + q + i + e + (l + multiset{v})
            && all == t + q + i + e + l + multiset{v}
  {
  }

  /** Caller x puts a record into the channel or gives one up. */
  lemma GivesAway<V>(s: State<V>, s': State<V>, x: nat, v: V)
    requires Conserved(s) && x < |s.callers| == |s'.callers| && s'.callers == s.callers[x := s'.callers[x]]
    requires Held(s.callers[x]) == Held(s'.callers[x]) + multiset{v}
    requires s'.offered == s.offered && s'.worker == s.worker && s'.emitted == s.emitted
    requires (s'.queue == s.queue + [v] && s'.lost == s.lost) || (s'.queue == s.queue && s'.lost == s.lost + [v])
    ensures Conserved(s')
  {
    OneCaller(s.callers, x, s'.callers[x]);
    var t, t' := Total(AllHeld(s.callers)), Total(AllHeld(s'.callers));
    Parts(t, t', Held(s.callers[x]), Held(s'.callers[x]), v);
    Moves(t', multiset(s.queue), multiset(InHand(s.worker)), multiset(s.emitted), multiset(s.lost), v);
  }

  /** Caller x takes the oldest record out. */
  lemma TakesAway<V>(s: State<V>, s': State<V>, x: nat)
    requires Conserved(s) && x < |s.callers| == |s'.callers| && s'.callers == s.callers[x := s'.callers[x]]
    requires s.queue != [] && Held(s'.callers[x]) == Held(s.callers[x]) + multiset{s.queue[0]}
    requires s'.offered == s.offered && s'.worker == s.worker && s'.emitted == s.emitted && s'.lost == s.lost
    requires s'.queue == s.queue[1..]
    ensures Conserved(s')
  {
    OneCaller(s.callers, x, s'.callers[x]);
    var v, rest := s.queue[0], s.queue[1..];
    assert s.queue == [v] + rest;
    TakesSum(Total(AllHeld(s.callers)), Total(AllHeld(s'.callers)), Held(s.callers[x]), Held(s'.callers[x]),
             multiset(rest), multiset(InHand(s.worker)), multiset(s.emitted), multiset(s.lost), v);
  }

  lemma TakesSum<V>(t: multiset<V>, t': multiset<V>, h: multiset<V>, h': multiset<V>,
                    q: multiset<V>, i: multiset<V>, e: multiset<V>, l: multiset<V>, v: V)
    requires t' + h == t + h' && h' == h + multiset{v}
    ensures t' + q + i + e + l == t + (multiset{v} + q) + i + e + l
  {
    Parts(t', t, h', h, v);
    Moves(t, q, i, e, l, v);
  }

  lemma KeepsAll<V>(s: State<V>, s': State<V>, x: nat)
    requires Conserved(s) && x < |s.callers| == |s'.callers| && s'.callers == s.callers[x := s'.callers[x]]
    requires Held(s'.callers[x]) == Held(s.callers[x])
    requires s'.offered == s.offered && s'.worker == s.worker && s'.emitted == s.emitted && s'.lost == s.lost
    requires s'.queue == s.queue
    ensures Conserved(s')
  {
    assert AllHeld(s'.callers) == AllHeld(s.callers);
  }

  lemma SentConserves<V>(s: State<V>, x: nat)
    requires Conserved(s) && x < |s.callers| && (s.callers[x].Sending? || s.callers[x].TrySend?)
    ensures Conserved(Sent(s, x, s.callers[x].c))
  {
    var c := s.callers[x].c;
    var s' := Sent(s, x, c);
    if s.Closed() { KeepsAll(s, s', x); } else { GivesAway(s, s', x, c); }
  }

  lemma CountingConserves<V>(s: State<V>, x: nat)
    requires Conserved(s) && Enabled(s, Caller(x)) && s.callers[x].Counting?
    ensures Conserved(CallerStep(s, x))
  {
    GivesAway(s, CallerStep(s, x), x, s.callers[x].c);
  }

  /** The send goes through, or panics. */
  lemma StepIsSent<V>(s: State<V>, x: nat)
    requires Enabled(s, Caller(x)) && (s.callers[x].Sending? || s.callers[x].TrySend?)
    requires s.Closed() || |s.queue| < s.cap
    ensures CallerStep(s, x) == Sent(s, x, s.callers[x].c)
  {
  }

  /** A caller that neither sends nor receives. */
  ghost predicate OnlyMoves<V>(s: State<V>, s': State<V>, x: nat) {
    && x < |s.callers| == |s'.callers| && s'.callers == s.callers[x := s'.callers[x]]
    && s'.offered == s.offered && s'.worker == s.worker && s'.emitted == s.emitted && s'.queue == s.queue
    && s'.entered == s.entered && s'.fates == s.fates && s'.cap == s.cap && s'.policy == s.policy
  }

  lemma FullStep<V>(s: State<V>, x: nat)
    requires Enabled(s, Caller(x)) && s.callers[x].TrySend? && !s.Closed() && |s.queue| >= s.cap
    ensures var s', c := CallerStep(s, x), s.callers[x].c;
            && OnlyMoves(s, s', x) && s'.lost == s.lost
            && (s.policy.DropOldest? ==> s'.callers[x] == TryEvict(c) && s'.rejected == s.rejected)
            && (!s.policy.DropOldest? ==> s'.callers[x] == Counting(c) && s'.rejected == s.rejected + [c])
  {
  }

  lemma SendConserves<V>(s: State<V>, x: nat)
    requires Conserved(s) && Enabled(s, Caller(x)) && (s.callers[x].Sending? || s.callers[x].TrySend?)
    ensures Conserved(CallerStep(s, x))
  {
    if s.Closed() || |s.queue| < s.cap {
      StepIsSent(s, x);
      SentConserves(s, x);
    } else {
      FullStep(s, x);
      KeepsAll(s, CallerStep(s, x), x);
    }
  }

  lemma EvictConserves<V>(s: State<V>, x: nat)
    requires Conserved(s) && Enabled(s, Caller(x)) && s.callers[x].TryEvict?
    ensures Conserved(CallerStep(s, x))
  {
    var s' := CallerStep(s, x);
    if s.queue != [] { TakesAway(s, s', x); } else { KeepsAll(s, s', x); }
  }

  lemma CountConserves<V>(s: State<V>, x: nat)
    requires Conserved(s) && Enabled(s, Caller(x)) && s.callers[x].CountEvicted?
    ensures Conserved(CallerStep(s, x))
  {
    var s', victim := CallerStep(s, x), s.callers[x].victim;
    if victim.Some? { GivesAway(s, s', x, victim.value); } else { KeepsAll(s, s', x); }
  }

  lemma SentFifo<V>(s: State<V>, x: nat, c: V)
    requires Fifo(s) && x < |s.callers| && (s.Closed() || |s.queue| < s.cap)
    ensures Fifo(Sent(s, x, c))
  {
    F.DeliveredIgnoresTail(s.entered, [c], s.fates);
  }

  lemma EvictFifo<V>(s: State<V>, x: nat)
    requires PolicyKept(s) && Fifo(s) && Enabled(s, Caller(x)) && s.callers[x].TryEvict?
    ensures Fifo(CallerStep(s, x))
  {
    assert CallerInv(s.policy, s.callers[x]);
    if s.queue != [] { F.DeliveredSnoc(s.entered, s.fates, F.Evicted); }
  }

  lemma CallerFifo<V>(s: State<V>, x: nat)
    requires PolicyKept(s) && Fifo(s) && Enabled(s, Caller(x))
    ensures Fifo(CallerStep(s, x))
  {
    var l := s.callers[x];
    assert CallerInv(s.policy, l);
    if l.TryEvict? {
      EvictFifo(s, x);
    } else if (l.Sending? || l.TrySend?) && (s.Closed() || |s.queue| < s.cap) {
      SentFifo(s, x, l.c);
      assert CallerStep(s, x) == Sent(s, x, l.c);
    }
  }

  lemma OneStranded<V>(callers: seq<Caller<V>>, x: nat, c: Caller<V>)
    requires x < |callers|
    ensures Sum(Strandeds(callers[x := c])) + Stranded(callers[x]) == Sum(Strandeds(callers)) + Stranded(c)
  {
    var w := Stranded(c);
    assert Strandeds(callers[x := c]) == Strandeds(callers)[x := w];
    SumUpdate(Strandeds(callers), x, w);
  }

  lemma CallerPolicy<V>(s: State<V>, x: nat)
    requires PolicyKept(s) && Enabled(s, Caller(x))
    ensures PolicyKept(CallerStep(s, x))
  {
    var s' := CallerStep(s, x);
    assert CallerInv(s.policy, s.callers[x]);
    assert s'.callers == s.callers[x := s'.callers[x]];
    OneStranded(s.callers, x, s'.callers[x]);
  }

  lemma DispatchPolicy<V>(s: State<V>, x: nat, v: V)
    requires PolicyKept(s) && Enabled(s, Dispatch(x, v))
    ensures PolicyKept(Step(s, Dispatch(x, v)))
  {
    OneStranded(s.callers, x, Step(s, Dispatch(x, v)).callers[x]);
  }

  lemma EmitConserves<V>(s: State<V>)
    requires Conserved(s) && s.worker.Emitting?
    ensures Conserved(WorkerStep(s))
  {
    var r := s.worker.r;
    Moves(Total(AllHeld(s.callers)), multiset(s.queue), multiset{}, multiset(s.emitted), multiset(s.lost), r);
    assert multiset([r]) == multiset{} + multiset{r};
  }

  lemma ReceiveConserves<V>(s: State<V>)
    requires Conserved(s) && s.worker.Receiving? && s.queue != []
    ensures Conserved(WorkerStep(s))
  {
    var v, rest := s.queue[0], s.queue[1..];
    assert s.queue == [v] + rest;
    Moves(Total(AllHeld(s.callers)), multiset(rest), multiset{}, multiset(s.emitted), multiset(s.lost), v);
    assert multiset([v]) == multiset{} + multiset{v};
  }

  lemma WorkFifo<V>(s: State<V>)
    requires PolicyKept(s) && Fifo(s) && Enabled(s, Work)
    ensures Fifo(WorkerStep(s)) && PolicyKept(WorkerStep(s))
  {
    if !s.worker.Emitting? && s.queue != [] {
      F.DeliveredSnoc(s.entered, s.fates, F.Delivered);
    }
  }

  lemma DispatchConserves<V>(s: State<V>, x: nat, v: V)
    requires Conserved(s) && Enabled(s, Dispatch(x, v))
    ensures Conserved(Step(s, Dispatch(x, v)))
  {
    var s' := Step(s, Dispatch(x, v));
    OneCaller(s.callers, x, s'.callers[x]);
    var t, t' := Total(AllHeld(s.callers)), Total(AllHeld(s'.callers));
    Parts(t', t, multiset{v}, multiset{}, v);
    Moves(t, multiset(s.queue), multiset(InHand(s.worker)), multiset(s.emitted), multiset(s.lost), v);
  }

  lemma CallerKeepsInv<V>(s: State<V>, x: nat)
    requires Inv(s) && Enabled(s, Caller(x))
    ensures Inv(CallerStep(s, x))
  {
    if s.callers[x].TryEvict? { EvictConserves(s, x); }
    else if s.callers[x].CountEvicted? { CountConserves(s, x); }
    else if s.callers[x].Counting? { CountingConserves(s, x); }
    else { SendConserves(s, x); }
    CallerFifo(s, x);
    CallerPolicy(s, x);
  }

  lemma WorkKeepsInv<V>(s: State<V>)
    requires Inv(s) && Enabled(s, Work)
    ensures Inv(WorkerStep(s))
  {
    WorkFifo(s);
    if s.worker.Emitting? { EmitConserves(s); } else if s.queue != [] { ReceiveConserves(s); }
  }

  lemma StepKeepsInv<V>(s: State<V>, e: Event<V>)
    requires Inv(s) && Enabled(s, e)
    ensures Inv(Step(s, e))
  {
    match e {
      case Dispatch(x, v) => DispatchConserves(s, x, v); DispatchPolicy(s, x, v);
      case Caller(x) => CallerKeepsInv(s, x);
      case Work => WorkKeepsInv(s);
      case Close =>
      case CloseReturns =>
    }
  }
}
