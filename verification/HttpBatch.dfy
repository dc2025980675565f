/** The batching sink: records collect in a buffer that is sent off when it is full, when
    a timer fires, on Sync and on Close. Sending is a success or failure of the whole
    batch. A timer may fire at any time after it was started; stopping one that has
    fired does not stop its callback. */
module HttpBatch {
  import opened Common

  // ----- the object the mutex protects -----

  class HttpBatchSink<V> {
    const maxBatch: int
    const minLevel: int
    var buf: seq<V>
    var timer: Option<nat>
    var dropped: nat
    var closed: bool

    constructor (maxBatch: int, minLevel: int)
      ensures buf == [] && timer == None && dropped == 0 && !closed
      ensures this.maxBatch == maxBatch && this.minLevel == minLevel
    {
      this.maxBatch, this.minLevel := maxBatch, minLevel;
      buf, timer, dropped, closed := [], None, 0, false;
    }

    ghost function Abs(): Core<V>
      reads this
    {
      Core(buf, timer, dropped, closed)
    }

    /** `stopped` is the timer that was told to stop. */
    method TakeLocked() returns (batch: seq<V>, stopped: Option<nat>)
      modifies this`buf, this`timer
      ensures (Abs(), batch) == Take(old(Abs())) && stopped == old(timer)
    {
      batch := buf;
      buf := [];
      stopped := timer;
      timer := None;
    }

    /** `id` is the timer the runtime hands out if one is started. */
    method Emit(level: int, c: V, id: nat) returns (batch: seq<V>, stopped: Option<nat>)
      modifies this
      ensures (Abs(), batch) == if level < minLevel then (old(Abs()), []) else Accept(old(Abs()), maxBatch, c, id)
      ensures batch != [] ==> stopped == old(timer)
    {
      batch, stopped := [], None;
      if level < minLevel { return; }
      if closed { return; }
      buf := buf + [c];
      if |buf| >= maxBatch {
        batch, stopped := TakeLocked();
        return;
      }
      if timer == None {
        timer := Some(id);
      }
    }

    method Close() returns (batch: seq<V>, stopped: Option<nat>)
      modifies this
      ensures (Abs(), batch) == Take(old(Abs()).(closed := true)) && stopped == old(timer)
    {
      closed := true;
      batch, stopped := TakeLocked();
    }

    method AddDropped(n: nat)
      modifies this`dropped
      ensures Abs() == old(Abs()).(dropped := old(dropped) + n)
    {
      dropped := dropped + n;
    }
  }

  datatype Core<V> = Core(buf: seq<V>, timer: Option<nat>, dropped: nat, closed: bool)

  function Take<V>(s: Core<V>): (Core<V>, seq<V>) {
    (s.(buf := [], timer := None), s.buf)
  }

  /** Emit of a record at or above the minimum level. */
  function Accept<V>(s: Core<V>, maxBatch: int, c: V, id: nat): (Core<V>, seq<V>) {
    if s.closed then (s, [])
    else
      var s1 := s.(buf := s.buf + [c]);
      if |s1.buf| >= maxBatch then Take(s1)
      else if s1.timer == None then (s1.(timer := Some(id)), [])
      else (s1, [])
  }

  // ----- all callers and callbacks together -----

  /** `live` are the timers that have not fired, `fired` those whose callback has not run
      yet; `flying` the batches being sent. `accepted`, `taken`, `delivered` and `failed`
      record the past. */
  datatype State<V> = State(
    maxBatch: int,
    core: Core<V>,
    nextTimer: nat,
    live: set<nat>,
    fired: set<nat>,
    flying: seq<seq<V>>,
    accepted: seq<V>,
    taken: seq<seq<V>>,
    delivered: seq<V>,
    failed: seq<V>)

  function Initial<V>(maxBatch: int): State<V> {
    State(maxBatch, Core([], None, 0, false), 0, {}, {}, [], [], [], [], [])
  }

  datatype Event<V> =
    | Emit(c: V)
    | Fire(id: nat)
    | Callback(id: nat)
    | Sync
    | Close
    | Sent(i: nat, ok: bool)

  predicate Enabled<V>(s: State<V>, e: Event<V>) {
    match e
    case Fire(id) => id in s.live
    case Callback(id) => id in s.fired
    case Sent(i, _) => i < |s.flying|
    case _ => true
  }

  /** A batch taken out is sent, unless it is empty; its timer is stopped. */
  function TakeOff<V>(s: State<V>, core: Core<V>, batch: seq<V>): State<V> {
    var s1 := s.(core := core, live := if s.core.timer.Some? then s.live - {s.core.timer.value} else s.live);
    if batch == [] then s1 else s1.(flying := s.flying + [batch], taken := s.taken + [batch])
  }

  function Flush<V>(s: State<V>, core: Core<V>): State<V> {
    var (core', batch) := Take(core);
    TakeOff(s, core', batch)
  }

  function Step<V>(s: State<V>, e: Event<V>): State<V>
    requires Enabled(s, e)
  {
    match e
    case Emit(c) =>
      var (core, batch) := Accept(s.core, s.maxBatch, c, s.nextTimer);
      var s1 := s.(accepted := s.accepted + if s.core.closed then [] else [c]);
      if batch != [] then TakeOff(s1, core, batch)
      else if core.timer != s.core.timer then
        s1.(core := core, live := s.live + {s.nextTimer}, nextTimer := s.nextTimer + 1)
      else s1.(core := core)
    case Fire(id) => s.(live := s.live - {id}, fired := s.fired + {id})
    case Callback(id) => Flush(s.(fired := s.fired - {id}), s.core)
    case Sync => Flush(s, s.core)
    case Close => Flush(s, s.core.(closed := true))
    case Sent(i, ok) =>
      var batch := s.flying[i];
      var s1 := s.(flying := s.flying[..i] + s.flying[i + 1..]);
      if ok then s1.(delivered := s.delivered + batch)
      else s1.(failed := s.failed + batch, core := s.core.(dropped := s.core.dropped + |batch|))
  }

  // ----- the invariant -----

  function Flatten<V>(bs: seq<seq<V>>): seq<V> {
    if bs == [] then [] else Flatten(bs[..|bs| - 1]) + bs[|bs| - 1]
  }

  function Limit(maxBatch: int): nat {
    if maxBatch < 1 then 1 else maxBatch
  }

  /** Batches in the order they were taken, and then the buffer, are what was accepted. */
  ghost predicate InOrder<V>(s: State<V>) {
    && s.accepted == Flatten(s.taken) + s.core.buf
    && (forall k :: 0 <= k < |s.taken| ==> 1 <= |s.taken[k]| <= Limit(s.maxBatch))
    && |s.core.buf| < Limit(s.maxBatch)
    && (s.core.closed ==> s.core.buf == [])
  }

  /** A record in the buffer will be picked up: the current timer is running, or its
      callback is due. No other timer is running. */
  ghost predicate WillFlush<V>(s: State<V>) {
    && (s.core.buf != [] ==> s.core.timer.Some?)
    && (s.core.timer.Some? ==> (s.core.timer.value in s.live || s.core.timer.value in s.fired))
    && (forall id :: id in s.live || id in s.fired ==> id < s.nextTimer)
    && (forall id :: id in s.live ==> s.core.timer == Some(id))
  }

  ghost predicate Accounted<V>(s: State<V>) {
    && multiset(s.accepted)
       == multiset(s.core.buf) + multiset(Flatten(s.flying)) + multiset(s.delivered) + multiset(s.failed)
    && s.core.dropped == |s.failed|
  }

  ghost predicate Inv<V>(s: State<V>) {
    InOrder(s) && WillFlush(s) && Accounted(s)
  }

  lemma FlattenSnoc<V>(bs: seq<seq<V>>, b: seq<V>)
    ensures Flatten(bs + [b]) == Flatten(bs) + b
  {
    assert (bs + [b])[..|bs|] == bs;
  }

  lemma {:induction false} FlattenAppend<V>(a: seq<seq<V>>, b: seq<seq<V>>)
    ensures Flatten(a + b) == Flatten(a) + Flatten(b)
  {
    if b == [] {
      assert a + b == a;
    } else {
      var init, last := b[..|b| - 1], b[|b| - 1];
      assert b == init + [last] && a + b == (a + init) + [last];
      FlattenAppend(a, init);
      FlattenSnoc(a + init, last);
      FlattenSnoc(init, last);
      Associate(Flatten(a), Flatten(init), last);
    }
  }

  lemma Associate<V>(a: seq<V>, b: seq<V>, c: seq<V>)
    ensures (a + b) + c == a + (b + c)
  {
  }

  lemma Middle<V>(a: seq<V>, m: seq<V>, b: seq<V>)
    ensures multiset((a + m) + b) == multiset(a + b) + multiset(m)
  {
  }

  lemma FlattenMiddle<V>(a: seq<seq<V>>, m: seq<V>, b: seq<seq<V>>)
    ensures multiset(Flatten((a + [m]) + b)) == multiset(Flatten(a + b)) + multiset(m)
  {
    FlattenAppend(a + [m], b);
    FlattenSnoc(a, m);
    FlattenAppend(a, b);
    Middle(Flatten(a), m, Flatten(b));
  }

  lemma Around<T>(s: seq<T>, i: nat)
    requires i < |s|
    ensures s == (s[..i] + [s[i]]) + s[i + 1..]
  {
  }

  lemma FlattenWithout<V>(bs: seq<seq<V>>, i: nat)
    requires i < |bs|
    ensures multiset(Flatten(bs)) == multiset(Flatten(bs[..i] + bs[i + 1..])) + multiset(bs[i])
  {
    Around(bs, i);
    FlattenMiddle(bs[..i], bs[i], bs[i + 1..]);
  }

  lemma TakeOffOrder<V>(s: State<V>, core: Core<V>)
    requires InOrder(s) && core.buf == s.core.buf
    ensures InOrder(Flush(s, core))
  {
    if core.buf != [] { FlattenSnoc(s.taken, core.buf); }
  }

  lemma FlushAccounted<V>(s: State<V>, core: Core<V>)
    requires Accounted(s) && core.buf == s.core.buf && core.dropped == s.core.dropped
    ensures Accounted(Flush(s, core))
  {
    if core.buf != [] { FlattenSnoc(s.flying, core.buf); }
  }

  lemma FlushWill<V>(s: State<V>, core: Core<V>)
    requires forall id :: id in s.live || id in s.fired ==> id < s.nextTimer
    requires forall id :: id in s.live ==> s.core.timer == Some(id)
    ensures WillFlush(Flush(s, core))
  {
  }

  lemma OrderSnoc<V>(s: State<V>, s': State<V>, c: V, batch: seq<V>)
    requires InOrder(s) && batch == s.core.buf + [c] && s'.maxBatch == s.maxBatch
    requires s'.taken == s.taken + [batch] && s'.core.buf == [] && s'.accepted == s.accepted + [c]
    ensures InOrder(s')
  {
    FlattenSnoc(s.taken, batch);
    Associate(Flatten(s.taken), s.core.buf, [c]);
  }

  lemma EmitTakes<V>(s: State<V>, c: V)
    requires InOrder(s) && !s.core.closed && |s.core.buf + [c]| >= s.maxBatch
    ensures InOrder(Step(s, Emit(c)))
  {
    OrderSnoc(s, Step(s, Emit(c)), c, s.core.buf + [c]);
  }

  lemma EmitOrder<V>(s: State<V>, c: V)
    requires InOrder(s)
    ensures InOrder(Step(s, Emit(c)))
  {
    if s.core.closed {
    } else if |s.core.buf + [c]| >= s.maxBatch {
      EmitTakes(s, c);
    } else {
      Associate(Flatten(s.taken), s.core.buf, [c]);
    }
  }

  lemma Adds<V>(b: multiset<V>, f: multiset<V>, d: multiset<V>, x: multiset<V>, c: V)
    ensures b + f + d + x + multiset{c} == (b + multiset{c}) + f + d + x
    ensures b + f + d + x + multiset{c} == multiset{} + (f + (b + multiset{c})) + d + x
  {
  }

  lemma EmitAccounted<V>(s: State<V>, c: V)
    requires Accounted(s)
    ensures Accounted(Step(s, Emit(c)))
  {
    var s', buf := Step(s, Emit(c)), s.core.buf + [c];
    Adds(multiset(s.core.buf), multiset(Flatten(s.flying)), multiset(s.delivered), multiset(s.failed), c);
    if !s.core.closed {
      assert multiset(s'.accepted) == multiset(s.accepted) + multiset{c};
      assert multiset(buf) == multiset(s.core.buf) + multiset{c};
      if |buf| >= s.maxBatch {
        FlattenSnoc(s.flying, buf);
        assert s'.core.buf == [];
      }
    }
  }

  lemma EmitWill<V>(s: State<V>, c: V)
    requires WillFlush(s)
    ensures WillFlush(Step(s, Emit(c)))
  {
  }

  lemma SentAccounted<V>(s: State<V>, i: nat, ok: bool)
    requires Accounted(s) && i < |s.flying|
    ensures Accounted(Step(s, Sent(i, ok)))
  {
    FlattenWithout(s.flying, i);
  }

  lemma FlushKeepsInv<V>(s: State<V>, core: Core<V>)
    requires InOrder(s) && Accounted(s) && (forall id :: id in s.live || id in s.fired ==> id < s.nextTimer)
    requires forall id :: id in s.live ==> s.core.timer == Some(id)
    requires core.buf == s.core.buf && core.dropped == s.core.dropped
    ensures Inv(Flush(s, core))
  {
    TakeOffOrder(s, core);
    FlushAccounted(s, core);
    FlushWill(s, core);
  }

  lemma EmitKeepsInv<V>(s: State<V>, c: V)
    requires Inv(s)
    ensures Inv(Step(s, Emit(c)))
  {
    EmitOrder(s, c);
    EmitAccounted(s, c);
    EmitWill(s, c);
  }

  lemma StepKeepsInv<V>(s: State<V>, e: Event<V>)
    requires Inv(s) && Enabled(s, e)
    ensures Inv(Step(s, e))
  {
    match e {
      case Emit(c) => EmitKeepsInv(s, c);
      case Fire(id) =>
      case Callback(id) => FlushKeepsInv(s.(fired := s.fired - {id}), s.core);
      case Sync => FlushKeepsInv(s, s.core);
      case Close => FlushKeepsInv(s, s.core.(closed := true));
      case Sent(i, ok) => SentAccounted(s, i, ok);
    }
  }

  // ----- batch sizes -----

  /** Full batches of n records, and what is left over. */
  function Chunks<V>(n: nat, xs: seq<V>): (seq<seq<V>>, seq<V>)
    requires n > 0
  {
    if |xs| < n then ([], xs)
    else
      var (more, left) := Chunks(n, xs[n..]);
      ([xs[..n]] + more, left)
  }

  function Emits<V>(cs: seq<V>): (es: seq<Event<V>>)
    ensures |es| == |cs| && forall i :: 0 <= i < |cs| ==> es[i] == Emit(cs[i])
  {
    seq(|cs|, i requires 0 <= i < |cs| => Emit(cs[i]))
  }

  lemma EmitsTail<V>(cs: seq<V>)
    requires cs != []
    ensures Emits(cs)[0] == Emit(cs[0]) && Emits(cs)[1..] == Emits(cs[1..])
  {
  }

  /** A record goes into the buffer, which is taken when it has reached the limit and not
      before. */
  lemma OneEmit<V>(s: State<V>, c: V)
    requires Inv(s) && !s.core.closed
    ensures var s', n, buf := Step(s, Emit(c)), Limit(s.maxBatch), s.core.buf + [c];
            && !s'.core.closed && s'.maxBatch == s.maxBatch
            && (|buf| < n ==> s'.taken == s.taken && s'.core.buf == buf)
            && (|buf| == n ==> s'.taken == s.taken + [buf] && s'.core.buf == [])
            && |buf| <= n
  {
  }

  lemma ChunksStep<V>(n: nat, buf: seq<V>, c: V, cs: seq<V>)
    requires n > 0 && |buf| < n
    ensures var (bs, left), all := Chunks(n, if |buf| + 1 == n then cs else (buf + [c]) + cs), buf + ([c] + cs);
            Chunks(n, all) == (if |buf| + 1 == n then [buf + [c]] + bs else bs, left)
  {
    var all := buf + ([c] + cs);
    assert all == (buf + [c]) + cs;
    if |buf| + 1 == n { assert all[..n] == buf + [c] && all[n..] == cs; }
  }

  /** From s to s' these records have been cut up into batches of exactly the limit, in order,
      and what does not fill a batch is in the buffer. */
  ghost predicate CutUp<V>(s: State<V>, cs: seq<V>, s': State<V>) {
    var (bs, left) := Chunks(Limit(s.maxBatch), s.core.buf + cs);
    s'.taken == s.taken + bs && s'.core.buf == left
  }

  lemma NothingCut<V>(s: State<V>)
    requires |s.core.buf| < Limit(s.maxBatch)
    ensures CutUp(s, [], s)
  {
    assert s.core.buf + [] == s.core.buf && s.taken + [] == s.taken;
  }

  lemma CutOneMore<V>(s: State<V>, c: V, cs: seq<V>, s': State<V>)
    requires Inv(s) && !s.core.closed && CutUp(Step(s, Emit(c)), cs, s')
    ensures CutUp(s, [c] + cs, s')
  {
    var s1 := Step(s, Emit(c));
    OneEmit(s, c);
    ChunksOn(Limit(s.maxBatch), s.taken, s.core.buf, c, cs, s1.taken, s1.core.buf);
  }

  /** As long as only Emits come, the records are sent off in batches of exactly the limit, in
      order, and what does not fill a batch stays in the buffer. */
  lemma {:induction false} EmitsChunk<V>(s: State<V>, cs: seq<V>)
    requires Inv(s) && !s.core.closed
    ensures Allowed(s, Emits(cs)) && CutUp(s, cs, Exec(s, Emits(cs)))
    decreases |cs|
  {
    if cs == [] {
      NothingCut(s);
    } else {
      var c, rest := cs[0], cs[1..];
      EmitsTail(cs);
      StepKeepsInv(s, Emit(c));
      OneEmit(s, c);
      EmitsChunk(Step(s, Emit(c)), rest);
      CutOneMore(s, c, rest, Exec(Step(s, Emit(c)), Emits(rest)));
      assert cs == [c] + rest;
    }
  }

  /** If the rest is cut up rightly after one record, so is the whole. */
  lemma ChunksOn<V>(n: nat, taken: seq<seq<V>>, buf: seq<V>, c: V, cs: seq<V>, taken': seq<seq<V>>, buf': seq<V>)
    requires n > 0 && |buf| < n
    requires if |buf| + 1 == n then taken' == taken + [buf + [c]] && buf' == [] else taken' == taken && buf' == buf + [c]
    ensures var (bs, left), (bs', left') := Chunks(n, buf + ([c] + cs)), Chunks(n, buf' + cs);
            taken' + bs' == taken + bs && left' == left
  {
    ChunksStep(n, buf, c, cs);
    if |buf| + 1 == n {
      assert buf' + cs == cs;
      Prepend(taken, buf + [c], Chunks(n, cs).0);
    }
  }

  lemma Prepend<T>(a: seq<T>, b: T, c: seq<T>)
    ensures (a + [b]) + c == a + ([b] + c)
  {
  }

  // ----- failures -----

  /** The records in batches whose sending failed. */
  ghost function Failures<V>(s: State<V>, es: seq<Event<V>>): nat
    requires Allowed(s, es)
    decreases |es|
  {
    if es == [] then 0
    else (if es[0].Sent? && !es[0].ok then |s.flying[es[0].i]| else 0) + Failures(Step(s, es[0]), es[1..])
  }

  lemma StepDrops<V>(s: State<V>, e: Event<V>)
    requires Enabled(s, e)
    ensures Step(s, e).core.dropped == s.core.dropped + if e.Sent? && !e.ok then |s.flying[e.i]| else 0
  {
  }

  /** `Dropped()` is the number of records in the batches whose sending failed, and nothing
      else. */
  lemma {:induction false} DroppedIsFailures<V>(s: State<V>, es: seq<Event<V>>)
    requires Allowed(s, es)
    ensures Exec(s, es).core.dropped == s.core.dropped + Failures(s, es)
    decreases |es|
  {
    if es != [] {
      StepDrops(s, es[0]);
      DroppedIsFailures(Step(s, es[0]), es[1..]);
    }
  }

  /** Sync, Close and a timer's callback send off whatever is in the buffer, in one batch. */
  lemma Flushes<V>(s: State<V>, e: Event<V>)
    requires Enabled(s, e) && (e.Sync? || e.Close? || e.Callback?)
    ensures var s' := Step(s, e);
            && s'.core.buf == [] && s'.live <= s.live && s'.accepted == s.accepted
            && (s.core.timer.Some? ==> s.core.timer.value !in s'.live)
            && s'.taken == s.taken + (if s.core.buf == [] then [] else [s.core.buf])
            && s'.flying == s.flying + (if s.core.buf == [] then [] else [s.core.buf])
            && s'.core.closed == (s.core.closed || e.Close?)
  {
  }

  /** After Close nothing is accepted any more. */
  lemma NothingAfterClose<V>(s: State<V>, es: seq<Event<V>>)
    requires Allowed(Step(s, Close), es)
    ensures Exec(Step(s, Close), es).accepted == s.accepted
  {
    ClosedAccepts(Step(s, Close), es);
  }

  lemma {:induction false} ClosedAccepts<V>(s: State<V>, es: seq<Event<V>>)
    requires s.core.closed && Allowed(s, es)
    ensures Exec(s, es).core.closed && Exec(s, es).accepted == s.accepted
    decreases |es|
  {
    if es != [] { ClosedAccepts(Step(s, es[0]), es[1..]); }
  }

  lemma LimitStays<V>(s: State<V>, e: Event<V>)
    requires Enabled(s, e)
    ensures Step(s, e).maxBatch == s.maxBatch
  {
  }

  ghost predicate Allowed<V>(s: State<V>, es: seq<Event<V>>)
    decreases |es|
  {
    es == [] || (Enabled(s, es[0]) && Allowed(Step(s, es[0]), es[1..]))
  }

  ghost function Exec<V>(s: State<V>, es: seq<Event<V>>): State<V>
    requires Allowed(s, es)
    decreases |es|
  {
    if es == [] then s else Exec(Step(s, es[0]), es[1..])
  }

  lemma {:induction false} RunInv<V>(s: State<V>, es: seq<Event<V>>)
    requires Inv(s) && Allowed(s, es)
    ensures Inv(Exec(s, es)) && Exec(s, es).maxBatch == s.maxBatch
    decreases |es|
  {
    if es != [] {
      StepKeepsInv(s, es[0]);
      LimitStays(s, es[0]);
      RunInv(Step(s, es[0]), es[1..]);
    }
  }

  lemma Sizes<V>(s: State<V>)
    requires Accounted(s)
    ensures |s.accepted| == |s.core.buf| + |Flatten(s.flying)| + |s.delivered| + s.core.dropped
  {
    assert |multiset(s.accepted)|
        == |multiset(s.core.buf) + multiset(Flatten(s.flying)) + multiset(s.delivered) + multiset(s.failed)|;
  }

  /** In every run of Emit, timers, Sync and Close: the batches in the order taken, and
      then the buffer, are the accepted records; no batch is empty or longer than the
      limit; a non-empty buffer has a timer running or a callback due, no other timer is
      running; and every
      accepted record is buffered, being sent, delivered, or counted as dropped. */
  lemma EveryRun<V>(maxBatch: int, es: seq<Event<V>>)
    requires Allowed(Initial<V>(maxBatch), es)
    ensures var s := Exec(Initial<V>(maxBatch), es);
            && s.accepted == Flatten(s.taken) + s.core.buf
            && (forall k :: 0 <= k < |s.taken| ==> 1 <= |s.taken[k]| <= Limit(maxBatch))
            && (s.core.buf != [] ==> s.core.timer.Some? && (s.core.timer.value in s.live || s.core.timer.value in s.fired))
            && (forall id :: id in s.live ==> s.core.timer == Some(id))
            && multiset(s.accepted)
               == multiset(s.core.buf) + multiset(Flatten(s.flying)) + multiset(s.delivered) + multiset(s.failed)
            && |s.accepted| == |s.core.buf| + |Flatten(s.flying)| + |s.delivered| + s.core.dropped
            && (s.core.closed ==> s.core.buf == [])
  {
    RunInv(Initial<V>(maxBatch), es);
    Sizes(Exec(Initial<V>(maxBatch), es));
  }
}
