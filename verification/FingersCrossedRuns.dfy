/** Whole runs of FingersCrossed over any number of scopes. */
module FingersCrossedRuns {
  import opened Sums
  import opened FingersCrossed

  // ----- one call after another -----

  datatype State = State(bufs: seq<Buf>, out: seq<Rec>)

  predicate Fits(cfg: Config, bufs: seq<Buf>) {
    0 < cfg.cap && forall i :: 0 <= i < |bufs| ==> |bufs[i].held| <= cfg.cap
  }

  predicate InScopes(recs: seq<Rec>, n: nat) {
    forall i :: 0 <= i < |recs| ==> recs[i].scope < n
  }

  function Initial(scopes: nat): (s: State)
    ensures |s.bufs| == scopes && forall i :: 0 <= i < scopes ==> s.bufs[i] == Buf([], false)
  {
    State(seq(scopes, _ => Buf([], false)), [])
  }

  function Step(cfg: Config, s: State, r: Rec): (s': State)
    requires Fits(cfg, s.bufs) && r.scope < |s.bufs|
    ensures Fits(cfg, s'.bufs) && |s'.bufs| == |s.bufs|
  {
    var (b, out) := Emitted(cfg, s.bufs[r.scope], r);
    State(s.bufs[r.scope := b], s.out + out)
  }

  /** The whole run of a sequence of Emit calls. */
  function Run(cfg: Config, recs: seq<Rec>, scopes: nat): (s: State)
    requires 0 < cfg.cap && InScopes(recs, scopes)
    ensures Fits(cfg, s.bufs) && |s.bufs| == scopes
  {
    if recs == [] then Initial(scopes)
    else
      var k := |recs| - 1;
      Step(cfg, Run(cfg, recs[..k], scopes), recs[k])
  }

  /** The records of scope c. */
  function Of(recs: seq<Rec>, c: nat): seq<Rec> {
    if recs == [] then []
    else
      var k := |recs| - 1;
      Of(recs[..k], c) + (if recs[k].scope == c then [recs[k]] else [])
  }

  // ----- the specification of one scope -----

  function Passed(cfg: Config, recs: seq<Rec>): seq<Rec> {
    if recs == [] then []
    else
      var k := |recs| - 1;
      Passed(cfg, recs[..k]) + (if cfg.Passes(recs[k]) then [recs[k]] else [])
  }

  function HeldBack(cfg: Config, recs: seq<Rec>): seq<Rec> {
    if recs == [] then []
    else
      var k := |recs| - 1;
      HeldBack(cfg, recs[..k]) + (if cfg.Passes(recs[k]) then [] else [recs[k]])
  }

  function Newest(recs: seq<Rec>, n: nat): seq<Rec> {
    if |recs| <= n then recs else recs[|recs| - n..]
  }

  /** The position of the first activating record, or the length. */
  function FirstActivating(cfg: Config, recs: seq<Rec>): (k: nat)
    ensures k <= |recs| && (k < |recs| ==> cfg.Activates(recs[k]))
    ensures forall i :: 0 <= i < k ==> !cfg.Activates(recs[i])
  {
    if recs == [] || cfg.Activates(recs[0]) then 0 else 1 + FirstActivating(cfg, recs[1..])
  }

  /** What a scope's records should turn into: before the first activating record only
      those that pass; then the newest held ones, the activating record, and
      everything after it. */
  function Expected(cfg: Config, recs: seq<Rec>): seq<Rec> {
    var k := FirstActivating(cfg, recs);
    Passed(cfg, recs[..k])
    + (if k < |recs| then Newest(HeldBack(cfg, recs[..k]), cfg.cap) + recs[k..] else [])
  }

  function ExpectedBuf(cfg: Config, recs: seq<Rec>): Buf {
    var k := FirstActivating(cfg, recs);
    if k < |recs| then Buf([], true) else Buf(Newest(HeldBack(cfg, recs), cfg.cap), false)
  }

  // ----- what the levels decide -----

  /** With its buffer closed, a record at the activation level opens it and brings out what was
      held, one a level lower does not; an unset activation level is that of errors. */
  lemma ActivationLevel(cfg: Config, b: Buf, scope: nat, id: nat)
    requires 0 < cfg.cap && |b.held| <= cfg.cap && !b.activated
    ensures var a := if cfg.activation != 0 then cfg.activation else 17;
            && Emitted(cfg, b, Rec(scope, a, id)) == (Buf([], true), b.held + [Rec(scope, a, id)])
            && !Emitted(cfg, b, Rec(scope, a - 1, id)).0.activated
  {
  }

  /** A level that opens a buffer is not below one that does not. */
  lemma HigherOpens(cfg: Config, b: Buf, r: Rec, r': Rec)
    requires 0 < cfg.cap && |b.held| <= cfg.cap && !b.activated && r.level <= r'.level
    ensures Emitted(cfg, b, r).0.activated ==> Emitted(cfg, b, r').0.activated
  {
  }

  /** Below the activation level, a record at the pass-through level is passed on and not
      held, one a level lower is held; without a pass-through level all are held. */
  lemma PassThroughLevel(cfg: Config, b: Buf, scope: nat, id: nat)
    requires 0 < cfg.cap && |b.held| < cfg.cap && !b.activated
    ensures var a, p := if cfg.activation != 0 then cfg.activation else 17, cfg.passThrough;
            && (p != 0 && p < a ==> Emitted(cfg, b, Rec(scope, p, id)) == (b, [Rec(scope, p, id)]))
            && (p != 0 && p <= a ==>
                  Emitted(cfg, b, Rec(scope, p - 1, id)) == (Buf(b.held + [Rec(scope, p - 1, id)], false), []))
            && (p == 0 ==> forall l :: l < a ==>
                  Emitted(cfg, b, Rec(scope, l, id)) == (Buf(b.held + [Rec(scope, l, id)], false), []))
  {
  }

  /** A scope opens at its first record of at least the activation level, and not before. */
  lemma OpensByLevel(cfg: Config, recs: seq<Rec>, k: nat)
    requires k <= |recs|
    ensures var a := if cfg.activation != 0 then cfg.activation else 17;
            FirstActivating(cfg, recs) == k <==>
              (forall i :: 0 <= i < k ==> recs[i].level < a) && (k < |recs| ==> recs[k].level >= a)
  {
    var k' := FirstActivating(cfg, recs);
    if k' < k { assert cfg.Activates(recs[k']); }
    if k < k' { assert !cfg.Activates(recs[k]); }
  }

  lemma {:induction false} FirstActivatingSnoc(cfg: Config, recs: seq<Rec>, r: Rec)
    ensures FirstActivating(cfg, recs + [r])
         == if FirstActivating(cfg, recs) < |recs| then FirstActivating(cfg, recs)
            else if cfg.Activates(r) then |recs| else |recs| + 1
  {
    if recs == [] {
      assert recs + [r] == [r] && [r][1..] == [];
    } else if !cfg.Activates(recs[0]) {
      assert (recs + [r])[1..] == recs[1..] + [r];
      FirstActivatingSnoc(cfg, recs[1..], r);
    }
  }

  lemma NewestPush(held: seq<Rec>, r: Rec, cap: nat)
    requires 0 < cap
    ensures Pushed(Newest(held, cap), r, cap) == Newest(held + [r], cap)
  {
  }

  lemma ExpectedHeld(cfg: Config, recs: seq<Rec>)
    requires FirstActivating(cfg, recs) == |recs|
    ensures Expected(cfg, recs) == Passed(cfg, recs)
    ensures ExpectedBuf(cfg, recs) == Buf(Newest(HeldBack(cfg, recs), cfg.cap), false)
  {
    assert recs[..|recs|] == recs;
  }

  lemma ExpectedOpen(cfg: Config, recs: seq<Rec>, pre: seq<Rec>, post: seq<Rec>)
    requires recs == pre + post && post != [] && FirstActivating(cfg, recs) == |pre|
    ensures Expected(cfg, recs) == Passed(cfg, pre) + (Newest(HeldBack(cfg, pre), cfg.cap) + post)
    ensures ExpectedBuf(cfg, recs) == Buf([], true)
  {
    assert recs[..|pre|] == pre && recs[|pre|..] == post;
  }

  lemma Associate(a: seq<Rec>, b: seq<Rec>, c: seq<Rec>, d: seq<Rec>)
    ensures a + (b + (c + d)) == (a + (b + c)) + d
  {
  }

  lemma SnocAfter(cfg: Config, recs: seq<Rec>, r: Rec)
    requires FirstActivating(cfg, recs) < |recs|
    ensures ExpectedBuf(cfg, recs) == ExpectedBuf(cfg, recs + [r]) == Buf([], true)
    ensures Expected(cfg, recs + [r]) == Expected(cfg, recs) + [r]
  {
    var k := FirstActivating(cfg, recs);
    var pre, post := recs[..k], recs[k..];
    FirstActivatingSnoc(cfg, recs, r);
    assert recs == pre + post && recs + [r] == pre + (post + [r]);
    ExpectedOpen(cfg, recs, pre, post);
    ExpectedOpen(cfg, recs + [r], pre, post + [r]);
    Associate(Passed(cfg, pre), Newest(HeldBack(cfg, pre), cfg.cap), post, [r]);
  }

  lemma SnocActivates(cfg: Config, recs: seq<Rec>, r: Rec)
    requires FirstActivating(cfg, recs) == |recs| && cfg.Activates(r)
    ensures ExpectedBuf(cfg, recs + [r]) == Buf([], true)
    ensures Expected(cfg, recs + [r]) == Expected(cfg, recs) + (Newest(HeldBack(cfg, recs), cfg.cap) + [r])
  {
    FirstActivatingSnoc(cfg, recs, r);
    ExpectedHeld(cfg, recs);
    ExpectedOpen(cfg, recs + [r], recs, [r]);
  }

  /** One more record of the scope extends what is expected by what Emit passes on. */
  lemma ExpectedSnoc(cfg: Config, recs: seq<Rec>, r: Rec)
    requires 0 < cfg.cap
    ensures var (b, out) := Emitted(cfg, ExpectedBuf(cfg, recs), r);
            && ExpectedBuf(cfg, recs + [r]) == b
            && Expected(cfg, recs + [r]) == Expected(cfg, recs) + out
  {
    if FirstActivating(cfg, recs) < |recs| {
      SnocAfter(cfg, recs, r);
    } else if cfg.Activates(r) {
      SnocActivates(cfg, recs, r);
      ExpectedHeld(cfg, recs);
    } else {
      FirstActivatingSnoc(cfg, recs, r);
      ExpectedHeld(cfg, recs);
      ExpectedHeld(cfg, recs + [r]);
      assert (recs + [r])[..|recs|] == recs;
      NewestPush(HeldBack(cfg, recs), r, cfg.cap);
    }
  }

  lemma {:induction false} OfAppend(a: seq<Rec>, b: seq<Rec>, c: nat)
    ensures Of(a + b, c) == Of(a, c) + Of(b, c)
  {
    if b == [] {
      assert a + b == a;
    } else {
      var k := |b| - 1;
      assert (a + b)[..|a + b| - 1] == a + b[..k];
      OfAppend(a, b[..k], c);
    }
  }

  lemma {:induction false} OfOneScope(recs: seq<Rec>, scope: nat, c: nat)
    requires forall i :: 0 <= i < |recs| ==> recs[i].scope == scope
    ensures Of(recs, c) == if scope == c then recs else []
  {
    if recs != [] {
      var k := |recs| - 1;
      OfOneScope(recs[..k], scope, c);
      assert recs == recs[..k] + [recs[k]];
    }
  }

  /** What is held in a scope's buffer came from that scope. */
  predicate Sorted(s: State) {
    forall i, j :: 0 <= i < |s.bufs| && 0 <= j < |s.bufs[i].held| ==> s.bufs[i].held[j].scope == i
  }

  lemma EmittedScope(cfg: Config, s: State, r: Rec)
    requires Fits(cfg, s.bufs) && r.scope < |s.bufs| && Sorted(s)
    ensures Sorted(Step(cfg, s, r))
    ensures forall j :: 0 <= j < |Emitted(cfg, s.bufs[r.scope], r).1| ==>
              Emitted(cfg, s.bufs[r.scope], r).1[j].scope == r.scope
  {
  }

  /** `seen` are the records of scope c so far. */
  ghost predicate Follows(cfg: Config, s: State, c: nat, seen: seq<Rec>)
    requires c < |s.bufs|
  {
    Of(s.out, c) == Expected(cfg, seen) && s.bufs[c] == ExpectedBuf(cfg, seen)
  }

  lemma ScopeStep(cfg: Config, s: State, r: Rec, c: nat, seen: seq<Rec>)
    requires Fits(cfg, s.bufs) && r.scope < |s.bufs| && c < |s.bufs| && Sorted(s) && Follows(cfg, s, c, seen)
    ensures Follows(cfg, Step(cfg, s, r), c, if r.scope == c then seen + [r] else seen)
  {
    EmittedScope(cfg, s, r);
    var out := Emitted(cfg, s.bufs[r.scope], r).1;
    OfAppend(s.out, out, c);
    OfOneScope(out, r.scope, c);
    if r.scope == c { ExpectedSnoc(cfg, seen, r); }
  }

  lemma {:induction false} RunFollows(cfg: Config, recs: seq<Rec>, scopes: nat, c: nat)
    requires 0 < cfg.cap && InScopes(recs, scopes) && c < scopes
    ensures Sorted(Run(cfg, recs, scopes)) && Follows(cfg, Run(cfg, recs, scopes), c, Of(recs, c))
  {
    if recs != [] {
      var k := |recs| - 1;
      RunFollows(cfg, recs[..k], scopes, c);
      EmittedScope(cfg, Run(cfg, recs[..k], scopes), recs[k]);
      ScopeStep(cfg, Run(cfg, recs[..k], scopes), recs[k], c, Of(recs[..k], c));
      assert Of(recs, c) == if recs[k].scope == c then Of(recs[..k], c) + [recs[k]] else Of(recs[..k], c);
    }
  }

  /** However the scopes' calls are interleaved, the output of one scope is what the
      specification makes of that scope's calls alone. */
  lemma ScopesAreIndependent(cfg: Config, recs: seq<Rec>, scopes: nat, c: nat)
    requires 0 < cfg.cap && InScopes(recs, scopes) && c < scopes
    ensures Of(Run(cfg, recs, scopes).out, c) == Expected(cfg, Of(recs, c))
  {
    RunFollows(cfg, recs, scopes, c);
  }

  // ----- calls that overlap -----

  /** `pending[x]` is what thread x has taken out under the lock and not yet emitted;
      `entered` and `overwritten` record the past. */
  datatype Shared = Shared(bufs: seq<Buf>, pending: seq<seq<Rec>>, out: seq<Rec>, entered: seq<Rec>, overwritten: seq<Rec>)

  datatype Event = Enter(x: nat, r: Rec) | EmitOne(x: nat)

  predicate Enabled(s: Shared, e: Event) {
    match e
    case Enter(x, r) => x < |s.pending| && s.pending[x] == [] && r.scope < |s.bufs|
    case EmitOne(x) => x < |s.pending| && s.pending[x] != []
  }

  function Interleaved(cfg: Config, s: Shared, e: Event): (s': Shared)
    requires Fits(cfg, s.bufs) && Enabled(s, e)
    ensures Fits(cfg, s'.bufs)
  {
    match e
    case Enter(x, r) =>
      var b := s.bufs[r.scope];
      var (b', out) := Emitted(cfg, b, r);
      Shared(s.bufs[r.scope := b'], s.pending[x := out], s.out, s.entered + [r],
             if out == [] && |b.held| == cfg.cap then s.overwritten + [b.held[0]] else s.overwritten)
    case EmitOne(x) =>
      s.(pending := s.pending[x := s.pending[x][1..]], out := s.out + [s.pending[x][0]])
  }

  ghost function InBufs(bufs: seq<Buf>): seq<multiset<Rec>> {
    seq(|bufs|, i requires 0 <= i < |bufs| => multiset(bufs[i].held))
  }

  ghost function InFlight(pending: seq<seq<Rec>>): seq<multiset<Rec>> {
    seq(|pending|, i requires 0 <= i < |pending| => multiset(pending[i]))
  }

  /** Every record is held, on its way, emitted, or overwritten, and only once. */
  ghost predicate Accounted(s: Shared) {
    multiset(s.entered) == Total(InBufs(s.bufs)) + Total(InFlight(s.pending)) + multiset(s.out) + multiset(s.overwritten)
  }

  /** r may be emitted. */
  ghost predicate Released(cfg: Config, bufs: seq<Buf>, r: Rec) {
    cfg.Activates(r) || cfg.Passes(r) || (r.scope < |bufs| && bufs[r.scope].activated)
  }

  ghost predicate NothingEarly(cfg: Config, s: Shared) {
    && (forall i :: 0 <= i < |s.out| ==> Released(cfg, s.bufs, s.out[i]))
    && (forall x, i :: 0 <= x < |s.pending| && 0 <= i < |s.pending[x]| ==> Released(cfg, s.bufs, s.pending[x][i]))
    && (forall i, j :: 0 <= i < |s.bufs| && 0 <= j < |s.bufs[i].held| ==> s.bufs[i].held[j].scope == i)
  }

  lemma OneBuf(bufs: seq<Buf>, c: nat, b: Buf)
    requires c < |bufs|
    ensures Total(InBufs(bufs[c := b])) + multiset(bufs[c].held) == Total(InBufs(bufs)) + multiset(b.held)
  {
    var m := multiset(b.held);
    assert InBufs(bufs[c := b]) == InBufs(bufs)[c := m];
    TotalUpdate(InBufs(bufs), c, m);
  }

  lemma OnePending(pending: seq<seq<Rec>>, x: nat, p: seq<Rec>)
    requires x < |pending|
    ensures Total(InFlight(pending[x := p])) + multiset(pending[x]) == Total(InFlight(pending)) + multiset(p)
  {
    var m := multiset(p);
    assert InFlight(pending[x := p]) == InFlight(pending)[x := m];
    TotalUpdate(InFlight(pending), x, m);
  }

  /** A critical section sorts its record and what was held into the three places. */
  lemma EmittedBalance(cfg: Config, b: Buf, r: Rec)
    requires 0 < cfg.cap && |b.held| <= cfg.cap
    requires b.activated ==> b.held == []
    ensures var (b', out) := Emitted(cfg, b, r);
            multiset(b'.held) + multiset(out)
            + (if out == [] && |b.held| == cfg.cap then multiset{b.held[0]} else multiset{})
            == multiset(b.held) + multiset{r}
  {
    if |b.held| == cfg.cap { assert b.held == [b.held[0]] + b.held[1..]; }
  }

  lemma Exchange(tb: multiset<Rec>, tb': multiset<Rec>, h: multiset<Rec>, h': multiset<Rec>,
                 tp: multiset<Rec>, tp': multiset<Rec>, p: multiset<Rec>,
                 o: multiset<Rec>, w: multiset<Rec>, lost: multiset<Rec>, r: Rec)
    requires tb' + h == tb + h' && tp' == tp + p && h' + p + lost == h + multiset{r}
    ensures tb' + tp' + o + (w + lost) == tb + tp + o + w + multiset{r}
  {
    forall v ensures (tb' + tp' + o + (w + lost))[v] == (tb + tp + o + w + multiset{r})[v] {
      assert (tb' + h)[v] == (tb + h')[v];
      assert (h' + p + lost)[v] == (h + multiset{r})[v];
    }
  }

  ghost predicate LatchedEmpty(bufs: seq<Buf>) {
    forall i :: 0 <= i < |bufs| && bufs[i].activated ==> bufs[i].held == []
  }

  lemma EnterAccounted(cfg: Config, s: Shared, x: nat, r: Rec)
    requires Fits(cfg, s.bufs) && LatchedEmpty(s.bufs) && Enabled(s, Enter(x, r)) && Accounted(s)
    ensures Accounted(Interleaved(cfg, s, Enter(x, r)))
  {
    var s', b := Interleaved(cfg, s, Enter(x, r)), s.bufs[r.scope];
    var (b', out) := Emitted(cfg, b, r);
    var lost := if out == [] && |b.held| == cfg.cap then multiset{b.held[0]} else multiset{};
    OneBuf(s.bufs, r.scope, b');
    OnePending(s.pending, x, out);
    EmittedBalance(cfg, b, r);
    assert multiset(s'.overwritten) == multiset(s.overwritten) + lost;
    Exchange(Total(InBufs(s.bufs)), Total(InBufs(s'.bufs)), multiset(b.held), multiset(b'.held),
             Total(InFlight(s.pending)), Total(InFlight(s'.pending)), multiset(out),
             multiset(s.out), multiset(s.overwritten), lost, r);
  }

  lemma EmitMoves(b: multiset<Rec>, t: multiset<Rec>, t': multiset<Rec>, p: multiset<Rec>, p': multiset<Rec>,
                  o: multiset<Rec>, w: multiset<Rec>, r: Rec)
    requires t' + p == t + p' && p == multiset{r} + p'
    ensures b + t' + (o + multiset{r}) + w == b + t + o + w
  {
    forall v ensures (b + t' + (o + multiset{r}) + w)[v] == (b + t + o + w)[v] {
      assert (t' + p)[v] == (t + p')[v];
    }
  }

  lemma EmitAccounted(cfg: Config, s: Shared, x: nat)
    requires Fits(cfg, s.bufs) && Enabled(s, EmitOne(x)) && Accounted(s)
    ensures Accounted(Interleaved(cfg, s, EmitOne(x)))
  {
    var s', r, more := Interleaved(cfg, s, EmitOne(x)), s.pending[x][0], s.pending[x][1..];
    OnePending(s.pending, x, more);
    assert s.pending[x] == [r] + more;
    EmitMoves(Total(InBufs(s.bufs)), Total(InFlight(s.pending)), Total(InFlight(s'.pending)),
              multiset(s.pending[x]), multiset(more), multiset(s.out), multiset(s.overwritten), r);
  }

  lemma StaysReleased(cfg: Config, s: Shared, e: Event)
    requires Fits(cfg, s.bufs) && Enabled(s, e) && NothingEarly(cfg, s) && LatchedEmpty(s.bufs)
    ensures NothingEarly(cfg, Interleaved(cfg, s, e)) && LatchedEmpty(Interleaved(cfg, s, e).bufs)
  {
    var s' := Interleaved(cfg, s, e);
    forall r | Released(cfg, s.bufs, r) ensures Released(cfg, s'.bufs, r) {}
  }

  ghost predicate Allowed(cfg: Config, s: Shared, es: seq<Event>)
    decreases |es|
  {
    es == [] || (Fits(cfg, s.bufs) && Enabled(s, es[0]) && Allowed(cfg, Interleaved(cfg, s, es[0]), es[1..]))
  }

  ghost function Exec(cfg: Config, s: Shared, es: seq<Event>): Shared
    requires Allowed(cfg, s, es)
    decreases |es|
  {
    if es == [] then s else Exec(cfg, Interleaved(cfg, s, es[0]), es[1..])
  }

  ghost predicate Inv(cfg: Config, s: Shared) {
    Fits(cfg, s.bufs) && LatchedEmpty(s.bufs) && Accounted(s) && NothingEarly(cfg, s)
  }

  lemma {:induction false} ExecInv(cfg: Config, s: Shared, es: seq<Event>)
    requires Inv(cfg, s) && Allowed(cfg, s, es)
    ensures Inv(cfg, Exec(cfg, s, es))
    decreases |es|
  {
    if es != [] {
      match es[0] {
        case Enter(x, r) => EnterAccounted(cfg, s, x, r);
        case EmitOne(x) => EmitAccounted(cfg, s, x);
      }
      StaysReleased(cfg, s, es[0]);
      ExecInv(cfg, Interleaved(cfg, s, es[0]), es[1..]);
    }
  }

  function Start(scopes: nat, threads: nat): Shared {
    Shared(Initial(scopes).bufs, seq(threads, _ => []), [], [], [])
  }

  /** Under every interleaving of critical sections and emissions each record is emitted
      at most once, and a held one only after its scope was activated. */
  lemma OverlappingCalls(cfg: Config, scopes: nat, threads: nat, es: seq<Event>)
    requires 0 < cfg.cap && Allowed(cfg, Start(scopes, threads), es)
    ensures var s := Exec(cfg, Start(scopes, threads), es);
            && multiset(s.out) <= multiset(s.entered)
            && Accounted(s)
            && (forall i :: 0 <= i < |s.out| ==> Released(cfg, s.bufs, s.out[i]))
  {
    var s0 := Start(scopes, threads);
    TotalOfNothing(InBufs(s0.bufs));
    TotalOfNothing(InFlight(s0.pending));
    ExecInv(cfg, s0, es);
  }
}
