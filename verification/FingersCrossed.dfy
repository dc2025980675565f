/** Debug-on-error buffering: a bounded ring and a latch per scope. Scope 0 is the
    process-wide buffer, the others come with their request. */
module FingersCrossed {
  import opened Words

  datatype Rec = Rec(scope: nat, level: int, id: nat)

  datatype Config = Config(activation: int, passThrough: int, cap: nat) {
    /** An unset activation level means error. */
    function Act(): int {
      if activation == 0 then 17 else activation
    }

    predicate Activates(r: Rec) {
      r.level >= Act()
    }

    predicate Passes(r: Rec) {
      passThrough != 0 && r.level >= passThrough
    }
  }

  // ----- the buffer object -----

  /** The abstract state of a scope's buffer. */
  datatype Buf = Buf(held: seq<Rec>, activated: bool)

  /** Keeps at most cap records, the newest ones. */
  function Pushed(held: seq<Rec>, r: Rec, cap: nat): seq<Rec>
    requires 0 < cap && |held| <= cap
  {
    if |held| == cap then held[1..] + [r] else held + [r]
  }

  class FcBuffer {
    var ring: array<Rec>
    var start: nat
    var count: nat
    var activated: bool
    const cap: nat

    ghost predicate Valid()
      reads this
    {
      cap > 0 && ring.Length == cap && start < cap && count <= cap
    }

    ghost function Held(): (q: seq<Rec>)
      requires Valid()
      reads this, ring
      ensures |q| == count && forall i: nat :: i < count ==> q[i] == ring[..][Slot(start, i, cap)]
    {
      var (data, s, n) := (ring[..], start, cap);
      seq(count, i requires 0 <= i <= n && s < n && |data| == n => data[Slot(s, i, n)])
    }

    ghost function Abs(): Buf
      requires Valid()
      reads this, ring
    {
      Buf(Held(), activated)
    }

    constructor (capacity: int)
      ensures Valid() && fresh(ring) && Abs() == Buf([], false)
      ensures cap == if capacity < 1 then 256 else capacity
    {
      var n := if capacity < 1 then 256 else capacity;
      cap := n;
      ring := new Rec[n](_ => Rec(0, 0, 0));
      start, count, activated := 0, 0, false;
    }

    method Push(r: Rec)
      requires Valid()
      modifies this`start, this`count, ring
      ensures Valid() && Held() == Pushed(old(Held()), r, cap)
    {
      ghost var q := Held();
      var idx := (start + count) % cap;
      SlotIsMod(start, count, cap);
      if count == cap {
        ring[start] := r;
        SlotIsMod(start, 1, cap);
        start := (start + 1) % cap;
        forall i: nat | i < count ensures Held()[i] == (q[1..] + [r])[i] {
          if i < count - 1 { assert Slot(start, i, cap) == Slot(old(start), i + 1, cap); }
        }
      } else {
        ring[idx] := r;
        count := count + 1;
        forall i: nat | i < count ensures Held()[i] == (q + [r])[i] {
          if i < count - 1 { assert Slot(start, i, cap) != idx; }
        }
      }
    }

    method Drain() returns (out: seq<Rec>)
      requires Valid()
      modifies this`start, this`count
      ensures Valid() && out == old(Held()) && Held() == []
    {
      out := [];
      for i := 0 to count
        invariant unchanged(this) && out == Held()[..i]
      {
        SlotIsMod(start, i, cap);
        out := out + [ring[(start + i) % cap]];
      }
      assert Held()[..count] == Held();
      start, count := 0, 0;
    }
  }

  /** What one Emit does to the buffer of its scope, and what it passes on, in order. */
  function Emitted(cfg: Config, b: Buf, r: Rec): (Buf, seq<Rec>)
    requires 0 < cfg.cap && |b.held| <= cfg.cap
  {
    if b.activated then (b, [r])
    else if cfg.Activates(r) then (Buf([], true), b.held + [r])
    else if cfg.Passes(r) then (b, [r])
    else (Buf(Pushed(b.held, r, cfg.cap), false), [])
  }

  /** The critical section of Emit: `out` is what is then emitted outside the lock. */
  method Emit(cfg: Config, b: FcBuffer, r: Rec) returns (out: seq<Rec>)
    requires b.Valid() && b.cap == cfg.cap
    modifies b, b.ring
    ensures b.Valid() && b.ring == old(b.ring)
    ensures (b.Abs(), out) == Emitted(cfg, old(b.Abs()), r)
  {
    if b.activated { return [r]; }
    if r.level >= cfg.Act() {
      b.activated := true;
      var held := b.Drain();
      return held + [r];
    }
    if cfg.passThrough != 0 && r.level >= cfg.passThrough { return [r]; }
    b.Push(r);
    return [];
  }
}
