/** The mutex-and-condition-variable transport. `Core` is the value the mutex protects
    and its functions are the critical sections; `Transport` is the object that
    updates a circular buffer in place to the same effect. */
module RingTransport {
  import opened Common
  import opened Words

  datatype Core<V> = Core(cap: nat, policy: Policy, queue: seq<V>, closed: bool, dropped: nat) {
    predicate Full() { |queue| == cap }
  }

  /** How a critical section of Dispatch ends. */
  datatype Outcome = Refused | MustWait | DroppedNewest | Stored | StoredEvicting

  /** Dispatch, from taking the lock. */
  function Enter<V>(s: Core<V>, c: V): (Core<V>, Outcome)
    requires s.cap > 0
  {
    if s.closed then (s, Refused)
    else if s.Full() then
      match s.policy
      case Block => (s, MustWait)
      case DropNewest => (s, DroppedNewest)
      case DropOldest => (s.(queue := s.queue[1..] + [c], dropped := s.dropped + 1), StoredEvicting)
    else (s.(queue := s.queue + [c]), Stored)
  }

  /** Dispatch, from waking up inside the wait loop. */
  function Resume<V>(s: Core<V>, c: V): (Core<V>, Outcome) {
    if s.Full() && !s.closed then (s, MustWait)
    else if s.closed then (s, Refused)
    else (s.(queue := s.queue + [c]), Stored)
  }

  datatype Pick<V> = Sleep | Exit | Got(r: V)

  /** The worker, from taking the lock or waking up. */
  function Take<V>(s: Core<V>): (Core<V>, Pick<V>) {
    if s.queue == [] then (s, if s.closed then Exit else Sleep)
    else (s.(queue := s.queue[1..]), Got(s.queue[0]))
  }

  /** The records from the head on, following the wrap-around. */
  ghost function Window<V>(buf: seq<Option<V>>, head: nat, count: nat): (q: seq<V>)
    requires head < |buf| && count <= |buf|
    requires forall i: nat :: i < count ==> buf[Slot(head, i, |buf|)].Some?
    ensures |q| == count && forall i: nat :: i < count ==> q[i] == buf[Slot(head, i, |buf|)].value
  {
    seq(count, i requires 0 <= i < count => buf[Slot(head, i, |buf|)].value)
  }

  class Transport<V> {
    var buf: array<Option<V>>
    var head: nat
    var tail: nat
    var count: nat
    const policy: Policy
    var closed: bool
    var dropped: nat

    ghost predicate Valid()
      reads this, buf
    {
      && buf.Length >= 2
      && head < buf.Length && count <= buf.Length
      && tail == Slot(head, count, buf.Length)
      && (forall i: nat :: i < count ==> buf[..][Slot(head, i, buf.Length)].Some?)
    }

    ghost function Queue(): seq<V>
      requires Valid()
      reads this, buf
    {
      Window(buf[..], head, count)
    }

    ghost function Abs(): Core<V>
      requires Valid()
      reads this, buf
    {
      Core(buf.Length, policy, Queue(), closed, dropped)
    }

    constructor (capacity: int, policy: Policy)
      ensures Valid() && fresh(buf)
      ensures Abs() == Core(if capacity < 2 then 1024 else capacity, policy, [], false, 0)
    {
      var n := if capacity < 2 then 1024 else capacity;
      buf := new Option<V>[n](_ => None);
      head, tail, count := 0, 0, 0;
      this.policy := policy;
      closed, dropped := false, 0;
    }

    /** Go's `(i + 1) % len(buf)`. */
    static function Next(i: nat, n: nat): (k: nat)
      requires i < n
      ensures k == if i + 1 < n then i + 1 else 0
    {
      if i + 1 == n then ModOf(n, n, 1, 0); (i + 1) % n
      else ModOf(i + 1, n, 0, i + 1); (i + 1) % n
    }

    /** Clears the head slot and moves past it. */
    method DropHead()
      requires Valid() && count > 0
      modifies this`head, this`count, buf
      ensures Valid() && Queue() == old(Queue())[1..]
    {
      ghost var q := Queue();
      buf[head] := None;
      head := Next(head, buf.Length);
      count := count - 1;
      forall i: nat | i < count
        ensures buf[..][Slot(head, i, buf.Length)] == Some(q[i + 1])
      {
        assert Slot(head, i, buf.Length) == Slot(old(head), i + 1, buf.Length);
      }
    }

    method Append(c: V)
      requires Valid() && count < buf.Length
      modifies this`tail, this`count, buf
      ensures Valid() && Queue() == old(Queue()) + [c]
    {
      ghost var q := Queue();
      buf[tail] := Some(c);
      tail := Next(tail, buf.Length);
      count := count + 1;
      forall i: nat | i < count
        ensures buf[..][Slot(head, i, buf.Length)] == Some((q + [c])[i])
      {
        if i < count - 1 { assert Slot(head, i, buf.Length) != Slot(head, count - 1, buf.Length); }
      }
    }

    /** Dispatch's critical section, up to unlocking or waiting. */
    method EnterLocked(c: V) returns (o: Outcome)
      requires Valid()
      modifies this, buf
      ensures Valid() && buf == old(buf)
      ensures (Abs(), o) == Enter(old(Abs()), c)
    {
      if closed { return Refused; }
      o := Stored;
      if count == buf.Length {
        match policy {
          case Block => return MustWait;
          case DropNewest => return DroppedNewest;
          case DropOldest =>
            DropHead();
            dropped := dropped + 1;
            o := StoredEvicting;
            assert Abs() == old(Abs()).(queue := old(Queue())[1..], dropped := dropped);
        }
      }
      Append(c);
    }

    method ResumeLocked(c: V) returns (o: Outcome)
      requires Valid()
      modifies this, buf
      ensures Valid() && buf == old(buf)
      ensures (Abs(), o) == Resume(old(Abs()), c)
    {
      if count == buf.Length && !closed { return MustWait; }
      if closed { return Refused; }
      Append(c);
      o := Stored;
    }

    method TakeLocked() returns (p: Pick<V>)
      requires Valid()
      modifies this, buf
      ensures Valid() && buf == old(buf)
      ensures (Abs(), p) == Take(old(Abs()))
    {
      if count == 0 && !closed { return Sleep; }
      if count == 0 && closed { return Exit; }
      assert buf[..][Slot(head, 0, buf.Length)].Some?;
      p := Got(buf[head].value);
      DropHead();
    }

    /** Returns whether this call is the one that closes. */
    method CloseLocked() returns (first: bool)
      requires Valid()
      modifies this`closed
      ensures Valid() && closed && first == !old(closed)
      ensures Abs() == old(Abs()).(closed := true)
    {
      first := !closed;
      closed := true;
    }
  }
}
