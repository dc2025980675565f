/** The queue object, updated in place one atomic instruction at a time. Each method
    executes the next instruction of a thread standing at a given location; the
    scheduler decides whose turn it is. */
module MpmcQueue {
  import opened Common
  import opened Words
  import opened Mpmc

  class Queue<V> {
    var buf: array<Cell<V>>
    var mask: nat
    var enq: nat
    var deq: nat
    // what has happened so far
    ghost var put: seq<V>
    ghost var putBy: seq<nat>
    ghost var takenBy: seq<nat>
    ghost var ticket: seq<nat>
    ghost var results: seq<Taken<V>>

    ghost function Shared(): Ring<V>
      reads this, buf
    {
      Ring(buf.Length, buf[..], enq, deq, put, putBy, takenBy, ticket, results)
    }

    ghost predicate Valid()
      reads this, buf
    {
      buf.Length == mask + 1 && Shared().Shaped()
    }

    /** Rounds the size up to the least power of two that is at least 2 and at least
        the size, and numbers the cells. Beyond 2^62 the doubling overflows and the
        loop never ends. */
    constructor (size: int)
      requires size <= 0x4000_0000_0000_0000
      ensures Valid() && fresh(buf)
      ensures Shared() == Initial<V>(mask + 1, 0).ring
      ensures IsPowerOfTwo(mask + 1) && mask + 1 >= 2 && mask + 1 >= size
      ensures forall p: nat :: IsPowerOfTwo(p) && p >= 2 && p >= size ==> mask + 1 <= p
    {
      var n := 2;
      assert n == Pow2(1);
      while n < size
        invariant n >= 2 && IsPowerOfTwo(n) && (n == 2 || n / 2 < size)
      {
        DoublePower(n);
        n := 2 * n;
      }
      buf := new Cell<V>[n](_ => Cell(0, None));
      mask := n - 1;
      enq, deq := 0, 0;
      put, putBy, takenBy, results := [], [], [], [];
      ticket := seq(n, i requires 0 <= i => i);
      new;
      for i := 0 to n
        modifies buf
        invariant buf.Length == n && fresh(buf)
        invariant forall j :: 0 <= j < i ==> buf[j] == Cell(j, None)
        invariant forall j :: i <= j < n ==> buf[j] == Cell(0, None)
      {
        buf[i] := buf[i].(sq := i);
      }
      assert buf[..] == Initial<V>(n, 0).ring.cells;
      forall p: nat | IsPowerOfTwo(p) && p >= 2 && p >= size ensures n <= p {
        if p < n { PowersApart(p, n); }
      }
    }

    /** The next instruction of `enqueue` for thread x. */
    method EnqueueInstruction(ghost x: nat, l: Loc<V>) returns (l': Loc<V>)
      requires Valid() && l.Enqueuing()
      modifies this, buf
      ensures Valid() && buf == old(buf) && mask == old(mask)
      ensures (Shared(), l') == EnqueueStep(Word64, old(Shared()), x, l)
    {
      match l {
        case EnqLoad(v) =>
          l' := EnqCheck(v, enq);
        case EnqCheck(v, pos) =>
          var dif := Word64.Dif(buf[Word64.Index(pos, mask + 1)].sq, pos);
          if dif == 0 {
            l' := EnqCas(v, pos);
          } else if dif < 0 {
            l' := EnqDone(false);
          } else {
            l' := EnqLoad(v);
          }
        case EnqCas(v, pos) =>
          if enq == pos {
            enq := Word64.Add(pos, 1);
            put, putBy := put + [v], putBy + [x];
            l' := EnqWrite(v, pos);
          } else {
            l' := EnqCheck(v, pos);
          }
        case EnqWrite(v, pos) =>
          var i := Word64.Index(pos, mask + 1);
          buf[i] := buf[i].(val := Some(v));
          l' := EnqPublish(v, pos);
        case EnqPublish(v, pos) =>
          var i := Word64.Index(pos, mask + 1);
          buf[i] := buf[i].(sq := Word64.Add(pos, 1));
          l' := EnqDone(true);
      }
    }

    /** The next instruction of `dequeue` for thread x. */
    method DequeueInstruction(ghost x: nat, l: Loc<V>) returns (l': Loc<V>)
      requires Valid() && l.Dequeuing()
      modifies this, buf
      ensures Valid() && buf == old(buf) && mask == old(mask)
      ensures (Shared(), l') == DequeueStep(Word64, old(Shared()), x, l)
    {
      match l {
        case DeqLoad =>
          l' := DeqCheck(deq);
        case DeqCheck(pos) =>
          var dif := Word64.Dif(buf[Word64.Index(pos, mask + 1)].sq, Word64.Add(pos, 1));
          if dif == 0 {
            l' := DeqCas(pos);
          } else if dif < 0 {
            l' := DeqDone(false, None);
          } else {
            l' := DeqLoad;
          }
        case DeqCas(pos) =>
          if deq == pos {
            deq := Word64.Add(pos, 1);
            takenBy := takenBy + [x];
            l' := DeqRead(pos);
          } else {
            l' := DeqCheck(pos);
          }
        case DeqRead(pos) =>
          l' := DeqClear(pos, buf[Word64.Index(pos, mask + 1)].val);
        case DeqClear(pos, got) =>
          var i := Word64.Index(pos, mask + 1);
          buf[i] := buf[i].(val := None);
          l' := DeqRelease(pos, got);
        case DeqRelease(pos, got) =>
          var i := Word64.Index(pos, mask + 1);
          buf[i] := buf[i].(sq := Word64.Add(Word64.Add(pos, mask), 1));
          ticket := ticket[i := pos + mask + 1];
          results := if got.Some? then results + [Taken(x, pos, got.value)] else results;
          l' := DeqDone(true, got);
      }
    }
  }

  lemma DoublePower(n: nat)
    requires IsPowerOfTwo(n)
    ensures IsPowerOfTwo(2 * n)
  {
    var k: nat :| n == Pow2(k);
    assert 2 * n == Pow2(k + 1);
  }

  /** Distinct powers of two are at least a factor of two apart. */
  lemma PowersApart(p: nat, n: nat)
    requires IsPowerOfTwo(p) && IsPowerOfTwo(n) && p < n
    ensures 2 * p <= n
  {
    var j: nat :| p == Pow2(j);
    var k: nat :| n == Pow2(k);
    if j < k {
      Pow2Add(k - j - 1, j + 1);
      MulAtLeast(Pow2(k - j - 1), Pow2(j + 1));
    } else {
      Pow2Add(j - k, k);
      MulAtLeast(Pow2(j - k), Pow2(k));
    }
  }
}
