/** Pooled records: how bound fields are copied into a record that is redacted in place,
    cloned for the transport, and reused; and how the transport's worker releases a clone. */
module Records {
  import opened Slices
  import opened Redact

  const BLANK := Field("", Text(""))

  class Pipeline {
    const pr: Redactor
    var pool: seq<Record>
    /** The arrays that belong to somebody else: bound fields of loggers, argument slices
        of callers, clones handed to a transport. */
    ghost var kept: set<array<Field>>
    /** The clones handed out so far. */
    ghost var clones: set<Record>

    ghost predicate Valid()
      reads this, pool, clones
    {
      && (forall i :: 0 <= i < |pool| ==>
            pool[i].pooled && pool[i].fields.Valid() && pool[i].fields.len == 0 && pool[i].fields.arr !in kept)
      && (forall i, j :: 0 <= i < j < |pool| ==> pool[i] != pool[j] && pool[i].fields.arr != pool[j].fields.arr)
      && (forall c :: c in clones ==> !c.pooled && c.fields.Valid() && c.fields.arr in kept)
    }

    /** No pooled record, and no clone, is r or uses its array. */
    ghost predicate Apart(r: Record)
      reads this, pool, r
    {
      r.fields.arr !in kept && forall i :: 0 <= i < |pool| ==> pool[i] != r && pool[i].fields.arr != r.fields.arr
    }

    /** The arrays pooled records write to. */
    ghost function Owned(): set<array<Field>>
      reads this, pool
    {
      set i | 0 <= i < |pool| :: pool[i].fields.arr
    }

    constructor (pr: Redactor)
      ensures Valid() && kept == {} && clones == {} && this.pr == pr
    {
      this.pr := pr;
      pool, kept, clones := [], {}, {};
    }

    /** A slice that a caller keeps. */
    ghost method Keep(s: Slice<Field>)
      requires Valid() && s.arr !in Owned()
      modifies this`kept
      ensures Valid() && kept == old(kept) + {s.arr}
    {
      kept := kept + {s.arr};
    }

    /** The pool may hand out an old record or make a new one. */
    method NewRecord(reuse: bool) returns (r: Record)
      requires Valid()
      modifies this`pool, pool
      ensures Valid() && pool <= old(pool)
      ensures r.pooled && r.fields.Valid() && r.fields.len == 0 && Apart(r)
      ensures forall o :: o in old(pool) ==> o.fields == old(o.fields) && o.pooled
      ensures r in old(pool) || (fresh(r) && fresh(r.fields.arr))
    {
      if reuse && pool != [] {
        r := pool[|pool| - 1];
        pool := pool[..|pool| - 1];
      } else {
        r := new Record();
      }
      r.pooled := true;
    }

    /** Puts a pooled record back, truncated but with its array; a record that did not come
        from the pool is left alone. */
    method Release(r: Record)
      requires Valid() && r.fields.Valid() && (r.pooled ==> Apart(r))
      modifies this`pool, r
      ensures Valid() && r.pooled == old(r.pooled)
      ensures old(r.pooled) ==> pool == old(pool) + [r] && r.fields == Slice(old(r.fields.arr), 0)
      ensures !old(r.pooled) ==> pool == old(pool) && r.fields == old(r.fields)
    {
      if !r.pooled { return; }
      r.fields := Slice(r.fields.arr, 0);
      pool := pool + [r];
    }

    /** A copy that does not belong to the pool. */
    method Clone(r: Record) returns (c: Record)
      requires Valid() && r.fields.Valid()
      modifies this`kept, this`clones
      ensures Valid() && fresh(c) && fresh(c.fields.arr) && !c.pooled
      ensures c.fields.Valid() && c.fields.Elems() == r.fields.Elems()
      ensures kept == old(kept) + {c.fields.arr} && clones == old(clones) + {c}
    {
      c := new Record();
      c.fields := CopyOf(r.fields, BLANK);
      kept, clones := kept + {c.fields.arr}, clones + {c};
    }

    /** What the worker of a transport does once it has emitted a clone: it changes neither
        the pool nor the clone, so nobody will write to the clone's array. */
    method WorkerReleases(c: Record)
      requires Valid() && c in clones
      modifies this`pool, c
      ensures Valid() && pool == old(pool) && c.fields == old(c.fields) && c.fields.arr !in Owned()
    {
      Release(c);
    }

    /** The bound fields of a child logger: a copy, so that the parent is unaffected. */
    method With(bound: Slice<Field>, more: Slice<Field>) returns (child: Slice<Field>)
      requires Valid() && bound.Valid() && more.Valid()
      modifies this`kept
      ensures Valid() && child.Valid() && fresh(child.arr) && kept == old(kept) + {child.arr}
      ensures child.Elems() == old(bound.Elems()) + old(more.Elems())
    {
      var copy := CopyOf(bound, BLANK);
      var tail := CopyOf(more, BLANK);
      child := AppendAll(copy, tail, 0);
      kept := kept + {child.arr};
    }

    /** Copies bound and own fields into the record's own array and redacts them there. */
    method Fill(r: Record, bound: Slice<Field>, own: Slice<Field>, room: nat)
      requires r.fields.Valid() && r.fields.len == 0 && bound.Valid() && own.Valid()
      requires bound.arr != r.fields.arr && own.arr != r.fields.arr
      modifies r`fields, r.fields.arr
      ensures r.fields.Valid() && (r.fields.arr == old(r.fields.arr) || fresh(r.fields.arr))
      ensures r.fields.Elems() == Redacted(pr, old(bound.Elems()) + old(own.Elems()))
    {
      ghost var b, o := bound.Elems(), own.Elems();
      r.fields := AppendAll(r.fields, bound, room);
      assert r.fields.Elems() == b && own.Elems() == o;
      r.fields := AppendAll(r.fields, own, room);
      assert r.fields.Elems() == b + o;
      Process(pr, r);
    }

    /** One log call: the clone that reaches the transport holds the redacted bound and own
        fields, and nothing anybody else keeps has changed, no earlier clone included,
        whatever the record was used for before. */
    method Log(bound: Slice<Field>, own: Slice<Field>, reuse: bool, room: nat) returns (clone: Record)
      requires Valid() && bound.Valid() && own.Valid() && bound.arr in kept && own.arr in kept
      modifies this, pool, Owned()
      ensures Valid() && fresh(clone) && clones == old(clones) + {clone}
      ensures clone.fields.Valid() && fresh(clone.fields.arr) && kept == old(kept) + {clone.fields.arr}
      ensures clone.fields.Elems() == Redacted(pr, old(bound.Elems()) + old(own.Elems()))
      ensures forall a :: a in old(kept) ==> a[..] == old(a[..])
      ensures forall c :: c in old(clones) ==> c.fields == old(c.fields)
    {
      var r := NewRecord(reuse);
      Fill(r, bound, own, room);
      clone := Clone(r);
      Release(r);
    }
  }
}
