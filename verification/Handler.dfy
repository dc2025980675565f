/** The slog handler: attributes bound early are flattened early, under the groups open at
    the time. Attribute values are already resolved. */
module Handler {
  import opened Common
  import opened Slices
  import opened Dots

  /** A leaf carries its value; a nil value under an empty key is the zero attribute. */
  datatype Attr = Leaf(key: string, v: int) | Nil(key: string) | Group(key: string, attrs: seq<Attr>)

  datatype Field = Field(key: string, value: Option<int>)

  /** An attribute tree as a list of fields with dotted keys. */
  function Flatten(prefix: string, a: Attr): seq<Field>
    decreases a, 1
  {
    match a
    case Leaf(k, v) => [Field(prefix + k, Some(v))]
    case Nil(k) => if k == "" then [] else [Field(prefix + k, None)]
    case Group(k, attrs) => FlattenAll(Under(prefix, k), attrs)
  }

  /** The prefix inside a group; an unnamed group is inlined. */
  function Under(prefix: string, k: string): string {
    if k == "" then prefix else prefix + k + "."
  }

  function FlattenAll(prefix: string, attrs: seq<Attr>): seq<Field>
    decreases attrs, 0
  {
    if attrs == [] then [] else Flatten(prefix, attrs[0]) + FlattenAll(prefix, attrs[1..])
  }

  lemma {:induction false} FlattenAppend(prefix: string, a: seq<Attr>, b: seq<Attr>)
    ensures FlattenAll(prefix, a + b) == FlattenAll(prefix, a) + FlattenAll(prefix, b)
  {
    if a == [] {
      assert a + b == b;
    } else {
      assert (a + b)[1..] == a[1..] + b;
      FlattenAppend(prefix, a[1..], b);
    }
  }

  // ----- the keys -----

  /** The leaves of a tree under the groups `path`, each with the names that lead to it: the
      named groups and its own key. The zero attribute is none. */
  function Leaves(path: seq<string>, a: Attr): seq<(seq<string>, Option<int>)>
    decreases a, 1
  {
    match a
    case Leaf(k, v) => [(path + [k], Some(v))]
    case Nil(k) => if k != "" then [(path + [k], None)] else []
    case Group(k, attrs) => AllLeaves(if k != "" then path + [k] else path, attrs)
  }

  function AllLeaves(path: seq<string>, attrs: seq<Attr>): seq<(seq<string>, Option<int>)>
    decreases attrs, 0
  {
    if attrs == [] then [] else Leaves(path, attrs[0]) + AllLeaves(path, attrs[1..])
  }

  /** The prefix of keys under these groups. */
  function Prefix(path: seq<string>): string {
    if path == [] then "" else Prefix(path[..|path| - 1]) + path[|path| - 1] + "."
  }

  /** The field's key is the leaf's names, joined by dots. */
  ghost predicate Named(f: Field, leaf: (seq<string>, Option<int>)) {
    |leaf.0| >= 1 && f.key == JoinDots(leaf.0) && f.value == leaf.1
  }

  ghost predicate AllNamed(fs: seq<Field>, leaves: seq<(seq<string>, Option<int>)>) {
    |fs| == |leaves| && forall i :: 0 <= i < |fs| ==> Named(fs[i], leaves[i])
  }

  lemma {:induction false} PrefixJoins(path: seq<string>, k: string)
    ensures Prefix(path) + k == JoinDots(path + [k])
    decreases |path|
  {
    if path == [] {
      assert path + [k] == [k];
    } else {
      var n := |path| - 1;
      PrefixJoins(path[..n], path[n] + "." + k);
      JoinLast(path[..n], path[n], k);
      assert path == path[..n] + [path[n]];
    }
  }

  lemma {:induction false} JoinLast(path: seq<string>, a: string, b: string)
    ensures JoinDots(path + [a + "." + b]) == JoinDots(path + [a] + [b])
    decreases |path|
  {
    if path == [] {
      assert path + [a] + [b] == [a, b] && [a, b][1..] == [b];
    } else {
      assert (path + [a + "." + b])[1..] == path[1..] + [a + "." + b];
      assert (path + [a] + [b])[1..] == path[1..] + [a] + [b];
      JoinLast(path[1..], a, b);
    }
  }

  lemma PrefixUnder(path: seq<string>, k: string)
    ensures Under(Prefix(path), k) == Prefix(if k != "" then path + [k] else path)
  {
    if k != "" { assert (path + [k])[..|path|] == path; }
  }

  /** Every leaf becomes one field, in order, whose key is the names of the groups around it and
      its own, joined by dots. */
  lemma {:induction false} KeysAreDotted(path: seq<string>, a: Attr)
    ensures AllNamed(Flatten(Prefix(path), a), Leaves(path, a))
    decreases a, 1
  {
    match a {
      case Leaf(k, v) => PrefixJoins(path, k);
      case Nil(k) => PrefixJoins(path, k);
      case Group(k, attrs) =>
        PrefixUnder(path, k);
        AllKeysAreDotted(if k != "" then path + [k] else path, attrs);
    }
  }

  lemma {:induction false} AllKeysAreDotted(path: seq<string>, attrs: seq<Attr>)
    ensures AllNamed(FlattenAll(Prefix(path), attrs), AllLeaves(path, attrs))
    decreases attrs, 0
  {
    if attrs != [] {
      KeysAreDotted(path, attrs[0]);
      AllKeysAreDotted(path, attrs[1..]);
      NamedAppend(Flatten(Prefix(path), attrs[0]), Leaves(path, attrs[0]),
                  FlattenAll(Prefix(path), attrs[1..]), AllLeaves(path, attrs[1..]));
    }
  }

  lemma NamedAppend(a: seq<Field>, l: seq<(seq<string>, Option<int>)>, b: seq<Field>, m: seq<(seq<string>, Option<int>)>)
    requires AllNamed(a, l) && AllNamed(b, m)
    ensures AllNamed(a + b, l + m)
  {
  }

  method AppendAttr(dst: Slice<Field>, prefix: string, a: Attr, room: nat) returns (r: Slice<Field>)
    requires dst.Valid()
    modifies dst.arr
    ensures r.Valid() && (r.arr == dst.arr || fresh(r.arr))
    ensures r.Elems() == old(dst.Elems()) + Flatten(prefix, a)
    decreases a, 1
  {
    match a {
      case Leaf(k, v) => r := Append(dst, Field(prefix + k, Some(v)), room);
      case Nil(k) =>
        r := dst;
        if k == "" { return; }
        r := Append(dst, Field(prefix + k, None), room);
      case Group(k, attrs) => r := AppendAttrs(dst, Under(prefix, k), attrs, room);
    }
  }

  method AppendAttrs(dst: Slice<Field>, prefix: string, attrs: seq<Attr>, room: nat) returns (r: Slice<Field>)
    requires dst.Valid()
    modifies dst.arr
    ensures r.Valid() && (r.arr == dst.arr || fresh(r.arr))
    ensures r.Elems() == old(dst.Elems()) + FlattenAll(prefix, attrs)
    decreases attrs, 0
  {
    r := dst;
    for i := 0 to |attrs|
      invariant r.Valid() && (r.arr == dst.arr || fresh(r.arr))
      invariant r.Elems() == old(dst.Elems()) + FlattenAll(prefix, attrs[..i])
    {
      FlattenAppend(prefix, attrs[..i], [attrs[i]]);
      assert attrs[..i + 1] == attrs[..i] + [attrs[i]];
      assert FlattenAll(prefix, [attrs[i]]) == Flatten(prefix, attrs[i]);
      r := AppendAttr(r, prefix, attrs[i], room);
    }
    assert attrs[..|attrs|] == attrs;
  }

  /** Nothing below writes to an existing object or array, so handlers derived from one
      parent cannot affect it or each other. */
  class SlogHandler {
    const groups: seq<string>
    const prefix: string
    const preform: Slice<Field>

    ghost predicate Valid() {
      preform.Valid()
    }

    ghost function Fields(): seq<Field>
      requires Valid()
      reads preform.arr
    {
      preform.Elems()
    }

    constructor (groups: seq<string>, prefix: string, preform: Slice<Field>)
      requires preform.Valid()
      ensures Valid() && this.groups == groups && this.prefix == prefix && this.preform == preform
    {
      this.groups, this.prefix, this.preform := groups, prefix, preform;
    }

    method WithAttrs(attrs: seq<Attr>, room: nat) returns (h: SlogHandler)
      requires Valid()
      ensures fresh(h) && h.Valid() && fresh(h.preform.arr)
      ensures h.prefix == prefix && h.groups == groups
      ensures h.Fields() == Fields() + FlattenAll(prefix, attrs)
    {
      var copy := CopyOf(preform, Field("", None));
      copy := AppendAttrs(copy, prefix, attrs, room);
      h := new SlogHandler(groups, prefix, copy);
    }

    method WithGroup(name: string) returns (h: SlogHandler)
      requires Valid()
      ensures h.Valid() && (h == this || (fresh(h) && fresh(h.preform.arr)))
      ensures h.prefix == Under(prefix, name) && h.Fields() == Fields()
      ensures h.groups == if name == "" then groups else groups + [name]
    {
      if name == "" { return this; }
      var copy := CopyOf(preform, Field("", None));
      h := new SlogHandler(groups + [name], prefix + name + ".", copy);
    }

    /** The fields of one record. */
    method Handle(attrs: seq<Attr>, room: nat) returns (fields: Slice<Field>)
      requires Valid()
      ensures fields.Valid() && fresh(fields.arr)
      ensures fields.Elems() == Fields() + FlattenAll(prefix, attrs)
    {
      fields := CopyOf(preform, Field("", None));
      fields := AppendAttrs(fields, prefix, attrs, room);
    }
  }

  // ----- chains of derivations -----

  datatype Op = WithAttrs(attrs: seq<Attr>) | WithGroup(name: string)

  /** The attribute tree a chain of derivations and a final call amount to. */
  function Nest(ops: seq<Op>, attrs: seq<Attr>): seq<Attr> {
    if ops == [] then attrs
    else
      match ops[0]
      case WithAttrs(bound) => bound + Nest(ops[1..], attrs)
      case WithGroup(name) => [Group(name, Nest(ops[1..], attrs))]
  }

  /** The prefix and fields a chain leads to, as the handler keeps them. */
  function Derived(prefix: string, fields: seq<Field>, ops: seq<Op>): (string, seq<Field>)
    decreases |ops|
  {
    if ops == [] then (prefix, fields)
    else
      match ops[0]
      case WithAttrs(bound) => Derived(prefix, fields + FlattenAll(prefix, bound), ops[1..])
      case WithGroup(name) => Derived(Under(prefix, name), fields, ops[1..])
  }

  /** Flattening early equals nesting and flattening once. */
  lemma {:induction false} EarlyIsLate(prefix: string, fields: seq<Field>, ops: seq<Op>, attrs: seq<Attr>)
    ensures var (p, fs) := Derived(prefix, fields, ops);
            fs + FlattenAll(p, attrs) == fields + FlattenAll(prefix, Nest(ops, attrs))
    decreases |ops|
  {
    if ops != [] {
      var inner := Nest(ops[1..], attrs);
      match ops[0] {
        case WithAttrs(bound) =>
          EarlyIsLate(prefix, fields + FlattenAll(prefix, bound), ops[1..], attrs);
          FlattenAppend(prefix, bound, inner);
          Associate(fields, FlattenAll(prefix, bound), FlattenAll(prefix, inner));
        case WithGroup(name) =>
          EarlyIsLate(Under(prefix, name), fields, ops[1..], attrs);
          FlattenGroup(prefix, name, inner);
      }
    }
  }

  lemma Associate(a: seq<Field>, b: seq<Field>, c: seq<Field>)
    ensures (a + b) + c == a + (b + c)
  {
  }

  lemma FlattenGroup(prefix: string, name: string, inner: seq<Attr>)
    ensures FlattenAll(prefix, [Group(name, inner)]) == FlattenAll(Under(prefix, name), inner)
  {
    var g := Group(name, inner);
    assert [g][1..] == [] && FlattenAll(prefix, []) == [];
    assert FlattenAll(prefix, [g]) == Flatten(prefix, g) + [];
  }

  /** The handlers of a chain, made one after another. */
  method Derive(h: SlogHandler, ops: seq<Op>, room: nat) returns (d: SlogHandler)
    requires h.Valid()
    ensures d.Valid() && (d == h || (fresh(d) && fresh(d.preform.arr)))
    ensures (d.prefix, d.Fields()) == Derived(h.prefix, h.Fields(), ops)
    decreases |ops|
  {
    d := h;
    if ops == [] { return; }
    match ops[0] {
      case WithAttrs(bound) => d := h.WithAttrs(bound, room);
      case WithGroup(name) => d := h.WithGroup(name);
    }
    d := Derive(d, ops[1..], room);
  }

  /** Two handlers derived from one parent, used after both exist, and the parent itself used
      last: each record's fields are those of its own chain's nested tree. */
  method Siblings(h: SlogHandler, left: seq<Op>, right: seq<Op>, attrs: seq<Attr>, room: nat)
    returns (l: Slice<Field>, r: Slice<Field>, p: Slice<Field>)
    requires h.Valid()
    ensures l.Valid() && r.Valid() && p.Valid()
    ensures fresh(l.arr) && fresh(r.arr) && fresh(p.arr) && l.arr != r.arr
    ensures l.Elems() == h.Fields() + FlattenAll(h.prefix, Nest(left, attrs))
    ensures r.Elems() == h.Fields() + FlattenAll(h.prefix, Nest(right, attrs))
    ensures p.Elems() == h.Fields() + FlattenAll(h.prefix, attrs)
  {
    var lh := Derive(h, left, room);
    var rh := Derive(h, right, room);
    l := lh.Handle(attrs, room);
    r := rh.Handle(attrs, room);
    p := h.Handle(attrs, room);
    EarlyIsLate(h.prefix, h.Fields(), left, attrs);
    EarlyIsLate(h.prefix, h.Fields(), right, attrs);
  }
}
