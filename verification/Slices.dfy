/** Slices in the manner of Go: a window from the start of a shared array, whose append
    writes into the array while there is room and moves to a fresh one otherwise. */
module Slices {

  datatype Slice<T> = Slice(arr: array<T>, len: nat) {
    ghost predicate Valid() {
      len <= arr.Length
    }

    ghost function Elems(): seq<T>
      requires Valid()
      reads arr
    {
      arr[..len]
    }
  }

  /** `room` is the spare capacity a reallocation happens to leave. */
  method Append<T>(s: Slice<T>, x: T, room: nat) returns (r: Slice<T>)
    requires s.Valid()
    modifies s.arr
    ensures r.Valid() && r.Elems() == old(s.Elems()) + [x]
    ensures if s.len < s.arr.Length then r.arr == s.arr && s.arr[..] == old(s.arr[..])[s.len := x]
            else fresh(r.arr) && s.arr[..] == old(s.arr[..])
  {
    if s.len < s.arr.Length {
      s.arr[s.len] := x;
      r := Slice(s.arr, s.len + 1);
    } else {
      var bigger := new T[s.len + 1 + room](_ => x);
      for i := 0 to s.len
        invariant bigger[..i] == s.arr[..i]
        invariant bigger[s.len] == x
        modifies bigger
      {
        bigger[i] := s.arr[i];
      }
      r := Slice(bigger, s.len + 1);
    }
  }

  /** `append(s, t...)` for a t in another array. */
  method AppendAll<T>(s: Slice<T>, t: Slice<T>, room: nat) returns (r: Slice<T>)
    requires s.Valid() && t.Valid() && s.arr != t.arr
    modifies s.arr
    ensures r.Valid() && r.Elems() == old(s.Elems()) + old(t.Elems())
    ensures r.arr == s.arr || fresh(r.arr)
  {
    r := s;
    for i := 0 to t.len
      invariant r.Valid() && (r.arr == s.arr || fresh(r.arr))
      invariant r.Elems() == old(s.Elems()) + old(t.Elems())[..i]
    {
      r := Append(r, t.arr[i], room);
    }
  }

  /** A copy in an array of its own. */
  method CopyOf<T>(t: Slice<T>, d: T) returns (r: Slice<T>)
    requires t.Valid()
    ensures r.Valid() && fresh(r.arr) && r.Elems() == t.Elems()
  {
    var a := new T[t.len](_ => d);
    for i := 0 to t.len
      invariant a[..i] == t.arr[..i]
      modifies a
    {
      a[i] := t.arr[i];
    }
    r := Slice(a, t.len);
  }
}
