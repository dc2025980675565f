/** Path redaction, in place, over pooled records. */
module Redact {
  import opened Dots
  import opened Slices

  datatype Value = Text(s: string) | Other(n: int)

  datatype Field = Field(key: string, value: Value)

  datatype Strategy = Mask | Hash | Drop

  /** `digest` stands for the truncated hash of a field's value. */
  datatype Redactor = Redactor(patterns: seq<seq<string>>, strategy: Strategy, censor: string, digest: Field -> string)

  // ----- matching -----

  /** The meaning of a pattern: `*` stands for one segment, `**` for any number. */
  predicate Glob(pat: seq<string>, key: seq<string>)
    decreases |pat| + |key|
  {
    if pat == [] then key == []
    else if pat[0] == "**" then Glob(pat[1..], key) || (key != [] && Glob(pat, key[1..]))
    else key != [] && (pat[0] == "*" || pat[0] == key[0]) && Glob(pat[1..], key[1..])
  }

  /** The pattern up to and including its first `**`. */
  function UpToStars(pat: seq<string>): seq<string> {
    if pat == [] then [] else if pat[0] == "**" then ["**"] else [pat[0]] + UpToStars(pat[1..])
  }

  lemma {:induction false} StarsTakeAll(key: seq<string>)
    ensures Glob(["**"], key)
  {
    if key != [] { StarsTakeAll(key[1..]); } else { assert ["**"][1..] == []; }
  }

  /** The loop ignores whatever follows a `**`; up to there it is the pattern's meaning. */
  method SegMatch(pat: seq<string>, key: seq<string>) returns (r: bool)
    ensures r == Glob(UpToStars(pat), key)
  {
    assert pat[0..] == pat && key[0..] == key;
    for i := 0 to |pat|
      invariant i <= |key|
      invariant Glob(UpToStars(pat), key) == Glob(UpToStars(pat[i..]), key[i..])
    {
      assert pat[i..][1..] == pat[i + 1..];
      if pat[i] == "**" {
        StarsTakeAll(key[i..]);
        return true;
      }
      HeadMatters(pat[i..], key[i..]);
      if i >= |key| { return false; }
      assert key[i..][1..] == key[i + 1..];
      if pat[i] == "*" || pat[i] == key[i] { continue; }
      return false;
    }
    assert pat[|pat|..] == [];
    return |pat| == |key|;
  }

  lemma HeadMatters(pat: seq<string>, key: seq<string>)
    requires pat != [] && pat[0] != "**"
    ensures Glob(UpToStars(pat), key)
        <==> key != [] && (pat[0] == "*" || pat[0] == key[0]) && Glob(UpToStars(pat[1..]), key[1..])
  {
    assert UpToStars(pat)[1..] == UpToStars(pat[1..]);
  }

  /** Without `**` a pattern matches the keys of its own length only, segment by segment. */
  lemma {:induction false} WithoutStars(pat: seq<string>, key: seq<string>)
    requires "**" !in pat
    ensures Glob(UpToStars(pat), key)
       <==> |pat| == |key| && forall i :: 0 <= i < |pat| ==> pat[i] == "*" || pat[i] == key[i]
  {
    if pat != [] {
      HeadMatters(pat, key);
      if key != [] {
        WithoutStars(pat[1..], key[1..]);
        SegmentsSplit(pat, key);
      }
    }
  }

  lemma SegmentsSplit(pat: seq<string>, key: seq<string>)
    requires pat != [] && key != []
    ensures (|pat| == |key| && forall i :: 0 <= i < |pat| ==> pat[i] == "*" || pat[i] == key[i])
       <==> (&& (pat[0] == "*" || pat[0] == key[0]) && |pat[1..]| == |key[1..]|
             && forall i :: 0 <= i < |pat[1..]| ==> pat[1..][i] == "*" || pat[1..][i] == key[1..][i])
  {
  }

  /** A pattern with `**` only in last place means what it says. */
  lemma {:induction false} StarsLast(pat: seq<string>)
    requires forall i :: 0 <= i < |pat| - 1 ==> pat[i] != "**"
    ensures UpToStars(pat) == pat
  {
    if pat != [] {
      if pat[0] == "**" {
        assert pat == ["**"];
      } else {
        StarsLast(pat[1..]);
        assert pat == [pat[0]] + pat[1..];
      }
    }
  }

  predicate Matches(pr: Redactor, key: string) {
    exists i :: 0 <= i < |pr.patterns| && Glob(UpToStars(pr.patterns[i]), SplitDots(key))
  }

  /** Every pattern counts, wherever it stands in the list, and no pattern matches nothing. */
  lemma PatternsJoin(pr: Redactor, a: seq<seq<string>>, b: seq<seq<string>>, key: string)
    ensures Matches(pr.(patterns := a + b), key) <==> Matches(pr.(patterns := a), key) || Matches(pr.(patterns := b), key)
    ensures !Matches(pr.(patterns := []), key)
  {
    var all := a + b;
    if i :| 0 <= i < |a| && Glob(UpToStars(a[i]), SplitDots(key)) { assert all[i] == a[i]; }
    if i :| 0 <= i < |b| && Glob(UpToStars(b[i]), SplitDots(key)) { assert all[|a| + i] == b[i]; }
    if i :| 0 <= i < |all| && Glob(UpToStars(all[i]), SplitDots(key)) {
      assert if i < |a| then all[i] == a[i] else all[i] == b[i - |a|];
    }
  }

  /** A key that ends in the segment name matches "*.name" exactly when it has two segments. */
  lemma OneStarOneSegment(pr: Redactor, name: string, key: string)
    requires pr.patterns == [["*", name]] && name != "**"
    requires SplitDots(key)[|SplitDots(key)| - 1] == name
    ensures Matches(pr, key) <==> |SplitDots(key)| == 2
  {
    WithoutStars(["*", name], SplitDots(key));
    assert pr.patterns[0] == ["*", name];
  }

  /** One level further down "*.name" does not match. */
  lemma DeeperStays(pr: Redactor, a: string, b: string, name: string)
    requires pr.patterns == [["*", name]] && name != "**" && '.' !in a && '.' !in b && '.' !in name
    ensures Matches(pr, a + "." + name) && !Matches(pr, a + "." + (b + "." + name))
  {
    SplitPlain(a);
    SplitPlain(b);
    SplitPlain(name);
    SplitAtDot(a, name);
    SplitAtDot(b, name);
    SplitAtDot(a, b + "." + name);
    OneStarOneSegment(pr, name, a + "." + name);
    OneStarOneSegment(pr, name, a + "." + (b + "." + name));
  }

  method MatchesKey(pr: Redactor, key: string) returns (r: bool)
    ensures r == Matches(pr, key)
  {
    var ks := SplitDots(key);
    for i := 0 to |pr.patterns|
      invariant forall j :: 0 <= j < i ==> !Glob(UpToStars(pr.patterns[j]), ks)
    {
      var m := SegMatch(pr.patterns[i], ks);
      if m { return true; }
    }
    return false;
  }

  // ----- redaction -----

  /** What becomes of one field. */
  function RedactOne(pr: Redactor, f: Field): seq<Field> {
    if !Matches(pr, f.key) then [f]
    else
      match pr.strategy
      case Drop => []
      case Hash => [Field(f.key, Text(pr.digest(f)))]
      case Mask => [Field(f.key, Text(pr.censor))]
  }

  function Redacted(pr: Redactor, fs: seq<Field>): seq<Field> {
    if fs == [] then [] else Redacted(pr, fs[..|fs| - 1]) + RedactOne(pr, fs[|fs| - 1])
  }

  lemma {:induction false} RedactedAppend(pr: Redactor, a: seq<Field>, b: seq<Field>)
    ensures Redacted(pr, a + b) == Redacted(pr, a) + Redacted(pr, b)
  {
    if b == [] {
      assert a + b == a;
    } else {
      var k := |b| - 1;
      assert (a + b)[..|a + b| - 1] == a + b[..k];
      RedactedAppend(pr, a, b[..k]);
    }
  }

  lemma RedactedSnoc(pr: Redactor, fs: seq<Field>, i: nat)
    requires i < |fs|
    ensures Redacted(pr, fs[..i + 1]) == Redacted(pr, fs[..i]) + RedactOne(pr, fs[i])
  {
    assert fs[..i + 1][..i] == fs[..i];
  }

  /** Masking or dropping twice is the same as once. */
  lemma {:induction false} Idempotent(pr: Redactor, fs: seq<Field>)
    requires !pr.strategy.Hash?
    ensures Redacted(pr, Redacted(pr, fs)) == Redacted(pr, fs)
  {
    if fs != [] {
      var k := |fs| - 1;
      var one := RedactOne(pr, fs[k]);
      Idempotent(pr, fs[..k]);
      RedactedAppend(pr, Redacted(pr, fs[..k]), one);
      assert Redacted(pr, one) == one by {
        if one != [] {
          assert one[..0] == [];
          assert RedactOne(pr, one[0]) == one;
        }
      }
    }
  }

  /** The fields whose keys do not match. */
  function Plain(pr: Redactor, fs: seq<Field>): seq<Field> {
    if fs == [] then []
    else Plain(pr, fs[..|fs| - 1]) + if Matches(pr, fs[|fs| - 1].key) then [] else [fs[|fs| - 1]]
  }

  lemma {:induction false} PlainAppend(pr: Redactor, a: seq<Field>, b: seq<Field>)
    ensures Plain(pr, a + b) == Plain(pr, a) + Plain(pr, b)
  {
    if b == [] {
      assert a + b == a;
    } else {
      var k := |b| - 1;
      assert (a + b)[..|a + b| - 1] == a + b[..k];
      PlainAppend(pr, a, b[..k]);
    }
  }

  lemma PlainOne(pr: Redactor, f: Field)
    ensures Plain(pr, RedactOne(pr, f)) == if Matches(pr, f.key) then [] else [f]
  {
    var one := RedactOne(pr, f);
    if one != [] {
      assert one == [one[0]] && one[0].key == f.key && one[..0] == [];
      assert Plain(pr, []) == [];
    }
  }

  /** The fields that do not match stay as they are, in order. */
  lemma {:induction false} OthersStay(pr: Redactor, fs: seq<Field>)
    ensures Plain(pr, Redacted(pr, fs)) == Plain(pr, fs)
  {
    if fs != [] {
      var k := |fs| - 1;
      var one := RedactOne(pr, fs[k]);
      OthersStay(pr, fs[..k]);
      PlainAppend(pr, Redacted(pr, fs[..k]), one);
      PlainOne(pr, fs[k]);
    }
  }

  /** No field that matches keeps its value. */
  lemma {:induction false} NothingLeaks(pr: Redactor, fs: seq<Field>)
    ensures forall i :: 0 <= i < |Redacted(pr, fs)| ==>
              var g := Redacted(pr, fs)[i];
              Matches(pr, g.key) ==>
                exists f :: f in fs && f.key == g.key
                            && g.value == Text(if pr.strategy.Hash? then pr.digest(f) else pr.censor)
  {
    if fs != [] {
      var k := |fs| - 1;
      NothingLeaks(pr, fs[..k]);
      forall i | 0 <= i < |Redacted(pr, fs)| && Matches(pr, Redacted(pr, fs)[i].key)
        ensures exists f :: f in fs && f.key == Redacted(pr, fs)[i].key
                  && Redacted(pr, fs)[i].value == Text(if pr.strategy.Hash? then pr.digest(f) else pr.censor)
      {
        if i >= |Redacted(pr, fs[..k])| {
          assert fs[k] in fs;
        } else {
          var g := Redacted(pr, fs[..k])[i];
          var f :| f in fs[..k] && f.key == g.key && g.value == Text(if pr.strategy.Hash? then pr.digest(f) else pr.censor);
          assert f in fs;
        }
      }
    }
  }

  /** The value a field under a matching key is given, unless it is dropped. */
  function Replacement(pr: Redactor, f: Field): Value {
    Text(if pr.strategy.Hash? then pr.digest(f) else pr.censor)
  }

  /** Masking and hashing keep every field in its place, under its key, and replace exactly the
      values under matching keys. */
  lemma {:induction false} MaskedInPlace(pr: Redactor, fs: seq<Field>)
    requires !pr.strategy.Drop?
    ensures |Redacted(pr, fs)| == |fs|
    ensures forall i :: 0 <= i < |fs| ==>
              && Redacted(pr, fs)[i].key == fs[i].key
              && Redacted(pr, fs)[i].value == if Matches(pr, fs[i].key) then Replacement(pr, fs[i]) else fs[i].value
  {
    if fs != [] { MaskedInPlace(pr, fs[..|fs| - 1]); }
  }

  /** Dropping leaves exactly the fields that do not match. */
  lemma {:induction false} DroppedAway(pr: Redactor, fs: seq<Field>)
    requires pr.strategy.Drop?
    ensures Redacted(pr, fs) == Plain(pr, fs)
  {
    if fs != [] { DroppedAway(pr, fs[..|fs| - 1]); }
  }

  lemma {:induction false} RedactedShrinks(pr: Redactor, fs: seq<Field>)
    ensures |Redacted(pr, fs)| <= |fs|
  {
    if fs != [] { RedactedShrinks(pr, fs[..|fs| - 1]); }
  }

  class Record {
    var fields: Slice<Field>
    var pooled: bool

    constructor ()
      ensures fields.Valid() && fresh(fields.arr) && fields.len == 0 && !pooled
    {
      var a := new Field[0];
      fields, pooled := Slice(a, 0), false;
    }
  }

  /** Appends what becomes of f; there is room for it. */
  method AppendRedacted(pr: Redactor, dst: Slice<Field>, f: Field) returns (r: Slice<Field>)
    requires dst.len < dst.arr.Length
    modifies dst.arr
    ensures r.arr == dst.arr && r.len <= dst.len + 1
    ensures r.Elems() == old(dst.Elems()) + RedactOne(pr, f)
    ensures forall k :: dst.len + 1 <= k < dst.arr.Length ==> dst.arr[k] == old(dst.arr[k])
  {
    var hit := MatchesKey(pr, f.key);
    r := dst;
    if !hit {
      r := Append(dst, f, 0);
    } else {
      match pr.strategy {
        case Drop =>
        case Hash => r := Append(dst, Field(f.key, Text(pr.digest(f))), 0);
        case Mask => r := Append(dst, Field(f.key, Text(pr.censor)), 0);
      }
    }
  }

  /** Reads and writes the same array: what is written never overtakes what is read, so
      nothing is reallocated and the result is the filter-and-map of the old fields. */
  method Process(pr: Redactor, r: Record)
    requires r.fields.Valid()
    modifies r`fields, r.fields.arr
    ensures r.fields.Valid() && r.fields.arr == old(r.fields.arr)
    ensures r.fields.Elems() == Redacted(pr, old(r.fields.Elems()))
  {
    var src := r.fields;
    ghost var before := src.Elems();
    var dst := Slice(src.arr, 0);
    for i := 0 to src.len
      invariant r.fields == src
      invariant dst.arr == src.arr && dst.len <= i
      invariant forall k :: i <= k < src.len ==> src.arr[k] == before[k]
      invariant dst.Elems() == Redacted(pr, before[..i])
    {
      RedactedSnoc(pr, before, i);
      dst := AppendRedacted(pr, dst, src.arr[i]);
    }
    assert before[..src.len] == before;
    r.fields := dst;
  }
}
