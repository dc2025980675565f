/** Spans: every span counts its children and gets a path that names its place in the tree. */
module Span {
  import opened Common
  import opened Decimal
  import opened Dots

  const MAX_INT := 0x7FFF_FFFF_FFFF_FFFF

  // ----- the numeral -----

  function Pow10(k: nat): nat {
    if k == 0 then 1 else 10 * Pow10(k - 1)
  }

  lemma RoomForWord()
    ensures MAX_INT < Pow10(20)
  {
    assert Pow10(10) == 10_000_000_000;
    assert Pow10(20) == 100_000_000_000_000_000_000;
  }

  /** Fills a 20-byte buffer from its end. A negative number gives the empty string. */
  method Itoa(n: int) returns (s: string)
    requires n <= MAX_INT
    ensures n >= 0 ==> s == Dec(n)
    ensures n < 0 ==> s == ""
  {
    if n == 0 { return "0"; }
    var b := new char[20];
    var i, m := 20, n;
    RoomForWord();
    while m > 0
      invariant 0 <= i <= 20 && (n < 0 ==> m < 0 && i == 20)
      invariant n > 0 ==> 0 <= m < Pow10(i) && Dec(n) == Head(m) + b[i..]
    {
      HeadStep(m, i, b[i..]);
      i := i - 1;
      b[i] := Digit(m % 10);
      assert b[i..] == [Digit(m % 10)] + b[i + 1..];
      m := m / 10;
    }
    s := b[i..];
  }

  /** The digits still to be written. */
  function Head(m: nat): string {
    if m == 0 then "" else Dec(m)
  }

  lemma HeadStep(m: nat, i: nat, tail: string)
    requires 0 < m < Pow10(i)
    ensures i > 0 && m / 10 < Pow10(i - 1)
    ensures Head(m) + tail == Head(m / 10) + ([Digit(m % 10)] + tail)
  {
  }

  // ----- opening spans -----

  /** A bound field is a name with a text; the caller's own fields are opaque. */
  datatype Field =
    | Field(key: string, text: string)
    | Duration(key: string, nanos: int)
    | Flag(key: string, b: bool)
    | Given(id: int)

  /** The fields every record made under the span inherits. */
  function Bound(name: string, id: string, path: string, fields: seq<Field>, parentId: string): seq<Field> {
    [Field("span", name), Field("span_id", id), Field("span_path", path)] + fields
    + if parentId != "" then [Field("parent_span_id", parentId)] else []
  }

  class SpanState {
    const id: string
    const path: string
    var children: nat

    constructor (id: string, path: string)
      ensures this.id == id && this.path == path && children == 0
    {
      this.id, this.path, children := id, path, 0;
    }
  }

  /** Opens a span under a parent, or as a root, with a fresh identifier. */
  method StartSpan(parent: SpanState?, name: string, fields: seq<Field>, id: string)
    returns (st: SpanState, bound: seq<Field>)
    requires parent != null ==> parent.children < MAX_INT
    modifies if parent == null then {} else {parent}
    ensures fresh(st) && st.id == id && st.children == 0
    ensures parent == null ==> st.path == "1"
    ensures parent != null ==> parent.children == old(parent.children) + 1
    ensures parent != null ==> st.path == parent.path + "." + Dec(parent.children)
    ensures bound == Bound(name, id, st.path, fields, if parent == null then "" else parent.id)
  {
    var path, parentId := "1", "";
    if parent != null {
      parent.children := parent.children + 1;
      parentId := parent.id;
      var k := Itoa(parent.children);
      path := parent.path + "." + k;
    }
    st := new SpanState(id, path);
    bound := [Field("span", name), Field("span_id", id), Field("span_path", path)] + fields;
    if parentId != "" {
      bound := bound + [Field("parent_span_id", parentId)];
    }
  }

  // ----- a run under one root -----

  /** A run is the list of the parents of the spans opened after the root, numbered in
      opening order; the root is span 0. */
  predicate IsRun(parents: seq<nat>) {
    forall k :: 0 <= k < |parents| ==> parents[k] <= k
  }

  /** How many of the first n spans have parent p. */
  function Count(parents: seq<nat>, n: nat, p: nat): (c: nat)
    requires n <= |parents|
    ensures c <= n
  {
    if n == 0 then 0 else Count(parents, n - 1, p) + if parents[n - 1] == p then 1 else 0
  }

  /** Which child of which child of the root a span is. */
  function Index(parents: seq<nat>, i: nat): (ix: seq<nat>)
    requires IsRun(parents) && i <= |parents|
    ensures ix != [] && (|ix| == 1 <==> i == 0)
    decreases i
  {
    if i == 0 then [1]
    else
      var p := parents[i - 1];
      Index(parents, p) + [Count(parents, i - 1, p) + 1]
  }

  /** Index lists as paths. */
  function Path(ix: seq<nat>): string
    requires ix != []
  {
    var n := |ix| - 1;
    if n == 0 then Dec(ix[0]) else Path(ix[..n]) + "." + Dec(ix[n])
  }

  predicate Ancestor(parents: seq<nat>, a: nat, i: nat)
    requires IsRun(parents) && i <= |parents|
    decreases i
  {
    a == i || (i > 0 && Ancestor(parents, a, parents[i - 1]))
  }

  /** The spans are different objects with these paths and child counts. */
  ghost predicate Opened(paths: seq<string>, counts: seq<nat>, spans: seq<SpanState>)
    reads spans
  {
    && |spans| == |paths| == |counts|
    && (forall i, j :: 0 <= i < j < |spans| ==> spans[i] != spans[j])
    && (forall i :: 0 <= i < |spans| ==> spans[i].path == paths[i] && spans[i].children == counts[i])
  }

  /** Span i after n spans besides the root: its path spells its index list, and it has
      counted its children. */
  ghost predicate SpellsAt(parents: seq<nat>, n: nat, i: nat, path: string, count: nat)
    requires IsRun(parents) && i <= n <= |parents|
  {
    path == Path(Index(parents, i)) && count == Count(parents, n, i)
  }

  ghost predicate Spells(parents: seq<nat>, n: nat, paths: seq<string>, counts: seq<nat>)
    requires IsRun(parents) && n <= |parents|
  {
    |paths| == |counts| == n + 1 && forall i :: 0 <= i <= n ==> SpellsAt(parents, n, i, paths[i], counts[i])
  }

  /** Performs a run: the spans are different objects, every span's path spells its index
      list, and it has counted its children. */
  method OpenAll(parents: seq<nat>, ids: seq<string>) returns (spans: seq<SpanState>)
    requires IsRun(parents) && |ids| == |parents| + 1 && |parents| < MAX_INT
    ensures |spans| == |parents| + 1
    ensures forall i, j :: 0 <= i < j < |spans| ==> spans[i] != spans[j]
    ensures forall i :: 0 <= i < |spans| ==> SpellsAt(parents, |parents|, i, spans[i].path, spans[i].children)
  {
    ghost var paths, counts;
    spans, paths, counts := OpenRun(parents, ids);
  }

  method OpenRun(parents: seq<nat>, ids: seq<string>)
    returns (spans: seq<SpanState>, ghost paths: seq<string>, ghost counts: seq<nat>)
    requires IsRun(parents) && |ids| == |parents| + 1 && |parents| < MAX_INT
    ensures Opened(paths, counts, spans) && Spells(parents, |parents|, paths, counts)
  {
    var root, bound := StartSpan(null, "", [], ids[0]);
    spans, paths, counts := [root], ["1"], [0];
    RunStarts(parents);
    for n := 0 to |parents|
      invariant Opened(paths, counts, spans) && Spells(parents, n, paths, counts)
      invariant forall i :: 0 <= i < |spans| ==> fresh(spans[i])
    {
      spans, paths, counts := OpenNext(parents, n, spans, paths, counts, ids[n + 1]);
    }
  }

  method OpenNext(parents: seq<nat>, n: nat, spans: seq<SpanState>, ghost paths: seq<string>, ghost counts: seq<nat>,
                  id: string)
    returns (r: seq<SpanState>, ghost paths': seq<string>, ghost counts': seq<nat>)
    requires IsRun(parents) && n < |parents| < MAX_INT
    requires Opened(paths, counts, spans) && Spells(parents, n, paths, counts)
    modifies spans[parents[n]]
    ensures Opened(paths', counts', r) && Spells(parents, n + 1, paths', counts')
    ensures |r| == |spans| + 1 && (forall i :: 0 <= i < |spans| ==> r[i] == spans[i]) && fresh(r[|spans|])
  {
    var p := parents[n];
    RunStep(parents, n, paths, counts);
    paths', counts' := paths + [paths[p] + "." + Dec(counts[p] + 1)], counts[p := counts[p] + 1] + [0];
    r := OpenUnder(paths, counts, spans, p, id);
  }

  method OpenUnder(ghost paths: seq<string>, ghost counts: seq<nat>, spans: seq<SpanState>, p: nat, id: string)
    returns (r: seq<SpanState>)
    requires Opened(paths, counts, spans) && p < |spans| && counts[p] < MAX_INT
    modifies spans[p]
    ensures Opened(paths + [paths[p] + "." + Dec(counts[p] + 1)], counts[p := counts[p] + 1] + [0], r)
    ensures |r| == |spans| + 1 && (forall i :: 0 <= i < |spans| ==> r[i] == spans[i]) && fresh(r[|spans|])
  {
    var st, bound := StartSpan(spans[p], "", [], id);
    r := spans + [st];
  }

  lemma RunStarts(parents: seq<nat>)
    requires IsRun(parents)
    ensures Spells(parents, 0, ["1"], [0])
  {
    assert Path([1]) == "1";
    assert SpellsAt(parents, 0, 0, "1", 0);
  }

  lemma RunStep(parents: seq<nat>, n: nat, paths: seq<string>, counts: seq<nat>)
    requires IsRun(parents) && n < |parents| && Spells(parents, n, paths, counts)
    ensures var p := parents[n];
            && p <= n && counts[p] <= n
            && Spells(parents, n + 1, paths + [paths[p] + "." + Dec(counts[p] + 1)], counts[p := counts[p] + 1] + [0])
  {
    var p := parents[n];
    assert SpellsAt(parents, n, p, paths[p], counts[p]);
    var paths', counts' := paths + [paths[p] + "." + Dec(counts[p] + 1)], counts[p := counts[p] + 1] + [0];
    forall i | 0 <= i <= n + 1 ensures SpellsAt(parents, n + 1, i, paths'[i], counts'[i]) {
      if i <= n {
        assert SpellsAt(parents, n, i, paths[i], counts[i]);
        OneMoreChild(parents, n, i);
      } else {
        LastSpan(parents, n, paths[p], counts[p]);
      }
    }
  }

  lemma OneMoreChild(parents: seq<nat>, n: nat, i: nat)
    requires n < |parents|
    ensures Count(parents, n + 1, i) == Count(parents, n, i) + if parents[n] == i then 1 else 0
  {
  }

  lemma LastSpan(parents: seq<nat>, n: nat, path: string, count: nat)
    requires IsRun(parents) && n < |parents| && SpellsAt(parents, n, parents[n], path, count)
    ensures SpellsAt(parents, n + 1, n + 1, path + "." + Dec(count + 1), 0)
  {
    PathStep(parents, n + 1);
    NoChildYet(parents, n + 1, n + 1);
  }

  lemma PathStep(parents: seq<nat>, i: nat)
    requires IsRun(parents) && 0 < i <= |parents|
    ensures var p := parents[i - 1];
            Path(Index(parents, i)) == Path(Index(parents, p)) + "." + Dec(Count(parents, i - 1, p) + 1)
  {
    var p := parents[i - 1];
    PathSnoc(Index(parents, p), Count(parents, i - 1, p) + 1);
  }

  lemma PathSnoc(ix: seq<nat>, k: nat)
    requires ix != []
    ensures Path(ix + [k]) == Path(ix) + "." + Dec(k)
  {
    assert (ix + [k])[..|ix|] == ix;
  }

  lemma {:induction false} NoChildYet(parents: seq<nat>, n: nat, p: nat)
    requires IsRun(parents) && n <= p && n <= |parents|
    ensures Count(parents, n, p) == 0
  {
    if n > 0 {
      NoChildYet(parents, n - 1, p);
    }
  }

  // ----- index lists are the tree -----

  lemma {:induction false} CountGrows(parents: seq<nat>, i: nat, j: nat, p: nat)
    requires i < j <= |parents| && parents[i] == p
    ensures Count(parents, i, p) < Count(parents, j, p)
    decreases j
  {
    if i < j - 1 {
      CountGrows(parents, i, j - 1, p);
    }
  }

  /** Different spans have different index lists. */
  lemma {:induction false} IndexInjective(parents: seq<nat>, i: nat, j: nat)
    requires IsRun(parents) && i < j <= |parents|
    ensures Index(parents, i) != Index(parents, j)
    decreases j
  {
    if i > 0 && Index(parents, i) == Index(parents, j) {
      var p, q := parents[i - 1], parents[j - 1];
      var ix := Index(parents, i);
      assert Index(parents, p) == ix[..|ix| - 1] == Index(parents, q);
      if p < q {
        IndexInjective(parents, p, q);
      } else if q < p {
        IndexInjective(parents, q, p);
      } else {
        assert ix[|ix| - 1] == Count(parents, i - 1, p) + 1 == Count(parents, j - 1, p) + 1;
        CountGrows(parents, i - 1, j - 1, p);
      }
    }
  }

  /** The prefix order of index lists is the ancestor relation. */
  lemma {:induction false} PrefixIsAncestor(parents: seq<nat>, a: nat, i: nat)
    requires IsRun(parents) && a <= |parents| && i <= |parents|
    ensures Index(parents, a) <= Index(parents, i) <==> Ancestor(parents, a, i)
    decreases i
  {
    var u, v := Index(parents, a), Index(parents, i);
    if i == 0 {
      assert u <= v ==> |u| == 1;
    } else {
      var init := v[..|v| - 1];
      assert init == Index(parents, parents[i - 1]);
      PrefixIsAncestor(parents, a, parents[i - 1]);
      if a != i && u <= v {
        assert u != v by {
          if a < i { IndexInjective(parents, a, i); } else { IndexInjective(parents, i, a); }
        }
        assert u <= init;
      }
    }
  }

  // ----- paths spell index lists -----

  function Numerals(ix: seq<nat>): seq<string> {
    if ix == [] then [] else Numerals(ix[..|ix| - 1]) + [Dec(ix[|ix| - 1])]
  }

  lemma {:induction false} NumeralsAt(ix: seq<nat>, k: nat)
    requires k < |ix|
    ensures |Numerals(ix)| == |ix| && Numerals(ix)[k] == Dec(ix[k])
  {
    var n := |ix| - 1;
    if n > 0 {
      NumeralsAt(ix[..n], if k < n then k else 0);
    }
  }

  /** A numeral contains no dot, so a path splits into the numerals of its index list. */
  lemma {:induction false} SplitPath(ix: seq<nat>)
    requires ix != []
    ensures SplitDots(Path(ix)) == Numerals(ix)
  {
    var n := |ix| - 1;
    SplitPlain(Dec(ix[n]));
    if n > 0 {
      SplitPath(ix[..n]);
      SplitAtDot(Path(ix[..n]), Dec(ix[n]));
    }
  }

  /** Reads a path. */
  function Decode(path: string): seq<nat> {
    Numbers(SplitDots(path))
  }

  function Numbers(parts: seq<string>): seq<nat> {
    if parts == [] then []
    else
      var last := parts[|parts| - 1];
      Numbers(parts[..|parts| - 1]) + [if AllDigits(last) then Value(last) else 0]
  }

  lemma {:induction false} NumbersBack(ix: seq<nat>)
    ensures Numbers(Numerals(ix)) == ix
  {
    if ix != [] {
      var n := |ix| - 1;
      NumbersBack(ix[..n]);
      NumbersSnoc(Numerals(ix[..n]), ix[n]);
      assert ix == ix[..n] + [ix[n]];
    }
  }

  lemma NumbersSnoc(parts: seq<string>, k: nat)
    ensures Numbers(parts + [Dec(k)]) == Numbers(parts) + [k]
  {
    assert (parts + [Dec(k)])[..|parts|] == parts;
    ValueOfDec(k);
  }

  lemma DecodePath(ix: seq<nat>)
    requires ix != []
    ensures Decode(Path(ix)) == ix
  {
    SplitPath(ix);
    NumbersBack(ix);
  }

  /** A path followed by a dot starts another path exactly when its index list is a proper
      prefix of the other's. */
  lemma {:induction false} PathPrefix(u: seq<nat>, v: seq<nat>)
    requires u != [] && v != []
    ensures Path(u) + "." <= Path(v) <==> u < v
  {
    if u < v {
      ExtendPath(u, v);
    }
    if Path(u) + "." <= Path(v) {
      var rest := Path(v)[|Path(u)| + 1..];
      assert Path(v) == Path(u) + "." + rest;
      SplitAtDot(Path(u), rest);
      SplitPath(u);
      SplitPath(v);
      NumeralsPrefix(u, v, SplitDots(rest));
    }
  }

  lemma {:induction false} ExtendPath(u: seq<nat>, v: seq<nat>)
    requires u != [] && u < v
    ensures Path(u) + "." <= Path(v)
    decreases |v|
  {
    var init := v[..|v| - 1];
    if u != init {
      assert u < init;
      ExtendPath(u, init);
    }
  }

  lemma NumeralsPrefix(u: seq<nat>, v: seq<nat>, rest: seq<string>)
    requires Numerals(v) == Numerals(u) + rest && u != [] && v != [] && rest != []
    ensures u < v
  {
    NumeralsAt(u, 0);
    NumeralsAt(v, 0);
    forall k | 0 <= k < |u| ensures u[k] == v[k] {
      NumeralsAt(u, k);
      NumeralsAt(v, k);
      DecInjective(u[k], v[k]);
    }
  }

  /** In every run under one root: a path decodes to its span's place, no two spans share a
      path, and a dotted prefix is exactly a proper ancestor. */
  lemma PathsNameTheTree(parents: seq<nat>, i: nat, j: nat)
    requires IsRun(parents) && i <= |parents| && j <= |parents|
    ensures var (p, q) := (Path(Index(parents, i)), Path(Index(parents, j)));
            && Decode(p) == Index(parents, i)
            && (p == q <==> i == j)
            && (p + "." <= q <==> i != j && Ancestor(parents, i, j))
  {
    var u, v := Index(parents, i), Index(parents, j);
    DecodePath(u);
    DecodePath(v);
    if i < j { IndexInjective(parents, i, j); }
    if j < i { IndexInjective(parents, j, i); }
    PathPrefix(u, v);
    PrefixIsAncestor(parents, i, j);
  }

  lemma PathInjective(u: seq<nat>, v: seq<nat>)
    requires u != [] && v != []
    ensures Path(u) == Path(v) <==> u == v
  {
    DecodePath(u);
    DecodePath(v);
  }

  /** Under different roots, spans share a path exactly when they are the same child of the
      same child: the roots always do, and a path alone does not name a span. */
  lemma AcrossRoots(parents: seq<nat>, others: seq<nat>, i: nat, j: nat)
    requires IsRun(parents) && IsRun(others) && i <= |parents| && j <= |others|
    ensures Path(Index(parents, i)) == Path(Index(others, j)) <==> Index(parents, i) == Index(others, j)
    ensures i == 0 && j == 0 ==> Path(Index(parents, i)) == Path(Index(others, j)) == "1"
    ensures i == 0 && j > 0 ==> Path(Index(parents, i)) != Path(Index(others, j))
  {
    PathInjective(Index(parents, i), Index(others, j));
    assert Path([1]) == Dec(1) == "1";
  }

  // ----- ending spans -----

  datatype Op = Fail(e: string) | SetLevel(l: int) | End(nanos: int)

  /** What a span is about, which does not change. */
  datatype About = About(name: string, id: string, path: string, parentId: string, fields: seq<Field>)

  /** What it has come to so far. */
  datatype Outcome = Outcome(level: int, error: Option<string>)

  /** The completion record, a message "span.end" with these fields. */
  datatype Record = Record(level: int, fields: seq<Field>)

  /** Identity, duration and success first, then parent and error if there are any, then the
      span's own fields. */
  function Completion(a: About, o: Outcome, nanos: int): Record {
    Record(o.level,
           [Field("span", a.name), Field("span_id", a.id), Field("span_path", a.path),
            Duration("duration", nanos), Flag("ok", o.error.None?)]
           + (if a.parentId != "" then [Field("parent_span_id", a.parentId)] else [])
           + (if o.error.Some? then [Field("error", o.error.value)] else [])
           + a.fields)
  }

  const INFO := 9
  const ERROR := 17

  class Span {
    const about: About
    var level: int
    var error: Option<string>
    var ended: bool

    constructor (about: About)
      ensures this.about == about && level == 9 && error == None && !ended
    {
      this.about := about;
      level, error, ended := INFO, None, false;
    }

    ghost function Now(): Outcome
      reads this
    {
      Outcome(level, error)
    }

    /** Emits the completion record, once; the fields are appended step by step. */
    method End(nanos: int) returns (out: Option<Record>)
      modifies `ended
      ensures ended
      ensures out == if old(ended) then None else Some(Completion(about, Now(), nanos))
    {
      if ended { return None; }
      ended := true;
      var fields := [Field("span", about.name), Field("span_id", about.id), Field("span_path", about.path),
                     Duration("duration", nanos), Flag("ok", error == None)];
      assert fields + [] == fields;
      if about.parentId != "" { fields := fields + [Field("parent_span_id", about.parentId)]; }
      assert fields + [] == fields;
      if error.Some? { fields := fields + [Field("error", error.value)]; }
      fields := fields + about.fields;
      out := Some(Record(level, fields));
    }

    method Do(op: Op) returns (out: Option<Record>)
      modifies this
      ensures ended == (old(ended) || op.End?)
      ensures Now() == After(old(Now()), op)
      ensures out == if op.End? && !old(ended) then Some(Completion(about, Now(), op.nanos)) else None
    {
      out := None;
      match op {
        case Fail(e) => error, level := Some(e), ERROR;
        case SetLevel(l) => level := l;
        case End(nanos) => out := End(nanos);
      }
    }
  }

  function After(o: Outcome, op: Op): Outcome {
    match op
    case Fail(e) => Outcome(ERROR, Some(e))
    case SetLevel(l) => o.(level := l)
    case End(_) => o
  }

  /** The record of the first End; what follows it does not matter. */
  function FirstEnd(a: About, ops: seq<Op>, o: Outcome): seq<Record> {
    if ops == [] then []
    else if ops[0].End? then [Completion(a, o, ops[0].nanos)]
    else FirstEnd(a, ops[1..], After(o, ops[0]))
  }

  /** What a span has come to after these calls. */
  function AfterAll(o: Outcome, ops: seq<Op>): Outcome {
    if ops == [] then o else After(AfterAll(o, ops[..|ops| - 1]), ops[|ops| - 1])
  }

  predicate NoFail(ops: seq<Op>) {
    forall i :: 0 <= i < |ops| ==> !ops[i].Fail?
  }

  /** Without a Fail the error stays what it was. */
  lemma {:induction false} NoFailKeeps(o: Outcome, ops: seq<Op>)
    requires NoFail(ops)
    ensures AfterAll(o, ops).error == o.error
  {
    if ops != [] { NoFailKeeps(o, ops[..|ops| - 1]); }
  }

  lemma {:induction false} AfterAppend(o: Outcome, a: seq<Op>, b: seq<Op>)
    ensures AfterAll(o, a + b) == AfterAll(AfterAll(o, a), b)
    decreases |b|
  {
    if b == [] {
      assert a + b == a;
    } else {
      var n := |b| - 1;
      assert (a + b)[..|a + b| - 1] == a + b[..n];
      AfterAppend(o, a, b[..n]);
    }
  }

  /** The last Fail decides the error. */
  lemma LastFailDecides(o: Outcome, pre: seq<Op>, e: string, post: seq<Op>)
    requires NoFail(post)
    ensures AfterAll(o, pre + [Fail(e)] + post).error == Some(e)
  {
    AfterAppend(o, pre + [Fail(e)], post);
    AfterAppend(o, pre, [Fail(e)]);
    assert AfterAll(AfterAll(o, pre), [Fail(e)]) == Outcome(ERROR, Some(e)) by { assert [Fail(e)][..0] == []; }
    NoFailKeeps(Outcome(ERROR, Some(e)), post);
  }

  /** The last Fail or SetLevel decides the level, a Fail setting that of errors. */
  lemma LastCallDecides(o: Outcome, pre: seq<Op>, last: Op)
    requires !last.End?
    ensures AfterAll(o, pre + [last]).level == if last.Fail? then 17 else last.l
  {
    assert (pre + [last])[..|pre|] == pre;
  }

  /** The first field with this key. */
  function Lookup(fields: seq<Field>, key: string): Option<Field> {
    if fields == [] then None
    else if !fields[0].Given? && fields[0].key == key then Some(fields[0])
    else Lookup(fields[1..], key)
  }

  lemma {:induction false} LookupAt(fields: seq<Field>, k: nat, key: string)
    requires k < |fields| && !fields[k].Given? && fields[k].key == key
    requires forall j :: 0 <= j < k ==> fields[j].Given? || fields[j].key != key
    ensures Lookup(fields, key) == Some(fields[k])
    decreases k
  {
    if k > 0 { LookupAt(fields[1..], k - 1, key); }
  }

  /** Who a span is and how long it took, as a reader of its completion record finds it. */
  lemma CompletionNames(a: About, o: Outcome, nanos: int)
    ensures var rec := Completion(a, o, nanos);
            && rec.level == o.level
            && Lookup(rec.fields, "span") == Some(Field("span", a.name))
            && Lookup(rec.fields, "span_id") == Some(Field("span_id", a.id))
            && Lookup(rec.fields, "span_path") == Some(Field("span_path", a.path))
            && Lookup(rec.fields, "duration") == Some(Duration("duration", nanos))
            && (a.parentId != "" ==> Lookup(rec.fields, "parent_span_id") == Some(Field("parent_span_id", a.parentId)))
            && var own := 5 + (if a.parentId == "" then 0 else 1) + (if o.error.None? then 0 else 1);
               |rec.fields| == own + |a.fields| && rec.fields[own..] == a.fields
  {
    var fs := Completion(a, o, nanos).fields;
    LookupAt(fs, 0, "span");
    LookupAt(fs, 1, "span_id");
    LookupAt(fs, 2, "span_path");
    LookupAt(fs, 3, "duration");
    if a.parentId != "" { LookupAt(fs, 5, "parent_span_id"); }
  }

  lemma CompletionOutcome(a: About, o: Outcome, nanos: int)
    ensures var rec := Completion(a, o, nanos);
            && Lookup(rec.fields, "ok") == Some(Flag("ok", o.error == None))
            && (o.error.Some? ==> Lookup(rec.fields, "error") == Some(Field("error", o.error.value)))
  {
    var fs := Completion(a, o, nanos).fields;
    LookupAt(fs, 4, "ok");
    if o.error.Some? { LookupAt(fs, if a.parentId != "" then 6 else 5, "error"); }
  }

  /** A span that never failed says ok. */
  lemma OkSpan(a: About, ops: seq<Op>, nanos: int)
    requires NoFail(ops)
    ensures Lookup(Completion(a, AfterAll(Outcome(INFO, None), ops), nanos).fields, "ok") == Some(Flag("ok", true))
  {
    NoFailKeeps(Outcome(INFO, None), ops);
    CompletionOutcome(a, AfterAll(Outcome(INFO, None), ops), nanos);
  }

  /** One that did says so, with its last error. */
  lemma FailedSpan(a: About, pre: seq<Op>, e: string, post: seq<Op>, nanos: int)
    requires NoFail(post)
    ensures var fs := Completion(a, AfterAll(Outcome(INFO, None), pre + [Fail(e)] + post), nanos).fields;
            Lookup(fs, "ok") == Some(Flag("ok", false)) && Lookup(fs, "error") == Some(Field("error", e))
  {
    LastFailDecides(Outcome(INFO, None), pre, e, post);
    CompletionOutcome(a, AfterAll(Outcome(INFO, None), pre + [Fail(e)] + post), nanos);
  }

  /** The fields that records made under a span inherit name it in the same way. */
  lemma BoundNames(name: string, id: string, path: string, fields: seq<Field>, parentId: string)
    ensures var fs := Bound(name, id, path, fields, parentId);
            && Lookup(fs, "span") == Some(Field("span", name))
            && Lookup(fs, "span_id") == Some(Field("span_id", id))
            && Lookup(fs, "span_path") == Some(Field("span_path", path))
            && |fs| == 3 + |fields| + (if parentId == "" then 0 else 1) && fs[3..3 + |fields|] == fields
            && (parentId != "" ==> fs[|fs| - 1] == Field("parent_span_id", parentId))
  {
    var fs := Bound(name, id, path, fields, parentId);
    LookupAt(fs, 0, "span");
    LookupAt(fs, 1, "span_id");
    LookupAt(fs, 2, "span_path");
  }

  /** The first End, after calls that are not, emits the outcome of those. */
  lemma {:induction false} FirstEndIs(a: About, before: seq<Op>, nanos: int, after: seq<Op>, o: Outcome)
    requires forall i :: 0 <= i < |before| ==> !before[i].End?
    ensures FirstEnd(a, before + [End(nanos)] + after, o) == [Completion(a, AfterAll(o, before), nanos)]
    decreases |before|
  {
    var all := before + [End(nanos)] + after;
    if before == [] {
      assert all[0] == End(nanos);
    } else {
      assert all[0] == before[0] && all[1..] == before[1..] + [End(nanos)] + after;
      FirstEndIs(a, before[1..], nanos, after, After(o, before[0]));
      AfterFront(o, before);
    }
  }

  lemma {:induction false} AfterFront(o: Outcome, ops: seq<Op>)
    requires ops != []
    ensures AfterAll(After(o, ops[0]), ops[1..]) == AfterAll(o, ops)
    decreases |ops|
  {
    var n := |ops| - 1;
    if n == 0 {
      assert ops[..0] == [] && ops[1..] == [];
    } else {
      AfterFront(o, ops[..n]);
      assert ops[..n][1..] == ops[1..][..n - 1] && ops[1..][n - 1] == ops[n];
    }
  }

  /** Whatever is called on a span, in whatever order, it emits the first End's record only. */
  method OneOutcome(s: Span, ops: seq<Op>) returns (out: seq<Record>)
    modifies s
    ensures out == if old(s.ended) then [] else FirstEnd(s.about, ops, old(s.Now()))
    decreases |ops|
  {
    out := [];
    if ops == [] { return; }
    var first := s.Do(ops[0]);
    out := OneOutcome(s, ops[1..]);
    if first.Some? { out := [first.value] + out; }
  }
}
