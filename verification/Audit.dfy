/** The hash-chained audit log: the sink that writes it and the verifier that walks it.
    The hash is a parameter; nothing is assumed of it but that a digest is 64
    characters without blank or line break. */
module Audit {
  import opened Common
  import opened Decimal
  import opened Words

  type Hash = string -> string

  /** The chain's anchor: 64 zeros. */
  const GENESIS: string := Zeros(64)

  function Zeros(n: nat): (s: string)
    ensures |s| == n && forall i :: 0 <= i < n ==> s[i] == '0'
  {
    if n == 0 then "" else "0" + Zeros(n - 1)
  }

  /** The scanner's limit on a line, its newline included. */
  const MAX_LINE: nat := 8 * 1024 * 1024

  predicate Plain(s: string) {
    ' ' !in s && '\n' !in s && '\r' !in s
  }

  ghost predicate IsDigest(h: Hash) {
    forall s :: |h(s)| == 64 && Plain(h(s))
  }

  // ----- lines -----

  /** Cuts at the first blank. */
  function Cut(s: string): (r: Option<(string, string)>)
    ensures r.Some? ==> s == r.value.0 + " " + r.value.1 && ' ' !in r.value.0
    ensures r.None? ==> ' ' !in s
  {
    if s == "" then None
    else if s[0] == ' ' then Some(("", s[1..]))
    else
      match Cut(s[1..])
      case None => None
      case Some((a, b)) => Some(([s[0]] + a, b))
  }

  lemma {:induction false} CutFirst(a: string, b: string)
    requires ' ' !in a
    ensures Cut(a + " " + b) == Some((a, b))
  {
    var s := a + " " + b;
    if a == "" {
      assert s[1..] == b;
    } else {
      CutFirst(a[1..], b);
      assert s[1..] == a[1..] + " " + b;
      assert [a[0]] + a[1..] == a;
    }
  }

  datatype Entry = Entry(digest: string, prev: string, num: string, canonical: string)

  /** Splits a line at its first three blanks. */
  function Split(line: string): Option<Entry> {
    match Cut(line)
    case None => None
    case Some((digest, r1)) =>
      match Cut(r1)
      case None => None
      case Some((prev, r2)) =>
        match Cut(r2)
        case None => None
        case Some((num, canonical)) => Some(Entry(digest, prev, num, canonical))
  }

  /** A 64-bit unsigned decimal; leading zeros are accepted. */
  function ParseUint(s: string): Option<nat> {
    if s != "" && AllDigits(s) && Value(s) < TWO64 then Some(Value(s)) else None
  }

  function Line(h: Hash, prev: string, n: nat, canonical: string): string {
    h(prev + canonical) + " " + prev + " " + Dec(n) + " " + canonical
  }

  // ----- the scanner -----

  /** The length of the first line: up to the first newline, or everything. */
  function LineEnd(s: string): (k: nat)
    ensures k <= |s| && '\n' !in s[..k] && (k < |s| ==> s[k] == '\n')
  {
    if s == "" || s[0] == '\n' then 0
    else
      var k := 1 + LineEnd(s[1..]);
      assert s[..k] == [s[0]] + s[1..][..k - 1];
      k
  }

  function DropCR(s: string): string {
    if s != "" && s[|s| - 1] == '\r' then s[..|s| - 1] else s
  }

  /** What follows the first line. */
  function Rest(s: string): (r: string)
    ensures s != "" ==> |r| < |s|
  {
    var k := LineEnd(s);
    if k < |s| then s[k + 1..] else ""
  }

  /** The lines the scanner yields, and whether it then stops on a line too long. */
  function Scan(s: string): (r: (seq<string>, bool))
    decreases |s|
  {
    if s == "" then ([], false)
    else if LineEnd(s) >= MAX_LINE then ([], true)
    else
      var (lines, tooLong) := Scan(Rest(s));
      ([DropCR(s[..LineEnd(s)])] + lines, tooLong)
  }

  // ----- what intact means -----

  datatype Reason = Fine | Malformed | NotContiguous | PrevMismatch | HashMismatch | ReadError

  /** The first thing wrong with the line that should be number n after digest prev. */
  function Check(h: Hash, line: string, n: nat, prev: string): Reason {
    match Split(line)
    case None => Malformed
    case Some(e) =>
      if ParseUint(e.num) != Some(n) then NotContiguous
      else if e.prev != prev then PrevMismatch
      else if h(prev + e.canonical) != e.digest then HashMismatch
      else Fine
  }

  /** The digest line i has to continue from. */
  ghost function PrevOf(lines: seq<string>, i: nat): string
    requires i <= |lines|
  {
    if i == 0 then GENESIS
    else match Split(lines[i - 1])
      case Some(e) => e.digest
      case None => ""
  }

  /** Line i is well formed, numbered by its position, linked to the line before, and
      carries the digest of that link and its own record. */
  ghost predicate Linked(h: Hash, lines: seq<string>, i: nat)
    requires i < |lines|
  {
    Check(h, lines[i], i, PrevOf(lines, i)) == Fine
  }

  /** The first n lines are an intact chain. */
  ghost predicate IntactTo(h: Hash, lines: seq<string>, n: nat)
    requires n <= |lines|
  {
    forall i: nat :: i < n ==> Linked(h, lines, i)
  }

  ghost predicate Intact(h: Hash, lines: seq<string>) {
    IntactTo(h, lines, |lines|)
  }

  datatype Result = Result(records: nat, ok: bool, brokenAtSeq: int, reason: Reason)

  /** What the verifier has to answer: acceptance of exactly the intact streams, and
      otherwise the length of the longest intact prefix and what is wrong after it. */
  ghost predicate Exact(h: Hash, lines: seq<string>, tooLong: bool, res: Result) {
    && (res.ok <==> Intact(h, lines) && !tooLong)
    && (res.ok ==> res == Result(|lines|, true, -1, Fine))
    && (!res.ok ==>
          && res.records <= |lines| && res.brokenAtSeq == res.records
          && IntactTo(h, lines, res.records)
          && (forall j: nat :: res.records < j <= |lines| ==> !IntactTo(h, lines, j))
          && res.reason == if res.records == |lines| then ReadError
                           else Check(h, lines[res.records], res.records, PrevOf(lines, res.records)))
  }

  method VerifyAudit(h: Hash, text: string) returns (res: Result)
    requires |text| < TWO63
    ensures Exact(h, Scan(text).0, Scan(text).1, res)
  {
    ghost var lines, tooLong := Scan(text).0, Scan(text).1;
    var prev := GENESIS;
    var n := 0;
    var rest := text;
    while rest != "" && LineEnd(rest) < MAX_LINE
      invariant n <= |lines| && n + |rest| <= |text|
      invariant Scan(rest) == (lines[n..], tooLong)
      invariant IntactTo(h, lines, n) && prev == PrevOf(lines, n)
      decreases |rest|
    {
      ScanNext(rest, lines, n, tooLong);
      var line := DropCR(rest[..LineEnd(rest)]);
      var verdict := Check(h, line, n, prev);
      if verdict != Fine {
        BrokenAt(h, lines, n, tooLong);
        return Result(n, false, n, verdict);
      }
      FineSplits(h, line, n, prev);
      OneMore(h, lines, n);
      prev := Split(line).value.digest;
      rest := Rest(rest);
      n := n + 1;
    }
    AtEnd(h, lines, n, tooLong, rest);
    if rest != "" {
      return Result(n, false, n, ReadError);
    }
    res := Result(n, true, -1, Fine);
  }

  lemma ScanNext(rest: string, lines: seq<string>, n: nat, tooLong: bool)
    requires rest != "" && LineEnd(rest) < MAX_LINE
    requires n <= |lines| && Scan(rest) == (lines[n..], tooLong)
    ensures n < |lines| && lines[n] == DropCR(rest[..LineEnd(rest)])
    ensures Scan(Rest(rest)) == (lines[n + 1..], tooLong)
    ensures |Rest(rest)| < |rest|
  {
    var line := DropCR(rest[..LineEnd(rest)]);
    assert lines[n..] == [line] + Scan(Rest(rest)).0;
    assert lines[n] == lines[n..][0];
    assert lines[n + 1..] == lines[n..][1..];
  }

  lemma ScanStops(rest: string, lines: seq<string>, n: nat, tooLong: bool)
    requires rest == "" || LineEnd(rest) >= MAX_LINE
    requires n <= |lines| && Scan(rest) == (lines[n..], tooLong)
    ensures n == |lines| && (tooLong <==> rest != "")
  {
    assert lines[n..] == [];
  }

  lemma AtEnd(h: Hash, lines: seq<string>, n: nat, tooLong: bool, rest: string)
    requires rest == "" || LineEnd(rest) >= MAX_LINE
    requires n <= |lines| && Scan(rest) == (lines[n..], tooLong) && IntactTo(h, lines, n)
    ensures Exact(h, lines, tooLong, if rest != "" then Result(n, false, n, ReadError) else Result(n, true, -1, Fine))
  {
    ScanStops(rest, lines, n, tooLong);
  }

  lemma FineSplits(h: Hash, line: string, n: nat, prev: string)
    requires Check(h, line, n, prev) == Fine
    ensures Split(line).Some?
  {
  }

  lemma OneMore(h: Hash, lines: seq<string>, n: nat)
    requires n < |lines| && IntactTo(h, lines, n) && Linked(h, lines, n)
    ensures IntactTo(h, lines, n + 1)
  {
  }

  lemma BrokenAt(h: Hash, lines: seq<string>, n: nat, tooLong: bool)
    requires n < |lines| && IntactTo(h, lines, n) && Check(h, lines[n], n, PrevOf(lines, n)) != Fine
    ensures Exact(h, lines, tooLong, Result(n, false, n, Check(h, lines[n], n, PrevOf(lines, n))))
  {
    assert !Linked(h, lines, n);
  }
}
