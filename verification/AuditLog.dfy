/** The audit sink, and what its logs and the verifier promise each other. */
module AuditLog {
  import opened Common
  import opened Decimal
  import opened Words
  import opened Audit

  /** Strips trailing newlines. */
  function Trim(s: string): string {
    if s != "" && s[|s| - 1] == '\n' then Trim(s[..|s| - 1]) else s
  }

  /** What is left has no newline at its end, and what is taken off is only newlines. */
  lemma {:induction false} TrimIs(s: string)
    ensures Trim(s) <= s && (Trim(s) == "" || Trim(s)[|Trim(s)| - 1] != '\n')
    ensures forall i :: |Trim(s)| <= i < |s| ==> s[i] == '\n'
  {
    if s != "" && s[|s| - 1] == '\n' { TrimIs(s[..|s| - 1]); }
  }

  /** One call of Emit: the trimmed record, and whether the write succeeded. */
  datatype Rec = Rec(canonical: string, written: bool)

  /** What one Emit leaves in the file. */
  function Written(h: Hash, prev: string, n: nat, r: Rec): string {
    if r.written then Line(h, prev, n, r.canonical) + "\n" else ""
  }

  /** What a run of Emits from digest prev and number n leaves in the file. */
  function Text(h: Hash, recs: seq<Rec>, prev: string, n: nat): string {
    if recs == [] then ""
    else Written(h, prev, n, recs[0]) + Text(h, recs[1..], h(prev + recs[0].canonical), n + 1)
  }

  /** The digest after a run of Emits. It advances whether or not the write worked. */
  function LastDigest(h: Hash, recs: seq<Rec>, prev: string): string {
    if recs == [] then prev else LastDigest(h, recs[1..], h(prev + recs[0].canonical))
  }

  lemma {:induction false} DigestSnoc(h: Hash, recs: seq<Rec>, prev: string, r: Rec)
    ensures LastDigest(h, recs + [r], prev) == h(LastDigest(h, recs, prev) + r.canonical)
    decreases |recs|
  {
    var all := recs + [r];
    if recs == [] {
      assert all[1..] == [];
    } else {
      assert all[1..] == recs[1..] + [r];
      DigestSnoc(h, recs[1..], h(prev + recs[0].canonical), r);
    }
  }

  lemma {:induction false} TextSnoc(h: Hash, recs: seq<Rec>, prev: string, n: nat, r: Rec)
    ensures Text(h, recs + [r], prev, n)
         == Text(h, recs, prev, n) + Written(h, LastDigest(h, recs, prev), n + |recs|, r)
    decreases |recs|
  {
    if recs == [] {
      TextOfOne(h, recs, prev, n, r);
    } else {
      TextSnoc(h, recs[1..], h(prev + recs[0].canonical), n + 1, r);
      TextOfMore(h, recs, prev, n, r, Written(h, LastDigest(h, recs, prev), n + |recs|, r));
    }
  }

  lemma TextOfOne(h: Hash, recs: seq<Rec>, prev: string, n: nat, r: Rec)
    requires recs == []
    ensures Text(h, recs + [r], prev, n)
         == Text(h, recs, prev, n) + Written(h, LastDigest(h, recs, prev), n + |recs|, r)
  {
    var all, w := recs + [r], Written(h, prev, n, r);
    assert all[0] == r && all[1..] == [];
    assert w + "" == w == "" + w;
  }

  lemma TextOfMore(h: Hash, recs: seq<Rec>, prev: string, n: nat, r: Rec, w: string)
    requires recs != []
    requires var next := h(prev + recs[0].canonical);
             Text(h, recs[1..] + [r], next, n + 1) == Text(h, recs[1..], next, n + 1) + w
    ensures Text(h, recs + [r], prev, n) == Text(h, recs, prev, n) + w
  {
    var all := recs + [r];
    assert all[0] == recs[0] && all[1..] == recs[1..] + [r];
    Associate(Written(h, prev, n, recs[0]), Text(h, recs[1..], h(prev + recs[0].canonical), n + 1), w);
  }

  lemma Associate(a: string, b: string, c: string)
    ensures (a + b) + c == a + (b + c)
  {
  }

  class AuditSink {
    const h: Hash
    var out: string
    var prev: string
    var num: nat
    ghost var recs: seq<Rec>

    ghost predicate Valid()
      reads this
    {
      out == Text(h, recs, GENESIS, 0) && prev == LastDigest(h, recs, GENESIS) && num == |recs|
    }

    constructor (h: Hash)
      ensures Valid() && recs == [] && this.h == h
    {
      this.h := h;
      out, prev, num, recs := "", GENESIS, 0, [];
    }

    /** Appends the record to the chain; `works` is the outcome of the write. */
    method Emit(encoded: string, works: bool) returns (failed: bool)
      requires Valid()
      modifies this
      ensures Valid() && recs == old(recs) + [Rec(Trim(encoded), works)] && failed == !works
    {
      var canonical := encoded;
      while |canonical| > 0 && canonical[|canonical| - 1] == '\n'
        invariant Trim(canonical) == Trim(encoded)
        decreases |canonical|
      {
        canonical := canonical[..|canonical| - 1];
      }
      var sum := h(prev + canonical);
      if works {
        out := out + (sum + " " + prev + " " + Dec(num) + " " + canonical + "\n");
      }
      TextSnoc(h, recs, GENESIS, 0, Rec(canonical, works));
      DigestSnoc(h, recs, GENESIS, Rec(canonical, works));
      prev := sum;
      num := num + 1;
      recs := recs + [Rec(canonical, works)];
      failed := !works;
    }
  }

  // ----- chains from any point -----

  function DigestOf(line: string): string {
    match Split(line)
    case Some(e) => e.digest
    case None => ""
  }

  ghost predicate Chained(h: Hash, lines: seq<string>, prev: string, n: nat) {
    lines == [] || (Check(h, lines[0], n, prev) == Fine && Chained(h, lines[1..], DigestOf(lines[0]), n + 1))
  }

  /** Walking the chain line by line is the same as every line being linked. */
  lemma {:induction false} ChainedIsLinked(h: Hash, all: seq<string>, n: nat)
    requires n <= |all|
    ensures Chained(h, all[n..], PrevOf(all, n), n) <==> forall i: nat :: n <= i < |all| ==> Linked(h, all, i)
    decreases |all| - n
  {
    if n < |all| {
      var rest := all[n..];
      assert rest[0] == all[n] && rest[1..] == all[n + 1..];
      ChainedIsLinked(h, all, n + 1);
      ChainedStep(h, all, n);
    }
  }

  lemma ChainedStep(h: Hash, all: seq<string>, n: nat)
    requires n < |all|
    ensures Chained(h, all[n..], PrevOf(all, n), n)
       <==> Linked(h, all, n) && Chained(h, all[n + 1..], PrevOf(all, n + 1), n + 1)
  {
    var rest := all[n..];
    assert rest[0] == all[n] && rest[1..] == all[n + 1..];
    assert PrevOf(all, n + 1) == DigestOf(all[n]);
  }

  /** The verifier's verdict on a text, from digest prev and number n. */
  ghost predicate AcceptedFrom(h: Hash, text: string, prev: string, n: nat) {
    !Scan(text).1 && Chained(h, Scan(text).0, prev, n)
  }

  ghost predicate Accepted(h: Hash, text: string) {
    Intact(h, Scan(text).0) && !Scan(text).1
  }

  lemma AcceptedIsFromStart(h: Hash, text: string)
    ensures Accepted(h, text) <==> AcceptedFrom(h, text, GENESIS, 0)
  {
    var lines := Scan(text).0;
    assert lines[0..] == lines;
    ChainedIsLinked(h, lines, 0);
  }

  // ----- one record -----

  /** What the scanner makes of a record that may contain line breaks. */
  function FirstLine(c: string): string {
    DropCR(c[..LineEnd(c)])
  }

  lemma {:induction false} LineEndSkips(a: string, b: string)
    requires '\n' !in a
    ensures LineEnd(a + b) == |a| + LineEnd(b)
  {
    if a == "" {
      assert a + b == b;
    } else {
      assert (a + b)[1..] == a[1..] + b;
      LineEndSkips(a[1..], b);
    }
  }

  lemma {:induction false} LineEndWithin(c: string, rest: string)
    ensures LineEnd(c + "\n" + rest) == LineEnd(c)
  {
    var s := c + "\n" + rest;
    if c != "" && c[0] != '\n' {
      assert s[1..] == c[1..] + "\n" + rest;
      LineEndWithin(c[1..], rest);
    }
  }

  /** A record reaches the verifier unchanged exactly when it has no newline and does
      not end in a carriage return. */
  lemma UnbrokenIff(c: string)
    ensures FirstLine(c) == c <==> '\n' !in c && (c == "" || c[|c| - 1] != '\r')
  {
    var k := LineEnd(c);
    if k == |c| {
      assert c[..k] == c;
    }
  }

  function Header(h: Hash, prev: string, n: nat, c: string): string {
    h(prev + c) + " " + prev + " " + Dec(n) + " "
  }

  /** The first line the scanner sees of a written record, and what remains. */
  lemma ScanRecord(h: Hash, prev: string, n: nat, c: string, rest: string)
    requires IsDigest(h) && Plain(prev)
    ensures var text := Line(h, prev, n, c) + "\n" + rest;
            && text != ""
            && LineEnd(text) == |Header(h, prev, n, c)| + LineEnd(c)
            && DropCR(text[..LineEnd(text)]) == Header(h, prev, n, c) + FirstLine(c)
            && (FirstLine(c) == c ==> LineEnd(text) == |Line(h, prev, n, c)| && Rest(text) == rest)
  {
    var text, head := Line(h, prev, n, c) + "\n" + rest, Header(h, prev, n, c);
    var tail := c + "\n" + rest;
    assert text == head + tail;
    assert '\n' !in head by { assert AllDigits(Dec(n)); }
    LineEndSkips(head, tail);
    LineEndWithin(c, rest);
    var k := LineEnd(c);
    assert text[..LineEnd(text)] == head + c[..k];
    DropCRAfterBlank(head, c[..k]);
    if FirstLine(c) == c {
      assert k == |c|;
      assert text[|head| + |c| + 1..] == rest;
    }
  }

  lemma DropCRAfterBlank(head: string, c: string)
    requires head != "" && head[|head| - 1] == ' '
    ensures DropCR(head + c) == head + DropCR(c)
  {
    if c == "" { assert head + c == head; }
  }

  lemma CheckRecord(h: Hash, prev: string, n: nat, c: string, m: nat, prev': string)
    requires IsDigest(h) && Plain(prev) && n < TWO64
    ensures Split(Header(h, prev, n, c) + FirstLine(c)) == Some(Entry(h(prev + c), prev, Dec(n), FirstLine(c)))
    ensures Check(h, Header(h, prev, n, c) + FirstLine(c), m, prev') == Fine
            <==> m == n && prev' == prev && h(prev + FirstLine(c)) == h(prev + c)
  {
    var d, p := h(prev + c), FirstLine(c);
    var r2 := Dec(n) + " " + p;
    var r1 := prev + " " + r2;
    assert Header(h, prev, n, c) + p == d + " " + r1;
    assert ' ' !in Dec(n) by { assert AllDigits(Dec(n)); }
    CutFirst(d, r1);
    CutFirst(prev, r2);
    CutFirst(Dec(n), p);
    ValueOfDec(n);
  }

  // ----- whole logs -----

  ghost predicate NoneWritten(recs: seq<Rec>) {
    forall i :: 0 <= i < |recs| ==> !recs[i].written
  }

  /** The writes that failed, if any, are the last ones, and every written record is one
      line that fits the scanner. */
  ghost predicate SoundRun(h: Hash, recs: seq<Rec>, prev: string, n: nat) {
    recs == [] ||
    var c := recs[0].canonical;
    if recs[0].written then
      FirstLine(c) == c && |Line(h, prev, n, c)| < MAX_LINE && SoundRun(h, recs[1..], h(prev + c), n + 1)
    else NoneWritten(recs)
  }

  /** Some record and its own first line, hashed after the same digest, collide. */
  ghost predicate Confused(h: Hash, recs: seq<Rec>, prev: string) {
    recs != [] &&
    var c := recs[0].canonical;
    || (FirstLine(c) != c && h(prev + FirstLine(c)) == h(prev + c))
    || Confused(h, recs[1..], h(prev + c))
  }

  function CountWritten(recs: seq<Rec>): nat {
    if recs == [] then 0 else (if recs[0].written then 1 else 0) + CountWritten(recs[1..])
  }

  lemma {:induction false} NothingWritten(h: Hash, recs: seq<Rec>, prev: string, n: nat)
    requires NoneWritten(recs)
    ensures Text(h, recs, prev, n) == "" && CountWritten(recs) == 0
  {
    if recs != [] { NothingWritten(h, recs[1..], h(prev + recs[0].canonical), n + 1); }
  }

  lemma FirstOfText(h: Hash, recs: seq<Rec>, prev: string, n: nat)
    requires IsDigest(h) && Plain(prev) && recs != [] && recs[0].written
    ensures var text, c := Text(h, recs, prev, n), recs[0].canonical;
            && text != "" && LineEnd(text) == |Header(h, prev, n, c)| + LineEnd(c)
            && (LineEnd(text) < MAX_LINE ==>
                  Scan(text) == ([Header(h, prev, n, c) + FirstLine(c)] + Scan(Rest(text)).0, Scan(Rest(text)).1))
            && (FirstLine(c) == c ==>
                  LineEnd(text) == |Line(h, prev, n, c)| && Rest(text) == Text(h, recs[1..], h(prev + c), n + 1))
  {
    ScanRecord(h, prev, n, recs[0].canonical, Text(h, recs[1..], h(prev + recs[0].canonical), n + 1));
  }

  /** A log whose writes failed only at the end, of records that are single lines, is
      accepted with the number of records written. */
  lemma {:induction false} SoundIsAccepted(h: Hash, recs: seq<Rec>, prev: string, n: nat)
    requires IsDigest(h) && Plain(prev) && n + |recs| <= TWO64 && SoundRun(h, recs, prev, n)
    ensures AcceptedFrom(h, Text(h, recs, prev, n), prev, n)
    ensures |Scan(Text(h, recs, prev, n)).0| == CountWritten(recs)
  {
    if recs != [] {
      var c, text := recs[0].canonical, Text(h, recs, prev, n);
      if recs[0].written {
        FirstOfText(h, recs, prev, n);
        SoundIsAccepted(h, recs[1..], h(prev + c), n + 1);
        CheckRecord(h, prev, n, c, n, prev);
        var first, more := Header(h, prev, n, c) + FirstLine(c), Scan(Rest(text)).0;
        assert Scan(text).0 == [first] + more;
        assert Scan(text).0[1..] == more;
        assert DigestOf(first) == h(prev + c);
      } else {
        NothingWritten(h, recs, prev, n);
      }
    }
  }

  /** Accepting a text that starts with a written record is accepting its first line
      and then the rest. */
  lemma AcceptedStep(h: Hash, recs: seq<Rec>, prev: string, n: nat, prev': string, m: nat)
    requires IsDigest(h) && Plain(prev) && n < TWO64 && recs != [] && recs[0].written
    requires AcceptedFrom(h, Text(h, recs, prev, n), prev', m)
    ensures var text, c := Text(h, recs, prev, n), recs[0].canonical;
            && LineEnd(text) < MAX_LINE
            && m == n && prev' == prev && h(prev + FirstLine(c)) == h(prev + c)
            && AcceptedFrom(h, Rest(text), h(prev + c), m + 1)
  {
    var c, text := recs[0].canonical, Text(h, recs, prev, n);
    FirstOfText(h, recs, prev, n);
    CheckRecord(h, prev, n, c, m, prev');
    var first, more := Header(h, prev, n, c) + FirstLine(c), Scan(Rest(text)).0;
    assert LineEnd(text) < MAX_LINE;
    assert Scan(text).0 == [first] + more;
    assert Scan(text).0[0] == first && Scan(text).0[1..] == more;
    assert DigestOf(first) == h(prev + c);
  }

  lemma UnwrittenLeavesNothing(h: Hash, recs: seq<Rec>, prev: string, n: nat)
    requires recs != [] && !recs[0].written
    ensures Text(h, recs, prev, n) == Text(h, recs[1..], h(prev + recs[0].canonical), n + 1)
  {
  }

  /** After a gap in the numbers, anything written is rejected. */
  lemma {:induction false} GapIsRejected(h: Hash, recs: seq<Rec>, prev: string, n: nat, text: string, m: nat, prev': string)
    requires IsDigest(h) && Plain(prev) && n + |recs| <= TWO64 && m < n
    requires text == Text(h, recs, prev, n) && AcceptedFrom(h, text, prev', m)
    ensures NoneWritten(recs)
    decreases |recs|
  {
    if recs != [] {
      if recs[0].written {
        AcceptedStep(h, recs, prev, n, prev', m);
      } else {
        var next := h(prev + recs[0].canonical);
        UnwrittenLeavesNothing(h, recs, prev, n);
        GapIsRejected(h, recs[1..], next, n + 1, text, m, prev');
        NoneWrittenCons(recs);
      }
    }
  }

  lemma NoneWrittenCons(recs: seq<Rec>)
    requires recs != [] && !recs[0].written && NoneWritten(recs[1..])
    ensures NoneWritten(recs)
  {
  }

  lemma UnwrittenIsSound(h: Hash, recs: seq<Rec>, prev: string, n: nat, text: string)
    requires IsDigest(h) && Plain(prev) && n + |recs| <= TWO64 && recs != [] && !recs[0].written
    requires text == Text(h, recs, prev, n) && AcceptedFrom(h, text, prev, n)
    ensures SoundRun(h, recs, prev, n)
  {
    UnwrittenLeavesNothing(h, recs, prev, n);
    GapIsRejected(h, recs[1..], h(prev + recs[0].canonical), n + 1, text, n, prev);
    NoneWrittenCons(recs);
  }

  lemma WrittenIsSound(h: Hash, recs: seq<Rec>, prev: string, n: nat)
    requires IsDigest(h) && Plain(prev) && n < TWO64 && recs != [] && recs[0].written
    requires AcceptedFrom(h, Text(h, recs, prev, n), prev, n)
    ensures var c := recs[0].canonical;
            if FirstLine(c) == c then
              |Line(h, prev, n, c)| < MAX_LINE
              && AcceptedFrom(h, Text(h, recs[1..], h(prev + c), n + 1), h(prev + c), n + 1)
            else h(prev + FirstLine(c)) == h(prev + c)
  {
    AcceptedStep(h, recs, prev, n, prev, n);
    FirstOfText(h, recs, prev, n);
  }

  ghost predicate Passes(h: Hash, recs: seq<Rec>, prev: string, n: nat) {
    Plain(prev) && n + |recs| <= TWO64 && AcceptedFrom(h, Text(h, recs, prev, n), prev, n)
  }

  ghost predicate Explained(h: Hash, recs: seq<Rec>, prev: string, n: nat) {
    SoundRun(h, recs, prev, n) || Confused(h, recs, prev)
  }

  /** A written record either collides with its own first line, or leaves an accepted
      rest whose explanation is the explanation of the whole. */
  lemma AfterWritten(h: Hash, recs: seq<Rec>, prev: string, n: nat, next: string) returns (whole: bool)
    requires IsDigest(h) && Passes(h, recs, prev, n) && recs != [] && recs[0].written
    requires next == h(prev + recs[0].canonical)
    ensures if whole then
              Passes(h, recs[1..], next, n + 1) && (Explained(h, recs[1..], next, n + 1) ==> Explained(h, recs, prev, n))
            else Explained(h, recs, prev, n)
  {
    WrittenIsSound(h, recs, prev, n);
    whole := FirstLine(recs[0].canonical) == recs[0].canonical;
  }

  lemma {:induction false} AcceptedIsSound(h: Hash, recs: seq<Rec>, prev: string, n: nat)
    requires IsDigest(h) && Passes(h, recs, prev, n)
    ensures Explained(h, recs, prev, n)
    decreases |recs|
  {
    if recs != [] {
      if recs[0].written {
        var next := h(prev + recs[0].canonical);
        var whole := AfterWritten(h, recs, prev, n, next);
        if whole { AcceptedIsSound(h, recs[1..], next, n + 1); }
      } else {
        UnwrittenIsSound(h, recs, prev, n, Text(h, recs, prev, n));
      }
    }
  }

  /** Writer and verifier agree: a log of any Emits is accepted exactly when the failed
      writes come last and every written record is a single line that fits, unless
      the hash confuses a record with its own first line. */
  lemma WriterAndVerifierAgree(h: Hash, recs: seq<Rec>)
    requires IsDigest(h) && |recs| <= TWO64
    ensures var text := Text(h, recs, GENESIS, 0);
            && (SoundRun(h, recs, GENESIS, 0) ==> Accepted(h, text) && |Scan(text).0| == CountWritten(recs))
            && (Accepted(h, text) ==> SoundRun(h, recs, GENESIS, 0) || Confused(h, recs, GENESIS))
  {
    var text := Text(h, recs, GENESIS, 0);
    AcceptedIsFromStart(h, text);
    if SoundRun(h, recs, GENESIS, 0) { SoundIsAccepted(h, recs, GENESIS, 0); }
    if Accepted(h, text) { AcceptedIsSound(h, recs, GENESIS, 0); }
  }

  // ----- tampering -----

  ghost function CanonicalOf(line: string): string {
    match Split(line)
    case Some(e) => e.canonical
    case None => ""
  }

  /** What line i's digest is computed from. */
  ghost function Hashed(lines: seq<string>, i: nat): string
    requires i < |lines|
  {
    PrevOf(lines, i) + CanonicalOf(lines[i])
  }

  ghost predicate SameAt(a: seq<string>, b: seq<string>, i: nat)
    requires i < |a| == |b|
  {
    CanonicalOf(a[i]) == CanonicalOf(b[i]) && PrevOf(a, i) == PrevOf(b, i)
  }

  ghost predicate CollideAt(h: Hash, a: seq<string>, b: seq<string>, i: nat)
    requires i < |a| == |b|
  {
    Hashed(a, i) != Hashed(b, i) && h(Hashed(a, i)) == h(Hashed(b, i))
  }

  ghost predicate SameTo(a: seq<string>, b: seq<string>, n: nat)
    requires n <= |a| == |b|
  {
    forall i: nat :: i < n ==> SameAt(a, b, i)
  }

  ghost predicate CollideBelow(h: Hash, a: seq<string>, b: seq<string>, n: nat)
    requires n <= |a| == |b|
  {
    exists i: nat :: i < n && CollideAt(h, a, b, i)
  }

  lemma LinkedDigest(h: Hash, lines: seq<string>, i: nat)
    requires IsDigest(h) && i < |lines| && Intact(h, lines)
    ensures PrevOf(lines, i + 1) == h(Hashed(lines, i)) && |PrevOf(lines, i)| == 64
  {
    assert Linked(h, lines, i);
    if i > 0 { assert Linked(h, lines, i - 1); }
  }

  lemma SameParts(p: string, c: string, q: string, d: string)
    requires |p| == |q| && p + c == q + d
    ensures p == q && c == d
  {
    assert (p + c)[..|p|] == p && (q + d)[..|q|] == q;
    assert (p + c)[|p|..] == c && (q + d)[|q|..] == d;
  }

  /** Equal digests come from equal inputs, or from a collision. */
  lemma SameLast(h: Hash, a: seq<string>, b: seq<string>, i: nat)
    requires IsDigest(h) && Intact(h, a) && Intact(h, b) && i < |a| == |b|
    requires PrevOf(a, i + 1) == PrevOf(b, i + 1)
    ensures SameAt(a, b, i) || CollideAt(h, a, b, i)
  {
    LinkedDigest(h, a, i);
    LinkedDigest(h, b, i);
    if Hashed(a, i) == Hashed(b, i) {
      SameParts(PrevOf(a, i), CanonicalOf(a[i]), PrevOf(b, i), CanonicalOf(b[i]));
    }
  }

  /** If agreement at i + 1 means being the same at i, and so agreement at i, or a collision
      at i, then agreement at the end means being the same throughout, or a collision. */
  lemma {:induction false} Backwards(agree: seq<bool>, same: seq<bool>, collide: seq<bool>, n: nat)
    requires n < |agree| && n <= |same| && n <= |collide| && agree[n]
    requires forall i :: 0 <= i < n && agree[i + 1] ==> (same[i] && agree[i]) || collide[i]
    ensures (forall i :: 0 <= i < n ==> same[i]) || exists i :: 0 <= i < n && collide[i]
  {
    if n > 0 && !collide[n - 1] {
      assert agree[(n - 1) + 1];
      Backwards(agree, same, collide, n - 1);
    }
  }

  /** Tamper evidence: two accepted logs of the same length that end in the same digest
      hold the same record at every position, or else exhibit two different inputs, at
      one position, with the same digest. */
  lemma TamperEvident(h: Hash, a: string, b: string)
    requires IsDigest(h) && Accepted(h, a) && Accepted(h, b)
    requires |Scan(a).0| == |Scan(b).0|
    requires PrevOf(Scan(a).0, |Scan(a).0|) == PrevOf(Scan(b).0, |Scan(b).0|)
    ensures SameTo(Scan(a).0, Scan(b).0, |Scan(a).0|) || CollideBelow(h, Scan(a).0, Scan(b).0, |Scan(a).0|)
  {
    SameThroughout(h, Scan(a).0, Scan(b).0);
  }

  /** Position by position: do the previous digests agree, are the records the same, do
      the hashed inputs collide. */
  ghost predicate Tables(h: Hash, a: seq<string>, b: seq<string>, agree: seq<bool>, same: seq<bool>, collide: seq<bool>) {
    && |a| == |b| == |same| == |collide| == |agree| - 1
    && (forall i: nat :: i < |agree| ==> agree[i] == (PrevOf(a, i) == PrevOf(b, i)))
    && (forall i: nat :: i < |a| ==> same[i] == SameAt(a, b, i))
    && (forall i: nat :: i < |a| ==> collide[i] == CollideAt(h, a, b, i))
  }

  lemma SameThroughout(h: Hash, a: seq<string>, b: seq<string>)
    requires IsDigest(h) && Intact(h, a) && Intact(h, b) && |a| == |b| && PrevOf(a, |a|) == PrevOf(b, |b|)
    ensures SameTo(a, b, |a|) || CollideBelow(h, a, b, |a|)
  {
    var agree, same, collide := Tabulate(h, a, b);
    TablesStep(h, a, b, agree, same, collide);
    Backwards(agree, same, collide, |a|);
    Translate(h, a, b, agree, same, collide);
  }

  lemma Tabulate(h: Hash, a: seq<string>, b: seq<string>) returns (agree: seq<bool>, same: seq<bool>, collide: seq<bool>)
    requires |a| == |b|
    ensures Tables(h, a, b, agree, same, collide)
  {
    var n := |a|;
    agree := seq(n + 1, i requires 0 <= i <= n => PrevOf(a, i) == PrevOf(b, i));
    same := seq(n, i requires 0 <= i < n => SameAt(a, b, i));
    collide := seq(n, i requires 0 <= i < n => CollideAt(h, a, b, i));
  }

  lemma TablesStep(h: Hash, a: seq<string>, b: seq<string>, agree: seq<bool>, same: seq<bool>, collide: seq<bool>)
    requires IsDigest(h) && Intact(h, a) && Intact(h, b) && Tables(h, a, b, agree, same, collide)
    ensures forall i :: 0 <= i < |a| && agree[i + 1] ==> (same[i] && agree[i]) || collide[i]
  {
    forall i: nat | i < |a| && agree[i + 1] ensures (same[i] && agree[i]) || collide[i] {
      SameLast(h, a, b, i);
    }
  }

  lemma Translate(h: Hash, a: seq<string>, b: seq<string>, agree: seq<bool>, same: seq<bool>, collide: seq<bool>)
    requires Tables(h, a, b, agree, same, collide)
    requires (forall i :: 0 <= i < |a| ==> same[i]) || exists i :: 0 <= i < |a| && collide[i]
    ensures SameTo(a, b, |a|) || CollideBelow(h, a, b, |a|)
  {
  }
}
