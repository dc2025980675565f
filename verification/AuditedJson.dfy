/** Audit logs of JSON records: what the encoder writes, the audit sink chains, the verifier
    accepts, and a reader parses back. */
module AuditedJson {
  import opened Common
  import opened Decimal
  import opened Words
  import opened Json
  import opened JsonEncoder
  import opened JsonLines
  import opened Audit
  import opened AuditLog

  /** What the audit sink chains of a record. */
  function Canonical(e: Encoder, r: Record): string {
    Trim(LineText(e, r))
  }

  /** Trimming takes off the newline that ends an encoded line and nothing else, and what
      is left reaches the verifier unchanged exactly when the caller's file name contains no
      newline. */
  lemma CanonicalLine(e: Encoder, r: Record)
    requires PrintableRecord(r)
    ensures Canonical(e, r) + "\n" == LineText(e, r)
    ensures FirstLine(Canonical(e, r)) == Canonical(e, r) <==> CallerOneLine(r)
  {
    var s := LineText(e, r);
    var c := "{" + Join(Members(e, r)) + "}";
    assert s == c + "\n";
    assert s[..|s| - 1] == c && Trim(c) == c;
    OneNewline(e, r);
    UnbrokenIff(c);
  }

  /** One Emit for each record, all of whose writes work. */
  function Emits(e: Encoder, rs: seq<Record>): (recs: seq<Rec>)
    ensures |recs| == |rs| && forall i :: 0 <= i < |rs| ==> recs[i] == Rec(Canonical(e, rs[i]), true)
  {
    seq(|rs|, i requires 0 <= i < |rs| => Rec(Canonical(e, rs[i]), true))
  }

  /** The n-th line, with two digests, its number and three blanks in front of the record, fits
      the scanner. */
  predicate Fits(n: nat, canonical: string) {
    131 + |Dec(n)| + |canonical| < MAX_LINE
  }

  ghost predicate LineIsSound(e: Encoder, n: nat, r: Record) {
    CallerOneLine(r) && Fits(n, Canonical(e, r))
  }

  lemma EmitsTail(e: Encoder, rs: seq<Record>)
    requires rs != []
    ensures Emits(e, rs)[1..] == Emits(e, rs[1..])
  {
  }

  lemma LineFits(h: Hash, prev: string, n: nat, c: string)
    requires IsDigest(h) && |prev| == 64
    ensures |Line(h, prev, n, c)| < MAX_LINE <==> Fits(n, c)
  {
  }

  /** From line k on, every record is on one line that fits the scanner. */
  ghost predicate SoundFrom(e: Encoder, rs: seq<Record>, k: nat) {
    forall i: nat :: k <= i < |rs| ==> LineIsSound(e, i, rs[i])
  }

  lemma SoundHead(h: Hash, e: Encoder, rs: seq<Record>, prev: string, n: nat)
    requires IsDigest(h) && |prev| == 64 && rs != [] && PrintableRecord(rs[0])
    ensures SoundRun(h, Emits(e, rs), prev, n)
       <==> LineIsSound(e, n, rs[0]) && SoundRun(h, Emits(e, rs[1..]), h(prev + Canonical(e, rs[0])), n + 1)
  {
    EmitsTail(e, rs);
    CanonicalLine(e, rs[0]);
    LineFits(h, prev, n, Canonical(e, rs[0]));
  }

  lemma {:induction false} SoundEmits(h: Hash, e: Encoder, rs: seq<Record>, prev: string, k: nat)
    requires IsDigest(h) && |prev| == 64 && k <= |rs| && forall i :: 0 <= i < |rs| ==> PrintableRecord(rs[i])
    ensures SoundRun(h, Emits(e, rs[k..]), prev, k) <==> SoundFrom(e, rs, k)
    decreases |rs| - k
  {
    if k < |rs| {
      assert rs[k..][0] == rs[k] && rs[k..][1..] == rs[k + 1..];
      SoundHead(h, e, rs[k..], prev, k);
      SoundEmits(h, e, rs, h(prev + Canonical(e, rs[k])), k + 1);
      SoundSplits(e, rs, k);
    }
  }

  lemma SoundSplits(e: Encoder, rs: seq<Record>, k: nat)
    requires k < |rs|
    ensures SoundFrom(e, rs, k) <==> LineIsSound(e, k, rs[k]) && SoundFrom(e, rs, k + 1)
  {
  }

  /** The scanned lines carry these records, in order. */
  ghost predicate Carry(lines: seq<string>, recs: seq<Rec>) {
    |lines| == |recs| && forall i :: 0 <= i < |recs| ==> CanonicalOf(lines[i]) == recs[i].canonical
  }

  lemma CarryCons(first: string, more: seq<string>, recs: seq<Rec>)
    requires recs != [] && CanonicalOf(first) == recs[0].canonical && Carry(more, recs[1..])
    ensures Carry([first] + more, recs)
  {
    forall i | 0 <= i < |recs| ensures CanonicalOf(([first] + more)[i]) == recs[i].canonical {
      if i > 0 { assert recs[i] == recs[1..][i - 1]; }
    }
  }

  /** The first scanned line of a sound log is the first record, and the rest is the rest. */
  lemma FirstBack(h: Hash, recs: seq<Rec>, prev: string, n: nat) returns (first: string)
    requires IsDigest(h) && Plain(prev) && n < TWO64 && SoundRun(h, recs, prev, n) && recs != [] && recs[0].written
    ensures var next := h(prev + recs[0].canonical);
            Scan(Text(h, recs, prev, n)).0 == [first] + Scan(Text(h, recs[1..], next, n + 1)).0
    ensures CanonicalOf(first) == recs[0].canonical
  {
    var c := recs[0].canonical;
    FirstOfText(h, recs, prev, n);
    CheckRecord(h, prev, n, c, n, prev);
    first := Header(h, prev, n, c) + FirstLine(c);
  }

  /** The verifier sees the records of a sound log, in order. */
  lemma {:induction false} RecordsBack(h: Hash, recs: seq<Rec>, prev: string, n: nat)
    requires IsDigest(h) && Plain(prev) && n + |recs| <= TWO64 && SoundRun(h, recs, prev, n)
    requires forall i :: 0 <= i < |recs| ==> recs[i].written
    ensures Carry(Scan(Text(h, recs, prev, n)).0, recs)
    decreases |recs|
  {
    if recs != [] {
      var first := FirstBack(h, recs, prev, n);
      var rest, next := recs[1..], h(prev + recs[0].canonical);
      RecordsBack(h, rest, next, n + 1);
      CarryCons(first, Scan(Text(h, rest, next, n + 1)).0, recs);
    }
  }

  lemma {:induction false} NotConfused(h: Hash, e: Encoder, rs: seq<Record>, prev: string)
    requires forall i :: 0 <= i < |rs| ==> PrintableRecord(rs[i]) && CallerOneLine(rs[i])
    ensures !Confused(h, Emits(e, rs), prev)
    decreases |rs|
  {
    if rs != [] {
      EmitsTail(e, rs);
      CanonicalLine(e, rs[0]);
      NotConfused(h, e, rs[1..], h(prev + Canonical(e, rs[0])));
    }
  }

  /** A log of encoded records whose callers are on one line, written without a failure, is
      accepted exactly when every line fits the scanner. */
  lemma EncodedLogAccepted(h: Hash, e: Encoder, rs: seq<Record>)
    requires IsDigest(h) && |rs| <= TWO64
    requires forall i :: 0 <= i < |rs| ==> PrintableRecord(rs[i]) && CallerOneLine(rs[i])
    ensures Accepted(h, Text(h, Emits(e, rs), GENESIS, 0))
       <==> forall i: nat :: i < |rs| ==> Fits(i, Canonical(e, rs[i]))
  {
    WriterAndVerifierAgree(h, Emits(e, rs));
    NotConfused(h, e, rs, GENESIS);
    assert rs[0..] == rs;
    SoundEmits(h, e, rs, GENESIS, 0);
    OnlyLength(e, rs);
  }

  lemma OnlyLength(e: Encoder, rs: seq<Record>)
    requires forall i :: 0 <= i < |rs| ==> CallerOneLine(rs[i])
    ensures SoundFrom(e, rs, 0) <==> forall i: nat :: i < |rs| ==> Fits(i, Canonical(e, rs[i]))
  {
    if SoundFrom(e, rs, 0) {
      forall i: nat | i < |rs| ensures Fits(i, Canonical(e, rs[i])) { assert LineIsSound(e, i, rs[i]); }
    }
  }

  /** From the record to the reader of an accepted log: the i-th line of the file carries the
      i-th record, which parses back to its keys and values exactly when its caller needs no
      escaping and its floats are finite. */
  lemma EncodedLogBack(h: Hash, e: Encoder, rs: seq<Record>, i: nat)
    requires IsDigest(h) && |rs| <= TWO64 && i < |rs|
    requires forall k :: 0 <= k < |rs| ==> PrintableRecord(rs[k]) && CallerOneLine(rs[k])
    requires Accepted(h, Text(h, Emits(e, rs), GENESIS, 0))
    ensures var lines := Scan(Text(h, Emits(e, rs), GENESIS, 0)).0;
            && |lines| == |rs|
            && (ParseLine(CanonicalOf(lines[i]) + "\n") == Some(Pairs(Members(e, rs[i])))
                <==> CallerClean(rs[i]) && AllFinite(rs[i].fields))
  {
    WriterAndVerifierAgree(h, Emits(e, rs));
    NotConfused(h, e, rs, GENESIS);
    RecordsBack(h, Emits(e, rs), GENESIS, 0);
    CanonicalLine(e, rs[i]);
    LineBack(e, rs[i]);
  }
}
