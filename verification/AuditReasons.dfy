/** What the verifier answers, and why, when a file the audit sink wrote has been edited. */
module AuditReasons {
  import opened Common
  import opened Decimal
  import opened Words
  import opened Audit
  import opened AuditLog

  // ----- files as lists of lines -----

  /** A file with these lines. */
  function Unlines(lines: seq<string>): string {
    if lines == [] then "" else lines[0] + "\n" + Unlines(lines[1..])
  }

  /** The scanner yields this line as it stands. */
  predicate Scannable(line: string) {
    '\n' !in line && (line == "" || line[|line| - 1] != '\r') && |line| < MAX_LINE
  }

  ghost predicate AllScannable(lines: seq<string>) {
    forall i :: 0 <= i < |lines| ==> Scannable(lines[i])
  }

  lemma FirstOfLines(line: string, rest: string)
    requires Scannable(line)
    ensures var text := line + "\n" + rest;
            LineEnd(text) == |line| && DropCR(text[..LineEnd(text)]) == line && Rest(text) == rest
  {
    var text := line + "\n" + rest;
    LineEndSkips(line, "\n" + rest);
    Around(line, rest);
  }

  lemma Around(line: string, rest: string)
    ensures var text := line + "\n" + rest;
            text == line + ("\n" + rest) && text[..|line|] == line && text[|line| + 1..] == rest
  {
  }

  lemma ScanStep(line: string, rest: string)
    requires Scannable(line)
    ensures Scan(line + "\n" + rest) == ([line] + Scan(rest).0, Scan(rest).1)
  {
    FirstOfLines(line, rest);
  }

  lemma {:induction false} ScanLines(lines: seq<string>)
    requires AllScannable(lines)
    ensures Scan(Unlines(lines)) == (lines, false)
    decreases |lines|
  {
    if lines != [] {
      assert Scannable(lines[0]);
      ScanStep(lines[0], Unlines(lines[1..]));
      ScanLines(lines[1..]);
      assert lines == [lines[0]] + lines[1..];
    }
  }

  /** The lines a sound run of Emits leaves in the file. */
  function LogLines(h: Hash, recs: seq<Rec>, prev: string, n: nat): seq<string> {
    if recs == [] || !recs[0].written then []
    else [Line(h, prev, n, recs[0].canonical)] + LogLines(h, recs[1..], h(prev + recs[0].canonical), n + 1)
  }

  lemma LineScans(h: Hash, prev: string, n: nat, c: string)
    requires IsDigest(h) && Plain(prev) && FirstLine(c) == c && |Line(h, prev, n, c)| < MAX_LINE
    ensures Scannable(Line(h, prev, n, c))
  {
    UnbrokenIff(c);
    var line, head := Line(h, prev, n, c), Header(h, prev, n, c);
    assert line == head + c;
    assert '\n' !in head by { assert AllDigits(Dec(n)); }
    if c == "" { assert line[|line| - 1] == ' '; } else { assert line[|line| - 1] == c[|c| - 1]; }
  }

  lemma {:induction false} TextIsLines(h: Hash, recs: seq<Rec>, prev: string, n: nat)
    requires IsDigest(h) && Plain(prev) && SoundRun(h, recs, prev, n)
    ensures Text(h, recs, prev, n) == Unlines(LogLines(h, recs, prev, n))
    ensures AllScannable(LogLines(h, recs, prev, n))
    decreases |recs|
  {
    if recs != [] {
      if recs[0].written {
        var next := h(prev + recs[0].canonical);
        LineScans(h, prev, n, recs[0].canonical);
        TextIsLines(h, recs[1..], next, n + 1);
        var first, more := Line(h, prev, n, recs[0].canonical), LogLines(h, recs[1..], next, n + 1);
        assert ([first] + more)[1..] == more;
      } else {
        NothingWritten(h, recs, prev, n);
      }
    }
  }

  // ----- the file of a sound run -----

  /** These are the lines of a file written by a sound run of Emits. */
  ghost predicate Log(h: Hash, recs: seq<Rec>, lines: seq<string>) {
    && IsDigest(h) && |recs| <= TWO64 && SoundRun(h, recs, GENESIS, 0)
    && lines == LogLines(h, recs, GENESIS, 0)
  }

  lemma LogIsIntact(h: Hash, recs: seq<Rec>, lines: seq<string>)
    requires Log(h, recs, lines)
    ensures Text(h, recs, GENESIS, 0) == Unlines(lines) && AllScannable(lines) && Intact(h, lines)
  {
    TextIsLines(h, recs, GENESIS, 0);
    ScanLines(lines);
    SoundIsAccepted(h, recs, GENESIS, 0);
    AcceptedIsFromStart(h, Unlines(lines));
  }

  /** What the verifier may answer on the file with these lines: see VerifyAudit. */
  ghost predicate Answers(h: Hash, lines: seq<string>, res: Result) {
    var (scanned, tooLong) := Scan(Unlines(lines));
    Exact(h, scanned, tooLong, res)
  }

  /** A line of an intact chain, taken apart. */
  lemma EntryOf(h: Hash, lines: seq<string>, i: nat) returns (e: Entry)
    requires Intact(h, lines) && i < |lines|
    ensures Split(lines[i]) == Some(e) && ParseUint(e.num) == Some(i) && e.prev == PrevOf(lines, i)
    ensures e.digest == h(e.prev + e.canonical)
  {
    assert Linked(h, lines, i);
    e := Split(lines[i]).value;
  }

  lemma {:induction false} SamePrefix(h: Hash, lines: seq<string>, edited: seq<string>, i: nat)
    requires i <= |lines| && i <= |edited| && IntactTo(h, lines, i) && lines[..i] == edited[..i]
    ensures IntactTo(h, edited, i) && PrevOf(edited, i) == PrevOf(lines, i)
  {
    forall k: nat | k < i ensures Linked(h, edited, k) {
      assert Linked(h, lines, k);
      SameLink(h, lines, edited, i, k);
    }
    SamePrev(lines, edited, i, i);
  }

  lemma SameLink(h: Hash, lines: seq<string>, edited: seq<string>, i: nat, k: nat)
    requires k < i <= |lines| && i <= |edited| && lines[..i] == edited[..i]
    ensures Linked(h, edited, k) <==> Linked(h, lines, k)
  {
    SameAtIndex(lines, edited, i, k);
    SamePrev(lines, edited, i, k);
    SameCheck(h, lines[k], k, PrevOf(lines, k), edited[k], PrevOf(edited, k));
  }

  lemma SameCheck(h: Hash, line: string, k: nat, prev: string, line': string, prev': string)
    requires line == line' && prev == prev'
    ensures Check(h, line, k, prev) == Check(h, line', k, prev')
  {
  }

  lemma SamePrev(lines: seq<string>, edited: seq<string>, i: nat, k: nat)
    requires k <= i <= |lines| && i <= |edited| && lines[..i] == edited[..i]
    ensures PrevOf(edited, k) == PrevOf(lines, k)
  {
    if k > 0 { SameAtIndex(lines, edited, i, k - 1); }
  }

  lemma SameAtIndex(lines: seq<string>, edited: seq<string>, i: nat, k: nat)
    requires k < i <= |lines| && i <= |edited| && lines[..i] == edited[..i]
    ensures lines[k] == edited[k]
  {
    assert lines[..i][k] == edited[..i][k];
  }

  /** The chain breaks at line i: the verifier says so, and why. */
  lemma BreaksAt(h: Hash, lines: seq<string>, edited: seq<string>, i: nat, reason: Reason, res: Result)
    requires Intact(h, lines) && i <= |lines| && i < |edited| && lines[..i] == edited[..i] && AllScannable(edited)
    requires Check(h, edited[i], i, PrevOf(lines, i)) == reason != Fine
    requires Answers(h, edited, res)
    ensures res == Result(i, false, i, reason)
  {
    ScanLines(edited);
    assert IntactTo(h, lines, i);
    SamePrefix(h, lines, edited, i);
    ExactAt(h, edited, i, res, reason);
  }

  lemma ExactAt(h: Hash, lines: seq<string>, i: nat, res: Result, reason: Reason)
    requires i < |lines| && IntactTo(h, lines, i) && Exact(h, lines, false, res)
    requires Check(h, lines[i], i, PrevOf(lines, i)) == reason != Fine
    ensures res == Result(i, false, i, reason)
  {
    NoFurther(h, lines, i);
  }

  lemma NoFurther(h: Hash, lines: seq<string>, i: nat)
    requires i < |lines| && IntactTo(h, lines, i) && !Linked(h, lines, i)
    ensures forall j: nat :: j <= |lines| ==> (IntactTo(h, lines, j) <==> j <= i)
  {
  }

  // ----- what edits are answered with -----

  /** The untouched file. */
  lemma Untouched(h: Hash, recs: seq<Rec>, lines: seq<string>, res: Result)
    requires Log(h, recs, lines) && Answers(h, lines, res)
    ensures res == Result(|lines|, true, -1, Fine)
  {
    LogIsIntact(h, recs, lines);
    ScanLines(lines);
  }

  /** Cutting lines off the end goes unnoticed: the verifier accepts what is left. */
  lemma CutOff(h: Hash, recs: seq<Rec>, lines: seq<string>, k: nat, res: Result)
    requires Log(h, recs, lines) && k <= |lines| && Answers(h, lines[..k], res)
    ensures res == Result(k, true, -1, Fine)
  {
    LogIsIntact(h, recs, lines);
    assert AllScannable(lines[..k]);
    ScanLines(lines[..k]);
    assert IntactTo(h, lines, k);
    assert lines[..k] == lines[..k][..k];
    SamePrefix(h, lines, lines[..k], k);
  }

  lemma WithoutScannable(lines: seq<string>, i: nat)
    requires i < |lines| && AllScannable(lines)
    ensures AllScannable(lines[..i] + lines[i + 1..])
  {
  }

  /** Removing any other line is reported at its place, as a gap in the numbers. */
  lemma Removed(h: Hash, recs: seq<Rec>, lines: seq<string>, i: nat, res: Result)
    requires Log(h, recs, lines) && i + 1 < |lines| && Answers(h, lines[..i] + lines[i + 1..], res)
    ensures res == Result(i, false, i, NotContiguous)
  {
    LogIsIntact(h, recs, lines);
    var edited := lines[..i] + lines[i + 1..];
    WithoutScannable(lines, i);
    var e := EntryOf(h, lines, i + 1);
    assert edited[i] == lines[i + 1] && edited[..i] == lines[..i];
    BreaksAt(h, lines, edited, i, NotContiguous, res);
  }

  /** So is exchanging two lines. */
  lemma Exchanged(h: Hash, recs: seq<Rec>, lines: seq<string>, i: nat, j: nat, res: Result)
    requires Log(h, recs, lines) && i < j < |lines| && Answers(h, lines[i := lines[j]][j := lines[i]], res)
    ensures res == Result(i, false, i, NotContiguous)
  {
    LogIsIntact(h, recs, lines);
    var edited := lines[i := lines[j]][j := lines[i]];
    var e := EntryOf(h, lines, j);
    SwapScannable(lines, i, j);
    BreaksAt(h, lines, edited, i, NotContiguous, res);
  }

  lemma SwapScannable(lines: seq<string>, i: nat, j: nat)
    requires i < j < |lines| && AllScannable(lines)
    ensures var edited := lines[i := lines[j]][j := lines[i]];
            edited[i] == lines[j] && edited[..i] == lines[..i] && AllScannable(edited)
  {
  }

  /** A line put together from its four parts. */
  function Spell(e: Entry): string {
    e.digest + " " + e.prev + " " + e.num + " " + e.canonical
  }

  predicate NoBlanks(e: Entry) {
    ' ' !in e.digest && ' ' !in e.prev && ' ' !in e.num
  }

  lemma SplitSpelt(e: Entry)
    requires NoBlanks(e)
    ensures Split(Spell(e)) == Some(e)
  {
    var r2 := e.num + " " + e.canonical;
    var r1 := e.prev + " " + r2;
    assert Spell(e) == e.digest + " " + r1;
    CutFirst(e.digest, r1);
    CutFirst(e.prev, r2);
    CutFirst(e.num, e.canonical);
  }

  /** Line i of the file holds e, and e' is put in its place. */
  ghost predicate Replaced(h: Hash, recs: seq<Rec>, lines: seq<string>, i: nat, e: Entry, e': Entry, res: Result) {
    && Log(h, recs, lines) && i < |lines| && Split(lines[i]) == Some(e)
    && NoBlanks(e') && Scannable(Spell(e')) && Answers(h, lines[i := Spell(e')], res)
  }

  lemma ReplacedIs(h: Hash, recs: seq<Rec>, lines: seq<string>, i: nat, e: Entry, e': Entry, reason: Reason, res: Result)
    requires Replaced(h, recs, lines, i, e, e', res)
    requires Check(h, Spell(e'), i, e.prev) == reason != Fine
    ensures res == Result(i, false, i, reason)
  {
    LogIsIntact(h, recs, lines);
    var found := EntryOf(h, lines, i);
    var edited := lines[i := Spell(e')];
    assert edited[..i] == lines[..i];
    BreaksAt(h, lines, edited, i, reason, res);
  }

  /** Changing the record of a line is reported there as a hash mismatch, unless the hash
      collides. */
  lemma RecordChanged(h: Hash, recs: seq<Rec>, lines: seq<string>, i: nat, e: Entry, c: string, res: Result)
    requires Replaced(h, recs, lines, i, e, e.(canonical := c), res) && h(e.prev + c) != h(e.prev + e.canonical)
    ensures res == Result(i, false, i, HashMismatch)
  {
    LogIsIntact(h, recs, lines);
    var found := EntryOf(h, lines, i);
    SplitSpelt(e.(canonical := c));
    ReplacedIs(h, recs, lines, i, e, e.(canonical := c), HashMismatch, res);
  }

  /** Changing the digest of a line is, too. */
  lemma DigestChanged(h: Hash, recs: seq<Rec>, lines: seq<string>, i: nat, e: Entry, d: string, res: Result)
    requires Replaced(h, recs, lines, i, e, e.(digest := d), res) && d != e.digest
    ensures res == Result(i, false, i, HashMismatch)
  {
    LogIsIntact(h, recs, lines);
    var found := EntryOf(h, lines, i);
    SplitSpelt(e.(digest := d));
    ReplacedIs(h, recs, lines, i, e, e.(digest := d), HashMismatch, res);
  }

  /** Changing the previous digest is reported as a break in the chain, whatever record and
      digest come with it. */
  lemma PrevChanged(h: Hash, recs: seq<Rec>, lines: seq<string>, i: nat, e: Entry, e': Entry, res: Result)
    requires Replaced(h, recs, lines, i, e, e', res) && e'.num == e.num && e'.prev != e.prev
    ensures res == Result(i, false, i, PrevMismatch)
  {
    LogIsIntact(h, recs, lines);
    var found := EntryOf(h, lines, i);
    SplitSpelt(e');
    ReplacedIs(h, recs, lines, i, e, e', PrevMismatch, res);
  }

  /** Changing the number, or making it something that is none, is reported as a gap, whatever
      else is changed with it. */
  lemma NumberChanged(h: Hash, recs: seq<Rec>, lines: seq<string>, i: nat, e: Entry, e': Entry, res: Result)
    requires Replaced(h, recs, lines, i, e, e', res) && (e'.num != "" && AllDigits(e'.num) ==> Value(e'.num) != i)
    ensures res == Result(i, false, i, NotContiguous)
  {
    SplitSpelt(e');
    ReplacedIs(h, recs, lines, i, e, e', NotContiguous, res);
  }

  /** An edit that keeps the digest and passes the check at its own line goes unnoticed. */
  lemma Unnoticed(h: Hash, recs: seq<Rec>, lines: seq<string>, i: nat, e: Entry, e': Entry, res: Result)
    requires Replaced(h, recs, lines, i, e, e', res) && e'.digest == e.digest && Check(h, Spell(e'), i, e.prev) == Fine
    ensures res == Result(|lines|, true, -1, Fine)
  {
    LogIsIntact(h, recs, lines);
    var edited := lines[i := Spell(e')];
    SplitSpelt(e');
    ScanLines(edited);
    var found := EntryOf(h, lines, i);
    forall k: nat | k < |edited| ensures Linked(h, edited, k) {
      assert Linked(h, lines, k);
      StillLinked(h, lines, edited, i, k);
    }
    IntactAnswer(h, edited, res);
  }

  lemma StillLinked(h: Hash, lines: seq<string>, edited: seq<string>, i: nat, k: nat)
    requires i < |lines| == |edited| && k < |lines| && edited == lines[i := edited[i]]
    requires Split(lines[i]).Some? && Split(edited[i]).Some? && Split(edited[i]).value.digest == Split(lines[i]).value.digest
    requires Linked(h, lines, k) && Check(h, edited[i], i, PrevOf(lines, i)) == Fine
    ensures Linked(h, edited, k)
  {
    SameDigests(lines, edited, i, k);
  }

  lemma SameDigests(lines: seq<string>, edited: seq<string>, i: nat, k: nat)
    requires i < |lines| == |edited| && k <= |lines| && edited == lines[i := edited[i]]
    requires Split(lines[i]).Some? && Split(edited[i]).Some? && Split(edited[i]).value.digest == Split(lines[i]).value.digest
    ensures PrevOf(edited, k) == PrevOf(lines, k)
  {
  }

  /** Leading zeros in front of the number are such an edit. */
  lemma ZeroPadded(h: Hash, recs: seq<Rec>, lines: seq<string>, i: nat, e: Entry, k: nat, res: Result)
    requires Replaced(h, recs, lines, i, e, e.(num := Zeros(k) + e.num), res)
    ensures res == Result(|lines|, true, -1, Fine)
  {
    LogIsIntact(h, recs, lines);
    var found := EntryOf(h, lines, i);
    var e' := e.(num := Zeros(k) + e.num);
    SplitSpelt(e');
    ZerosAdd(k, e.num);
    Unnoticed(h, recs, lines, i, e, e', res);
  }

  lemma {:induction false} ZerosAdd(k: nat, s: string)
    requires AllDigits(s)
    ensures AllDigits(Zeros(k) + s) && Value(Zeros(k) + s) == Value(s)
    decreases |s|
  {
    var all := Zeros(k) + s;
    assert AllDigits(all);
    if s == "" {
      assert all == Zeros(k);
      ZerosAreZero(k);
    } else {
      assert all[..|all| - 1] == Zeros(k) + s[..|s| - 1];
      ZerosAdd(k, s[..|s| - 1]);
    }
  }

  lemma {:induction false} ZerosAreZero(k: nat)
    ensures AllDigits(Zeros(k)) && Value(Zeros(k)) == 0
  {
    if k > 0 {
      assert Zeros(k)[..k - 1] == Zeros(k - 1);
      ZerosAreZero(k - 1);
    }
  }

  /** A file with these lines and a last one that no newline ends. */
  function OpenEnded(lines: seq<string>, line: string): string {
    if lines == [] then line else lines[0] + "\n" + OpenEnded(lines[1..], line)
  }

  lemma {:induction false} EndedIsUnlines(lines: seq<string>, line: string)
    ensures OpenEnded(lines, line) + "\n" == Unlines(lines + [line])
    decreases |lines|
  {
    var all := lines + [line];
    if lines == [] {
      assert all == [line] && all[1..] == [];
      assert Unlines(all) == line + "\n" + "";
    } else {
      assert all[0] == lines[0] && all[1..] == lines[1..] + [line];
      EndedIsUnlines(lines[1..], line);
      Associate(lines[0] + "\n", OpenEnded(lines[1..], line), "\n");
    }
  }

  lemma ScanOne(line: string)
    requires Scannable(line) && line != ""
    ensures Scan(line) == ([line], false)
  {
    LineEndSkips(line, "");
    assert line + "" == line && line[..|line|] == line;
    assert Rest(line) == "" && Scan("") == ([], false);
    assert [line] + [] == [line];
  }

  lemma {:induction false} ScanOpenEnded(lines: seq<string>, line: string)
    requires AllScannable(lines) && Scannable(line) && line != ""
    ensures Scan(OpenEnded(lines, line)) == (lines + [line], false)
    decreases |lines|
  {
    if lines == [] {
      ScanOne(line);
      assert lines + [line] == [line];
    } else {
      assert Scannable(lines[0]);
      ScanOpenEnded(lines[1..], line);
      ScanStep(lines[0], OpenEnded(lines[1..], line));
      assert lines + [line] == [lines[0]] + (lines[1..] + [line]);
    }
  }

  lemma NotEmpty(h: Hash, lines: seq<string>, i: nat)
    requires Intact(h, lines) && i < |lines|
    ensures lines[i] != ""
  {
    assert Linked(h, lines, i);
  }

  /** Taking away the newline at the end of the file goes unnoticed, too. */
  lemma Unended(h: Hash, recs: seq<Rec>, lines: seq<string>, last: string, res: Result)
    requires Log(h, recs, lines + [last])
    requires var (scanned, tooLong) := Scan(OpenEnded(lines, last)); Exact(h, scanned, tooLong, res)
    ensures res == Result(|lines| + 1, true, -1, Fine)
  {
    var all := lines + [last];
    LogIsIntact(h, recs, all);
    NotEmpty(h, all, |lines|);
    SplitScannable(lines, last);
    ScanOpenEnded(lines, last);
    IntactAnswer(h, all, res);
  }

  lemma SplitScannable(lines: seq<string>, last: string)
    requires AllScannable(lines + [last])
    ensures AllScannable(lines) && Scannable(last)
  {
    var all := lines + [last];
    assert Scannable(all[|lines|]);
    forall i | 0 <= i < |lines| ensures Scannable(lines[i]) { assert Scannable(all[i]); }
  }

  lemma IntactAnswer(h: Hash, lines: seq<string>, res: Result)
    requires Intact(h, lines) && Exact(h, lines, false, res)
    ensures res == Result(|lines|, true, -1, Fine)
  {
  }

  function Blanks(s: string): nat {
    if s == "" then 0 else (if s[0] == ' ' then 1 else 0) + Blanks(s[1..])
  }

  lemma {:induction false} CutLeaves(s: string)
    ensures Cut(s).Some? <==> Blanks(s) > 0
    ensures Cut(s).Some? ==> Blanks(Cut(s).value.1) + 1 == Blanks(s)
  {
    if s != "" { CutLeaves(s[1..]); }
  }

  lemma SplitNeedsThree(s: string)
    ensures Split(s).Some? <==> Blanks(s) >= 3
  {
    CutLeaves(s);
    if Cut(s).Some? {
      var r1 := Cut(s).value.1;
      CutLeaves(r1);
      if Cut(r1).Some? { CutLeaves(Cut(r1).value.1); }
    }
  }

  lemma Inserted(lines: seq<string>, i: nat, line: string, rest: seq<string>)
    requires i <= |lines| && AllScannable(lines) && Scannable(line) && AllScannable(rest)
    ensures var edited := lines[..i] + [line] + rest;
            edited[..i] == lines[..i] && edited[i] == line && AllScannable(edited)
  {
  }

  /** A line with fewer than three blanks in the place of line i, or after the last one, is
      reported as malformed. */
  lemma Garbled(h: Hash, recs: seq<Rec>, lines: seq<string>, i: nat, line: string, rest: seq<string>, res: Result)
    requires Log(h, recs, lines) && i <= |lines| && Scannable(line) && Blanks(line) < 3 && AllScannable(rest)
    requires Answers(h, lines[..i] + [line] + rest, res)
    ensures res == Result(i, false, i, Malformed)
  {
    LogIsIntact(h, recs, lines);
    var edited := lines[..i] + [line] + rest;
    SplitNeedsThree(line);
    Inserted(lines, i, line, rest);
    BreaksAt(h, lines, edited, i, Malformed, res);
  }

  /** A line too long for the scanner after the last one is reported as a read error. */
  lemma TooLong(h: Hash, recs: seq<Rec>, lines: seq<string>, line: string, res: Result)
    requires Log(h, recs, lines) && '\n' !in line && |line| >= MAX_LINE
    requires var (scanned, tooLong) := Scan(OpenEnded(lines, line)); Exact(h, scanned, tooLong, res)
    ensures res == Result(|lines|, false, |lines|, ReadError)
  {
    LogIsIntact(h, recs, lines);
    ScanThenLong(lines, line);
  }

  lemma {:induction false} ScanThenLong(lines: seq<string>, line: string)
    requires AllScannable(lines) && '\n' !in line && |line| >= MAX_LINE
    ensures Scan(OpenEnded(lines, line)) == (lines, true)
    decreases |lines|
  {
    if lines == [] {
      LineEndSkips(line, "");
      assert line + "" == line;
    } else {
      assert Scannable(lines[0]);
      ScanThenLong(lines[1..], line);
      ScanStep(lines[0], OpenEnded(lines[1..], line));
      assert lines == [lines[0]] + lines[1..];
    }
  }
}
