/** Encoded records parse back to their keys and values, in order, one per line. */
module JsonLines {
  import opened Common
  import opened Decimal
  import opened Json
  import opened JsonText
  import opened JsonEncoder

  function Pairs(ms: seq<Member>): (ps: seq<(string, Json)>)
    ensures |ps| == |ms| && forall i :: 0 <= i < |ms| ==> ps[i] == (ms[i].key, ms[i].value)
  {
    seq(|ms|, i requires 0 <= i < |ms| => (ms[i].key, ms[i].value))
  }

  lemma PairsCons(m: Member, rest: seq<Member>)
    ensures Pairs([m] + rest) == [(m.key, m.value)] + Pairs(rest)
  {
  }

  lemma PairsOne(m: Member)
    ensures Pairs([m]) == [(m.key, m.value)]
  {
  }

  ghost predicate ReadsBack(m: Member) {
    Renders(m.text, m.value)
  }

  ghost predicate AllRender(ms: seq<Member>) {
    forall i :: 0 <= i < |ms| ==> ReadsBack(ms[i])
  }

  lemma JoinOne(m: Member)
    ensures Join([m]) == Item(m)
  {
    assert [m][..0] == [];
    assert Join([m]) == "" + "" + Item(m);
  }

  lemma Associate(a: string, b: string, c: string, d: string, e: string)
    ensures (a + (b + c)) + d + e == a + (b + (c + d + e))
  {
  }

  lemma Three(a: string, b: string, c: string)
    ensures a + b + c == a + (b + c)
  {
  }

  lemma {:induction false} JoinCons(m: Member, rest: seq<Member>)
    requires rest != []
    ensures Join([m] + rest) == Item(m) + ("," + Join(rest))
  {
    var k := |rest| - 1;
    var init, last := rest[..k], rest[k];
    assert rest == init + [last];
    assert [m] + rest == ([m] + init) + [last];
    JoinSnoc([m] + init, last);
    if k == 0 {
      assert rest == [last] && [m] + init == [m];
      JoinOne(last);
      JoinOne(m);
      Three(Item(m), ",", Item(last));
    } else {
      JoinCons(m, init);
      JoinSnoc(init, last);
      Associate(Item(m), ",", Join(init), ",", Item(last));
    }
  }

  /** What a member contributes when its key and value read back. */
  lemma MemberKey(key: string, text: string, t: string)
    requires text != "" && !IsWs(text[0])
    ensures var s := Quote(key) + ":" + text + t;
            && s != "" && s[0] == '"' && ParseChars(s[1..]) == Some((key, ":" + text + t))
            && SkipWs(":" + text + t) == ":" + text + t
            && (":" + text + t)[1..] == text + t
            && SkipWs(text + t) == text + t
  {
    var more := ":" + text + t;
    KeyBack(key, more);
    assert Quote(key) + ":" + text + t == Quote(key) + more;
    ColonStarts(text + t);
    assert more == ":" + (text + t);
    assert (text + t)[0] == text[0];
  }

  lemma KeyBack(key: string, more: string)
    ensures var s := Quote(key) + more;
            s != "" && s[0] == '"' && ParseChars(s[1..]) == Some((key, more))
  {
    assert (Quote(key) + more)[1..] == Escape(key) + "\"" + more;
    StringBack(key, more);
  }

  ghost function Prepend(p: (string, Json), r: Option<(seq<(string, Json)>, string)>): Option<(seq<(string, Json)>, string)> {
    if r.Some? then Some(([p] + r.value.0, r.value.1)) else None
  }

  /** The grammar's rule for members, one step. */
  lemma MembersRule(s: string, key: string, r1: string, v: Json, u: string)
    requires s != "" && s[0] == '"' && ParseChars(s[1..]) == Some((key, r1))
    requires StartsWith(SkipWs(r1), ":") && ParseValue(SkipWs(SkipWs(r1)[1..])) == Some((v, u)) && SkipWs(u) == u
    ensures StartsWith(u, "}") ==> ParseMembers(s) == Some(([(key, v)], u[1..]))
    ensures !StartsWith(u, "}") && StartsWith(u, ",") ==>
              ParseMembers(s) == Prepend((key, v), ParseMembers(SkipWs(u[1..])))
  {
  }

  lemma RendersAt(text: string, v: Json, rest: string)
    requires Renders(text, v) && Delimits(rest)
    ensures text != "" && !IsWs(text[0]) && ParseValue(text + rest) == Some((v, rest))
  {
  }

  lemma DelimiterStarts(t: string)
    requires Delimits(t)
    ensures SkipWs(t) == t && StartsWith(t, "}") == (t[0] == '}') && StartsWith(t, ",") == (t[0] == ',')
  {
    assert t[..1] == [t[0]];
  }

  lemma ColonStarts(more: string)
    ensures SkipWs(":" + more) == ":" + more && StartsWith(":" + more, ":")
  {
    assert (":" + more)[..1] == ":";
  }

  lemma MemberStep(m: Member, t: string)
    requires Renders(m.text, m.value) && Delimits(t)
    ensures ParseMembers(Item(m) + t)
         == if t[0] == '}' then Some(([(m.key, m.value)], t[1..]))
            else Prepend((m.key, m.value), ParseMembers(SkipWs(t[1..])))
  {
    var s, more := Quote(m.key) + ":" + m.text + t, m.text + t;
    assert Item(m) + t == s;
    RendersAt(m.text, m.value, t);
    MemberKey(m.key, m.text, t);
    assert ":" + m.text + t == ":" + more;
    ColonStarts(more);
    DelimiterStarts(t);
    MembersRule(s, m.key, ":" + more, m.value, t);
  }

  lemma JoinStarts(ms: seq<Member>)
    requires ms != []
    ensures Join(ms) != "" && Join(ms)[0] == '"'
  {
    if |ms| == 1 {
      assert ms == [ms[0]];
      JoinOne(ms[0]);
    } else {
      assert ms == [ms[0]] + ms[1..];
      JoinCons(ms[0], ms[1..]);
    }
  }

  /** A member that reads back, in front of others. */
  lemma JoinStep(m: Member, rest: seq<Member>, t: string)
    requires rest != [] && Renders(m.text, m.value)
    ensures ParseMembers(Join([m] + rest) + t) == Prepend((m.key, m.value), ParseMembers(Join(rest) + t))
  {
    var more := Join(rest) + t;
    JoinCons(m, rest);
    CommaThen(Item(m), Join(rest), t);
    MemberStep(m, "," + more);
    JoinStarts(rest);
    NoBlank(more);
  }

  lemma CommaThen(a: string, b: string, t: string)
    ensures (a + ("," + b)) + t == a + ("," + (b + t)) && ("," + (b + t))[1..] == b + t
  {
  }

  lemma NoBlank(s: string)
    requires s != "" && !IsWs(s[0])
    ensures SkipWs(s) == s
  {
  }

  lemma {:induction false} MembersBack(ms: seq<Member>, t: string)
    requires ms != [] && AllRender(ms) && t != "" && t[0] == '}'
    ensures ParseMembers(Join(ms) + t) == Some((Pairs(ms), t[1..]))
    decreases |ms|
  {
    var m, rest := ms[0], ms[1..];
    assert ReadsBack(m);
    if rest == [] {
      assert ms == [m];
      PairsOne(m);
      JoinOne(m);
      MemberStep(m, t);
    } else {
      assert ms == [m] + rest;
      PairsCons(m, rest);
      MembersBack(rest, t);
      JoinStep(m, rest, t);
    }
  }

  /** The k-th pair is there and is not p. */
  ghost predicate NotAt(r: Option<(seq<(string, Json)>, string)>, k: nat, p: (string, Json)) {
    r.Some? ==> |r.value.0| > k && r.value.0[k] != p
  }

  lemma PrependNotAt(q: (string, Json), r: Option<(seq<(string, Json)>, string)>, k: nat, p: (string, Json))
    requires NotAt(r, k, p)
    ensures NotAt(Prepend(q, r), k + 1, p)
  {
  }

  /** What is parsed starts with the first key and value. */
  lemma FirstPair(s: string, key: string, r1: string)
    requires s != "" && s[0] == '"' && ParseChars(s[1..]) == Some((key, r1)) && ParseMembers(s).Some?
    ensures var t := SkipWs(r1);
            && t != "" && ParseValue(SkipWs(t[1..])).Some? && ParseMembers(s).value.0 != []
            && ParseMembers(s).value.0[0] == (key, ParseValue(SkipWs(t[1..])).value.0)
  {
  }

  lemma StringRule(s: string)
    requires s != "" && s[0] == '"' && ParseValue(s).Some?
    ensures ParseChars(s[1..]).Some? && ParseValue(s).value.0 == Str(ParseChars(s[1..]).value.0)
  {
  }

  /** A member written raw that needed escaping never reads back as meant. */
  lemma RawMemberBroken(key: string, raw: string, t: string)
    requires !NeedsNone(raw) && raw[|raw| - 1] != '\\'
    ensures NotAt(ParseMembers(Quote(key) + ":" + ("\"" + raw + "\"") + t), 0, (key, Str(raw)))
  {
    var text := "\"" + raw + "\"";
    var s := Quote(key) + ":" + text + t;
    MemberKey(key, text, t);
    if ParseMembers(s).Some? {
      FirstPair(s, key, ":" + text + t);
      assert (text + t)[0] == '"' && (text + t)[1..] == raw + "\"" + t;
      StringRule(text + t);
      RawBack(raw, t);
    }
  }

  lemma FirstBroken(m: Member, raw: string, t: string)
    requires !NeedsNone(raw) && raw[|raw| - 1] != '\\' && m.text == "\"" + raw + "\""
    ensures NotAt(ParseMembers(Join([m]) + t), 0, (m.key, Str(raw)))
  {
    JoinOne(m);
    assert Join([m]) + t == Quote(m.key) + ":" + ("\"" + raw + "\"") + t;
    RawMemberBroken(m.key, raw, t);
  }

  /** A bare word is no value, whatever follows it. */
  lemma NotFiniteBroken(text: string, t: string)
    requires NotFinite(text)
    ensures ParseValue(text + t) == None
  {
    var s := text + t;
    assert s[0] == text[0] && s[1] == text[1];
    assert s[1..][0] == s[1];
    if |s| >= 4 { assert s[..4][0] == s[0]; }
    if |s| >= 5 { assert s[..5][0] == s[0]; }
    NumberLenIs(s, if s[0] == '-' then 1 else 0, 0);
  }

  lemma FloatBroken(m: Member, t: string)
    requires NotFinite(m.text)
    ensures ParseMembers(Join([m]) + t) == None
  {
    JoinOne(m);
    var s := Quote(m.key) + ":" + m.text + t;
    assert Join([m]) + t == s;
    MemberKey(m.key, m.text, t);
    NotFiniteBroken(m.text, t);
    if ParseMembers(s).Some? { FirstPair(s, m.key, ":" + m.text + t); }
  }

  /** After any members that read back, a member that does not read back as meant spoils
      its place in the result. */
  lemma {:induction false} BrokenAfter(pre: seq<Member>, m: Member, t: string, pair: (string, Json))
    requires AllRender(pre) && NotAt(ParseMembers(Join([m]) + t), 0, pair)
    ensures NotAt(ParseMembers(Join(pre + [m]) + t), |pre|, pair)
    decreases |pre|
  {
    if pre == [] {
      assert pre + [m] == [m];
    } else {
      var p, rest := pre[0], pre[1..];
      assert pre + [m] == [p] + (rest + [m]);
      assert ReadsBack(p) && AllRender(rest);
      BrokenAfter(rest, m, t, pair);
      StaysBroken(p, rest + [m], t, |rest|, pair);
    }
  }

  lemma StaysBroken(p: Member, rest: seq<Member>, t: string, k: nat, pair: (string, Json))
    requires rest != [] && ReadsBack(p) && NotAt(ParseMembers(Join(rest) + t), k, pair)
    ensures NotAt(ParseMembers(Join([p] + rest) + t), k + 1, pair)
  {
    JoinStep(p, rest, t);
    PrependNotAt((p.key, p.value), ParseMembers(Join(rest) + t), k, pair);
  }

  // ----- records -----

  ghost predicate PrintableRecord(r: Record) {
    && (r.time.Some? ==> NeedsNone(r.time.value))
    && (forall i :: 0 <= i < |r.fields| ==> Printable(r.fields[i].value))
  }

  lemma AppendRender(a: seq<Member>, b: seq<Member>)
    requires AllRender(a) && AllRender(b)
    ensures AllRender(a + b)
  {
  }

  lemma QuotedRenders(key: string, s: string)
    ensures AllRender([Member(key, Quote(s), Str(s))])
  {
    QuoteRenders(s);
  }

  lemma LevelRenders(e: Encoder, r: Record)
    ensures AllRender([LevelMember(e, r)])
  {
    DecIsNumber(r.level);
    NumberRenders(DecInt(r.level));
    QuoteRenders(LevelName(r.level));
  }

  lemma TimeRenders(e: Encoder, r: Record)
    requires PrintableRecord(r)
    ensures AllRender(TimeMembers(e, r))
  {
    if r.time.Some? { RawRenders(r.time.value); }
  }

  lemma LeadingRenders(e: Encoder, r: Record)
    requires PrintableRecord(r)
    ensures AllRender(Leading(e, r))
  {
    var level, message := LevelMember(e, r), Member(Or(e.msgKey, "msg"), Quote(r.message), Str(r.message));
    TimeRenders(e, r);
    LevelRenders(e, r);
    QuotedRenders(Or(e.msgKey, "msg"), r.message);
    QuotedRenders("event", r.eventName);
    AppendRender(TimeMembers(e, r), [level]);
    AppendRender(TimeMembers(e, r) + [level], [message]);
    if r.eventName != "" {
      AppendRender(TimeMembers(e, r) + [level] + [message],
                   [Member("event", Quote(r.eventName), Str(r.eventName))]);
    } else {
      assert Leading(e, r) == TimeMembers(e, r) + [level] + [message];
    }
  }

  ghost predicate AllFinite(fields: seq<Field>) {
    forall i :: 0 <= i < |fields| ==> Finite(fields[i].value)
  }

  lemma FieldsRender(fields: seq<Field>)
    requires AllFinite(fields) && forall i :: 0 <= i < |fields| ==> Printable(fields[i].value)
    ensures AllRender(FieldMembers(fields))
  {
    forall i | 0 <= i < |fields| ensures ReadsBack(FieldMembers(fields)[i]) {
      ValueRenders(fields[i].value);
    }
  }

  lemma NeedsNoneAppend(a: string, b: string)
    ensures NeedsNone(a + b) <==> NeedsNone(a) && NeedsNone(b)
  {
    var s := a + b;
    assert forall i :: 0 <= i < |a| ==> a[i] == s[i];
    assert forall i :: 0 <= i < |b| ==> b[i] == s[|a| + i];
  }

  lemma DecIntPlain(i: int)
    ensures NeedsNone(":" + DecInt(i)) && DecInt(i) != "" && DecInt(i)[|DecInt(i)| - 1] != '\\'
  {
  }

  lemma CallerNeeds(s: Source)
    ensures NeedsNone(CallerText(s)) <==> NeedsNone(s.file)
    ensures CallerText(s)[|CallerText(s)| - 1] != '\\'
  {
    var d := ":" + DecInt(s.line);
    DecIntPlain(s.line);
    NeedsNoneAppend(s.file, d);
    assert CallerText(s) == s.file + d;
  }

  /** The file name of the caller, if there is one, is written as it is. */
  ghost predicate CallerClean(r: Record) {
    r.source.Some? ==> NeedsNone(r.source.value.file)
  }

  lemma CallerRenders(r: Record)
    requires CallerClean(r)
    ensures AllRender(CallerMembers(r))
  {
    if r.source.Some? {
      CallerNeeds(r.source.value);
      RawRenders(CallerText(r.source.value));
    }
  }

  /** Parsing an encoded line by RFC 8259 returns the record's keys and values in order
      exactly when the caller's file name needs no escaping and every float is finite. */
  lemma LineBack(e: Encoder, r: Record)
    requires PrintableRecord(r)
    ensures ParseLine(LineText(e, r)) == Some(Pairs(Members(e, r))) <==> CallerClean(r) && AllFinite(r.fields)
  {
    var ms := Members(e, r);
    ObjectLine(ms);
    if !CallerClean(r) {
      UncleanLine(e, r);
    } else if !AllFinite(r.fields) {
      InfiniteLine(e, r);
    } else {
      CleanLine(e, r);
    }
  }

  lemma CleanLine(e: Encoder, r: Record)
    requires PrintableRecord(r) && CallerClean(r) && AllFinite(r.fields)
    ensures ParseMembers(Join(Members(e, r)) + "}\n") == Some((Pairs(Members(e, r)), "\n"))
  {
    LeadingRenders(e, r);
    CallerRenders(r);
    FieldsRender(r.fields);
    AppendRender(Leading(e, r), CallerMembers(r));
    AppendRender(Leading(e, r) + CallerMembers(r), FieldMembers(r.fields));
    MembersBack(Members(e, r), "}\n");
    assert "}\n"[1..] == "\n";
  }

  lemma ObjectLine(ms: seq<Member>)
    requires ms != []
    ensures ParseLine("{" + Join(ms) + "}\n")
         == var p := ParseMembers(Join(ms) + "}\n");
            if p.Some? && p.value.1 == "\n" then Some(p.value.0) else None
  {
    var s := "{" + Join(ms) + "}\n";
    JoinStarts(ms);
    assert s[1..] == Join(ms) + "}\n";
    assert SkipWs(s[1..]) == s[1..];
    assert s[1..][..1] == [s[1..][0]];
  }

  lemma {:induction false} JoinAppend(a: seq<Member>, b: seq<Member>)
    requires a != [] && b != []
    ensures Join(a + b) == Join(a) + "," + Join(b)
    decreases |b|
  {
    var k := |b| - 1;
    var init, last := b[..k], b[k];
    assert b == init + [last] && a + b == (a + init) + [last];
    JoinSnoc(a + init, last);
    if k == 0 {
      assert a + init == a && b == [last];
      JoinOne(last);
    } else {
      JoinAppend(a, init);
      JoinSnoc(init, last);
      Regroup(Join(a) + ",", Join(init), ",", Item(last));
    }
  }

  /** What follows the members before `post`. */
  ghost function Remainder(post: seq<Member>): string {
    (if post == [] then "" else "," + Join(post)) + "}\n"
  }

  lemma SpoiltLine(pre: seq<Member>, m: Member, post: seq<Member>)
    requires AllRender(pre) && NotAt(ParseMembers(Join([m]) + Remainder(post)), 0, (m.key, m.value))
    ensures var ms := (pre + [m]) + post;
            var p := ParseMembers(Join(ms) + "}\n");
            p.Some? ==> p.value.0 != Pairs(ms)
  {
    var ms := (pre + [m]) + post;
    SplitJoin(pre + [m], post);
    BrokenAfter(pre, m, Remainder(post), (m.key, m.value));
    assert ms[|pre|] == m;
  }

  lemma UncleanLine(e: Encoder, r: Record)
    requires PrintableRecord(r) && !CallerClean(r)
    ensures var p := ParseMembers(Join(Members(e, r)) + "}\n");
            p.Some? ==> p.value.0 != Pairs(Members(e, r))
  {
    var pre, m, post := Leading(e, r), CallerMembers(r)[0], FieldMembers(r.fields);
    CallerNeeds(r.source.value);
    LeadingRenders(e, r);
    assert Members(e, r) == (pre + [m]) + post;
    FirstBroken(m, CallerText(r.source.value), Remainder(post));
    SpoiltLine(pre, m, post);
  }

  lemma InfiniteLine(e: Encoder, r: Record)
    requires PrintableRecord(r) && CallerClean(r) && !AllFinite(r.fields)
    ensures var p := ParseMembers(Join(Members(e, r)) + "}\n");
            p.Some? ==> p.value.0 != Pairs(Members(e, r))
  {
    var k := FirstInfinite(r.fields);
    var m, post := FieldMembers(r.fields)[k], FieldMembers(r.fields)[k + 1..];
    GoodPrefix(e, r, k);
    MembersSplit(e, r, k);
    assert NotFinite(m.text);
    FloatBroken(m, Remainder(post));
    SpoiltLine(Before(e, r, k), m, post);
  }

  /** The members before the k-th field. */
  ghost function Before(e: Encoder, r: Record, k: nat): seq<Member>
    requires k <= |r.fields|
  {
    (Leading(e, r) + CallerMembers(r)) + FieldMembers(r.fields[..k])
  }

  lemma GoodPrefix(e: Encoder, r: Record, k: nat)
    requires PrintableRecord(r) && CallerClean(r) && k <= |r.fields| && AllFinite(r.fields[..k])
    ensures AllRender(Before(e, r, k))
  {
    LeadingRenders(e, r);
    CallerRenders(r);
    AppendRender(Leading(e, r), CallerMembers(r));
    FieldsRender(r.fields[..k]);
    AppendRender(Leading(e, r) + CallerMembers(r), FieldMembers(r.fields[..k]));
  }

  lemma FieldsSplit(fields: seq<Field>, k: nat)
    requires k < |fields|
    ensures var fs := FieldMembers(fields); fs == FieldMembers(fields[..k]) + ([fs[k]] + fs[k + 1..])
  {
  }

  lemma Reassociate(a: seq<Member>, b: seq<Member>, c: seq<Member>, d: seq<Member>)
    ensures a + (b + (c + d)) == ((a + b) + c) + d
  {
  }

  lemma MembersSplit(e: Encoder, r: Record, k: nat)
    requires k < |r.fields|
    ensures var fs := FieldMembers(r.fields); Members(e, r) == (Before(e, r, k) + [fs[k]]) + fs[k + 1..]
  {
    var fs := FieldMembers(r.fields);
    FieldsSplit(r.fields, k);
    Reassociate(Leading(e, r) + CallerMembers(r), FieldMembers(r.fields[..k]), [fs[k]], fs[k + 1..]);
  }

  lemma {:induction false} FirstInfinite(fields: seq<Field>) returns (k: nat)
    requires !AllFinite(fields)
    ensures k < |fields| && !Finite(fields[k].value) && AllFinite(fields[..k])
    decreases |fields|
  {
    var n := |fields| - 1;
    if AllFinite(fields[..n]) {
      k := n;
    } else {
      k := FirstInfinite(fields[..n]);
      assert fields[..n][..k] == fields[..k];
    }
  }

  lemma SplitJoin(a: seq<Member>, b: seq<Member>)
    requires a != []
    ensures Join(a + b) + "}\n" == Join(a) + Remainder(b)
  {
    if b == [] {
      assert a + b == a;
      Three(Join(a), "", "}\n");
    } else {
      JoinAppend(a, b);
      Four(Join(a), ",", Join(b), "}\n");
    }
  }

  lemma Four(a: string, b: string, c: string, d: string)
    ensures a + b + c + d == a + ((b + c) + d)
  {
  }

  // ----- one line -----

  lemma {:induction false} EscapeHasNoNewline(s: string)
    ensures '\n' !in Escape(s)
  {
    if s != "" {
      var c := s[0];
      EscapeHasNoNewline(s[1..]);
      assert '\n' !in EscapeChar(c) by {
        if |EscapeChar(c)| == 6 {
          assert HexDigit(c as nat / 16) != '\n' && HexDigit(c as nat % 16) != '\n';
        }
      }
    }
  }

  lemma {:induction false} RunIsDigits(s: string)
    ensures AllDigits(s[..DigitRun(s)])
  {
    if s != "" && IsDigit(s[0]) {
      RunIsDigits(s[1..]);
      var k := DigitRun(s);
      assert s[..k] == [s[0]] + s[1..][..k - 1];
    }
  }

  /** The characters a number is made of. */
  predicate NumberChar(c: char) {
    IsDigit(c) || c == '-' || c == '+' || c == '.' || c == 'e' || c == 'E'
  }

  predicate NumberChars(s: string) {
    forall i :: 0 <= i < |s| ==> NumberChar(s[i])
  }

  lemma FracChars(s: string)
    requires FracLen(s).Some?
    ensures NumberChars(s[..FracLen(s).value])
  {
    var f := FracLen(s).value;
    if f > 0 {
      RunIsDigits(s[1..]);
      assert s[..f] == ['.'] + s[1..][..f - 1];
    }
  }

  lemma ExpChars(s: string)
    requires ExpLen(s).Some?
    ensures NumberChars(s[..ExpLen(s).value])
  {
    var x := ExpLen(s).value;
    if x > 0 {
      var sign := if |s| > 1 && (s[1] == '+' || s[1] == '-') then 1 else 0;
      RunIsDigits(s[1 + sign..]);
      assert s[..x] == s[..1 + sign] + s[1 + sign..][..x - 1 - sign];
    }
  }

  lemma IntChars(s: string)
    ensures NumberChars(s[..IntLen(s)])
  {
    RunIsDigits(s);
  }

  lemma CharsAppend(s: string, i: nat, k: nat)
    requires i + k <= |s| && NumberChars(s[..i]) && NumberChars(s[i..][..k])
    ensures NumberChars(s[..i + k])
  {
    assert s[..i + k] == s[..i] + s[i..][..k];
  }

  /** A number is a sign, an integer, a fraction and an exponent, some of them empty. */
  lemma NumberParts(s: string) returns (m: nat, i: nat)
    requires IsNumber(s)
    ensures m + i <= |s| && NumberChars(s[..m]) && IntLen(s[m..]) == i && TailLen(s[m + i..]) == Some(|s| - m - i)
  {
    NumberStart(s);
    m := if s[0] == '-' then 1 else 0;
    i := IntLen(s[m..]);
    NumberLenIs(s, m, i);
  }

  lemma TailChars(s: string)
    requires TailLen(s) == Some(|s|)
    ensures NumberChars(s)
  {
    var f := FracLen(s).value;
    FracChars(s);
    ExpChars(s[f..]);
    CharsAppend(s, f, |s| - f);
    assert s[..|s|] == s;
  }

  lemma NumberIsChars(s: string)
    requires IsNumber(s)
    ensures NumberChars(s)
  {
    var m, i := NumberParts(s);
    IntChars(s[m..]);
    CharsAppend(s, m, i);
    TailChars(s[m + i..]);
    assert s == s[..m + i] + s[m + i..];
  }

  lemma NumberHasNoNewline(s: string)
    requires IsNumber(s)
    ensures '\n' !in s
  {
    NumberIsChars(s);
  }

  ghost predicate OneLine(m: Member) {
    '\n' !in m.text
  }

  lemma FloatOnOneLine(text: string)
    requires FloatText(text)
    ensures '\n' !in text
  {
    if IsNumber(text) { NumberHasNoNewline(text); }
  }

  lemma ValueOnOneLine(v: Value)
    requires Printable(v)
    ensures '\n' !in ValueText(v)
  {
    match v {
      case String(s) => EscapeHasNoNewline(s);
      case Int(i) => DecIsNumber(i); NumberHasNoNewline(DecInt(i));
      case Float(text) => FloatOnOneLine(text);
      case Boolean(_) =>
      case Duration(text) => EscapeHasNoNewline(text);
      case Time(text) =>
      case Error(e) => if e.Some? { EscapeHasNoNewline(e.value); }
      case Any(a) =>
        match a {
          case Nil =>
          case AnyString(s) => EscapeHasNoNewline(s);
          case AnyBool(_) =>
          case AnyInt(i) => DecIsNumber(i); NumberHasNoNewline(DecInt(i));
          case AnyFloat(text) => FloatOnOneLine(text);
          case AnyError(s) => EscapeHasNoNewline(s);
          case AnyStringer(s) => EscapeHasNoNewline(s);
          case Marshalled(_, _) =>
          case MarshalFailed(msg) => EscapeHasNoNewline("!ERR:" + msg);
        }
    }
  }

  ghost predicate AllOneLine(ms: seq<Member>) {
    forall i :: 0 <= i < |ms| ==> OneLine(ms[i])
  }

  lemma AppendOneLine(a: seq<Member>, b: seq<Member>)
    requires AllOneLine(a) && AllOneLine(b)
    ensures AllOneLine(a + b)
  {
  }

  lemma ItemOnOneLine(m: Member)
    requires OneLine(m)
    ensures '\n' !in Item(m)
  {
    EscapeHasNoNewline(m.key);
  }

  lemma {:induction false} JoinOnOneLine(ms: seq<Member>)
    requires AllOneLine(ms)
    ensures '\n' !in Join(ms)
  {
    if ms != [] {
      var k := |ms| - 1;
      assert OneLine(ms[k]) && AllOneLine(ms[..k]);
      JoinOnOneLine(ms[..k]);
      ItemOnOneLine(ms[k]);
      assert Join(ms) == Join(ms[..k]) + (if |ms| == 1 then "" else ",") + Item(ms[k]);
    }
  }

  lemma QuotedOneLine(key: string, s: string)
    ensures OneLine(Member(key, Quote(s), Str(s)))
  {
    EscapeHasNoNewline(s);
  }

  lemma LevelOneLine(e: Encoder, r: Record)
    ensures OneLine(LevelMember(e, r))
  {
    DecIsNumber(r.level);
    NumberHasNoNewline(DecInt(r.level));
    EscapeHasNoNewline(LevelName(r.level));
  }

  lemma LeadingOnOneLine(e: Encoder, r: Record)
    requires PrintableRecord(r)
    ensures AllOneLine(Leading(e, r))
  {
    var level, message := LevelMember(e, r), Member(Or(e.msgKey, "msg"), Quote(r.message), Str(r.message));
    LevelOneLine(e, r);
    QuotedOneLine(Or(e.msgKey, "msg"), r.message);
    QuotedOneLine("event", r.eventName);
    AppendOneLine(TimeMembers(e, r), [level]);
    AppendOneLine(TimeMembers(e, r) + [level], [message]);
  }

  ghost predicate CallerOneLine(r: Record) {
    r.source.Some? ==> '\n' !in r.source.value.file
  }

  lemma CallerLine(s: Source)
    ensures '\n' in CallerText(s) <==> '\n' in s.file
  {
    DecIntPlain(s.line);
    var d := ":" + DecInt(s.line);
    assert '\n' !in d by { assert forall i :: 0 <= i < |d| ==> !NeedsEscape(d[i]); }
    assert CallerText(s) == s.file + d;
  }

  lemma CallerOnOneLine(r: Record)
    ensures AllOneLine(CallerMembers(r)) <==> CallerOneLine(r)
  {
    if r.source.Some? {
      CallerLine(r.source.value);
      assert CallerMembers(r)[0].text == "\"" + CallerText(r.source.value) + "\"";
      assert OneLine(CallerMembers(r)[0]) <==> CallerOneLine(r);
    }
  }

  lemma FieldsOnOneLine(r: Record)
    requires PrintableRecord(r)
    ensures AllOneLine(FieldMembers(r.fields))
  {
    forall i | 0 <= i < |r.fields| ensures OneLine(FieldMembers(r.fields)[i]) {
      ValueOnOneLine(r.fields[i].value);
    }
  }

  lemma InPieces(a: string, b: string, c: string, x: char)
    requires x in a || x in c
    ensures x in a + b + c
  {
    var s := a + b + c;
    if i :| 0 <= i < |a| && a[i] == x {
      assert s[i] == x;
    } else {
      var j :| 0 <= j < |c| && c[j] == x;
      assert s[|a| + |b| + j] == x;
    }
  }

  /** A newline in a member's text is a newline in the line. */
  lemma {:induction false} JoinHas(ms: seq<Member>, i: nat)
    requires i < |ms| && !OneLine(ms[i])
    ensures '\n' in Join(ms)
  {
    var k := |ms| - 1;
    if i < k {
      JoinHas(ms[..k], i);
    } else {
      InPieces(Quote(ms[k].key), ":", ms[k].text, '\n');
    }
    InPieces(Join(ms[..k]), if |ms| == 1 then "" else ",", Item(ms[k]), '\n');
  }

  lemma MembersOnOneLine(e: Encoder, r: Record)
    requires PrintableRecord(r)
    ensures '\n' !in Join(Members(e, r)) <==> CallerOneLine(r)
  {
    var ms := Members(e, r);
    LeadingOnOneLine(e, r);
    CallerOnOneLine(r);
    FieldsOnOneLine(r);
    if CallerOneLine(r) {
      AppendOneLine(Leading(e, r), CallerMembers(r));
      AppendOneLine(Leading(e, r) + CallerMembers(r), FieldMembers(r.fields));
      JoinOnOneLine(ms);
    } else {
      var i := |Leading(e, r)|;
      assert ms[i] == CallerMembers(r)[0];
      JoinHas(ms, i);
    }
  }

  /** The newline that ends an encoded line is its only one exactly when the caller's file
      name contains none. */
  lemma OneNewline(e: Encoder, r: Record)
    requires PrintableRecord(r)
    ensures var s := LineText(e, r);
            s[|s| - 1] == '\n' && ('\n' !in s[..|s| - 1] <==> CallerOneLine(r))
  {
    MembersOnOneLine(e, r);
    var s := LineText(e, r);
    assert s[..|s| - 1] == "{" + Join(Members(e, r)) + "}";
  }
}
