/** What a reader of an encoded line gets back: the record, in values rather than in texts. */
module JsonReads {
  import opened Common
  import opened Json
  import opened JsonText
  import opened JsonEncoder
  import opened JsonLines

  /** A reader of j gets the value v. */
  ghost predicate Reads(v: Value, j: Json) {
    match v
    case String(s) => j == Str(s)
    case Int(i) => IntIs(i, j)
    case Float(text) => j == Number(text)
    case Boolean(b) => j == Bool(b)
    case Duration(text) => j == Str(text)
    case Time(text) => j == Str(text)
    case Error(e) => if e.Some? then j == Str(e.value) else j == Null
    case Any(a) =>
      match a
      case Nil => j == Null
      case AnyString(s) => j == Str(s)
      case AnyBool(b) => j == Bool(b)
      case AnyInt(i) => IntIs(i, j)
      case AnyFloat(text) => j == Number(text)
      case AnyError(s) => j == Str(s)
      case AnyStringer(s) => j == Str(s)
      case Marshalled(_, tree) => j == tree
      case MarshalFailed(msg) => j == Str("!ERR:" + msg)
  }

  ghost predicate IntIs(i: int, j: Json) {
    j.Number? && ReadInt(j.text) == Some(i)
  }

  lemma ValueReads(v: Value)
    ensures Reads(v, ValueJson(v))
  {
    match v {
      case Int(i) => ReadBack(i);
      case Any(a) => if a.AnyInt? { ReadBack(a.i); }
      case _ =>
    }
  }

  // ----- levels -----

  const BANDS := ["trace", "debug", "info", "warn", "error", "fatal"]

  /** Four levels to a band, from 1 on; the last band has no end. */
  function Band(l: int): string {
    if l <= 0 then "unspecified" else if l > 24 then "fatal" else BANDS[(l - 1) / 4]
  }

  lemma LevelIsBand(l: int)
    ensures LevelName(l) == Band(l)
  {
    if 0 < l <= 24 {
      var k := (l - 1) / 4;
      assert k in {0, 1, 2, 3, 4, 5};
    }
  }

  // ----- the line -----

  /** "file:line" reads as that file and that line. */
  ghost predicate CallerIs(src: Source, j: Json) {
    var k := |src.file|;
    && j.Str? && |j.s| > k && j.s[..k] == src.file && j.s[k] == ':' && ReadInt(j.s[k + 1..]) == Some(src.line)
  }

  ghost predicate LevelIs(e: Encoder, l: int, j: Json) {
    if e.numericLevel then IntIs(l, j) else j == Str(Band(l))
  }

  function Configured(key: string, default: string): string {
    if key != "" then key else default
  }

  function One(b: bool): nat {
    if b then 1 else 0
  }

  /** The pairs of a line that holds the record: time, level, message, event, caller and
      fields, in this order, the optional ones only if the record has them. */
  ghost predicate Holds(e: Encoder, r: Record, ps: seq<(string, Json)>) {
    var t := One(r.time.Some?);
    var c := t + 2 + One(r.eventName != "");
    var f := c + One(r.source.Some?);
    && |ps| == f + |r.fields|
    && (r.time.Some? ==> ps[0] == (Configured(e.timeKey, "time"), Str(r.time.value)))
    && ps[t].0 == Configured(e.levelKey, "level") && LevelIs(e, r.level, ps[t].1)
    && ps[t + 1] == (Configured(e.msgKey, "msg"), Str(r.message))
    && (r.eventName != "" ==> ps[t + 2] == ("event", Str(r.eventName)))
    && (r.source.Some? ==> ps[c].0 == "caller" && CallerIs(r.source.value, ps[c].1))
    && (forall k: nat :: k < |r.fields| ==> ps[f + k].0 == r.fields[k].key && Reads(r.fields[k].value, ps[f + k].1))
  }

  lemma CallerReads(src: Source)
    ensures CallerIs(src, Str(CallerText(src)))
  {
    var s, k := CallerText(src), |src.file|;
    assert s[k + 1..] == DecInt(src.line);
    ReadBack(src.line);
  }

  lemma LevelReads(e: Encoder, r: Record)
    ensures LevelIs(e, r.level, LevelMember(e, r).value)
  {
    ReadBack(r.level);
    LevelIsBand(r.level);
  }

  ghost predicate LeadingIs(e: Encoder, r: Record, ms: seq<Member>) {
    var t := One(r.time.Some?);
    && |ms| == t + 2 + One(r.eventName != "")
    && (r.time.Some? ==> ms[0].key == Configured(e.timeKey, "time") && ms[0].value == Str(r.time.value))
    && ms[t].key == Configured(e.levelKey, "level") && LevelIs(e, r.level, ms[t].value)
    && ms[t + 1].key == Configured(e.msgKey, "msg") && ms[t + 1].value == Str(r.message)
    && (r.eventName != "" ==> ms[t + 2].key == "event" && ms[t + 2].value == Str(r.eventName))
  }

  lemma LeadingHolds(e: Encoder, r: Record)
    ensures LeadingIs(e, r, Leading(e, r))
  {
    LevelReads(e, r);
  }

  ghost predicate CallerPart(r: Record, ms: seq<Member>) {
    && |ms| == One(r.source.Some?)
    && (r.source.Some? ==> ms[0].key == "caller" && CallerIs(r.source.value, ms[0].value))
  }

  lemma CallerHolds(r: Record)
    ensures CallerPart(r, CallerMembers(r))
  {
    if r.source.Some? { CallerReads(r.source.value); }
  }

  ghost predicate FieldsPart(r: Record, ms: seq<Member>) {
    && |ms| == |r.fields|
    && (forall k: nat :: k < |ms| ==> ms[k].key == r.fields[k].key && Reads(r.fields[k].value, ms[k].value))
  }

  lemma FieldsHold(r: Record)
    ensures FieldsPart(r, FieldMembers(r.fields))
  {
    var ms := FieldMembers(r.fields);
    forall k: nat | k < |ms| ensures ms[k].key == r.fields[k].key && Reads(r.fields[k].value, ms[k].value) {
      ValueReads(r.fields[k].value);
    }
  }

  /** The pairs are those of three lists of members, one after the other. */
  ghost predicate Located(a: seq<Member>, b: seq<Member>, c: seq<Member>, ps: seq<(string, Json)>) {
    && |ps| == |a| + |b| + |c|
    && (forall k: nat :: k < |a| ==> ps[k] == (a[k].key, a[k].value))
    && (forall k: nat :: k < |b| ==> ps[|a| + k] == (b[k].key, b[k].value))
    && (forall k: nat :: k < |c| ==> ps[|a| + |b| + k] == (c[k].key, c[k].value))
  }

  lemma PairsLocated(a: seq<Member>, b: seq<Member>, c: seq<Member>)
    ensures Located(a, b, c, Pairs(a + b + c))
  {
  }

  lemma PairsHold(e: Encoder, r: Record, a: seq<Member>, b: seq<Member>, c: seq<Member>, ps: seq<(string, Json)>)
    requires Located(a, b, c, ps) && LeadingIs(e, r, a) && CallerPart(r, b) && FieldsPart(r, c)
    ensures Holds(e, r, ps)
  {
    forall k: nat | k < |c|
      ensures ps[|a| + |b| + k].0 == r.fields[k].key && Reads(r.fields[k].value, ps[|a| + |b| + k].1)
    {
      assert c[k].key == r.fields[k].key;
    }
    if r.source.Some? { assert ps[|a| + 0] == (b[0].key, b[0].value); }
  }

  lemma MembersHold(e: Encoder, r: Record)
    ensures Holds(e, r, Pairs(Members(e, r)))
  {
    LeadingHolds(e, r);
    CallerHolds(r);
    FieldsHold(r);
    PairsLocated(Leading(e, r), CallerMembers(r), FieldMembers(r.fields));
    PairsHold(e, r, Leading(e, r), CallerMembers(r), FieldMembers(r.fields), Pairs(Members(e, r)));
  }

  /** A reader of an encoded line gets the record back, its integers, level and line number as
      the integers they are, whenever its caller needs no escaping and its floats are
      finite. */
  lemma LineReads(e: Encoder, r: Record)
    requires PrintableRecord(r) && CallerClean(r) && AllFinite(r.fields)
    ensures var p := ParseLine(LineText(e, r)); p.Some? && Holds(e, r, p.value)
  {
    LineBack(e, r);
    MembersHold(e, r);
  }
}
