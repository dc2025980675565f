/** The JSON line encoder, writing into a growing buffer. What formatting of floats,
    times and durations, `Error()`, `String()` and `json.Marshal` return is part of the
    value. */
module JsonEncoder {
  import opened Common
  import opened Json
  import opened JsonText

  /** The escape hatch: the dynamic types that are told apart, and everything else as
      `json.Marshal` renders it, with the value that text stands for. */
  datatype AnyValue =
    | Nil
    | AnyString(s: string)
    | AnyBool(b: bool)
    | AnyInt(i: int)
    | AnyFloat(text: string)
    | AnyError(s: string)
    | AnyStringer(s: string)
    | Marshalled(text: string, tree: Json)
    | MarshalFailed(msg: string)

  datatype Value =
    | String(s: string)
    | Int(i: int)
    | Float(text: string)
    | Boolean(b: bool)
    | Duration(text: string)
    | Time(text: string)
    | Error(e: Option<string>)
    | Any(a: AnyValue)

  datatype Field = Field(key: string, value: Value)

  datatype Source = Source(file: string, line: int)

  /** `time` is absent for the zero time. */
  datatype Record = Record(
    time: Option<string>, level: int, message: string, eventName: string, source: Option<Source>, fields: seq<Field>)

  datatype Encoder = Encoder(timeKey: string, levelKey: string, msgKey: string, numericLevel: bool)

  function LevelName(l: int): string {
    if l <= 0 then "unspecified"
    else if l < 5 then "trace"
    else if l < 9 then "debug"
    else if l < 13 then "info"
    else if l < 17 then "warn"
    else if l < 21 then "error"
    else "fatal"
  }

  class Buffer {
    var b: string

    constructor ()
      ensures b == ""
    {
      b := "";
    }

    method WriteByte(c: char)
      modifies this
      ensures b == old(b) + [c]
    {
      b := b + [c];
    }

    method WriteString(s: string)
      modifies this
      ensures b == old(b) + s
    {
      b := b + s;
    }

    /** Copies runs of plain bytes in one go, and equals escaping byte by byte. */
    method WriteJSONString(s: string)
      modifies this
      ensures b == old(b) + Quote(s)
    {
      b := b + "\"";
      ghost var head := b;
      var start := 0;
      for i := 0 to |s|
        invariant start <= i && PlainRun(s, start, i)
        invariant b == head + Escape(s[..start])
      {
        var c := s[i];
        if c >= ' ' && c != '"' && c != '\\' {
          continue;
        }
        FlushRun(s, start, i);
        Regroup(head, Escape(s[..start]), s[start..i], EscapeChar(c));
        b := b + s[start..i];
        WriteEscape(c);
        start := i + 1;
      }
      LastRun(s, start);
      Regroup(head, Escape(s[..start]), s[start..], "\"");
      b := b + s[start..];
      b := b + "\"";
      Regroup(old(b), "\"", Escape(s), "\"");
    }

    method WriteEscape(c: char)
      requires NeedsEscape(c)
      modifies this
      ensures b == old(b) + EscapeChar(c)
    {
      match c {
        case '"' => b := b + "\\\"";
        case '\\' => b := b + "\\\\";
        case '\n' => b := b + "\\n";
        case '\r' => b := b + "\\r";
        case '\t' => b := b + "\\t";
        case _ => b := b + "\\u00" + [HexDigit(c as nat / 16), HexDigit(c as nat % 16)];
      }
    }
  }

  lemma Regroup(a: string, b: string, c: string, d: string)
    ensures a + b + c + d == a + (b + c + d)
    ensures a + b + c + d == (a + (b + c)) + d
    ensures a + b + (c + d) == a + (b + c + d)
  {
  }

  predicate PlainRun(s: string, start: nat, i: nat)
    requires start <= i <= |s|
  {
    forall k :: start <= k < i ==> !NeedsEscape(s[k])
  }

  lemma EscapeRun(s: string, start: nat, i: nat)
    requires start <= i <= |s| && PlainRun(s, start, i)
    ensures Escape(s[..i]) == Escape(s[..start]) + s[start..i]
  {
    var run := s[start..i];
    assert NeedsNone(run) by {
      forall k | 0 <= k < |run| ensures !NeedsEscape(run[k]) { assert run[k] == s[start + k]; }
    }
    PlainEscapes(s[..start], run);
    assert s[..i] == s[..start] + run;
  }

  /** A run of plain bytes escapes to itself; the byte after it is escaped. */
  lemma FlushRun(s: string, start: nat, i: nat)
    requires start <= i < |s| && PlainRun(s, start, i)
    ensures Escape(s[..i + 1]) == Escape(s[..start]) + s[start..i] + EscapeChar(s[i])
  {
    EscapeRun(s, start, i);
    EscapeSnoc(s[..i], s[i]);
    assert s[..i + 1] == s[..i] + [s[i]];
  }

  lemma LastRun(s: string, start: nat)
    requires start <= |s| && PlainRun(s, start, |s|)
    ensures Escape(s) == Escape(s[..start]) + s[start..]
  {
    EscapeRun(s, start, |s|);
    assert s[..|s|] == s && s[start..|s|] == s[start..];
  }

  lemma SnocString(a: string, t: string)
    requires t != ""
    ensures a + t[..|t| - 1] + [t[|t| - 1]] == a + t
  {
  }

  lemma {:induction false} PlainEscapes(a: string, t: string)
    requires NeedsNone(t)
    ensures Escape(a + t) == Escape(a) + t
  {
    if t == "" {
      assert a + t == a;
    } else {
      var k := |t| - 1;
      PlainEscapes(a, t[..k]);
      EscapeSnoc(a + t[..k], t[k]);
      assert EscapeChar(t[k]) == [t[k]];
      SnocString(a, t);
      SnocString(Escape(a), t);
    }
  }

  lemma {:induction false} EscapeSnoc(s: string, c: char)
    ensures Escape(s + [c]) == Escape(s) + EscapeChar(c)
  {
    if s == "" {
      assert s + [c] == [c];
      assert Escape([c]) == EscapeChar(c) + Escape("");
    } else {
      assert (s + [c])[1..] == s[1..] + [c];
      EscapeSnoc(s[1..], c);
    }
  }

  // ----- field values -----

  function AnyText(a: AnyValue): string {
    match a
    case Nil => "null"
    case AnyString(s) => Quote(s)
    case AnyBool(b) => if b then "true" else "false"
    case AnyInt(i) => DecInt(i)
    case AnyFloat(text) => text
    case AnyError(s) => Quote(s)
    case AnyStringer(s) => Quote(s)
    case Marshalled(text, _) => text
    case MarshalFailed(msg) => Quote("!ERR:" + msg)
  }

  function ValueText(v: Value): string {
    match v
    case String(s) => Quote(s)
    case Int(i) => DecInt(i)
    case Float(text) => text
    case Boolean(b) => if b then "true" else "false"
    case Duration(text) => Quote(text)
    case Time(text) => "\"" + text + "\""
    case Error(e) => if e.Some? then Quote(e.value) else "null"
    case Any(a) => AnyText(a)
  }

  /** The JSON value a field stands for. */
  function ValueJson(v: Value): Json {
    match v
    case String(s) => Str(s)
    case Int(i) => Number(DecInt(i))
    case Float(text) => Number(text)
    case Boolean(b) => Bool(b)
    case Duration(text) => Str(text)
    case Time(text) => Str(text)
    case Error(e) => if e.Some? then Str(e.value) else Null
    case Any(a) =>
      match a
      case Nil => Null
      case AnyString(s) => Str(s)
      case AnyBool(b) => Bool(b)
      case AnyInt(i) => Number(DecInt(i))
      case AnyFloat(text) => Number(text)
      case AnyError(s) => Str(s)
      case AnyStringer(s) => Str(s)
      case Marshalled(_, tree) => tree
      case MarshalFailed(msg) => Str("!ERR:" + msg)
  }

  /** What the formatter makes of a float: a number, or one of three words. */
  predicate FloatText(text: string) {
    IsNumber(text) || NotFinite(text)
  }

  predicate NotFinite(text: string) {
    text == "NaN" || text == "+Inf" || text == "-Inf"
  }

  /** The value is not a float that has no JSON form. */
  predicate Finite(v: Value) {
    (v.Float? ==> IsNumber(v.text)) && (v.Any? && v.a.AnyFloat? ==> IsNumber(v.a.text))
  }

  /** A formatted time has nothing to escape; `json.Marshal` returns the text of the value,
      on one line. */
  ghost predicate Printable(v: Value) {
    match v
    case Float(text) => FloatText(text)
    case Time(text) => NeedsNone(text)
    case Any(a) =>
      (match a
       case AnyFloat(text) => FloatText(text)
       case Marshalled(text, tree) => Renders(text, tree) && '\n' !in text
       case _ => true)
    case _ => true
  }

  lemma ValueRenders(v: Value)
    requires Printable(v) && Finite(v)
    ensures Renders(ValueText(v), ValueJson(v))
  {
    LiteralRenders();
    match v {
      case String(s) => QuoteRenders(s);
      case Int(i) => DecIsNumber(i); NumberRenders(DecInt(i));
      case Float(text) => NumberRenders(text);
      case Boolean(_) =>
      case Duration(text) => QuoteRenders(text);
      case Time(text) => RawRenders(text);
      case Error(e) => if e.Some? { QuoteRenders(e.value); }
      case Any(a) =>
        match a {
          case Nil =>
          case AnyString(s) => QuoteRenders(s);
          case AnyBool(_) =>
          case AnyInt(i) => DecIsNumber(i); NumberRenders(DecInt(i));
          case AnyFloat(text) => NumberRenders(text);
          case AnyError(s) => QuoteRenders(s);
          case AnyStringer(s) => QuoteRenders(s);
          case Marshalled(_, _) =>
          case MarshalFailed(msg) => QuoteRenders("!ERR:" + msg);
        }
    }
  }

  method AppendAny(buf: Buffer, a: AnyValue)
    modifies buf
    ensures buf.b == old(buf.b) + AnyText(a)
  {
    match a {
      case Nil => buf.WriteString("null");
      case AnyString(s) => buf.WriteJSONString(s);
      case AnyBool(b) => buf.WriteString(if b then "true" else "false");
      case AnyInt(i) => buf.WriteString(DecInt(i));
      case AnyFloat(text) => buf.WriteString(text);
      case AnyError(s) => buf.WriteJSONString(s);
      case AnyStringer(s) => buf.WriteJSONString(s);
      case Marshalled(text, _) => buf.WriteString(text);
      case MarshalFailed(msg) => buf.WriteJSONString("!ERR:" + msg);
    }
  }

  method AppendFieldValue(buf: Buffer, v: Value)
    modifies buf
    ensures buf.b == old(buf.b) + ValueText(v)
  {
    match v {
      case String(s) => buf.WriteJSONString(s);
      case Int(i) => buf.WriteString(DecInt(i));
      case Float(text) => buf.WriteString(text);
      case Boolean(b) => buf.WriteString(if b then "true" else "false");
      case Duration(text) => buf.WriteJSONString(text);
      case Time(text) =>
        buf.WriteByte('"');
        buf.WriteString(text);
        buf.WriteByte('"');
      case Error(e) =>
        if e.Some? { buf.WriteJSONString(e.value); } else { buf.WriteString("null"); }
      case Any(a) => AppendAny(buf, a);
    }
  }

  // ----- lines -----

  /** A key, the text written for its value, and the value meant. */
  datatype Member = Member(key: string, text: string, value: Json)

  function Item(m: Member): string {
    Quote(m.key) + ":" + m.text
  }

  function Join(ms: seq<Member>): string {
    if ms == [] then ""
    else Join(ms[..|ms| - 1]) + (if |ms| == 1 then "" else ",") + Item(ms[|ms| - 1])
  }

  function Or(s: string, default: string): string {
    if s == "" then default else s
  }

  /** "file:line", written without escaping. */
  function CallerText(s: Source): string {
    s.file + ":" + DecInt(s.line)
  }

  function TimeMembers(e: Encoder, r: Record): seq<Member> {
    if r.time.Some? then [Member(Or(e.timeKey, "time"), "\"" + r.time.value + "\"", Str(r.time.value))] else []
  }

  function LevelMember(e: Encoder, r: Record): Member {
    if e.numericLevel then Member(Or(e.levelKey, "level"), DecInt(r.level), Number(DecInt(r.level)))
    else Member(Or(e.levelKey, "level"), Quote(LevelName(r.level)), Str(LevelName(r.level)))
  }

  /** What comes before the caller. */
  function Leading(e: Encoder, r: Record): seq<Member> {
    TimeMembers(e, r) + [LevelMember(e, r)] + [Member(Or(e.msgKey, "msg"), Quote(r.message), Str(r.message))]
    + (if r.eventName != "" then [Member("event", Quote(r.eventName), Str(r.eventName))] else [])
  }

  function CallerMembers(r: Record): seq<Member> {
    if r.source.Some? then
      [Member("caller", "\"" + CallerText(r.source.value) + "\"", Str(CallerText(r.source.value)))]
    else []
  }

  function FieldMembers(fields: seq<Field>): (ms: seq<Member>)
    ensures |ms| == |fields|
    ensures forall i :: 0 <= i < |fields| ==>
              ms[i] == Member(fields[i].key, ValueText(fields[i].value), ValueJson(fields[i].value))
  {
    seq(|fields|, i requires 0 <= i < |fields| =>
      Member(fields[i].key, ValueText(fields[i].value), ValueJson(fields[i].value)))
  }

  function Members(e: Encoder, r: Record): seq<Member> {
    Leading(e, r) + CallerMembers(r) + FieldMembers(r.fields)
  }

  function LineText(e: Encoder, r: Record): string {
    "{" + Join(Members(e, r)) + "}\n"
  }

  lemma JoinSnoc(init: seq<Member>, last: Member)
    requires init != []
    ensures Join(init + [last]) == Join(init) + "," + Item(last)
  {
    assert (init + [last])[..|init|] == init;
  }

  /** A comma and one more member. */
  lemma JoinMore(head: string, ms: seq<Member>, m: Member)
    requires ms != []
    ensures head + Join(ms) + "," + Quote(m.key) + ":" + m.text == head + Join(ms + [m])
  {
    JoinSnoc(ms, m);
    Pieces(head, Join(ms), Quote(m.key), m.text);
  }

  lemma Pieces(head: string, body: string, key: string, text: string)
    ensures head + body + "," + key + ":" + text == head + (body + "," + (key + ":" + text))
  {
  }

  lemma JoinFirst(head: string, m: Member)
    ensures head + Quote(m.key) + ":" + m.text == head + Join([m])
  {
    assert [m][..0] == [];
    assert Join([m]) == "" + "" + Item(m);
  }

  method EncodeHead(buf: Buffer, e: Encoder, r: Record, ghost head: string)
    requires buf.b == head
    modifies buf
    ensures buf.b == head + Join(TimeMembers(e, r) + [LevelMember(e, r)])
  {
    var first := true;
    ghost var ms := TimeMembers(e, r);
    if r.time.Some? {
      var tk := Or(e.timeKey, "time");
      JoinFirst(head, ms[0]);
      buf.WriteJSONString(tk);
      buf.WriteByte(':');
      ghost var b := buf.b;
      buf.WriteByte('"');
      buf.WriteString(r.time.value);
      buf.WriteByte('"');
      assert buf.b == b + ms[0].text;
      first := false;
    }
    assert buf.b == head + Join(ms);
    if !first {
      buf.WriteByte(',');
      JoinMore(head, ms, LevelMember(e, r));
    } else {
      JoinFirst(head, LevelMember(e, r));
      assert ms + [LevelMember(e, r)] == [LevelMember(e, r)];
    }
    buf.WriteJSONString(Or(e.levelKey, "level"));
    buf.WriteByte(':');
    if e.numericLevel {
      buf.WriteString(DecInt(r.level));
    } else {
      buf.WriteJSONString(LevelName(r.level));
    }
  }

  /** A member whose value is an escaped string. */
  method EncodeString(buf: Buffer, key: string, s: string, ghost head: string, ghost ms: seq<Member>)
    requires ms != [] && buf.b == head + Join(ms)
    modifies buf
    ensures buf.b == head + Join(ms + [Member(key, Quote(s), Str(s))])
  {
    JoinMore(head, ms, Member(key, Quote(s), Str(s)));
    buf.WriteByte(',');
    buf.WriteJSONString(key);
    buf.WriteByte(':');
    buf.WriteJSONString(s);
  }

  method EncodeCaller(buf: Buffer, src: Source, ghost head: string, ghost ms: seq<Member>)
    requires ms != [] && buf.b == head + Join(ms)
    modifies buf
    ensures buf.b == head + Join(ms + [Member("caller", "\"" + CallerText(src) + "\"", Str(CallerText(src)))])
  {
    ghost var m := Member("caller", "\"" + CallerText(src) + "\"", Str(CallerText(src)));
    JoinMore(head, ms, m);
    buf.WriteByte(',');
    buf.WriteJSONString("caller");
    buf.WriteByte(':');
    ghost var b := buf.b;
    buf.WriteByte('"');
    buf.WriteString(src.file);
    buf.WriteByte(':');
    buf.WriteString(DecInt(src.line));
    buf.WriteByte('"');
    CallerParts(b, src);
  }

  lemma CallerParts(b: string, src: Source)
    ensures b + ['"'] + src.file + [':'] + DecInt(src.line) + ['"'] == b + ("\"" + CallerText(src) + "\"")
  {
  }

  method EncodeField(buf: Buffer, f: Field, ghost head: string, ghost ms: seq<Member>)
    requires ms != [] && buf.b == head + Join(ms)
    modifies buf
    ensures buf.b == head + Join(ms + [Member(f.key, ValueText(f.value), ValueJson(f.value))])
  {
    JoinMore(head, ms, Member(f.key, ValueText(f.value), ValueJson(f.value)));
    buf.WriteByte(',');
    buf.WriteJSONString(f.key);
    buf.WriteByte(':');
    AppendFieldValue(buf, f.value);
  }

  method EncodeFields(buf: Buffer, fields: seq<Field>, ghost head: string, ghost ms: seq<Member>)
    requires ms != [] && buf.b == head + Join(ms)
    modifies buf
    ensures buf.b == head + Join(ms + FieldMembers(fields))
  {
    ghost var fs, done := FieldMembers(fields), ms;
    for i := 0 to |fields|
      invariant done == ms + fs[..i] && done != []
      invariant buf.b == head + Join(done)
    {
      EncodeField(buf, fields[i], head, done);
      OneMore(ms, fs, i);
      done := done + [fs[i]];
    }
    assert fs[..|fields|] == fs;
  }

  lemma OneMore(ms: seq<Member>, fs: seq<Member>, i: nat)
    requires i < |fs|
    ensures ms + fs[..i] + [fs[i]] == ms + fs[..i + 1]
  {
  }

  method EncodeLeading(buf: Buffer, e: Encoder, r: Record, ghost head: string)
    requires buf.b == head
    modifies buf
    ensures buf.b == head + Join(Leading(e, r))
  {
    EncodeHead(buf, e, r, head);
    ghost var ms := TimeMembers(e, r) + [LevelMember(e, r)];
    EncodeString(buf, Or(e.msgKey, "msg"), r.message, head, ms);
    ms := ms + [Member(Or(e.msgKey, "msg"), Quote(r.message), Str(r.message))];
    if r.eventName != "" {
      EncodeString(buf, "event", r.eventName, head, ms);
      ms := ms + [Member("event", Quote(r.eventName), Str(r.eventName))];
    }
    assert ms == Leading(e, r);
  }

  lemma CloseLine(b: string, body: string)
    ensures (b + ['{']) + body + ['}'] + ['\n'] == b + ("{" + body + "}\n")
  {
  }

  /** One object per line, its members in the order time, level, message, event,
      caller, fields. */
  method Encode(e: Encoder, buf: Buffer, r: Record)
    modifies buf
    ensures buf.b == old(buf.b) + LineText(e, r)
  {
    buf.WriteByte('{');
    ghost var head := buf.b;
    EncodeLeading(buf, e, r, head);
    ghost var ms := Leading(e, r);
    if r.source.Some? {
      EncodeCaller(buf, r.source.value, head, ms);
      ms := ms + CallerMembers(r);
    }
    assert ms == Leading(e, r) + CallerMembers(r);
    EncodeFields(buf, r.fields, head, ms);
    buf.WriteByte('}');
    buf.WriteByte('\n');
    CloseLine(old(buf.b), Join(Members(e, r)));
  }
}
