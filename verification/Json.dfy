/** JSON text as RFC 8259 defines it: a parser for values (sections 2 to 7), and the
    encoder's way of writing strings. Characters stand for bytes; whatever is at
    least a blank passes through. A \u escape that names half of a surrogate pair is
    rejected. */
module Json {
  import opened Common
  import opened Decimal

  // ----- escaping -----

  predicate NeedsEscape(c: char) {
    c < ' ' || c == '"' || c == '\\'
  }

  predicate NeedsNone(s: string) {
    forall i :: 0 <= i < |s| ==> !NeedsEscape(s[i])
  }

  function HexDigit(n: nat): char
    requires n < 16
  {
    if n < 10 then '0' + n as char else 'a' + (n - 10) as char
  }

  /** How one byte is written inside a string. */
  function EscapeChar(c: char): string {
    if c == '"' then "\\\""
    else if c == '\\' then "\\\\"
    else if c == '\n' then "\\n"
    else if c == '\r' then "\\r"
    else if c == '\t' then "\\t"
    else if c < ' ' then "\\u00" + [HexDigit(c as nat / 16), HexDigit(c as nat % 16)]
    else [c]
  }

  function Escape(s: string): string {
    if s == "" then "" else EscapeChar(s[0]) + Escape(s[1..])
  }

  function Quote(s: string): string {
    "\"" + Escape(s) + "\""
  }

  // ----- strings: section 7 -----

  function HexValue(c: char): (v: Option<nat>)
    ensures v.Some? ==> v.value < 16
  {
    if '0' <= c <= '9' then Some((c - '0') as nat)
    else if 'a' <= c <= 'f' then Some((c - 'a') as nat + 10)
    else if 'A' <= c <= 'F' then Some((c - 'A') as nat + 10)
    else None
  }

  /** The character named by four hexadecimal digits. */
  function Hex4(s: string): Option<char> {
    if |s| < 4 then None
    else
      var (a, b, c, d) := (HexValue(s[0]), HexValue(s[1]), HexValue(s[2]), HexValue(s[3]));
      if a.None? || b.None? || c.None? || d.None? then None
      else
        var n := 4096 * a.value + 256 * b.value + 16 * c.value + d.value;
        if 0xD800 <= n < 0xE000 then None else Some(n as char)
  }

  function SimpleEscape(c: char): Option<char> {
    if c == '"' || c == '\\' || c == '/' then Some(c)
    else if c == 'b' then Some(8 as char)
    else if c == 'f' then Some(12 as char)
    else if c == 'n' then Some('\n')
    else if c == 'r' then Some('\r')
    else if c == 't' then Some('\t')
    else None
  }

  /** One possibly escaped character: what it stands for and how long it is. */
  function ParseChar(s: string): (r: Option<(char, nat)>)
    requires s != ""
    ensures r.Some? ==> 1 <= r.value.1 <= |s|
  {
    if s[0] == '\\' then
      if |s| < 2 then None
      else if s[1] == 'u' then
        match Hex4(s[2..])
        case Some(c) => Some((c, 6))
        case None => None
      else
        match SimpleEscape(s[1])
        case Some(c) => Some((c, 2))
        case None => None
    else if NeedsEscape(s[0]) then None
    else Some((s[0], 1))
  }

  /** The rest of a string after its opening quote, and what follows it. */
  function ParseChars(s: string): (r: Option<(string, string)>)
    ensures r.Some? ==> |r.value.1| < |s|
    decreases |s|
  {
    if s == "" then None
    else if s[0] == '"' then Some(("", s[1..]))
    else
      match ParseChar(s)
      case None => None
      case Some((c, k)) =>
        match ParseChars(s[k..])
        case None => None
        case Some((v, rest)) => Some(([c] + v, rest))
  }

  // ----- numbers: section 6 -----

  /** The length of the leading run of digits. */
  function DigitRun(s: string): (k: nat)
    ensures k <= |s|
  {
    if s == "" || !IsDigit(s[0]) then 0 else 1 + DigitRun(s[1..])
  }

  /** int = zero / ( digit1-9 *DIGIT ) */
  function IntLen(s: string): (k: nat)
    ensures k <= |s|
  {
    if s != "" && s[0] == '0' then 1 else DigitRun(s)
  }

  /** [ frac ], where a point must be followed by digits. */
  function FracLen(s: string): (k: Option<nat>)
    ensures k.Some? ==> k.value <= |s|
  {
    if s == "" || s[0] != '.' then Some(0)
    else if DigitRun(s[1..]) == 0 then None
    else Some(1 + DigitRun(s[1..]))
  }

  /** [ exp ] */
  function ExpLen(s: string): (k: Option<nat>)
    ensures k.Some? ==> k.value <= |s|
  {
    if s == "" || (s[0] != 'e' && s[0] != 'E') then Some(0)
    else
      var sign := if |s| > 1 && (s[1] == '+' || s[1] == '-') then 1 else 0;
      if DigitRun(s[1 + sign..]) == 0 then None
      else Some(1 + sign + DigitRun(s[1 + sign..]))
  }

  /** [ frac ] [ exp ] */
  function TailLen(s: string): (k: Option<nat>)
    ensures k.Some? ==> k.value <= |s|
  {
    match FracLen(s)
    case None => None
    case Some(f) =>
      match ExpLen(s[f..])
      case None => None
      case Some(e) => Some(f + e)
  }

  function Longer(n: nat, k: Option<nat>): Option<nat> {
    if k.Some? then Some(n + k.value) else None
  }

  /** The length of a number at the start of s. */
  function NumberLen(s: string): (k: Option<nat>)
    ensures k.Some? ==> 1 <= k.value <= |s|
  {
    var m := if s != "" && s[0] == '-' then 1 else 0;
    var i := IntLen(s[m..]);
    if i == 0 then None
    else
      Longer(m + i, TailLen(s[m + i..]))
  }

  predicate IsNumber(s: string) {
    NumberLen(s) == Some(|s|)
  }

  // ----- values: sections 2 to 5 -----

  datatype Json =
    | Null
    | Bool(b: bool)
    | Number(text: string)
    | Str(s: string)
    | Arr(items: seq<Json>)
    | Obj(members: seq<(string, Json)>)

  predicate IsWs(c: char) {
    c == ' ' || c == '\t' || c == '\n' || c == '\r'
  }

  function SkipWs(s: string): (r: string)
    ensures |r| <= |s|
  {
    if s != "" && IsWs(s[0]) then SkipWs(s[1..]) else s
  }

  predicate StartsWith(s: string, p: string) {
    |p| <= |s| && s[..|p|] == p
  }

  /** A value at the very start of s, and what follows it. */
  function ParseValue(s: string): (r: Option<(Json, string)>)
    ensures r.Some? ==> |r.value.1| < |s|
    decreases |s|, 1
  {
    if s == "" then None
    else if s[0] == '"' then
      match ParseChars(s[1..])
      case Some((v, rest)) => Some((Str(v), rest))
      case None => None
    else if s[0] == '{' then
      var t := SkipWs(s[1..]);
      if StartsWith(t, "}") then Some((Obj([]), t[1..]))
      else
        match ParseMembers(t)
        case Some((ms, rest)) => Some((Obj(ms), rest))
        case None => None
    else if s[0] == '[' then
      var t := SkipWs(s[1..]);
      if StartsWith(t, "]") then Some((Arr([]), t[1..]))
      else
        match ParseItems(t)
        case Some((vs, rest)) => Some((Arr(vs), rest))
        case None => None
    else if StartsWith(s, "true") then Some((Bool(true), s[4..]))
    else if StartsWith(s, "false") then Some((Bool(false), s[5..]))
    else if StartsWith(s, "null") then Some((Null, s[4..]))
    else
      match NumberLen(s)
      case Some(k) => Some((Number(s[..k]), s[k..]))
      case None => None
  }

  /** member *( "," member ) "}" */
  function ParseMembers(s: string): (r: Option<(seq<(string, Json)>, string)>)
    ensures r.Some? ==> |r.value.1| < |s|
    decreases |s|, 0
  {
    if s == "" || s[0] != '"' then None
    else
      match ParseChars(s[1..])
      case None => None
      case Some((key, r1)) =>
        var t := SkipWs(r1);
        if !StartsWith(t, ":") then None
        else
          match ParseValue(SkipWs(t[1..]))
          case None => None
          case Some((v, r2)) =>
            var u := SkipWs(r2);
            if StartsWith(u, "}") then Some(([(key, v)], u[1..]))
            else if StartsWith(u, ",") then
              match ParseMembers(SkipWs(u[1..]))
              case Some((ms, rest)) => Some(([(key, v)] + ms, rest))
              case None => None
            else None
  }

  /** value *( "," value ) "]" */
  function ParseItems(s: string): (r: Option<(seq<Json>, string)>)
    ensures r.Some? ==> |r.value.1| < |s|
    decreases |s|, 2
  {
    match ParseValue(s)
    case None => None
    case Some((v, r1)) =>
      var u := SkipWs(r1);
      if StartsWith(u, "]") then Some(([v], u[1..]))
      else if StartsWith(u, ",") then
        match ParseItems(SkipWs(u[1..]))
        case Some((vs, rest)) => Some(([v] + vs, rest))
        case None => None
      else None
  }

  /** One line of newline-delimited JSON: an object and a newline. */
  function ParseLine(s: string): Option<seq<(string, Json)>> {
    match ParseValue(s)
    case Some((Obj(ms), rest)) => if rest == "\n" then Some(ms) else None
    case _ => None
  }
}
