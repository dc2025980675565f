/** Printed JSON parses back, whatever follows it. */
module JsonText {
  import opened Common
  import opened Decimal
  import opened Json

  // ----- strings -----

  lemma HexBack(n: nat)
    requires n < 16
    ensures HexValue(HexDigit(n)) == Some(n)
  {
  }

  lemma CharBack(c: char, t: string)
    ensures ParseChar(EscapeChar(c) + t) == Some((c, |EscapeChar(c)|)) && EscapeChar(c)[0] != '"'
  {
    var s := EscapeChar(c) + t;
    if |EscapeChar(c)| == 6 {
      var n := c as nat;
      HexBack(n / 16);
      HexBack(n % 16);
      assert HexValue('0') == Some(0);
      assert s[2..][0] == '0' && s[2..][1] == '0' && s[2..][2] == HexDigit(n / 16) && s[2..][3] == HexDigit(n % 16);
      assert n == 16 * (n / 16) + n % 16;
    }
  }

  /** An escaped string is self-delimiting and unescapes to the original. */
  lemma {:induction false} StringBack(s: string, rest: string)
    ensures ParseChars(Escape(s) + "\"" + rest) == Some((s, rest))
  {
    var text := Escape(s) + "\"" + rest;
    if s == "" {
      assert text == "\"" + rest;
      assert text[1..] == rest;
    } else {
      var e, more := EscapeChar(s[0]), Escape(s[1..]) + "\"" + rest;
      assert text == e + more;
      CharBack(s[0], more);
      assert text[|e|..] == more;
      StringBack(s[1..], rest);
      assert [s[0]] + s[1..] == s;
    }
  }

  /** The form of an escape: nothing for printable characters, the two-character forms for
      quote, backslash, newline, return and tab, and \u00 with two lower-case digits for the
      other control characters. */
  lemma EscapeForm(c: char)
    ensures |EscapeChar(c)| == if c in "\"\\\n\r\t" then 2 else if c as nat < 32 then 6 else 1
    ensures |EscapeChar(c)| == 6 ==>
              EscapeChar(c)[..4] == "\\u00" && forall i :: 4 <= i < 6 ==> IsDigit(EscapeChar(c)[i]) || 'a' <= EscapeChar(c)[i] <= 'f'
  {
  }

  lemma DropInside(a: string, b: string, c: string, k: nat)
    requires k <= |a|
    ensures (a + b + c)[k..] == a[k..] + b + c
  {
  }

  /** Text written between quotes without escaping reads back as itself exactly when it
      needs no escaping; otherwise parsing stops early, fails, or yields less. */
  lemma {:induction false} RawBack(raw: string, rest: string)
    requires raw == "" || raw[|raw| - 1] != '\\'
    ensures NeedsNone(raw) ==> ParseChars(raw + "\"" + rest) == Some((raw, rest))
    ensures !NeedsNone(raw) && ParseChars(raw + "\"" + rest).Some? ==>
              |ParseChars(raw + "\"" + rest).value.0| < |raw|
    decreases |raw|
  {
    var text := raw + "\"" + rest;
    if raw == "" {
      assert text == "\"" + rest && text[1..] == rest;
    } else if raw[0] == '"' {
    } else if ParseChar(text).Some? {
      var k := ParseChar(text).value.1;
      EscapeStaysInside(raw, rest);
      DropInside(raw, "\"", rest, k);
      RawBack(raw[k..], rest);
      if k == 1 {
        assert NeedsNone(raw) <==> NeedsNone(raw[1..]) by { assert raw == [raw[0]] + raw[1..]; }
        assert [raw[0]] + raw[1..] == raw;
      } else {
        assert raw[0] == '\\';
      }
    }
  }

  /** An escape cannot swallow the closing quote unless a backslash precedes it. */
  lemma EscapeStaysInside(raw: string, rest: string)
    requires raw != "" && raw[|raw| - 1] != '\\' && raw[0] != '"'
    requires ParseChar(raw + "\"" + rest).Some?
    ensures ParseChar(raw + "\"" + rest).value.1 <= |raw|
    ensures raw[0] != '\\' ==> ParseChar(raw + "\"" + rest) == Some((raw[0], 1)) && !NeedsEscape(raw[0])
    ensures raw[0] == '\\' ==> ParseChar(raw + "\"" + rest).value.1 > 1
  {
    var text := raw + "\"" + rest;
    assert text[|raw|] == '"';
  }

  // ----- numbers -----

  predicate Delimits(rest: string) {
    rest != "" && (rest[0] == ',' || rest[0] == '}')
  }

  lemma {:induction false} RunStops(s: string, rest: string)
    requires Delimits(rest)
    ensures DigitRun(s + rest) == DigitRun(s)
  {
    if s == "" {
      assert s + rest == rest;
    } else if IsDigit(s[0]) {
      assert (s + rest)[1..] == s[1..] + rest;
      RunStops(s[1..], rest);
    }
  }

  lemma FracStops(s: string, rest: string)
    requires Delimits(rest)
    ensures FracLen(s + rest) == FracLen(s)
  {
    if s == "" {
      assert s + rest == rest;
    } else if s[0] == '.' {
      assert (s + rest)[1..] == s[1..] + rest;
      RunStops(s[1..], rest);
    }
  }

  lemma ExpStops(s: string, rest: string)
    requires Delimits(rest)
    ensures ExpLen(s + rest) == ExpLen(s)
  {
    if s == "" {
      assert s + rest == rest;
    } else if s[0] == 'e' || s[0] == 'E' {
      var sign := if |s| > 1 && (s[1] == '+' || s[1] == '-') then 1 else 0;
      assert (s + rest)[1] == if |s| > 1 then s[1] else rest[0];
      assert (s + rest)[1 + sign..] == s[1 + sign..] + rest;
      RunStops(s[1 + sign..], rest);
    }
  }

  lemma IntStops(s: string, rest: string)
    requires Delimits(rest)
    ensures IntLen(s + rest) == IntLen(s)
  {
    RunStops(s, rest);
    if s == "" { assert s + rest == rest; }
  }

  lemma SliceStops(s: string, rest: string, k: nat)
    requires k <= |s|
    ensures (s + rest)[k..] == s[k..] + rest
  {
  }

  lemma TailStops(s: string, rest: string)
    requires Delimits(rest)
    ensures TailLen(s + rest) == TailLen(s)
  {
    FracStops(s, rest);
    var f := FracLen(s);
    if f.Some? {
      SliceStops(s, rest, f.value);
      ExpStops(s[f.value..], rest);
    }
  }

  lemma NumberLenIs(s: string, m: nat, i: nat)
    requires s != "" && m == (if s[0] == '-' then 1 else 0) && i == IntLen(s[m..])
    ensures NumberLen(s) == if i == 0 then None else Longer(m + i, TailLen(s[m + i..]))
  {
  }

  /** A number ends where a comma or a closing brace begins. */
  lemma NumberStops(s: string, rest: string)
    requires Delimits(rest) && s != ""
    ensures NumberLen(s + rest) == NumberLen(s)
  {
    var m, s' := if s[0] == '-' then 1 else 0, s + rest;
    var i := IntLen(s[m..]);
    assert IntLen(s'[m..]) == i by {
      SliceStops(s, rest, m);
      IntStops(s[m..], rest);
    }
    assert TailLen(s'[m + i..]) == TailLen(s[m + i..]) by {
      SliceStops(s, rest, m + i);
      TailStops(s[m + i..], rest);
    }
    NumberLenIs(s, m, i);
    NumberLenIs(s', m, i);
  }

  /** A decimal integer with an optional sign. */
  function DecInt(i: int): string {
    if i < 0 then "-" + Dec(-i) else Dec(i)
  }

  /** Reads a decimal integer with an optional sign. */
  function ReadInt(s: string): Option<int> {
    if s != "" && s[0] == '-' then
      if |s| > 1 && AllDigits(s[1..]) then Some(-(Value(s[1..]) as int)) else None
    else if s != "" && AllDigits(s) then Some(Value(s))
    else None
  }

  lemma ReadBack(i: int)
    ensures ReadInt(DecInt(i)) == Some(i)
  {
    var d := Dec(if i < 0 then -i else i);
    ValueOfDec(if i < 0 then -i else i);
    ReadDigits(d);
  }

  lemma ReadDigits(d: string)
    requires d != "" && AllDigits(d)
    ensures ReadInt(d) == Some(Value(d)) && ReadInt("-" + d) == Some(-(Value(d) as int))
  {
    assert IsDigit(d[0]);
    assert ("-" + d)[1..] == d;
  }

  lemma {:induction false} RunOfDigits(s: string)
    requires AllDigits(s)
    ensures DigitRun(s) == |s|
  {
    if s != "" { RunOfDigits(s[1..]); }
  }

  lemma DecIsNumber(i: int)
    ensures IsNumber(DecInt(i)) && !IsWs(DecInt(i)[0])
  {
    var d := if i < 0 then Dec(-i) else Dec(i);
    var s, m := DecInt(i), if i < 0 then 1 else 0;
    assert s[m..] == d;
    assert IsDigit(d[0]);
    DecStart(if i < 0 then -i else i);
    RunOfDigits(d);
    assert s[|s|..] == "";
  }

  // ----- values -----

  /** Text that is a value by itself and cannot run into what follows it. */
  ghost predicate Renders(text: string, v: Json) {
    && text != "" && !IsWs(text[0])
    && (forall rest {:trigger Delimits(rest)} :: Delimits(rest) ==> ParseValue(text + rest) == Some((v, rest)))
  }

  lemma QuoteRenders(s: string)
    ensures Renders(Quote(s), Str(s))
  {
    forall rest | Delimits(rest) ensures ParseValue(Quote(s) + rest) == Some((Str(s), rest)) {
      QuoteBack(s, rest);
    }
  }

  lemma QuoteBack(s: string, rest: string)
    ensures ParseValue(Quote(s) + rest) == Some((Str(s), rest))
  {
    assert (Quote(s) + rest)[0] == '"' && (Quote(s) + rest)[1..] == Escape(s) + "\"" + rest;
    StringBack(s, rest);
  }

  lemma RawRenders(raw: string)
    requires NeedsNone(raw)
    ensures Renders("\"" + raw + "\"", Str(raw))
  {
    var text := "\"" + raw + "\"";
    forall rest | Delimits(rest) ensures ParseValue(text + rest) == Some((Str(raw), rest)) {
      assert (text + rest)[1..] == raw + "\"" + rest;
      RawBack(raw, rest);
    }
  }

  lemma NumberStart(t: string)
    requires IsNumber(t)
    ensures t != "" && (t[0] == '-' || IsDigit(t[0]))
  {
  }

  lemma NumberBack(t: string, rest: string)
    requires IsNumber(t) && Delimits(rest)
    ensures ParseValue(t + rest) == Some((Number(t), rest))
  {
    NumberStart(t);
    var s := t + rest;
    assert s[0] == t[0];
    NumberStops(t, rest);
    NumberRule(s, |t|);
    assert s[..|t|] == t && s[|t|..] == rest;
  }

  lemma NumberRule(s: string, k: nat)
    requires s != "" && (s[0] == '-' || IsDigit(s[0])) && k <= |s| && NumberLen(s) == Some(k)
    ensures ParseValue(s) == Some((Number(s[..k]), s[k..]))
  {
    NotALiteral(s);
  }

  lemma NotALiteral(s: string)
    requires s != "" && (s[0] == '-' || IsDigit(s[0]))
    ensures !StartsWith(s, "true") && !StartsWith(s, "false") && !StartsWith(s, "null")
  {
    if |s| >= 4 { assert s[..4][0] == s[0]; }
    if |s| >= 5 { assert s[..5][0] == s[0]; }
  }

  lemma NumberRenders(t: string)
    requires IsNumber(t)
    ensures Renders(t, Number(t))
  {
    NumberStart(t);
    forall rest | Delimits(rest) ensures ParseValue(t + rest) == Some((Number(t), rest)) { NumberBack(t, rest); }
  }

  lemma LiteralRenders()
    ensures Renders("true", Bool(true)) && Renders("false", Bool(false)) && Renders("null", Null)
  {
    forall rest | Delimits(rest)
      ensures ParseValue("true" + rest) == Some((Bool(true), rest))
      ensures ParseValue("false" + rest) == Some((Bool(false), rest))
      ensures ParseValue("null" + rest) == Some((Null, rest))
    {
      assert ("true" + rest)[..4] == "true" && ("true" + rest)[4..] == rest;
      assert ("false" + rest)[..5] == "false" && ("false" + rest)[5..] == rest;
      assert ("null" + rest)[..4] == "null" && ("null" + rest)[4..] == rest;
      assert ("false" + rest)[0] == 'f';
      assert ("null" + rest)[0] == 'n';
    }
  }
}
