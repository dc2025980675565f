/** Message templates: text with named holes, doubled braces standing for single ones. */
module Template {

  datatype Token = Lit(c: char) | Hole(name: string)

  /** An argument of any type: nil, or a value with the text the formatter prints for it. */
  datatype Any = Nil | Any(id: int, text: string)

  function Show(v: Any): string {
    if v.Nil? then "<nil>" else v.text
  }

  /** A field of the record: a hole's argument, or the template. */
  datatype Field = Arg(name: string, value: Any) | MsgTemplate(text: string)

  /** The index of the first closing brace at or after i, or the length. */
  function Closing(t: string, i: nat): (e: nat)
    requires i <= |t|
    ensures i <= e <= |t| && (e < |t| ==> t[e] == '}')
    decreases |t| - i
  {
    if i == |t| || t[i] == '}' then i else Closing(t, i + 1)
  }

  lemma {:induction false} ClosingIsFirst(t: string, i: nat, j: nat)
    requires i <= |t| && i <= j < Closing(t, i)
    ensures t[j] != '}'
    decreases |t| - i
  {
    if i < j { ClosingIsFirst(t, i + 1, j); }
  }

  lemma {:induction false} ClosingIs(t: string, i: nat, e: nat)
    requires i <= e <= |t| && (e < |t| ==> t[e] == '}') && '}' !in t[i..e]
    ensures Closing(t, i) == e
    decreases e - i
  {
    if i < e {
      assert t[i..e][0] == t[i] && t[i + 1..e] == t[i..e][1..];
      ClosingIs(t, i + 1, e);
    }
  }

  function Literals(t: string): seq<Token> {
    if t == [] then [] else [Lit(t[0])] + Literals(t[1..])
  }

  predicate Doubled(t: string, i: nat)
    requires i < |t|
  {
    (t[i] == '{' || t[i] == '}') && i + 1 < |t| && t[i + 1] == t[i]
  }

  /** An opening brace that nothing closes. */
  predicate Open(t: string, i: nat)
    requires i < |t|
  {
    t[i] == '{' && !Doubled(t, i) && Closing(t, i) == |t|
  }

  /** The token at i, and where the next one starts. A lone closing brace stands for itself. */
  function TokenAt(t: string, i: nat): Token
    requires i < |t| && !Open(t, i)
  {
    if t[i] == '{' && !Doubled(t, i) then Hole(t[i + 1..Closing(t, i)]) else Lit(t[i])
  }

  function After(t: string, i: nat): (j: nat)
    requires i < |t| && !Open(t, i)
    ensures i < j <= |t|
  {
    if Doubled(t, i) then i + 2 else if t[i] == '{' then Closing(t, i) + 1 else i + 1
  }

  /** The tokens from i on. An opening brace that is never closed makes the rest literal. */
  function Scan(t: string, i: nat): seq<Token>
    requires i <= |t|
    decreases |t| - i
  {
    if i == |t| then []
    else if Open(t, i) then Literals(t[i..])
    else [TokenAt(t, i)] + Scan(t, After(t, i))
  }

  // ----- what the tokens say -----

  /** The argument after the first ai; nil when there are too few. */
  function Next(args: seq<Any>, ai: nat): Any {
    if ai < |args| then args[ai] else Nil
  }

  function Used(args: seq<Any>, ai: nat): nat {
    if ai < |args| then ai + 1 else ai
  }

  /** The message: each hole takes the next argument. */
  function Render(ts: seq<Token>, args: seq<Any>, ai: nat): string {
    if ts == [] then ""
    else if ts[0].Lit? then [ts[0].c] + Render(ts[1..], args, ai)
    else Show(Next(args, ai)) + Render(ts[1..], args, Used(args, ai))
  }

  function Fields(ts: seq<Token>, args: seq<Any>, ai: nat): seq<Field> {
    if ts == [] then []
    else if ts[0].Lit? then Fields(ts[1..], args, ai)
    else [Arg(ts[0].name, Next(args, ai))] + Fields(ts[1..], args, Used(args, ai))
  }

  function Names(ts: seq<Token>): seq<string> {
    if ts == [] then [] else (if ts[0].Hole? then [ts[0].name] else []) + Names(ts[1..])
  }

  lemma {:induction false} FieldCount(ts: seq<Token>, args: seq<Any>, ai: nat)
    ensures |Fields(ts, args, ai)| == |Names(ts)|
  {
    if ts != [] {
      FieldCount(ts[1..], args, if ts[0].Lit? then ai else Used(args, ai));
    }
  }

  /** One field per hole, in order, with the argument of the same rank. */
  lemma {:induction false} FieldPerHole(ts: seq<Token>, args: seq<Any>, ai: nat, k: nat)
    requires k < |Names(ts)| == |Fields(ts, args, ai)|
    ensures Fields(ts, args, ai)[k] == Arg(Names(ts)[k], if ai + k < |args| then args[ai + k] else Nil)
  {
    var ai' := if ts[0].Lit? then ai else Used(args, ai);
    FieldCount(ts[1..], args, ai');
    if ts[0].Lit? {
      FieldPerHole(ts[1..], args, ai, k);
    } else if k > 0 {
      FieldPerHole(ts[1..], args, ai', k - 1);
    }
  }

  /** Literal characters, and for the k-th hole the k-th of these texts. */
  function Fill(ts: seq<Token>, texts: seq<string>): string
    requires |texts| == |Names(ts)|
  {
    if ts == [] then ""
    else if ts[0].Lit? then [ts[0].c] + Fill(ts[1..], texts)
    else texts[0] + Fill(ts[1..], texts[1..])
  }

  /** The texts of n arguments from the ai-th on, "<nil>" for those that are missing. */
  function Texts(args: seq<Any>, ai: nat, n: nat): (ss: seq<string>)
    ensures |ss| == n
    ensures forall k :: 0 <= k < n ==>
              ss[k] == if ai + k < |args| && args[ai + k].Any? then args[ai + k].text else "<nil>"
  {
    seq(n, k requires 0 <= k => if ai + k < |args| && args[ai + k].Any? then args[ai + k].text else "<nil>")
  }

  /** The message is the template's literals with the k-th argument in the k-th hole. */
  lemma {:induction false} RenderFills(ts: seq<Token>, args: seq<Any>, ai: nat)
    ensures Render(ts, args, ai) == Fill(ts, Texts(args, ai, |Names(ts)|))
  {
    if ts != [] {
      if ts[0].Lit? {
        RenderFills(ts[1..], args, ai);
      } else {
        RenderFills(ts[1..], args, Used(args, ai));
        var n := |Names(ts)|;
        assert Texts(args, ai, n)[1..] == Texts(args, Used(args, ai), n - 1);
      }
    }
  }

  lemma {:induction false} RenderLiterals(t: string, args: seq<Any>, ai: nat)
    ensures Render(Literals(t), args, ai) == t && Fields(Literals(t), args, ai) == []
  {
    if t != [] {
      RenderLiterals(t[1..], args, ai);
      assert t == [t[0]] + t[1..];
    }
  }

  // ----- the scanning loop -----

  /** The tokens and arguments left turn the output so far into the whole output. */
  ghost predicate Progress(whole: string, all: seq<Field>, args: seq<Any>,
                           msg: string, fields: seq<Field>, ts: seq<Token>, ai: nat) {
    whole == msg + Render(ts, args, ai) && all == fields + Fields(ts, args, ai)
  }

  lemma TakeLit(whole: string, all: seq<Field>, args: seq<Any>, msg: string, fields: seq<Field>,
                t: string, i: nat, ai: nat)
    requires i < |t| && !Open(t, i) && TokenAt(t, i).Lit?
    requires Progress(whole, all, args, msg, fields, Scan(t, i), ai)
    ensures Progress(whole, all, args, msg + [t[i]], fields, Scan(t, After(t, i)), ai)
  {
    var ts := Scan(t, After(t, i));
    assert Scan(t, i) == [Lit(t[i])] + ts && ([Lit(t[i])] + ts)[1..] == ts;
  }

  lemma TakeHole(whole: string, all: seq<Field>, args: seq<Any>, msg: string, fields: seq<Field>,
                 t: string, i: nat, ai: nat, name: string)
    requires i < |t| && !Open(t, i) && TokenAt(t, i) == Hole(name)
    requires Progress(whole, all, args, msg, fields, Scan(t, i), ai)
    ensures Progress(whole, all, args, msg + Show(Next(args, ai)), fields + [Arg(name, Next(args, ai))],
                     Scan(t, After(t, i)), Used(args, ai))
  {
    var ts := Scan(t, After(t, i));
    assert Scan(t, i) == [Hole(name)] + ts && ([Hole(name)] + ts)[1..] == ts;
  }

  lemma TakeRest(whole: string, all: seq<Field>, args: seq<Any>, msg: string, fields: seq<Field>,
                 t: string, i: nat, ai: nat)
    requires i < |t| && Open(t, i) && Progress(whole, all, args, msg, fields, Scan(t, i), ai)
    ensures Progress(whole, all, args, msg + t[i..], fields, Scan(t, |t|), ai)
  {
    RenderLiterals(t[i..], args, ai);
  }

  /** The message and the fields, in one pass over the template. */
  method ParseTemplate(tmpl: string, args: seq<Any>) returns (msg: string, fields: seq<Field>)
    ensures msg == Render(Scan(tmpl, 0), args, 0)
    ensures fields == Fields(Scan(tmpl, 0), args, 0) + [MsgTemplate(tmpl)]
  {
    msg, fields := "", [];
    var ai, i := 0, 0;
    ghost var whole, all := Render(Scan(tmpl, 0), args, 0), Fields(Scan(tmpl, 0), args, 0);
    while i < |tmpl|
      invariant i <= |tmpl|
      invariant Progress(whole, all, args, msg, fields, Scan(tmpl, i), ai)
    {
      var c := tmpl[i];
      if Doubled(tmpl, i) {
        TakeLit(whole, all, args, msg, fields, tmpl, i, ai);
        msg, i := msg + [c], i + 2;
        continue;
      }
      if c == '{' {
        var end := Closing(tmpl, i);
        if end == |tmpl| {
          TakeRest(whole, all, args, msg, fields, tmpl, i, ai);
          msg, i := msg + tmpl[i..], |tmpl|;
          break;
        }
        var name := tmpl[i + 1..end];
        TakeHole(whole, all, args, msg, fields, tmpl, i, ai, name);
        var val := Nil;
        if ai < |args| {
          val, ai := args[ai], ai + 1;
        }
        fields := fields + [Arg(name, val)];
        msg, i := msg + Show(val), end + 1;
        continue;
      }
      TakeLit(whole, all, args, msg, fields, tmpl, i, ai);
      msg, i := msg + [c], i + 1;
    }
    fields := fields + [MsgTemplate(tmpl)];
  }

  // ----- printing and scanning -----

  /** A token as a template writer puts it down. */
  function PrintToken(k: Token): string {
    if k.Hole? then "{" + k.name + "}"
    else if k.c == '{' then "{{"
    else if k.c == '}' then "}}"
    else [k.c]
  }

  function Print(ts: seq<Token>): string {
    if ts == [] then "" else PrintToken(ts[0]) + Print(ts[1..])
  }

  /** A name that a hole can carry. */
  predicate Writable(k: Token) {
    k.Hole? ==> '}' !in k.name && (k.name != "" ==> k.name[0] != '{')
  }

  /** A printed template scans back exactly when every hole's name is writable. */
  lemma {:induction false} PrintScan(ts: seq<Token>)
    ensures Scan(Print(ts), 0) == ts <==> forall k :: k in ts ==> Writable(k)
  {
    if forall k :: k in ts ==> Writable(k) {
      PrintBack(ts);
    } else {
      ScanWritable(Print(ts), 0);
    }
  }

  lemma {:induction false} PrintBack(ts: seq<Token>)
    requires forall k :: k in ts ==> Writable(k)
    ensures Scan(Print(ts), 0) == ts
  {
    if ts != [] {
      assert ts[0] in ts && forall k :: k in ts[1..] ==> k in ts;
      PrintBack(ts[1..]);
      TokenBack(ts[0], Print(ts[1..]));
    }
  }

  lemma ScanUnclosed(rest: string)
    requires '}' !in rest && (rest != "" ==> rest[0] != '{')
    ensures Scan("{" + rest, 0) == Literals("{" + rest)
  {
    var t := "{" + rest;
    assert t[0..] == t;
    ClosingIs(t, 0, |t|);
  }

  /** An opening brace that nothing closes, and all that follows it, stands for itself. */
  lemma {:induction false} UnclosedIsLiteral(ts: seq<Token>, rest: string)
    requires (forall k :: k in ts ==> Writable(k)) && '}' !in rest && (rest != "" ==> rest[0] != '{')
    ensures Scan(Print(ts) + ("{" + rest), 0) == ts + Literals("{" + rest)
  {
    var tail := "{" + rest;
    if ts == [] {
      assert Print(ts) + tail == tail;
      ScanUnclosed(rest);
    } else {
      assert ts[0] in ts && forall k :: k in ts[1..] ==> k in ts;
      UnclosedIsLiteral(ts[1..], rest);
      TokenBack(ts[0], Print(ts[1..]) + tail);
      Associate(PrintToken(ts[0]), Print(ts[1..]), tail);
      assert ts == [ts[0]] + ts[1..];
      AssociateTokens([ts[0]], ts[1..], Literals(tail));
    }
  }

  lemma Associate(a: string, b: string, c: string)
    ensures (a + b) + c == a + (b + c)
  {
  }

  lemma AssociateTokens(a: seq<Token>, b: seq<Token>, c: seq<Token>)
    ensures (a + b) + c == a + (b + c)
  {
  }

  /** So does a closing brace that is not doubled. */
  lemma LoneClosing(rest: string)
    requires rest != "" ==> rest[0] != '}'
    ensures Scan("}" + rest, 0) == [Lit('}')] + Scan(rest, 0)
  {
    var t := "}" + rest;
    assert t[1..] == rest == rest[0..];
    ScanAgrees(t, 1, rest, 0);
  }

  /** One printed token is read as itself, whatever follows. */
  lemma TokenBack(k: Token, rest: string)
    requires Writable(k)
    ensures Scan(PrintToken(k) + rest, 0) == [k] + Scan(rest, 0)
  {
    var t, n := PrintToken(k) + rest, |PrintToken(k)|;
    if k.Hole? { HoleBack(k.name, rest); }
    assert !Open(t, 0) && TokenAt(t, 0) == k && After(t, 0) == n;
    assert t[n..] == rest == rest[0..];
    ScanAgrees(t, n, rest, 0);
  }

  lemma HoleBack(name: string, rest: string)
    requires Writable(Hole(name))
    ensures var t := "{" + name + "}" + rest;
            !Doubled(t, 0) && Closing(t, 0) == |name| + 1 && t[1..|name| + 1] == name
  {
    var t, end := "{" + name + "}" + rest, |name| + 1;
    assert t[1] == if name == "" then '}' else name[0];
    assert t[0..end] == "{" + name && t[end] == '}';
    ClosingIs(t, 0, end);
  }

  /** Two texts that agree from m and n on. */
  ghost predicate Agree(s: string, m: nat, t: string, n: nat) {
    m <= |s| && n <= |t| && s[m..] == t[n..]
  }

  /** What comes before does not change how the rest is read. */
  lemma {:induction false} ScanAgrees(s: string, m: nat, t: string, n: nat)
    requires Agree(s, m, t, n)
    ensures Scan(s, m) == Scan(t, n)
    decreases |t| - n
  {
    assert |s[m..]| == |s| - m == |t| - n;
    if n < |t| {
      TokenAgrees(s, m, t, n);
      if !Open(t, n) {
        ScanAgrees(s, After(s, m), t, After(t, n));
      }
    }
  }

  lemma TokenAgrees(s: string, m: nat, t: string, n: nat)
    requires Agree(s, m, t, n) && m < |s| && n < |t|
    ensures Open(s, m) == Open(t, n)
    ensures !Open(t, n) ==> TokenAt(s, m) == TokenAt(t, n) && Agree(s, After(s, m), t, After(t, n))
  {
    AgreeHere(s, m, t, n);
    var d := Closing(t, n) - n;
    ClosingAgrees(s, m, t, n);
    if !Open(t, n) {
      AgreeLater(s, m, t, n, After(t, n) - n);
      if t[n] == '{' && !Doubled(t, n) { AgreeSlice(s, m, t, n, d); }
    }
  }

  lemma AgreeHere(s: string, m: nat, t: string, n: nat)
    requires Agree(s, m, t, n) && n < |t|
    ensures m < |s| && s[m] == t[n] && Doubled(s, m) == Doubled(t, n)
  {
    assert s[m..][0] == s[m] && t[n..][0] == t[n];
    if n + 1 < |t| { assert s[m..][1] == s[m + 1] && t[n..][1] == t[n + 1]; }
  }

  lemma AgreeLater(s: string, m: nat, t: string, n: nat, d: nat)
    requires Agree(s, m, t, n) && n + d <= |t|
    ensures Agree(s, m + d, t, n + d)
  {
    assert |s[m..]| == |t[n..]|;
    assert s[m + d..] == s[m..][d..] && t[n + d..] == t[n..][d..];
  }

  lemma AgreeSlice(s: string, m: nat, t: string, n: nat, d: nat)
    requires Agree(s, m, t, n) && 0 < d && n + d <= |t|
    ensures m + d <= |s| && s[m + 1..m + d] == t[n + 1..n + d]
  {
    assert |s[m..]| == |t[n..]|;
    SliceOf(s, m, d);
    SliceOf(t, n, d);
  }

  lemma SliceOf(s: string, m: nat, d: nat)
    requires 0 < d && m + d <= |s|
    ensures s[m + 1..m + d] == s[m..][1..d]
  {
    assert s[m..][1..d] == s[m..m + d][1..];
  }

  lemma {:induction false} ClosingAgrees(s: string, m: nat, t: string, n: nat)
    requires Agree(s, m, t, n)
    ensures Closing(s, m) - m == Closing(t, n) - n && |s| - m == |t| - n
    decreases |t| - n
  {
    assert |s[m..]| == |t[n..]|;
    if n < |t| {
      AgreeHere(s, m, t, n);
      AgreeLater(s, m, t, n, 1);
      ClosingAgrees(s, m + 1, t, n + 1);
    }
  }

  /** Scanning yields only writable names. */
  lemma {:induction false} ScanWritable(t: string, i: nat)
    requires i <= |t|
    ensures forall k :: k in Scan(t, i) ==> Writable(k)
    decreases |t| - i
  {
    if i == |t| {
    } else if Open(t, i) {
      LiteralsWritable(t[i..]);
    } else {
      ScanWritable(t, After(t, i));
      TokenWritable(t, i);
    }
  }

  lemma TokenWritable(t: string, i: nat)
    requires i < |t| && !Open(t, i)
    ensures Writable(TokenAt(t, i))
  {
    if t[i] == '{' && !Doubled(t, i) {
      forall j | i <= j < Closing(t, i) ensures t[j] != '}' { ClosingIsFirst(t, i, j); }
    }
  }

  lemma {:induction false} LiteralsWritable(t: string)
    ensures forall k :: k in Literals(t) ==> Writable(k)
  {
    if t != [] {
      LiteralsWritable(t[1..]);
    }
  }
}
