/** The parser undoes the printer, so the canonical text determines the document. */
module CanonicalJson {
  import opened Prelude
  import opened Text
  import opened Json
  import opened JsonText
  import opened JsonParser

  // ---- Numbers ----

  lemma {:induction false} DigitRunStops(ds: string, rest: string)
    requires forall i | 0 <= i < |ds| :: IsDigit(ds[i])
    requires rest == "" || !IsDigit(rest[0])
    ensures DigitRun(ds + rest) == |ds|
  {
    if ds == "" {
      assert ds + rest == rest;
    } else {
      DigitRunStops(ds[1..], rest);
      assert (ds + rest)[1..] == ds[1..] + rest;
    }
  }

  lemma {:induction false} NatValueText(n: nat)
    ensures forall i | 0 <= i < |NatText(n)| :: IsDigit(NatText(n)[i])
    ensures NatValue(NatText(n)) == n
  {
    NatTextDigits(n);
    if n < 10 {
      assert NatText(n)[..0] == "";
    } else {
      var t := NatText(n / 10);
      NatValueText(n / 10);
      assert NatText(n)[..|NatText(n)| - 1] == t;
    }
  }

  lemma ParseNatText(n: nat, rest: string)
    requires rest == "" || !IsDigit(rest[0])
    ensures ParseNat(NatText(n) + rest) == Parsed(n, rest)
  {
    var t := NatText(n);
    NatValueText(n);
    NatTextDigits(n);
    DigitRunStops(t, rest);
    assert (t + rest)[0] == t[0];
    assert (t + rest)[..|t|] == t;
    assert (t + rest)[|t|..] == rest;
    if n == 0 {
      assert t == "0";
    }
  }

  lemma ParseIntText(n: int, rest: string)
    requires rest == "" || !IsDigit(rest[0])
    ensures ParseNumber(IntText(n) + rest) == Parsed(Num(n), rest)
  {
    var m := if n < 0 then -n else n;
    NatTextDigits(m);
    ParseNatText(m, rest);
    if n < 0 {
      assert (IntText(n) + rest)[1..] == NatText(m) + rest;
    }
    assert (IntText(n) + rest)[0] == IntText(n)[0];
  }

  // ---- Strings ----

  lemma HexSumText(n: int)
    requires 0 <= n < 0x10000
    ensures forall i | 0 <= i < 4 :: IsHex(Hex4(n)[i])
    ensures HexSum(Hex4(n)[0], Hex4(n)[1], Hex4(n)[2], Hex4(n)[3]) == n
  {
    var q := n / 16;
    var r := q / 16;
    HexDigitValue(r / 16);
    HexDigitValue(r % 16);
    HexDigitValue(q % 16);
    HexDigitValue(n % 16);
  }

  lemma HexDigitValue(d: int)
    requires 0 <= d < 16
    ensures HexValue(HexDigit(d)) == d
  {
    if d < 10 {
      assert IsDigit(HexDigit(d));
    } else {
      assert 'a' <= HexDigit(d) <= 'f';
    }
  }

  lemma ParseHex4Text(n: int, rest: string)
    requires 0 <= n < 0x10000
    ensures ParseHex4(Hex4(n) + rest) == Parsed(n, rest)
  {
    HexSumText(n);
    Split(Hex4(n), rest);
  }

  /** A concatenation comes apart where it was joined. */
  lemma Split(p: string, t: string)
    ensures (p + t)[..|p|] == p && (p + t)[|p|..] == t
    ensures forall i | 0 <= i < |p| :: (p + t)[i] == p[i]
  {
  }

  lemma Regroup(a: string, b: string, c: string, d: string)
    ensures a + b + c + d == a + (b + (c + d))
    ensures a + b + c == a + (b + c)
  {
  }

  lemma ParseUnicodeEscape(c: char, rest: string)
    requires c as int < 0x10000
    ensures ParseEscape("u" + (Hex4(c as int) + rest)) == Parsed(c, rest)
  {
    ParseHex4Text(c as int, rest);
    Split("u", Hex4(c as int) + rest);
  }

  lemma ParseSurrogates(c: char, rest: string)
    requires c as int >= 0x10000
    ensures var n := c as int - 0x10000;
            ParseEscape("u" + (Hex4(0xD800 + n / 1024) + ("\\u" + (Hex4(0xDC00 + n % 1024) + rest)))) == Parsed(c, rest)
  {
    var n := c as int - 0x10000;
    var low := Hex4(0xDC00 + n % 1024) + rest;
    var tail := "\\u" + low;
    ParseHex4Text(0xDC00 + n % 1024, rest);
    ParseHex4Text(0xD800 + n / 1024, tail);
    Split("\\u", low);
    Split("u", Hex4(0xD800 + n / 1024) + tail);
  }

  predicate ReadsAs(s: string, c: char, rest: string)
  {
    && s != "" && s[0] >= ' ' && s[0] != '"'
    && (if s[0] == '\\' then ParseEscape(s[1..]) else Parsed(s[0], s[1..])) == Parsed(c, rest)
  }

  lemma ShortEscape(c: char, e: char, rest: string)
    requires forall s | s != "" && s[0] == e :: ParseEscape(s) == Parsed(c, s[1..])
    ensures ReadsAs(['\\', e] + rest, c, rest)
  {
    var s := ['\\', e] + rest;
    assert s[1..] == [e] + rest;
    assert s[1..][1..] == rest;
  }

  /** Reading one escaped character consumes exactly that escape. */
  lemma ParseOneChar(c: char, rest: string)
    ensures ReadsAs(Escape(c) + rest, c, rest)
  {
    if c == '"' { ShortEscape(c, '"', rest); }
    else if c == '\\' { ShortEscape(c, '\\', rest); }
    else if c == '\n' { ShortEscape(c, 'n', rest); }
    else if c == '\r' { ShortEscape(c, 'r', rest); }
    else if c == '\t' { ShortEscape(c, 't', rest); }
    else if c == 8 as char { ShortEscape(c, 'b', rest); }
    else if c == 12 as char { ShortEscape(c, 'f', rest); }
    else if ' ' <= c <= '~' { Split([c], rest); }
    else { ParseLongEscape(c, rest); }
  }

  lemma ParseLongEscape(c: char, rest: string)
    requires Escape(c) == LongEscape(c)
    ensures ReadsAs(Escape(c) + rest, c, rest)
  {
    if c as int < 0x10000 {
      ParseUnicodeEscape(c, rest);
      Regroup("\\u", Hex4(c as int), rest, "");
      Backslash(Hex4(c as int) + rest);
    } else {
      ParsePair(c, Hex4(0xD800 + (c as int - 0x10000) / 1024), Hex4(0xDC00 + (c as int - 0x10000) % 1024), rest);
    }
  }

  lemma ParsePair(c: char, hi: string, lo: string, rest: string)
    requires c as int >= 0x10000
    requires hi == Hex4(0xD800 + (c as int - 0x10000) / 1024)
    requires lo == Hex4(0xDC00 + (c as int - 0x10000) % 1024)
    ensures ReadsAs("\\u" + hi + "\\u" + lo + rest, c, rest)
  {
    ParseSurrogates(c, rest);
    GroupPair(hi, lo, rest);
  }

  lemma GroupPair(hi: string, lo: string, rest: string)
    ensures var s := "\\u" + hi + "\\u" + lo + rest;
            s[0] == '\\' && s[1..] == "u" + (hi + ("\\u" + (lo + rest)))
  {
    Regroup("\\u" + hi, "\\u", lo, rest);
    Regroup("\\u", hi, "\\u" + (lo + rest), "");
    Backslash(hi + ("\\u" + (lo + rest)));
  }

  lemma Backslash(t: string)
    ensures ("\\u" + t)[0] == '\\' && ("\\u" + t)[1..] == "u" + t
  {
  }

  lemma {:induction false} ParseCharsText(s: string, rest: string)
    ensures ParseChars(EscapeAll(s) + ("\"" + rest)) == Parsed(s, rest)
  {
    if s == "" {
      Split("\"", rest);
      assert EscapeAll(s) + ("\"" + rest) == "\"" + rest;
    } else {
      var rest' := EscapeAll(s[1..]) + ("\"" + rest);
      Regroup(Escape(s[0]), EscapeAll(s[1..]), "\"" + rest, "");
      ParseOneChar(s[0], rest');
      ParseCharsText(s[1..], rest);
      assert s == [s[0]] + s[1..];
    }
  }

  // ---- Values ----

  /** What can follow a value inside a larger text. */
  predicate Ends(rest: string)
  {
    rest == "" || rest[0] in ",]}\n"
  }

  /** No value starts with white space or a closing bracket. */
  lemma PrintHead(v: Json)
    ensures Print(v) != "" && !IsSpace(Print(v)[0]) && Print(v)[0] !in ",:]}"
  {
    if v.Num? {
      NatTextDigits(if v.n < 0 then -v.n else v.n);
    }
  }

  lemma {:induction false} DictOfDistinct(fs: seq<Field>)
    requires Distinct(fs)
    ensures DictOf(fs) == fs
    decreases |fs|
  {
    if fs != [] {
      var n := |fs| - 1;
      DictOfDistinct(fs[..n]);
      PutNew(fs[..n], fs[n]);
      assert fs == fs[..n] + [fs[n]];
    }
  }

  lemma {:induction false} PutNew(fs: seq<Field>, f: Field)
    requires Distinct(fs) && forall i | 0 <= i < |fs| :: fs[i].key != f.key
    ensures Put(fs, f) == fs + [f]
  {
    if fs != [] {
      PutNew(fs[1..], f);
      assert fs == [fs[0]] + fs[1..];
    }
  }

  lemma ParseWord(w: string, v: Json, rest: string)
    requires (w == "null" && v == Null) || (w == "true" && v == Bool(true)) || (w == "false" && v == Bool(false))
    ensures ParseValue(w + rest) == Parsed(v, rest)
  {
    Split(w, rest);
    if w == "false" {
      assert (w + rest)[..4][0] == 'f';
    }
    if w == "true" {
      assert (w + rest)[..4][0] == 't';
    }
  }

  lemma ParseNumeral(s: string, v: Json, rest: string)
    requires s != "" && (s[0] == '-' || IsDigit(s[0])) && ParseNumber(s) == Parsed(v, rest)
    ensures ParseValue(s) == Parsed(v, rest)
  {
    assert |s| >= 4 ==> s[..4][0] == s[0];
    assert |s| >= 5 ==> s[..5][0] == s[0];
  }

  lemma ParseQuoted(t: string, cs: string, rest: string)
    requires ParseChars(t) == Parsed(cs, rest)
    ensures ParseValue("\"" + t) == Parsed(Str(cs), rest)
  {
    Split("\"", t);
  }

  lemma ParseEmpty(rest: string)
    ensures ParseValue("[]" + rest) == Parsed(Arr([]), rest)
    ensures ParseValue("{}" + rest) == Parsed(Obj([]), rest)
  {
    assert ("[]" + rest)[1..] == "]" + rest;
    assert ("{}" + rest)[1..] == "}" + rest;
    Split("]", rest);
    Split("}", rest);
  }

  lemma ParseArray(t: string, xs: seq<Json>, rest: string)
    requires t != "" && !IsSpace(t[0]) && t[0] != ']' && ParseItems(t) == Parsed(xs, rest)
    ensures ParseValue("[" + t) == Parsed(Arr(xs), rest)
  {
    Split("[", t);
  }

  lemma ParseObject(t: string, fs: seq<Field>, rest: string)
    requires t != "" && t[0] == '"' && ParseFields(t) == Parsed(fs, rest)
    ensures ParseValue("{" + t) == Parsed(Obj(DictOf(fs)), rest)
  {
    Split("{", t);
  }

  lemma ParseLastItem(s: string, v: Json, rest: string)
    requires ParseValue(s) == Parsed(v, "]" + rest)
    ensures ParseItems(s) == Parsed([v], rest)
  {
    Split("]", rest);
  }

  lemma ParseMoreItems(s: string, v: Json, tail: string, vs: seq<Json>, rest: string)
    requires ParseValue(s) == Parsed(v, "," + tail)
    requires tail != "" && !IsSpace(tail[0]) && ParseItems(tail) == Parsed(vs, rest)
    ensures ParseItems(s) == Parsed([v] + vs, rest)
  {
    Split(",", tail);
  }

  lemma ParseLastField(s: string, f: Field, rest: string)
    requires ParseField(s) == Parsed(f, "}" + rest)
    ensures ParseFields(s) == Parsed([f], rest)
  {
    Split("}", rest);
  }

  lemma ParseMoreFields(s: string, f: Field, tail: string, fs: seq<Field>, rest: string)
    requires ParseField(s) == Parsed(f, "," + tail)
    requires tail != "" && !IsSpace(tail[0]) && ParseFields(tail) == Parsed(fs, rest)
    ensures ParseFields(s) == Parsed([f] + fs, rest)
  {
    Split(",", tail);
  }

  /** Parsing undoes printing in any context, for documents whose objects are dicts. */
  lemma {:induction false} ParsePrint(v: Json, rest: string)
    requires WellFormed(v) && Ends(rest)
    ensures ParseValue(Print(v) + rest) == Parsed(v, rest)
    decreases v
  {
    match v
    case Null => ParseWord("null", v, rest);
    case Bool(b) => ParseWord(if b then "true" else "false", v, rest);
    case Num(n) =>
      NatTextDigits(if n < 0 then -n else n);
      ParseIntText(n, rest);
      ParseNumeral(IntText(n) + rest, v, rest);
    case Str(cs) =>
      ParseCharsText(cs, rest);
      ParseQuoted(EscapeAll(cs) + ("\"" + rest), cs, rest);
      Regroup("\"", EscapeAll(cs), "\"", rest);
    case Arr(xs) =>
      if xs == [] {
        ParseEmpty(rest);
      } else {
        ItemsHead(xs);
        ParsePrintItems(xs, rest);
        ParseArray(PrintItems(xs) + ("]" + rest), xs, rest);
        Regroup("[", PrintItems(xs), "]", rest);
      }
    case Obj(fs) =>
      if fs == [] {
        ParseEmpty(rest);
      } else {
        FieldsHead(fs);
        ParsePrintFields(fs, rest);
        DictOfDistinct(fs);
        ParseObject(PrintFields(fs) + ("}" + rest), fs, rest);
        Regroup("{", PrintFields(fs), "}", rest);
      }
  }

  lemma ItemsHead(xs: seq<Json>)
    requires xs != []
    ensures PrintItems(xs) != "" && !IsSpace(PrintItems(xs)[0]) && PrintItems(xs)[0] != ']'
  {
    PrintHead(xs[0]);
  }

  lemma FieldsHead(fs: seq<Field>)
    requires fs != []
    ensures PrintFields(fs) != "" && PrintFields(fs)[0] == '"'
  {
    assert PrintField(fs[0])[0] == '"';
  }

  lemma {:induction false} ParsePrintItems(xs: seq<Json>, rest: string)
    requires xs != [] && forall i | 0 <= i < |xs| :: WellFormed(xs[i])
    ensures ParseItems(PrintItems(xs) + ("]" + rest)) == Parsed(xs, rest)
    decreases xs
  {
    if |xs| == 1 {
      ParsePrint(xs[0], "]" + rest);
      ParseLastItem(Print(xs[0]) + ("]" + rest), xs[0], rest);
      assert xs == [xs[0]];
    } else {
      var tail := PrintItems(xs[1..]) + ("]" + rest);
      ParsePrint(xs[0], "," + tail);
      ItemsHead(xs[1..]);
      ParsePrintItems(xs[1..], rest);
      ParseMoreItems(Print(xs[0]) + ("," + tail), xs[0], tail, xs[1..], rest);
      Regroup(Print(xs[0]), ",", PrintItems(xs[1..]), "]" + rest);
      assert xs == [xs[0]] + xs[1..];
    }
  }

  lemma ParseOneField(key: string, t: string, v: Json, rest: string)
    requires t != "" && !IsSpace(t[0]) && ParseValue(t) == Parsed(v, rest)
    ensures ParseField("\"" + (EscapeAll(key) + ("\"" + (":" + t)))) == Parsed(Field(key, v), rest)
  {
    ParseCharsText(key, ":" + t);
    Split("\"", EscapeAll(key) + ("\"" + (":" + t)));
    Split(":", t);
  }

  lemma {:induction false} ParsePrintField(f: Field, rest: string)
    requires WellFormed(f.value) && Ends(rest)
    ensures ParseField(PrintField(f) + rest) == Parsed(f, rest)
    decreases f
  {
    var t := Print(f.value) + rest;
    PrintHead(f.value);
    ParsePrint(f.value, rest);
    ParseOneField(f.key, t, f.value, rest);
    Regroup(StringText(f.key), ":", Print(f.value), rest);
    Regroup("\"", EscapeAll(f.key), "\"", ":" + t);
  }

  /** The first field of several, the rest being parsed already. */
  lemma ParsePrintFirst(fs: seq<Field>, tail: string, rest: string)
    requires |fs| > 1 && tail == PrintFields(fs[1..]) + ("}" + rest) && ParseFields(tail) == Parsed(fs[1..], rest)
    requires ParseField(PrintField(fs[0]) + ("," + tail)) == Parsed(fs[0], "," + tail)
    ensures ParseFields(PrintFields(fs) + ("}" + rest)) == Parsed(fs, rest)
  {
    FieldsHead(fs[1..]);
    ParseMoreFields(PrintField(fs[0]) + ("," + tail), fs[0], tail, fs[1..], rest);
    Regroup(PrintField(fs[0]), ",", PrintFields(fs[1..]), "}" + rest);
    assert fs == [fs[0]] + fs[1..];
  }

  lemma {:induction false} ParsePrintFields(fs: seq<Field>, rest: string)
    requires fs != [] && forall i | 0 <= i < |fs| :: WellFormed(fs[i].value)
    ensures ParseFields(PrintFields(fs) + ("}" + rest)) == Parsed(fs, rest)
    decreases fs
  {
    if |fs| == 1 {
      ParsePrintField(fs[0], "}" + rest);
      ParseLastField(PrintField(fs[0]) + ("}" + rest), fs[0], rest);
      assert fs == [fs[0]];
    } else {
      var tail := PrintFields(fs[1..]) + ("}" + rest);
      ParsePrintField(fs[0], "," + tail);
      ParsePrintFields(fs[1..], rest);
      ParsePrintFirst(fs, tail, rest);
    }
  }

  // ---- Main results ----

  /** Decoding the canonical text gives back an equal document, with its keys sorted. */
  lemma LoadsCanonical(v: Json)
    requires WellFormed(v)
    ensures Loads(Canonical(v)) == Some(Normal(v))
    ensures WellFormed(Normal(v)) && Same(v, Normal(v))
  {
    NormalSame(v);
    PrintHead(Normal(v));
    ParsePrint(Normal(v), "");
    assert Canonical(v) + "" == Canonical(v);
  }

  /** Two documents have the same canonical text exactly when Python calls them equal: nested
      insertion order never shows, and nothing else is lost. */
  lemma CanonicalIffSame(a: Json, b: Json)
    requires WellFormed(a) && WellFormed(b)
    ensures Canonical(a) == Canonical(b) <==> Same(a, b)
  {
    LoadsCanonical(a);
    LoadsCanonical(b);
    SameIffNormal(a, b);
  }

  /** A prefix that ends in its only NUL can be read off a signed payload. */
  lemma SplitAtNul(d: string, s: string, e: string, t: string)
    requires d != "" && d[|d| - 1] == '\0' && '\0' !in d[..|d| - 1]
    requires e != "" && e[|e| - 1] == '\0' && '\0' !in e[..|e| - 1]
    requires '\0' !in s && '\0' !in t
    requires d + s == e + t
    ensures d == e && s == t
  {
    var p := d + s;
    assert p[|d| - 1] == '\0' && p[|e| - 1] == '\0';
    assert forall i | 0 <= i < |e| - 1 :: p[i] == e[..|e| - 1][i] != '\0';
    assert forall i | 0 <= i < |d| - 1 :: p[i] == d[..|d| - 1][i] != '\0';
    assert |d| == |e|;
    assert p[..|d|] == d && p[..|e|] == e;
    assert p[|d|..] == s && p[|e|..] == t;
  }
}
