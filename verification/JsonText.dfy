/** The text `json.dumps(document, separators=(",", ":"), ensure_ascii=True)` writes. */
module JsonText {
  import opened Text
  import opened Json

  function Digit(d: int): char
    requires 0 <= d < 10
  {
    '0' + d as char
  }

  function NatText(n: nat): string
  {
    if n < 10 then [Digit(n)] else NatText(n / 10) + [Digit(n % 10)]
  }

  function IntText(n: int): string
  {
    if n < 0 then "-" + NatText(-n) else NatText(n)
  }

  function HexDigit(d: int): char
    requires 0 <= d < 16
  {
    if d < 10 then '0' + d as char else 'a' + (d - 10) as char
  }

  function Hex4(n: int): (h: string)
    ensures forall i | 0 <= i < |h| :: ' ' <= h[i] <= '~'
    requires 0 <= n < 0x10000
  {
    var q := n / 16;
    var r := q / 16;
    [HexDigit(r / 16), HexDigit(r % 16), HexDigit(q % 16), HexDigit(n % 16)]
  }

  /** One character of a string: short escapes, printable ASCII as itself, the rest as \u escapes. */
  function Escape(c: char): string
  {
    if c == '"' then "\\\""
    else if c == '\\' then "\\\\"
    else if c == '\n' then "\\n"
    else if c == '\r' then "\\r"
    else if c == '\t' then "\\t"
    else if c == 8 as char then "\\b"
    else if c == 12 as char then "\\f"
    else if ' ' <= c <= '~' then [c]
    else LongEscape(c)
  }

  function LongEscape(c: char): string
  {
    if c as int < 0x10000 then "\\u" + Hex4(c as int)
    else
      var n := c as int - 0x10000;
      "\\u" + Hex4(0xD800 + n / 1024) + "\\u" + Hex4(0xDC00 + n % 1024)
  }

  function EscapeAll(s: string): string
  {
    if s == "" then "" else Escape(s[0]) + EscapeAll(s[1..])
  }

  function StringText(s: string): string
  {
    "\"" + EscapeAll(s) + "\""
  }

  function Print(v: Json): string
    decreases v
  {
    match v
    case Null => "null"
    case Bool(b) => if b then "true" else "false"
    case Num(n) => IntText(n)
    case Str(s) => StringText(s)
    case Arr(xs) => if xs == [] then "[]" else "[" + PrintItems(xs) + "]"
    case Obj(fs) => if fs == [] then "{}" else "{" + PrintFields(fs) + "}"
  }

  function PrintItems(xs: seq<Json>): string
    requires xs != []
    decreases xs
  {
    if |xs| == 1 then Print(xs[0]) else Print(xs[0]) + "," + PrintItems(xs[1..])
  }

  function PrintField(f: Field): string
    decreases f
  {
    StringText(f.key) + ":" + Print(f.value)
  }

  function PrintFields(fs: seq<Field>): string
    requires fs != []
    decreases fs
  {
    if |fs| == 1 then PrintField(fs[0]) else PrintField(fs[0]) + "," + PrintFields(fs[1..])
  }

  /** `sort_keys=True`: the bytes that are signed, framed and measured. */
  function Canonical(v: Json): string
  {
    Print(Normal(v))
  }

  // ---- The text is printable ASCII: no NUL, no newline ----

  predicate Printable(s: string)
  {
    forall i | 0 <= i < |s| :: ' ' <= s[i] <= '~'
  }

  lemma {:induction false} NatTextDigits(n: nat)
    ensures |NatText(n)| > 0 && forall i | 0 <= i < |NatText(n)| :: IsDigit(NatText(n)[i])
    ensures n > 0 ==> NatText(n)[0] != '0'
  {
    if n >= 10 {
      NatTextDigits(n / 10);
    }
  }

  lemma Join(s: string, t: string)
    requires Printable(s) && Printable(t)
    ensures Printable(s + t)
  {
  }

  lemma LongEscapePrintable(c: char)
    ensures Printable(LongEscape(c))
  {
    if c as int < 0x10000 {
      Join("\\u", Hex4(c as int));
    } else {
      var n := c as int - 0x10000;
      var hi, lo := Hex4(0xD800 + n / 1024), Hex4(0xDC00 + n % 1024);
      Join("\\u", hi);
      Join("\\u" + hi, "\\u");
      Join("\\u" + hi + "\\u", lo);
    }
  }

  lemma EscapePrintable(c: char)
    ensures Printable(Escape(c))
  {
    LongEscapePrintable(c);
  }

  lemma {:induction false} EscapeAllPrintable(s: string)
    ensures Printable(EscapeAll(s))
  {
    if s != "" {
      EscapeAllPrintable(s[1..]);
      EscapePrintable(s[0]);
    }
  }

  lemma {:induction false} PrintPrintable(v: Json)
    ensures Printable(Print(v))
    decreases v
  {
    match v
    case Num(n) => NatTextDigits(if n < 0 then -n else n);
    case Str(s) => EscapeAllPrintable(s);
    case Arr(xs) => if xs != [] { ItemsPrintable(xs); }
    case Obj(fs) => if fs != [] { FieldsPrintable(fs); }
    case _ =>
  }

  lemma {:induction false} ItemsPrintable(xs: seq<Json>)
    requires xs != []
    ensures Printable(PrintItems(xs))
    decreases xs
  {
    PrintPrintable(xs[0]);
    if |xs| > 1 {
      ItemsPrintable(xs[1..]);
    }
  }

  lemma {:induction false} FieldsPrintable(fs: seq<Field>)
    requires fs != []
    ensures Printable(PrintFields(fs))
    decreases fs
  {
    EscapeAllPrintable(fs[0].key);
    PrintPrintable(fs[0].value);
    assert Printable(PrintField(fs[0]));
    if |fs| > 1 {
      FieldsPrintable(fs[1..]);
    }
  }

  lemma CanonicalPrintable(v: Json)
    ensures Printable(Canonical(v))
    ensures '\0' !in Canonical(v) && '\n' !in Canonical(v)
  {
    PrintPrintable(Normal(v));
  }
}
