/** `json.loads` on the grammar of RFC 8259, with integers as the only numbers. */
module JsonParser {
  import opened Prelude
  import opened Text
  import opened Json

  datatype Parsed<+T> = Bad | Parsed(value: T, rest: string)

  predicate IsSpace(c: char) { c in " \t\n\r" }

  function SkipSpace(s: string): (r: string)
    ensures |r| <= |s|
  {
    if s != "" && IsSpace(s[0]) then SkipSpace(s[1..]) else s
  }

  // ---- Numbers ----

  function DigitRun(s: string): (n: nat)
    ensures n <= |s| && forall i | 0 <= i < n :: IsDigit(s[i])
  {
    if s != "" && IsDigit(s[0]) then 1 + DigitRun(s[1..]) else 0
  }

  function NatValue(s: string): nat
    requires forall i | 0 <= i < |s| :: IsDigit(s[i])
  {
    if s == "" then 0
    else
      var c := s[|s| - 1];
      assert IsDigit(c);
      10 * NatValue(s[..|s| - 1]) + (c as int - '0' as int)
  }

  /** Digits without a leading zero, as a JSON number requires. */
  function ParseNat(s: string): (r: Parsed<nat>)
    ensures r.Parsed? ==> |r.rest| < |s|
  {
    if s != "" && s[0] == '0' then Parsed(0, s[1..])
    else
      var n := DigitRun(s);
      if n == 0 then Bad else Parsed(NatValue(s[..n]), s[n..])
  }

  function ParseNumber(s: string): (r: Parsed<Json>)
    ensures r.Parsed? ==> |r.rest| < |s| && WellFormed(r.value)
  {
    if s != "" && s[0] == '-' then
      match ParseNat(s[1..])
      case Bad => Bad
      case Parsed(n, rest) => Parsed(Num(0 - n), rest)
    else
      match ParseNat(s)
      case Bad => Bad
      case Parsed(n, rest) => Parsed(Num(n), rest)
  }

  // ---- Strings ----

  function HexValue(c: char): int
  {
    if IsDigit(c) then c as int - '0' as int
    else if 'a' <= c <= 'f' then c as int - 'a' as int + 10
    else if 'A' <= c <= 'F' then c as int - 'A' as int + 10
    else -1
  }

  predicate IsHex(c: char) { HexValue(c) >= 0 }

  function HexSum(a: char, b: char, c: char, d: char): (n: nat)
    requires IsHex(a) && IsHex(b) && IsHex(c) && IsHex(d)
    ensures n < 0x10000
  {
    ((HexValue(a) * 16 + HexValue(b)) * 16 + HexValue(c)) * 16 + HexValue(d)
  }

  function ParseHex4(s: string): (r: Parsed<nat>)
    ensures r.Parsed? ==> r.value < 0x10000 && |r.rest| < |s|
  {
    if |s| >= 4 && IsHex(s[0]) && IsHex(s[1]) && IsHex(s[2]) && IsHex(s[3]) then
      Parsed(HexSum(s[0], s[1], s[2], s[3]), s[4..])
    else Bad
  }

  /** The escape after a backslash; a surrogate must be followed by its partner. */
  function ParseEscape(s: string): (r: Parsed<char>)
    ensures r.Parsed? ==> |r.rest| < |s|
  {
    if s == "" then Bad
    else if s[0] in "\"\\/" then Parsed(s[0], s[1..])
    else if s[0] == 'n' then Parsed('\n', s[1..])
    else if s[0] == 'r' then Parsed('\r', s[1..])
    else if s[0] == 't' then Parsed('\t', s[1..])
    else if s[0] == 'b' then Parsed(8 as char, s[1..])
    else if s[0] == 'f' then Parsed(12 as char, s[1..])
    else if s[0] != 'u' then Bad
    else match ParseHex4(s[1..])
      case Bad => Bad
      case Parsed(n, rest) =>
        if n < 0xD800 || n >= 0xE000 then Parsed(n as char, rest)
        else if n < 0xDC00 && |rest| >= 2 && rest[0] == '\\' && rest[1] == 'u' then
          match ParseHex4(rest[2..])
          case Bad => Bad
          case Parsed(m, rest') =>
            if 0xDC00 <= m < 0xE000
            then Parsed((0x10000 + (n - 0xD800) * 1024 + (m - 0xDC00)) as char, rest')
            else Bad
        else Bad
  }

  /** The characters of a string up to and including its closing quote. */
  function ParseChars(s: string): (r: Parsed<string>)
    ensures r.Parsed? ==> |r.rest| < |s|
    decreases |s|
  {
    if s == "" || s[0] < ' ' then Bad
    else if s[0] == '"' then Parsed("", s[1..])
    else
      match if s[0] == '\\' then ParseEscape(s[1..]) else Parsed(s[0], s[1..])
      case Bad => Bad
      case Parsed(c, rest) =>
        match ParseChars(rest)
        case Bad => Bad
        case Parsed(cs, rest') => Parsed([c] + cs, rest')
  }

  // ---- Values ----

  /** `dict[key] = value`: a key keeps its first position and takes the last value. */
  function Put(fs: seq<Field>, f: Field): (r: seq<Field>)
    requires Distinct(fs)
    ensures Distinct(r)
    ensures forall g | g in r :: g == f || g in fs
  {
    if fs == [] then [f]
    else if fs[0].key == f.key then [f] + fs[1..]
    else
      var r := Put(fs[1..], f);
      assert forall i | 0 <= i < |r| :: r[i] in r && r[i].key != fs[0].key;
      [fs[0]] + r
  }

  function DictOf(fs: seq<Field>): (r: seq<Field>)
    ensures Distinct(r)
    ensures forall g | g in r :: g in fs
    decreases |fs|
  {
    if fs == [] then []
    else
      var n := |fs| - 1;
      assert fs == fs[..n] + [fs[n]];
      Put(DictOf(fs[..n]), fs[n])
  }

  function ParseValue(s: string): (r: Parsed<Json>)
    ensures r.Parsed? ==> |r.rest| < |s| && WellFormed(r.value)
    decreases |s|, 0
  {
    if s == "" then Bad
    else if s[0] == '"' then
      match ParseChars(s[1..])
      case Bad => Bad
      case Parsed(cs, rest) => Parsed(Str(cs), rest)
    else if s[0] == '[' then
      var t := SkipSpace(s[1..]);
      if t != "" && t[0] == ']' then Parsed(Arr([]), t[1..])
      else match ParseItems(t)
        case Bad => Bad
        case Parsed(xs, rest) => Parsed(Arr(xs), rest)
    else if s[0] == '{' then
      var t := SkipSpace(s[1..]);
      if t != "" && t[0] == '}' then Parsed(Obj([]), t[1..])
      else match ParseFields(t)
        case Bad => Bad
        case Parsed(fs, rest) => Parsed(Obj(DictOf(fs)), rest)
    else if |s| >= 4 && s[..4] == "null" then Parsed(Null, s[4..])
    else if |s| >= 4 && s[..4] == "true" then Parsed(Bool(true), s[4..])
    else if |s| >= 5 && s[..5] == "false" then Parsed(Bool(false), s[5..])
    else ParseNumber(s)
  }

  /** The elements of a non-empty array, through its closing bracket. */
  function ParseItems(s: string): (r: Parsed<seq<Json>>)
    ensures r.Parsed? ==> |r.rest| < |s| && forall i | 0 <= i < |r.value| :: WellFormed(r.value[i])
    decreases |s|, 1
  {
    match ParseValue(s)
    case Bad => Bad
    case Parsed(v, rest) =>
      var t := SkipSpace(rest);
      if t != "" && t[0] == ']' then Parsed([v], t[1..])
      else if t != "" && t[0] == ',' then
        match ParseItems(SkipSpace(t[1..]))
        case Bad => Bad
        case Parsed(vs, rest') => Parsed([v] + vs, rest')
      else Bad
  }

  /** One `"key": value` of an object. */
  function ParseField(s: string): (r: Parsed<Field>)
    ensures r.Parsed? ==> |r.rest| < |s| && WellFormed(r.value.value)
    decreases |s|, 0
  {
    if s == "" || s[0] != '"' then Bad
    else match ParseChars(s[1..])
      case Bad => Bad
      case Parsed(key, rest) =>
        var t := SkipSpace(rest);
        if t == "" || t[0] != ':' then Bad
        else match ParseValue(SkipSpace(t[1..]))
          case Bad => Bad
          case Parsed(v, rest') => Parsed(Field(key, v), rest')
  }

  /** The fields of a non-empty object, through its closing brace. */
  function ParseFields(s: string): (r: Parsed<seq<Field>>)
    ensures r.Parsed? ==> |r.rest| < |s| && forall f | f in r.value :: WellFormed(f.value)
    decreases |s|, 1
  {
    match ParseField(s)
    case Bad => Bad
    case Parsed(f, rest) =>
      var t := SkipSpace(rest);
      if t != "" && t[0] == '}' then Parsed([f], t[1..])
      else if t != "" && t[0] == ',' then
        match ParseFields(SkipSpace(t[1..]))
        case Bad => Bad
        case Parsed(fs, rest') => Parsed([f] + fs, rest')
      else Bad
  }

  /** `json.loads`: one value, with nothing but white space around it. */
  function Loads(s: string): (r: Option<Json>)
    ensures r.Some? ==> WellFormed(r.value)
  {
    match ParseValue(SkipSpace(s))
    case Bad => None
    case Parsed(v, rest) => if SkipSpace(rest) == "" then Some(v) else None
  }
}
