/** Python's ordering of strings, by code point, and the character classes the identifiers use. */
module Text {

  predicate Below(a: string, b: string)
  {
    b != "" && (a == "" || a[0] < b[0] || (a[0] == b[0] && Below(a[1..], b[1..])))
  }

  lemma {:induction false} BelowIrreflexive(a: string)
    ensures !Below(a, a)
  {
    if a != "" {
      BelowIrreflexive(a[1..]);
    }
  }

  lemma {:induction false} BelowTransitive(a: string, b: string, c: string)
    requires Below(a, b) && Below(b, c)
    ensures Below(a, c)
  {
    if a != "" && a[0] == b[0] && b[0] == c[0] {
      BelowTransitive(a[1..], b[1..], c[1..]);
    }
  }

  lemma {:induction false} BelowTotal(a: string, b: string)
    ensures a == b || Below(a, b) || Below(b, a)
  {
    if a != "" && b != "" && a[0] == b[0] {
      BelowTotal(a[1..], b[1..]);
      assert a == [a[0]] + a[1..];
      assert b == [b[0]] + b[1..];
    }
  }

  predicate IsDigit(c: char) { '0' <= c <= '9' }

  predicate IsBase32Lower(c: char) { 'a' <= c <= 'z' || '2' <= c <= '7' }

  predicate IsBase64Url(c: char)
  {
    'A' <= c <= 'Z' || 'a' <= c <= 'z' || IsDigit(c) || c == '-' || c == '_'
  }

  /** Relay and peer identifiers: one to 64 letters, digits, dots, underscores or hyphens. */
  predicate IsName(s: string)
  {
    1 <= |s| <= 64 && forall c | c in s :: IsBase64Url(c) || c == '.'
  }

  predicate IsDeviceId(s: string)
  {
    |s| == 30 && s[..4] == "phm_" && forall c | c in s[4..] :: IsBase32Lower(c)
  }

  predicate IsPublicKeyText(s: string)
  {
    |s| == 43 && forall c | c in s :: IsBase64Url(c)
  }

  predicate IsLowerHex(c: char) { IsDigit(c) || 'a' <= c <= 'f' }

  /** The spelling `str(uuid.UUID(s)) == s` accepts: lower-case hex in groups of 8, 4, 4, 4 and 12. */
  predicate IsUuid(s: string)
  {
    && |s| == 36
    && forall i | 0 <= i < 36 :: if i in {8, 13, 18, 23} then s[i] == '-' else IsLowerHex(s[i])
  }
}
