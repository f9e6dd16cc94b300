/** The conventional optional value. */
module Optional {
  datatype Option<+T> = None | Some(value: T)
}

/**
 * String operations the pipeline and the webhook rely on, stated with the
 * semantics of the library calls they stand for: Python's `str.startswith`,
 * `str.endswith`, `in`, `str.strip`, `str.lower` and `' '.join`, and Go's
 * `strings.HasPrefix` and `fmt.Sprintf("%d")`.
 */
module Text {

  /** `p` is a prefix of `s` (Go `strings.HasPrefix`, Python `str.startswith`). */
  predicate StartsWith(s: string, p: string) {
    |p| <= |s| && s[..|p|] == p
  }

  /** `p` is a suffix of `s` (Python `str.endswith`). */
  predicate EndsWith(s: string, p: string) {
    |p| <= |s| && s[|s| - |p|..] == p
  }

  /** `sub` occurs in `s` starting at index `i`. */
  predicate OccursAt(s: string, sub: string, i: int) {
    0 <= i && i + |sub| <= |s| && s[i..i + |sub|] == sub
  }

  /** Python's `sub in s`. */
  predicate Contains(s: string, sub: string) {
    exists i | 0 <= i <= |s| - |sub| :: OccursAt(s, sub, i)
  }

  /** An occurrence that ends inside the prefix of a string is an occurrence in the prefix. */
  lemma OccursInPrefix(s: string, t: string, sub: string, i: int)
    ensures OccursAt(s + t, sub, i) && i + |sub| <= |s| ==> OccursAt(s, sub, i)
  {
    if 0 <= i && i + |sub| <= |s| {
      assert (s + t)[i..i + |sub|] == s[i..i + |sub|];
    }
  }

  /** The characters Python's `str.isspace` accepts, which `str.strip` removes. */
  predicate IsSpace(c: char) {
    || c == ' '
    || '\t' <= c <= '\r'
    || '\U{1c}' <= c <= '\U{1f}'
    || c == '\U{85}'
    || c == '\U{a0}'
    || c == '\U{1680}'
    || '\U{2000}' <= c <= '\U{200a}'
    || c == '\U{2028}'
    || c == '\U{2029}'
    || c == '\U{202f}'
    || c == '\U{205f}'
    || c == '\U{3000}'
  }

  /** An ASCII decimal digit. */
  predicate IsDigit(c: char) {
    '0' <= c <= '9'
  }

  /** `s` with its leading whitespace removed (Python `str.lstrip()`). */
  function TrimStart(s: string): string {
    if s != [] && IsSpace(s[0]) then TrimStart(s[1..]) else s
  }

  /** `TrimStart` keeps a suffix that does not start with whitespace, and drops only whitespace. */
  lemma {:induction false} TrimStartSpec(s: string)
    ensures var r := TrimStart(s);
      && |r| <= |s| && r == s[|s| - |r|..]
      && (r == [] || !IsSpace(r[0]))
      && forall j | 0 <= j < |s| - |r| :: IsSpace(s[j])
  {
    if s != [] && IsSpace(s[0]) {
      TrimStartSpec(s[1..]);
      var r := TrimStart(s);
      forall j | 0 <= j < |s| - |r| ensures IsSpace(s[j]) {
        if j > 0 {
          assert s[j] == s[1..][j - 1];
        }
      }
    }
  }

  /** `s` with its trailing whitespace removed (Python `str.rstrip()`). */
  function TrimEnd(s: string): string {
    if s != [] && IsSpace(s[|s| - 1]) then TrimEnd(s[..|s| - 1]) else s
  }

  /** `TrimEnd` keeps a prefix that does not end with whitespace, and drops only whitespace. */
  lemma {:induction false} TrimEndSpec(s: string)
    ensures var r := TrimEnd(s);
      && |r| <= |s| && r == s[..|r|]
      && (r == [] || !IsSpace(r[|r| - 1]))
      && forall j | |r| <= j < |s| :: IsSpace(s[j])
  {
    if s != [] && IsSpace(s[|s| - 1]) {
      TrimEndSpec(s[..|s| - 1]);
      var r := TrimEnd(s);
      forall j | |r| <= j < |s| ensures IsSpace(s[j]) {
        if j < |s| - 1 {
          assert s[j] == s[..|s| - 1][j];
        }
      }
    }
  }

  /** Python `str.strip()`. */
  function Strip(s: string): string {
    TrimEnd(TrimStart(s))
  }

  /**
   * What `Strip` keeps: the slice of `s` between its leading and its trailing
   * whitespace; it is empty exactly when `s` is all whitespace.
   */
  lemma StripIsTrimmedSlice(s: string)
    ensures exists i, j :: 0 <= i <= j <= |s| && Strip(s) == s[i..j]
    ensures Strip(s) == [] || (!IsSpace(Strip(s)[0]) && !IsSpace(Strip(s)[|Strip(s)| - 1]))
    ensures Strip(s) == [] <==> forall j | 0 <= j < |s| :: IsSpace(s[j])
  {
    var t := TrimStart(s);
    TrimStartSpec(s);
    var r := TrimEnd(t);
    TrimEndSpec(t);
    var i := |s| - |t|;
    assert r == s[i..i + |r|];
    if r != [] {
      assert r[0] == s[i];
      assert !IsSpace(s[i]);
    }
  }

  /** Stripping a string that neither starts nor ends with whitespace changes nothing. */
  lemma StripUnchanged(s: string)
    requires s != [] && !IsSpace(s[0]) && !IsSpace(s[|s| - 1])
    ensures Strip(s) == s
  {
    assert TrimStart(s) == s;
  }

  /** Python `str.lower()` restricted to ASCII letters. */
  function LowerChar(c: char): char {
    if 'A' <= c <= 'Z' then (c as int + 32) as char else c
  }

  function ToLower(s: string): (r: string)
    ensures |r| == |s|
    ensures forall i | 0 <= i < |s| :: r[i] == LowerChar(s[i])
  {
    seq(|s|, i requires 0 <= i < |s| => LowerChar(s[i]))
  }

  /**
   * Lowering preserves occurrences: if `sub` occurs in `s` at `i`, then the
   * lowered `sub` occurs in the lowered `s` at `i`.
   */
  lemma {:induction false} LowerPreservesOccurrence(s: string, sub: string, i: int)
    requires OccursAt(s, sub, i)
    ensures OccursAt(ToLower(s), ToLower(sub), i)
  {
    var ls, lsub := ToLower(s), ToLower(sub);
    forall k | 0 <= k < |sub| ensures ls[i + k] == lsub[k] {
      assert s[i + k] == s[i..i + |sub|][k];
    }
    assert ls[i..i + |sub|] == lsub;
  }

  /** Python `' '.join(ws)`. */
  function JoinWords(ws: seq<string>): (r: string)
    ensures ws == [] ==> r == ""
    ensures |ws| == 1 ==> r == ws[0]
  {
    if ws == [] then "" else if |ws| == 1 then ws[0] else ws[0] + " " + JoinWords(ws[1..])
  }

  /** The character of one decimal digit. */
  function DigitChar(d: nat): (c: char)
    requires d < 10
    ensures IsDigit(c) && c as int - '0' as int == d
  {
    ('0' as int + d) as char
  }

  /** Go `fmt.Sprintf("%d", n)` for a non-negative `n`: its decimal digits, most significant first. */
  function Decimal(n: nat): (r: string)
    ensures r != []
    ensures forall j | 0 <= j < |r| :: IsDigit(r[j])
    ensures |r| > 1 ==> r[0] != '0'
  {
    if n < 10 then [DigitChar(n)] else Decimal(n / 10) + [DigitChar(n % 10)]
  }

  /** The value of a string of decimal digits. */
  function DigitsValue(s: string): nat
    requires forall j | 0 <= j < |s| :: IsDigit(s[j])
  {
    if s == [] then 0
    else
      assert IsDigit(s[|s| - 1]);
      10 * DigitsValue(s[..|s| - 1]) + (s[|s| - 1] as int - '0' as int)
  }

  /** Reading back what `Decimal` writes gives the number again. */
  lemma {:induction false} DecimalRoundTrip(n: nat)
    ensures DigitsValue(Decimal(n)) == n
  {
    if n >= 10 {
      var d := Decimal(n);
      assert d[..|d| - 1] == Decimal(n / 10);
      DecimalRoundTrip(n / 10);
    }
  }

  /** Different numbers get different decimal strings. */
  lemma DecimalInjective(m: nat, n: nat)
    requires Decimal(m) == Decimal(n)
    ensures m == n
  {
    DecimalRoundTrip(m);
    DecimalRoundTrip(n);
  }

  /** The number of decimal digits `s` starts with. */
  function LeadingDigits(s: string): (n: nat)
    ensures n <= |s|
  {
    if s != [] && IsDigit(s[0]) then 1 + LeadingDigits(s[1..]) else 0
  }

  /** A digit string followed by a non-digit can be read back off the front of the text. */
  lemma {:induction false} LeadingDigitsOfNumber(d: string, t: string)
    requires forall j | 0 <= j < |d| :: IsDigit(d[j])
    requires t == [] || !IsDigit(t[0])
    ensures LeadingDigits(d + t) == |d|
  {
    if d != [] {
      assert (d + t)[1..] == d[1..] + t;
      LeadingDigitsOfNumber(d[1..], t);
    } else {
      assert d + t == t;
    }
  }

  /**
   * A number written between a fixed prefix and a text that starts with a
   * non-digit can be read back: equal texts have equal numbers and equal
   * remainders.
   */
  lemma DecimalFieldInjective(p: string, m: nat, t1: string, n: nat, t2: string)
    requires t1 == [] || !IsDigit(t1[0])
    requires t2 == [] || !IsDigit(t2[0])
    requires p + Decimal(m) + t1 == p + Decimal(n) + t2
    ensures m == n && t1 == t2
  {
    var d1, d2 := Decimal(m), Decimal(n);
    var u1, u2 := d1 + t1, d2 + t2;
    assert p + d1 + t1 == p + u1 && p + d2 + t2 == p + u2;
    assert u1 == (p + u1)[|p|..] == u2;
    LeadingDigitsOfNumber(d1, t1);
    LeadingDigitsOfNumber(d2, t2);
    assert d1 == u1[..|d1|] == d2;
    DecimalInjective(m, n);
    assert t1 == u1[|d1|..] == t2;
  }
}
