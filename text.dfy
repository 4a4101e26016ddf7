/** Small stock wrapper used throughout the model. */
module Wrappers {
  datatype Option<+T> = None | Some(value: T)
}

/**
 * The string primitives the scraper leans on: Python's `str.strip()`,
 * `str.lower()`, the regular-expression class `[\W_]` and `str(int)`.
 *
 * Characters are Unicode code points (`char`). Whitespace follows
 * `str.isspace()` exactly; lower-casing and the word-character class are
 * exact for the Latin-1 range (U+0000..U+00FF), which covers the German
 * catalog text the scraper sees.
 */
module Text {
  import opened Wrappers

  /** A scraped record: field name to text. */
  type Record = map<string, string>

  /** `d.get(key, default)`. */
  function Get(d: Record, key: string, default: string): string {
    if key in d then d[key] else default
  }

  /** `d.get(key)`: the value, or nothing when the key is missing. */
  function GetOpt(d: Record, key: string): Option<string> {
    if key in d then Some(d[key]) else None
  }

  // ---------------------------------------------------------------------------
  // Character classes
  // ---------------------------------------------------------------------------

  /** The characters for which Python's `str.isspace()` holds. */
  predicate IsSpace(c: char) {
    || ('\t' <= c <= '\r')                       // U+0009..U+000D
    || ('\U{001C}' <= c <= '\U{001F}')
    || c == ' ' || c == '\U{0085}' || c == '\U{00A0}' || c == '\U{1680}'
    || ('\U{2000}' <= c <= '\U{200A}')
    || c == '\U{2028}' || c == '\U{2029}' || c == '\U{202F}' || c == '\U{205F}'
    || c == '\U{3000}'
  }

  /** Upper-case letters that `str.lower()` maps 32 code points down. */
  predicate IsUpper(c: char) {
    ('A' <= c <= 'Z') || ('\U{00C0}' <= c <= '\U{00DE}' && c != '\U{00D7}')
  }

  /** Characters matched by `\w` other than `_` (Python's `str.isalnum()`). */
  predicate IsAlnum(c: char) {
    || ('a' <= c <= 'z') || ('A' <= c <= 'Z') || ('0' <= c <= '9')
    || c == '\U{00AA}' || c == '\U{00B2}' || c == '\U{00B3}' || c == '\U{00B5}'
    || c == '\U{00B9}' || c == '\U{00BA}' || ('\U{00BC}' <= c <= '\U{00BE}')
    || ('\U{00C0}' <= c <= '\U{00FF}' && c != '\U{00D7}' && c != '\U{00F7}')
  }

  function LowerChar(c: char): (r: char)
    ensures IsUpper(c) ==> r as int == c as int + 32
    ensures !IsUpper(c) ==> r == c
    ensures !IsUpper(r)
    ensures IsAlnum(r) == IsAlnum(c)
  {
    if IsUpper(c) then (c as int + 32) as char else c
  }

  // ---------------------------------------------------------------------------
  // str.lower()
  // ---------------------------------------------------------------------------

  function Lower(s: string): (r: string)
    ensures |r| == |s|
    ensures forall i | 0 <= i < |s| :: r[i] == LowerChar(s[i])
  {
    if s == [] then [] else [LowerChar(s[0])] + Lower(s[1..])
  }

  lemma LowerConcat(a: string, b: string)
    ensures Lower(a + b) == Lower(a) + Lower(b)
  {
  }

  /** Lower-casing twice is lower-casing once. */
  lemma LowerIdempotent(s: string)
    ensures Lower(Lower(s)) == Lower(s)
  {
  }

  // ---------------------------------------------------------------------------
  // re.sub(r'[\W_]+', '', s)
  // ---------------------------------------------------------------------------

  /** Removes every character outside `\w` and every underscore. */
  function KeepAlnum(s: string): (r: string)
    ensures |r| <= |s|
  {
    if s == [] then []
    else if IsAlnum(s[0]) then [s[0]] + KeepAlnum(s[1..])
    else KeepAlnum(s[1..])
  }

  /**
   * The filter keeps only letters and digits, all taken from the input, and
   * leaves an input of letters and digits unchanged.
   */
  lemma {:induction false} KeepAlnumShape(s: string)
    ensures forall c | c in KeepAlnum(s) :: IsAlnum(c) && c in s
    ensures (forall i | 0 <= i < |s| :: IsAlnum(s[i])) ==> KeepAlnum(s) == s
  {
    if s != [] {
      KeepAlnumShape(s[1..]);
      assert s == [s[0]] + s[1..];
      forall c | c in KeepAlnum(s[1..]) ensures c in s {
        assert c in s[1..];
      }
      if forall i | 0 <= i < |s| :: IsAlnum(s[i]) {
        assert forall i | 0 <= i < |s[1..]| :: IsAlnum(s[1..][i]) by {
          forall i | 0 <= i < |s[1..]| ensures IsAlnum(s[1..][i]) {
            assert s[1..][i] == s[i + 1];
          }
        }
      }
    }
  }

  /** The filter distributes over concatenation: separators between parts vanish. */
  lemma {:induction false} KeepAlnumConcat(a: string, b: string)
    ensures KeepAlnum(a + b) == KeepAlnum(a) + KeepAlnum(b)
  {
    if a == [] {
      assert a + b == b;
    } else {
      assert (a + b)[1..] == a[1..] + b;
      KeepAlnumConcat(a[1..], b);
    }
  }

  /** `re.sub(r'[\W_]+', '', s.lower())`: the comparison key of the scraper. */
  function MatchKey(s: string): string {
    KeepAlnum(Lower(s))
  }

  /** A comparison key holds only letters and digits, and no upper-case letter. */
  lemma MatchKeyShape(s: string)
    ensures forall c | c in MatchKey(s) :: IsAlnum(c) && !IsUpper(c)
  {
    var lowered := Lower(s);
    KeepAlnumShape(lowered);
    forall c | c in MatchKey(s) ensures !IsUpper(c) {
      assert c in lowered;
      var i :| 0 <= i < |lowered| && lowered[i] == c;
      assert c == LowerChar(s[i]);
    }
  }

  /** The comparison key of a concatenation is the concatenation of the keys. */
  lemma MatchKeyConcat(a: string, b: string)
    ensures MatchKey(a + b) == MatchKey(a) + MatchKey(b)
  {
    LowerConcat(a, b);
    KeepAlnumConcat(Lower(a), Lower(b));
  }

  /** The comparison key ignores letter case. */
  lemma MatchKeyIgnoresCase(s: string)
    ensures MatchKey(Lower(s)) == MatchKey(s)
  {
    LowerIdempotent(s);
  }

  /** The comparison key ignores every character that is not a letter or digit. */
  lemma {:induction false} MatchKeyIgnoresPunctuation(a: string, p: string, b: string)
    requires forall i | 0 <= i < |p| :: !IsAlnum(p[i])
    ensures MatchKey(a + p + b) == MatchKey(a + b)
  {
    var la, lp, lb := Lower(a), Lower(p), Lower(b);
    forall i | 0 <= i < |lp| ensures !IsAlnum(lp[i]) {
      assert lp[i] == LowerChar(p[i]);
    }
    NoAlnumVanishes(lp);
    calc {
      MatchKey(a + p + b);
      KeepAlnum(Lower((a + p) + b));
      { LowerConcat(a + p, b); LowerConcat(a, p); }
      KeepAlnum((la + lp) + lb);
      { KeepAlnumConcat(la + lp, lb); KeepAlnumConcat(la, lp); }
      KeepAlnum(la) + KeepAlnum(lp) + KeepAlnum(lb);
      KeepAlnum(la) + KeepAlnum(lb);
      { KeepAlnumConcat(la, lb); }
      KeepAlnum(la + lb);
      { LowerConcat(a, b); }
      MatchKey(a + b);
    }
  }

  lemma {:induction false} NoAlnumVanishes(p: string)
    requires forall i | 0 <= i < |p| :: !IsAlnum(p[i])
    ensures KeepAlnum(p) == []
  {
    if p != [] {
      NoAlnumVanishes(p[1..]);
    }
  }

  // ---------------------------------------------------------------------------
  // str.strip()
  // ---------------------------------------------------------------------------

  /** Index of the first non-whitespace character (|s| when there is none). */
  function StripStart(s: string): (k: nat)
    ensures k <= |s|
    ensures forall i | 0 <= i < k :: IsSpace(s[i])
    ensures k < |s| ==> !IsSpace(s[k])
  {
    if s != [] && IsSpace(s[0]) then 1 + StripStart(s[1..]) else 0
  }

  /** One past the last non-whitespace character (0 when there is none). */
  function StripEnd(s: string): (k: nat)
    ensures k <= |s|
    ensures forall i | k <= i < |s| :: IsSpace(s[i])
    ensures 0 < k ==> !IsSpace(s[k - 1])
  {
    if s != [] && IsSpace(s[|s| - 1]) then StripEnd(s[..|s| - 1]) else |s|
  }

  /** Python's `s.strip()`: drop leading and trailing whitespace. */
  function Strip(s: string): (r: string)
    ensures |r| <= |s|
    ensures r == [] <==> forall i | 0 <= i < |s| :: IsSpace(s[i])
    ensures r != [] ==> !IsSpace(r[0]) && !IsSpace(r[|r| - 1])
    ensures r != [] ==> r == s[StripStart(s)..StripEnd(s)]
    ensures forall c | c in r :: c in s
  {
    var b, e := StripStart(s), StripEnd(s);
    if b < e then s[b..e] else []
  }

  /** A string without surrounding whitespace is its own strip. */
  lemma StripFramed(s: string)
    requires s != [] ==> !IsSpace(s[0]) && !IsSpace(s[|s| - 1])
    ensures Strip(s) == s
  {
    if s != [] {
      assert StripStart(s) == 0;
      assert StripEnd(s) == |s|;
    }
  }

  /** Stripping twice is stripping once. */
  lemma StripIdempotent(s: string)
    ensures Strip(Strip(s)) == Strip(s)
  {
    StripFramed(Strip(s));
  }

  // ---------------------------------------------------------------------------
  // Suffixes and decimal rendering
  // ---------------------------------------------------------------------------

  /** Python's `s.endswith(suffix)`. */
  predicate EndsWith(s: string, suffix: string) {
    |suffix| <= |s| && s[|s| - |suffix|..] == suffix
  }

  function DigitChar(d: nat): (c: char)
    requires d < 10
    ensures '0' <= c <= '9'
  {
    ('0' as int + d) as char
  }

  /** Python's `str(n)` for a non-negative integer: decimal digits, no leading zero. */
  function NatToString(n: nat): (r: string)
    ensures 0 < |r|
    ensures forall i | 0 <= i < |r| :: '0' <= r[i] <= '9'
    ensures n < 10 ==> r == [DigitChar(n)]
    ensures |r| > 1 ==> r[0] != '0'
    decreases n
  {
    if n < 10 then [DigitChar(n)] else NatToString(n / 10) + [DigitChar(n % 10)]
  }

  /** Reads back a string of decimal digits. */
  function ParseDigits(s: string): nat
    requires forall i | 0 <= i < |s| :: '0' <= s[i] <= '9'
  {
    if s == [] then 0
    else ParseDigits(s[..|s| - 1]) * 10 + (s[|s| - 1] as int - '0' as int) as nat
  }

  /** Rendering then reading a number gives the number back. */
  lemma {:induction false} NatToStringRoundTrip(n: nat)
    ensures ParseDigits(NatToString(n)) == n
    decreases n
  {
    if n >= 10 {
      var s := NatToString(n);
      assert s[..|s| - 1] == NatToString(n / 10);
      NatToStringRoundTrip(n / 10);
    }
  }

  /** Different numbers render differently. */
  lemma NatToStringInjective(m: nat, n: nat)
    requires NatToString(m) == NatToString(n)
    ensures m == n
  {
    NatToStringRoundTrip(m);
    NatToStringRoundTrip(n);
  }
}
