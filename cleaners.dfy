/**
 * Field cleaners of the scraper: `clean_text`, which filters the text of one
 * list item, and `sanitize_filename`, which turns a product name into an
 * image file name.
 */
module Cleaners {
  import opened Text

  /** Longest item text `clean_text` keeps. */
  const MaxCleanLength: nat := 50

  /** Section headings that the page repeats inside its own lists. */
  const HeaderWords: seq<string> := [
    "Wirkung", "Geschmack", "Terpene", "Effekte", "Medizinische Wirkung bei", "Alle anzeigen"
  ]

  /**
   * `clean_text`: the stripped text, or "" when the input is empty, the
   * stripped text is longer than 50 characters, or it is a section heading.
   */
  function CleanText(text: string): (r: string)
    ensures r != "" ==> r == Strip(text) && |r| <= MaxCleanLength && r !in HeaderWords
    ensures r == "" <==> (Strip(text) == "" || |Strip(text)| > MaxCleanLength || Strip(text) in HeaderWords)
    ensures r != "" ==> !IsSpace(r[0]) && !IsSpace(r[|r| - 1])
  {
    if text == "" then ""
    else
      var t := Strip(text);
      if |t| > MaxCleanLength then ""
      else if t in HeaderWords then ""
      else t
  }

  /** Cleaning a cleaned text changes nothing. */
  lemma CleanTextIdempotent(text: string)
    ensures CleanText(CleanText(text)) == CleanText(text)
  {
    var r := CleanText(text);
    if r != "" {
      StripFramed(r);
    }
  }

  /**
   * The nine characters `sanitize_filename` removes: backslash, slash, star,
   * question mark, colon, double quote, less-than, greater-than and bar.
   */
  predicate IsForbidden(c: char) {
    c == '\\' || c == '/' || c == '*' || c == '?' || c == ':' || c == '"' || c == '<' || c == '>' || c == '|'
  }

  /**
   * The regular-expression substitution of `sanitize_filename`: every
   * forbidden character is deleted.
   */
  function RemoveForbidden(s: string): (r: string)
    ensures |r| <= |s|
    ensures forall c | c in r :: !IsForbidden(c) && c in s
  {
    if s == [] then []
    else if IsForbidden(s[0]) then RemoveForbidden(s[1..])
    else [s[0]] + RemoveForbidden(s[1..])
  }

  /** Removing forbidden characters from a string that has none is the identity. */
  lemma {:induction false} RemoveForbiddenClean(s: string)
    requires forall c | c in s :: !IsForbidden(c)
    ensures RemoveForbidden(s) == s
  {
    if s != [] {
      assert s[0] in s;
      assert forall c | c in s[1..] :: c in s;
      RemoveForbiddenClean(s[1..]);
    }
  }

  /** Every character the filter keeps sits in the input and is allowed; no allowed one is lost. */
  lemma {:induction false} RemoveForbiddenKeepsAllowed(s: string, c: char)
    requires !IsForbidden(c)
    ensures c in RemoveForbidden(s) <==> c in s
  {
    if s != [] {
      RemoveForbiddenKeepsAllowed(s[1..], c);
      assert s == [s[0]] + s[1..];
    }
  }

  /** On one character the filter deletes a forbidden one and keeps any other. */
  lemma RemoveForbiddenChar(c: char)
    ensures RemoveForbidden([c]) == if IsForbidden(c) then [] else [c]
  {
    assert [c][1..] == [];
  }

  /**
   * The filter distributes over concatenation: the kept characters stay in
   * their order and number, so with `RemoveForbiddenChar` it is fixed exactly.
   */
  lemma {:induction false} RemoveForbiddenConcat(a: string, b: string)
    ensures RemoveForbidden(a + b) == RemoveForbidden(a) + RemoveForbidden(b)
  {
    if a == [] {
      assert a + b == b;
    } else {
      assert (a + b)[0] == a[0];
      assert (a + b)[1..] == a[1..] + b;
      RemoveForbiddenConcat(a[1..], b);
    }
  }

  /** `sanitize_filename`: drop the forbidden characters, then strip. */
  function SanitizeFilename(name: string): (r: string)
    ensures forall c | c in r :: !IsForbidden(c) && c in name
    ensures r != [] ==> !IsSpace(r[0]) && !IsSpace(r[|r| - 1])
  {
    Strip(RemoveForbidden(name))
  }

  /** Sanitizing a sanitized name changes nothing. */
  lemma SanitizeFilenameIdempotent(name: string)
    ensures SanitizeFilename(SanitizeFilename(name)) == SanitizeFilename(name)
  {
    var r := SanitizeFilename(name);
    RemoveForbiddenClean(r);
    StripFramed(r);
  }

  /** A forbidden character anywhere in the name is deleted in place; the rest is kept as it was. */
  lemma SanitizeFilenameDropsForbidden(a: string, f: char, b: string)
    requires IsForbidden(f)
    ensures SanitizeFilename(a + [f] + b) == SanitizeFilename(a + b)
  {
    RemoveForbiddenConcat(a + [f], b);
    RemoveForbiddenConcat(a, [f]);
    RemoveForbiddenChar(f);
    RemoveForbiddenConcat(a, b);
    assert RemoveForbidden(a) + [] == RemoveForbidden(a);
  }

  /** A name without forbidden characters is only stripped. */
  lemma SanitizeFilenameAllowed(name: string)
    requires forall c | c in name :: !IsForbidden(c)
    ensures SanitizeFilename(name) == Strip(name)
  {
    RemoveForbiddenClean(name);
  }
}
