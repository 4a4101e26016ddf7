/**
 * `create_product_hash`: the identity string of a product and its digest.
 *
 * The identity is `f"{str(hersteller).lower()}-{str(produktname).lower()}-{str(thc)}"`
 * with every character outside letters and digits removed. The digest
 * (MD5 in the source) is a function parameter: nothing here depends on
 * which hash it is, only on what the identity string keeps and loses.
 */
module Fingerprint {
  import opened Wrappers
  import opened Text

  /** Python's `str(x)` for a value read with `dict.get`: a missing one prints as "None". */
  function PyStr(value: Option<string>): string {
    if value.Some? then value.value else "None"
  }

  /** The identity string, before hashing. */
  function Identity(maker: Option<string>, name: string, thc: Option<string>): string {
    KeepAlnum(Lower(PyStr(maker)) + "-" + Lower(name) + "-" + PyStr(thc))
  }

  /** `create_product_hash(hersteller, produktname, thc)` with the digest `md5`. */
  function ProductHash(md5: string -> string, maker: Option<string>, name: string, thc: Option<string>): string {
    md5(Identity(maker, name, thc))
  }

  /**
   * The identity is the match key of the manufacturer, then the match key of
   * the name, then the letters and digits of the THC text: the dashes
   * between the parts vanish, and only the THC part keeps its letter case.
   */
  lemma IdentityParts(maker: Option<string>, name: string, thc: Option<string>)
    ensures Identity(maker, name, thc) == MatchKey(PyStr(maker)) + MatchKey(name) + KeepAlnum(PyStr(thc))
  {
    var m, n, t, d := Lower(PyStr(maker)), Lower(name), PyStr(thc), "-";
    assert KeepAlnum(d) == [] by {
      NoAlnumVanishes(d);
    }
    assert m + d + n + d + t == (m + d) + (n + d) + t;
    KeepAlnumConcat((m + d) + (n + d), t);
    KeepAlnumConcat(m + d, n + d);
    KeepAlnumConcat(m, d);
    KeepAlnumConcat(n, d);
    assert KeepAlnum(m + d) == KeepAlnum(m);
    assert KeepAlnum(n + d) == KeepAlnum(n);
  }

  /**
   * Inputs with equal match keys hash alike, whatever their letter case,
   * spacing or punctuation.
   */
  lemma ProductHashStable(md5: string -> string,
                          maker1: Option<string>, name1: string, thc1: Option<string>,
                          maker2: Option<string>, name2: string, thc2: Option<string>)
    requires MatchKey(PyStr(maker1)) == MatchKey(PyStr(maker2))
    requires MatchKey(name1) == MatchKey(name2)
    requires KeepAlnum(PyStr(thc1)) == KeepAlnum(PyStr(thc2))
    ensures ProductHash(md5, maker1, name1, thc1) == ProductHash(md5, maker2, name2, thc2)
  {
    IdentityParts(maker1, name1, thc1);
    IdentityParts(maker2, name2, thc2);
  }

  /** Lower-casing manufacturer and name does not change the hash. */
  lemma ProductHashIgnoresCase(md5: string -> string, maker: string, name: string, thc: Option<string>)
    ensures ProductHash(md5, Some(Lower(maker)), Lower(name), thc) == ProductHash(md5, Some(maker), name, thc)
  {
    MatchKeyIgnoresCase(maker);
    MatchKeyIgnoresCase(name);
    ProductHashStable(md5, Some(Lower(maker)), Lower(name), thc, Some(maker), name, thc);
  }

  /**
   * Inserting text without letters or digits into the manufacturer or the
   * name (spaces, dashes, underscores, dots) does not change the hash.
   */
  lemma ProductHashIgnoresPunctuation(md5: string -> string, a: string, p: string, b: string,
                                      maker: Option<string>, name: string, thc: Option<string>)
    requires forall i | 0 <= i < |p| :: !IsAlnum(p[i])
    ensures ProductHash(md5, Some(a + p + b), name, thc) == ProductHash(md5, Some(a + b), name, thc)
    ensures ProductHash(md5, maker, a + p + b, thc) == ProductHash(md5, maker, a + b, thc)
  {
    MatchKeyIgnoresPunctuation(a, p, b);
    ProductHashStable(md5, Some(a + p + b), name, thc, Some(a + b), name, thc);
    ProductHashStable(md5, maker, a + p + b, thc, maker, a + b, thc);
  }

  /**
   * Field boundaries are lost: moving text from the end of the manufacturer
   * to the start of the name keeps the identity, so ("ab", "c") and
   * ("a", "bc") collide.
   */
  lemma IdentityLosesBoundaries(a: string, b: string, c: string, thc: Option<string>)
    ensures Identity(Some(a + b), c, thc) == Identity(Some(a), b + c, thc)
  {
    IdentityParts(Some(a + b), c, thc);
    IdentityParts(Some(a), b + c, thc);
    var ka, kb, kc, kt := MatchKey(a), MatchKey(b), MatchKey(c), KeepAlnum(PyStr(thc));
    MatchKeyConcat(a, b);
    MatchKeyConcat(b, c);
    assert (ka + kb) + kc + kt == ka + (kb + kc) + kt;
  }

  /** A missing manufacturer is indistinguishable from one named "None". */
  lemma IdentityMissingMaker(name: string, thc: Option<string>)
    ensures Identity(None, name, thc) == Identity(Some("NONE"), name, thc)
  {
    IdentityParts(None, name, thc);
    IdentityParts(Some("NONE"), name, thc);
    var mixed, upper := "None", "NONE";
    assert Lower(mixed) == Lower(upper) by {
      assert |Lower(mixed)| == |Lower(upper)| == 4;
      forall i | 0 <= i < 4 ensures Lower(mixed)[i] == Lower(upper)[i] {
        assert LowerChar(mixed[i]) == LowerChar(upper[i]);
      }
    }
  }

  /** The THC text is not lower-cased, so its letter case does reach the hash input. */
  lemma IdentityThcCaseSensitive(maker: Option<string>, name: string)
    ensures Identity(maker, name, Some("A")) != Identity(maker, name, Some("a"))
  {
    IdentityParts(maker, name, Some("A"));
    IdentityParts(maker, name, Some("a"));
    var prefix := MatchKey(PyStr(maker)) + MatchKey(name);
    assert Identity(maker, name, Some("A"))[|prefix|] == 'A';
    assert Identity(maker, name, Some("a"))[|prefix|] == 'a';
  }
}
