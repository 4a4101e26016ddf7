/**
 * `apply_pre_cleaning`: rewrites the fields of a scraped record through the
 * synonym table `VALUE_MAPPINGS`. Values are compared by their match key
 * (lower-cased, everything but letters and digits removed); the first
 * synonym of a field whose key equals the value's key wins.
 *
 * The table itself lives outside this model and is a parameter: an ordered
 * sequence of (field, synonyms) entries, each synonym list an ordered
 * sequence of (synonym, target) pairs, in the insertion order the Python
 * dictionaries iterate in.
 */
module Normalizer {
  import opened Wrappers
  import opened Text

  type Synonyms = seq<(string, string)>

  type ValueMappings = seq<(string, Synonyms)>

  /** Position of the first synonym whose match key is `raw`. */
  function FirstMatch(pairs: Synonyms, raw: string): (r: Option<nat>)
    ensures r.Some? ==> r.value < |pairs| && MatchKey(pairs[r.value].0) == raw
    ensures r.Some? ==> forall j | 0 <= j < r.value :: MatchKey(pairs[j].0) != raw
    ensures r.None? ==> forall j | 0 <= j < |pairs| :: MatchKey(pairs[j].0) != raw
    decreases |pairs|
  {
    if pairs == [] then None
    else if MatchKey(pairs[0].0) == raw then Some(0)
    else
      var rest := FirstMatch(pairs[1..], raw);
      assert forall j | 1 <= j < |pairs| :: pairs[j] == pairs[1..][j - 1];
      if rest.None? then None else Some(rest.value + 1)
  }

  lemma FirstMatchAt(pairs: Synonyms, raw: string, p: nat)
    requires p < |pairs| && MatchKey(pairs[p].0) == raw
    requires forall j | 0 <= j < p :: MatchKey(pairs[j].0) != raw
    ensures FirstMatch(pairs, raw) == Some(p)
  {
    var r := FirstMatch(pairs, raw);
    assert r.Some?;
  }

  lemma FirstMatchNone(pairs: Synonyms, raw: string)
    requires forall j | 0 <= j < |pairs| :: MatchKey(pairs[j].0) != raw
    ensures FirstMatch(pairs, raw) == None
  {
  }

  /** One pass of the outer loop: the field `key`, if present, through its synonyms. */
  function CleanField(details: Record, key: string, pairs: Synonyms): (r: Record)
    ensures r.Keys == details.Keys
  {
    if key in details then
      match FirstMatch(pairs, MatchKey(details[key]))
      case Some(k) => details[key := pairs[k].1]
      case None => details
    else details
  }

  /** The whole of `apply_pre_cleaning`, one table entry after the other. */
  function PreClean(details: Record, mappings: ValueMappings): (r: Record)
    ensures r.Keys == details.Keys
    decreases |mappings|
  {
    if mappings == [] then details
    else PreClean(CleanField(details, mappings[0].0, mappings[0].1), mappings[1..])
  }

  /** Field names are distinct, as the keys of a Python dictionary are. */
  predicate DistinctFields(mappings: ValueMappings) {
    forall i, j | 0 <= i < j < |mappings| :: mappings[i].0 != mappings[j].0
  }

  /** The synonym list the table holds for `key`, if any. */
  function SynonymsFor(mappings: ValueMappings, key: string): (r: Option<Synonyms>)
    ensures r.None? <==> forall i | 0 <= i < |mappings| :: mappings[i].0 != key
    ensures r.Some? ==> exists i | 0 <= i < |mappings| :: mappings[i] == (key, r.value)
    decreases |mappings|
  {
    if mappings == [] then None
    else if mappings[0].0 == key then Some(mappings[0].1)
    else SynonymsFor(mappings[1..], key)
  }

  /**
   * Field-wise reference for the rewrite: a field outside the table keeps its
   * value; a field in the table takes the target of its first matching
   * synonym, or keeps its value when none matches.
   */
  function ExpectedValue(details: Record, mappings: ValueMappings, key: string): string
    requires key in details
  {
    match SynonymsFor(mappings, key)
    case None => details[key]
    case Some(pairs) =>
      match FirstMatch(pairs, MatchKey(details[key]))
      case None => details[key]
      case Some(k) => pairs[k].1
  }

  /**
   * The sequential rewrite agrees with the field-wise reference: the set of
   * fields never changes and every field gets its expected value.
   */
  lemma {:induction false} PreCleanFieldwise(details: Record, mappings: ValueMappings)
    requires DistinctFields(mappings)
    ensures PreClean(details, mappings).Keys == details.Keys
    ensures forall key | key in details :: PreClean(details, mappings)[key] == ExpectedValue(details, mappings, key)
    decreases |mappings|
  {
    if mappings != [] {
      var (key0, pairs0) := mappings[0];
      var rest := mappings[1..];
      var next := CleanField(details, key0, pairs0);
      assert DistinctFields(rest);
      PreCleanFieldwise(next, rest);
      forall key | key in details
        ensures PreClean(details, mappings)[key] == ExpectedValue(details, mappings, key)
      {
        if key == key0 {
          assert SynonymsFor(rest, key).None? by {
            forall i | 0 <= i < |rest| ensures rest[i].0 != key {
              assert rest[i] == mappings[i + 1];
            }
          }
        } else {
          assert SynonymsFor(mappings, key) == SynonymsFor(rest, key);
        }
      }
    }
  }

  /** A field the table does not name keeps its value. */
  lemma PreCleanUnmappedField(details: Record, mappings: ValueMappings, key: string)
    requires DistinctFields(mappings)
    requires key in details
    requires forall i | 0 <= i < |mappings| :: mappings[i].0 != key
    ensures PreClean(details, mappings)[key] == details[key]
  {
    PreCleanFieldwise(details, mappings);
  }

  lemma {:induction false} SynonymsForDistinct(mappings: ValueMappings, i: nat)
    requires DistinctFields(mappings)
    requires i < |mappings|
    ensures SynonymsFor(mappings, mappings[i].0) == Some(mappings[i].1)
    decreases i
  {
    if i > 0 {
      assert DistinctFields(mappings[1..]);
      assert mappings[1..][i - 1] == mappings[i];
      SynonymsForDistinct(mappings[1..], i - 1);
    }
  }

  /**
   * A field the table names becomes the target of the first synonym whose
   * match key equals the match key of its value, and keeps its value when
   * no synonym matches.
   */
  lemma PreCleanMappedField(details: Record, mappings: ValueMappings, i: nat)
    requires DistinctFields(mappings)
    requires i < |mappings| && mappings[i].0 in details
    ensures var (key, pairs) := mappings[i];
      var hit := FirstMatch(pairs, MatchKey(details[key]));
      PreClean(details, mappings)[key] == if hit.Some? then pairs[hit.value].1 else details[key]
  {
    PreCleanFieldwise(details, mappings);
    SynonymsForDistinct(mappings, i);
  }

  /** One pass of the outer loop of `apply_pre_cleaning`: the synonym scan with its `break`. */
  method CleanOneField(details: Record, key: string, pairs: Synonyms) returns (r: Record)
    ensures r == CleanField(details, key, pairs)
  {
    r := details;
    if key in details {
      var raw := MatchKey(details[key]);
      for p := 0 to |pairs|
        invariant r == details
        invariant forall j | 0 <= j < p :: MatchKey(pairs[j].0) != raw
      {
        if MatchKey(pairs[p].0) == raw {
          FirstMatchAt(pairs, raw, p);
          r := details[key := pairs[p].1];
          return;
        }
      }
      FirstMatchNone(pairs, raw);
    }
  }

  /** `apply_pre_cleaning(details)`: every table entry in order. */
  method ApplyPreCleaning(details: Record, mappings: ValueMappings) returns (r: Record)
    ensures r == PreClean(details, mappings)
    ensures r.Keys == details.Keys
  {
    r := details;
    for m := 0 to |mappings|
      invariant PreClean(r, mappings[m..]) == PreClean(details, mappings)
    {
      assert mappings[m..][1..] == mappings[m + 1..];
      var (key, pairs) := mappings[m];
      r := CleanOneField(r, key, pairs);
    }
    assert mappings[|mappings|..] == [];
  }
}
