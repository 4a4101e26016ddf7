/**
 * The two decisions `run_nightly_scraper` makes inline for each new link:
 * which display name goes to the catalog matcher, and which queue status
 * and info text the match score earns.
 */
module Classifier {
  import opened Text

  /** Queue statuses: the first three are set here, the last two by the review path. */
  datatype Status = Ready | Review | Duplicate | Processed | Ignored

  /** Statuses past which the store refuses automated writes. */
  predicate IsTerminal(s: Status) {
    s == Processed || s == Ignored
  }

  /** What the catalog matcher returns: best name, similarity score, catalog item number. */
  datatype MatchResult = MatchResult(name: string, score: real, number: string)

  /** Status and the human-readable `match_info`. */
  datatype Verdict = Verdict(status: Status, info: string)

  const DuplicateThreshold: real := 0.98
  const ReviewThreshold: real := 0.85

  // ---------------------------------------------------------------------------
  // Display-name composition
  // ---------------------------------------------------------------------------

  /**
   * The suffix rule for a non-empty name and cultivar: a name ending in the
   * bare cultivar loses that ending (and the whitespace before it); a name
   * ending in "-cultivar" or "- cultivar" keeps it; either way " - cultivar"
   * is appended.
   */
  function WithCultivar(name: string, cultivar: string): (r: string)
    requires name != "" && cultivar != ""
    ensures EndsWith(r, " - " + cultivar)
    ensures !EndsWith(name, cultivar) ==> r == name + " - " + cultivar
    ensures EndsWith(name, "-" + cultivar) || EndsWith(name, "- " + cultivar) ==> r == name + " - " + cultivar
    ensures EndsWith(name, cultivar) && !EndsWith(name, "-" + cultivar) && !EndsWith(name, "- " + cultivar) ==>
      r == Strip(name[..|name| - |cultivar|]) + " - " + cultivar
  {
    var base :=
      if EndsWith(name, cultivar) && !EndsWith(name, "- " + cultivar) && !EndsWith(name, "-" + cultivar)
      then Strip(name[..|name| - |cultivar|])
      else name;
    var r := base + " - " + cultivar;
    assert r[|r| - |" - " + cultivar|..] == " - " + cultivar;
    r
  }

  /**
   * The name the matcher receives: the stripped `Produktname` with the
   * cultivar suffix when both it and the stripped `Kultivar` are non-empty,
   * otherwise `BC_DisplayName`, which defaults to the stripped `Produktname`.
   */
  function ComposeName(details: Record): (r: string)
    ensures var name := Strip(Get(details, "Produktname", ""));
      var cultivar := Strip(Get(details, "Kultivar", ""));
      && (name != "" && cultivar != "" ==> r == WithCultivar(name, cultivar))
      && (name == "" || cultivar == "" ==> r == Get(details, "BC_DisplayName", name))
  {
    var name := Strip(Get(details, "Produktname", ""));
    var cultivar := Strip(Get(details, "Kultivar", ""));
    if name != "" && cultivar != "" then WithCultivar(name, cultivar)
    else Get(details, "BC_DisplayName", name)
  }

  /** A name equal to its cultivar loses all of itself but the suffix. */
  lemma WithCultivarSameAsName(cultivar: string)
    requires cultivar != ""
    ensures WithCultivar(cultivar, cultivar) == " - " + cultivar
  {
    assert EndsWith(cultivar, cultivar);
    assert cultivar[..0] == [];
    assert Strip([]) == [];
  }

  /**
   * The rule does not recognise its own output: composing again appends the
   * suffix a second time, so "X - C" with cultivar "C" becomes "X - C - C".
   */
  lemma {:induction false} WithCultivarNotIdempotent(name: string, cultivar: string)
    requires name != "" && cultivar != ""
    ensures WithCultivar(WithCultivar(name, cultivar), cultivar) == WithCultivar(name, cultivar) + " - " + cultivar
  {
    var once := WithCultivar(name, cultivar);
    var tail := " - " + cultivar;
    var dashed := "- " + cultivar;
    assert tail == [' '] + dashed;
    assert once[|once| - |dashed|..] == tail[1..] == dashed;
    assert EndsWith(once, dashed);
  }

  // ---------------------------------------------------------------------------
  // Threshold classification
  // ---------------------------------------------------------------------------

  /** Python's `int(x)` on a float: truncation toward zero. */
  function PyInt(x: real): (r: int)
    ensures 0.0 <= x ==> 0 <= r && r as real <= x < r as real + 1.0
    ensures x < 0.0 ==> r <= 0 && r as real - 1.0 < x <= r as real
  {
    if x >= 0.0 then x.Floor else -((-x).Floor)
  }

  /** The percentage shown for a REVIEW match: `int(score*100)`. */
  function ReviewPercent(score: real): (p: nat)
    requires ReviewThreshold < score <= DuplicateThreshold
    ensures 85 <= p <= 98
    ensures p as real <= score * 100.0 < p as real + 1.0
  {
    PyInt(score * 100.0)
  }

  /**
   * The threshold rule: above 0.98 a duplicate, above 0.85 a case for
   * review, otherwise new; the info text names the match and, for review,
   * the truncated percentage.
   */
  function Classify(m: MatchResult): (v: Verdict)
    ensures v.status == Duplicate <==> m.score > DuplicateThreshold
    ensures v.status == Review <==> ReviewThreshold < m.score <= DuplicateThreshold
    ensures v.status == Ready <==> m.score <= ReviewThreshold
    ensures v.status == Duplicate ==> v.info == "Gefunden: " + m.name + " (" + m.number + ")"
    ensures v.status == Review ==>
      v.info == "Ähnlich: " + m.name + " (" + m.number + ") | " + NatToString(ReviewPercent(m.score)) + "%"
    ensures v.status == Ready ==> v.info == "Neu"
    ensures !IsTerminal(v.status)
  {
    if m.score > DuplicateThreshold then
      Verdict(Duplicate, "Gefunden: " + m.name + " (" + m.number + ")")
    else if m.score > ReviewThreshold then
      Verdict(Review, "Ähnlich: " + m.name + " (" + m.number + ") | " + NatToString(PyInt(m.score * 100.0)) + "%")
    else
      Verdict(Ready, "Neu")
  }

  /** READY < REVIEW < DUPLICATE in how strongly a match suggests the item exists. */
  function Rank(s: Status): nat {
    match s
    case Ready => 0
    case Review => 1
    case Duplicate => 2
    case Processed => 3
    case Ignored => 3
  }

  /** A higher score never yields a weaker status. */
  lemma ClassifyMonotone(m1: MatchResult, m2: MatchResult)
    requires m1.score <= m2.score
    ensures Rank(Classify(m1).status) <= Rank(Classify(m2).status)
  {
  }

  /** The boundary values: 0.85 is new, just above it is review, 0.98 is review, just above it a duplicate. */
  lemma ClassifyBoundaries(name: string, number: string)
    ensures Classify(MatchResult(name, 0.85, number)).status == Ready
    ensures Classify(MatchResult(name, 0.8500001, number)).status == Review
    ensures Classify(MatchResult(name, 0.98, number)).status == Review
    ensures Classify(MatchResult(name, 0.9800001, number)).status == Duplicate
  {
  }

  /** The percentage is truncated, not rounded: a score of 0.869 shows 86%, not 87%. */
  lemma ReviewPercentTruncates()
    ensures ReviewPercent(0.869) == 86
  {
  }
}
