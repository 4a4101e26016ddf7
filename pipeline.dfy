/**
 * The per-link loop of `run_nightly_scraper`.
 *
 * For each discovered link, in order: ask the store whether the url is
 * already queued and skip it if so; scrape the page; skip it if it has no
 * usable `Produktname`; otherwise pre-clean the record, compose the display
 * name, ask the catalog matcher, classify the score and sync the entry.
 *
 * Everything outside the loop is a parameter of `Env`. An exception raised
 * by the url lookup, the scraper or the matcher is caught outside the loop,
 * so it ends the run; an exception inside the sync is caught there and only
 * that link is lost.
 */
module Pipeline {
  import opened Wrappers
  import opened Text
  import opened Normalizer
  import opened Classifier
  import opened Queue

  /** The collaborators of the loop, as functions of the link or name they are given. */
  datatype Env = Env(
    mappings: ValueMappings,                  // VALUE_MAPPINGS
    scrape: string -> Option<Record>,         // scrape_full_details; None: it raised
    matcher: string -> Option<MatchResult>,   // get_match_info; None: it raised
    md5: string -> string,                    // the digest of create_product_hash
    lookupFails: string -> bool,              // the url lookup before scraping raises
    syncFails: string -> bool)                // a store call inside sync_to_supabase raises

  /** What became of one link. */
  datatype LinkOutcome =
    | Known                                      // url already queued: skipped unscraped
    | Unnamed                                    // no usable Produktname: skipped
    | Synced(entry: Entry, result: SyncOutcome)  // one call of sync_to_supabase
    | Aborted                                    // an exception ended the loop here

  const UnknownName: string := "Unbekannt"

  /** `details.get('Produktname')` is truthy and not "Unbekannt". */
  predicate IsNamed(details: Record) {
    "Produktname" in details && details["Produktname"] != "" && details["Produktname"] != UnknownName
  }

  /** The argument of `sync_to_supabase` for a cleaned record and its best match. */
  function EntryFor(link: string, cleaned: Record, m: MatchResult): Entry
    requires "Produktname" in cleaned
  {
    var v := Classify(m);
    Entry(link, cleaned["Produktname"], v.status, v.info, cleaned)
  }

  /** How far a new link gets before the sync. */
  datatype Prepared =
    | ScrapeFailed        // scrape_full_details raised
    | NoName              // no usable Produktname
    | MatchFailed         // get_match_info raised
    | ToSync(entry: Entry) // the argument of sync_to_supabase

  /**
   * The part of the loop body between the url lookup and the sync: scrape,
   * check the name, pre-clean, compose the name, match and classify.
   */
  function Prepare(link: string, env: Env): (p: Prepared)
    ensures p == ScrapeFailed <==> env.scrape(link).None?
    ensures p == NoName <==> env.scrape(link).Some? && !IsNamed(env.scrape(link).value)
    ensures p.ToSync? || p == MatchFailed ==> env.scrape(link).Some? && IsNamed(env.scrape(link).value)
    ensures p.ToSync? ==> p.entry.url == link && !IsTerminal(p.entry.status)
    ensures p.ToSync? ==> p.entry.scrapedData.Keys == env.scrape(link).value.Keys
    ensures env.scrape(link).Some? && IsNamed(env.scrape(link).value) ==>
      var cleaned := PreClean(env.scrape(link).value, env.mappings);
      var matched := env.matcher(ComposeName(cleaned));
      && (p == MatchFailed <==> matched.None?)
      && (p.ToSync? <==> matched.Some?)
      && (p.ToSync? ==>
            && p.entry.scrapedData == cleaned
            && p.entry.name == cleaned["Produktname"]
            && Verdict(p.entry.status, p.entry.matchInfo) == Classify(matched.value))
  {
    var scraped := env.scrape(link);
    if scraped.None? then ScrapeFailed
    else if !IsNamed(scraped.value) then NoName
    else
      var cleaned := PreClean(scraped.value, env.mappings);
      var matched := env.matcher(ComposeName(cleaned));
      if matched.None? then MatchFailed
      else ToSync(EntryFor(link, cleaned, matched.value))
  }

  datatype StepResult = StepResult(rows: seq<Row>, outcome: LinkOutcome)

  /** One pass of the loop body, on the table `rows`. */
  function Step(rows: seq<Row>, link: string, env: Env): StepResult {
    if env.lookupFails(link) then StepResult(rows, Aborted)
    else if HasUrl(rows, link) then StepResult(rows, Known)
    else
      match Prepare(link, env)
      case ScrapeFailed => StepResult(rows, Aborted)
      case MatchFailed => StepResult(rows, Aborted)
      case NoName => StepResult(rows, Unnamed)
      case ToSync(entry) =>
        var payload := Payload(entry, env.md5);
        if env.syncFails(link) then StepResult(rows, Synced(entry, StoreFailed))
        else if Guarded(rows, payload.productHash) then StepResult(rows, Synced(entry, Protected))
        else StepResult(UpsertRows(rows, payload), Synced(entry, Written))
  }

  datatype RunResult = RunResult(rows: seq<Row>, report: seq<LinkOutcome>)

  /** The loop over `links`, ending at the first abort. */
  function Run(rows: seq<Row>, links: seq<string>, env: Env): RunResult
    decreases |links|
  {
    if links == [] then RunResult(rows, [])
    else
      var s := Step(rows, links[0], env);
      if s.outcome.Aborted? then RunResult(s.rows, [Aborted])
      else
        var rest := Run(s.rows, links[1..], env);
        RunResult(rest.rows, [s.outcome] + rest.report)
  }

  /** `r` preceded by the outcomes already reported. */
  function After(done: seq<LinkOutcome>, r: RunResult): RunResult {
    RunResult(r.rows, done + r.report)
  }

  /** One pass of the loop body of `run_nightly_scraper`; a `continue` is a return. */
  method ProcessLink(store: ImportQueue, link: string, env: Env) returns (outcome: LinkOutcome)
    requires store.Valid()
    modifies store
    ensures store.Valid()
    ensures StepResult(store.rows, outcome) == Step(old(store.rows), link, env)
  {
    if env.lookupFails(link) {
      return Aborted;
    }
    var known := store.ContainsUrl(link);
    if known {
      return Known;
    }
    var scraped := env.scrape(link);
    if scraped.None? {
      assert Prepare(link, env) == ScrapeFailed;
      return Aborted;
    }
    var details := scraped.value;
    if !("Produktname" in details) || details["Produktname"] == "" || details["Produktname"] == UnknownName {
      return Unnamed;
    }
    details := ApplyPreCleaning(details, env.mappings);
    var matched := env.matcher(ComposeName(details));
    if matched.None? {
      assert Prepare(link, env) == MatchFailed;
      return Aborted;
    }
    var verdict := Classify(matched.value);
    var entry := Entry(link, details["Produktname"], verdict.status, verdict.info, details);
    assert Prepare(link, env) == ToSync(entry);
    var result := store.Sync(entry, env.md5, env.syncFails(link));
    return Synced(entry, result);
  }

  /** The loop unrolled once at position `i`. */
  lemma RunAt(rows: seq<Row>, links: seq<string>, i: nat, env: Env)
    requires i < |links|
    ensures var s := Step(rows, links[i], env);
      Run(rows, links[i..], env) ==
        if s.outcome.Aborted? then RunResult(s.rows, [Aborted])
        else After([s.outcome], Run(s.rows, links[i + 1..], env))
  {
    assert links[i..][0] == links[i] && links[i..][1..] == links[i + 1..];
  }

  /** `run_nightly_scraper` from the link list on; `connectorReachable` is the catalog login. */
  method RunNightlyScraper(store: ImportQueue, connectorReachable: bool, links: seq<string>, env: Env)
    returns (report: seq<LinkOutcome>)
    requires store.Valid()
    modifies store
    ensures store.Valid()
    ensures !connectorReachable ==> report == [] && store.rows == old(store.rows)
    ensures connectorReachable ==>
      RunResult(store.rows, report) == Run(old(store.rows), links, env)
  {
    report := [];
    if !connectorReachable {
      return;
    }
    ghost var initial := store.rows;
    for i := 0 to |links|
      invariant store.Valid()
      invariant Run(initial, links, env) == After(report, Run(store.rows, links[i..], env))
    {
      ghost var before, done := store.rows, report;
      RunAt(before, links, i, env);
      var outcome := ProcessLink(store, links[i], env);
      report := report + [outcome];
      if outcome.Aborted? {
        assert Run(initial, links, env) == After(done, RunResult(store.rows, [Aborted]));
        break;
      }
      ghost var next := Run(store.rows, links[i + 1..], env);
      assert Run(initial, links, env) == After(done, After([outcome], next));
      assert done + ([outcome] + next.report) == report + next.report;
    }
    assert links[|links|..] == [];
  }

  // ---------------------------------------------------------------------------
  // What a run does to the table
  // ---------------------------------------------------------------------------

  predicate IsPrefix(a: seq<Row>, b: seq<Row>) {
    |a| <= |b| && b[..|a|] == a
  }

  /** Links come from `hole_links_von_uebersicht`, which drops empty hrefs. */
  predicate NonEmptyLinks(links: seq<string>) {
    forall i | 0 <= i < |links| :: links[i] != ""
  }

  /** A written sync. */
  predicate Wrote(o: LinkOutcome) {
    o.Synced? && o.result == Written
  }

  /** The entries of the syncs that wrote, in report order. */
  function WrittenEntries(report: seq<LinkOutcome>): seq<Entry> {
    if report == [] then []
    else
      var first := if Wrote(report[0]) then [report[0].entry] else [];
      first + WrittenEntries(report[1..])
  }

  /** The rows those entries become. */
  function Payloads(entries: seq<Entry>, md5: string -> string): seq<Row> {
    if entries == [] then [] else [Payload(entries[0], md5)] + Payloads(entries[1..], md5)
  }

  /** The table changes only when the sync writes, and then by the upsert of the payload. */
  lemma StepTable(rows: seq<Row>, link: string, env: Env)
    ensures var s := Step(rows, link, env);
      && (!Wrote(s.outcome) ==> s.rows == rows)
      && (Wrote(s.outcome) ==> s.rows == UpsertRows(rows, Payload(s.outcome.entry, env.md5)))
  {
    var p := Prepare(link, env);
    if !env.lookupFails(link) && !HasUrl(rows, link) && p.ToSync? {
      var payload := Payload(p.entry, env.md5);
      if !env.syncFails(link) && !Guarded(rows, payload.productHash) {
        assert Step(rows, link, env) == StepResult(UpsertRows(rows, payload), Synced(p.entry, Written));
      } else {
        assert Step(rows, link, env).rows == rows;
      }
    } else {
      assert Step(rows, link, env).rows == rows && !Wrote(Step(rows, link, env).outcome);
    }
  }

  /** A failing lookup aborts, and a link already queued is skipped unscraped. */
  lemma StepLookup(rows: seq<Row>, link: string, env: Env)
    ensures var s := Step(rows, link, env);
      && (HasUrl(rows, link) ==> s.outcome == Known || s.outcome == Aborted)
      && (env.lookupFails(link) ==> s.outcome == Aborted)
      && (s.outcome == Known <==> !env.lookupFails(link) && HasUrl(rows, link))
  {
    var p := Prepare(link, env);
  }

  /**
   * Only a named record reaches the store, under the link's url, with a
   * non-terminal status; the sync's outcome is the store failure, the
   * guard or the write.
   */
  lemma StepSync(rows: seq<Row>, link: string, env: Env)
    ensures var s := Step(rows, link, env);
      && (s.outcome == Unnamed ==> env.scrape(link).Some? && !IsNamed(env.scrape(link).value))
      && (s.outcome.Synced? ==>
            && !env.lookupFails(link) && !HasUrl(rows, link)
            && env.scrape(link).Some? && IsNamed(env.scrape(link).value)
            && s.outcome.entry.url == link && !IsTerminal(s.outcome.entry.status)
            && (s.outcome.result == StoreFailed <==> env.syncFails(link))
            && (s.outcome.result == Protected <==>
                  !env.syncFails(link) && Guarded(rows, Payload(s.outcome.entry, env.md5).productHash)))
  {
    var p := Prepare(link, env);
  }

  /**
   * The converse: a new link whose scrape, name and match succeed is synced
   * with the prepared entry, and a store failure is reported for that link
   * instead of ending the run. The run ends at a link exactly when its
   * lookup, its scrape or its match fails.
   */
  lemma StepProgress(rows: seq<Row>, link: string, env: Env)
    ensures var s := Step(rows, link, env);
      var p := Prepare(link, env);
      && (s.outcome == Aborted <==>
            env.lookupFails(link) || (!HasUrl(rows, link) && (p == ScrapeFailed || p == MatchFailed)))
      && (!env.lookupFails(link) && !HasUrl(rows, link) && p == NoName ==> s.outcome == Unnamed)
      && (!env.lookupFails(link) && !HasUrl(rows, link) && p.ToSync? ==>
            && s.outcome.Synced? && s.outcome.entry == p.entry
            && (s.outcome.result == StoreFailed <==> env.syncFails(link)))
  {
    var p := Prepare(link, env);
  }

  /** A step either leaves the table alone or, for a written sync, appends the payload. */
  lemma StepAppendsOnly(rows: seq<Row>, link: string, env: Env)
    requires link != "" && UniqueUrls(rows)
    ensures var s := Step(rows, link, env);
      && UniqueUrls(s.rows)
      && (!Wrote(s.outcome) ==> s.rows == rows)
      && (Wrote(s.outcome) ==> s.rows == rows + [Payload(s.outcome.entry, env.md5)]
                               && Payload(s.outcome.entry, env.md5).url == link)
  {
    var s := Step(rows, link, env);
    StepTable(rows, link, env);
    StepLookup(rows, link, env);
    StepSync(rows, link, env);
    if Wrote(s.outcome) {
      var payload := Payload(s.outcome.entry, env.md5);
      assert payload.url == link;
      assert UrlIndex(rows, link).None?;
      UpsertRowsSpec(rows, payload);
    }
  }

  lemma {:induction false} WrittenEntriesConcat(a: seq<LinkOutcome>, b: seq<LinkOutcome>)
    ensures WrittenEntries(a + b) == WrittenEntries(a) + WrittenEntries(b)
  {
    if a != [] {
      assert (a + b)[1..] == a[1..] + b;
      WrittenEntriesConcat(a[1..], b);
      assert (a + b)[0] == a[0];
      var first := if Wrote(a[0]) then [a[0].entry] else [];
      assert WrittenEntries(a + b) == first + (WrittenEntries(a[1..]) + WrittenEntries(b));
      assert WrittenEntries(a) == first + WrittenEntries(a[1..]);
    } else {
      assert a + b == b;
    }
  }

  lemma {:induction false} PayloadsConcat(a: seq<Entry>, b: seq<Entry>, md5: string -> string)
    ensures Payloads(a + b, md5) == Payloads(a, md5) + Payloads(b, md5)
  {
    if a != [] {
      assert (a + b)[1..] == a[1..] + b;
      PayloadsConcat(a[1..], b, md5);
      assert (a + b)[0] == a[0];
      assert Payloads(a + b, md5) == [Payload(a[0], md5)] + (Payloads(a[1..], md5) + Payloads(b, md5));
    } else {
      assert a + b == b;
    }
  }

  lemma WrittenSingle(o: LinkOutcome, md5: string -> string)
    ensures Payloads(WrittenEntries([o]), md5) == if Wrote(o) then [Payload(o.entry, md5)] else []
  {
    assert [o][1..] == [];
  }

  lemma NonEmptyTail(links: seq<string>)
    requires links != [] && NonEmptyLinks(links)
    ensures links[0] != "" && NonEmptyLinks(links[1..])
  {
    forall i | 0 <= i < |links[1..]| ensures links[1..][i] != "" {
      assert links[1..][i] == links[i + 1];
    }
  }

  /**
   * A run never changes, moves or removes a row that was queued before it
   * (whatever its status): the new table is the old one followed by the
   * payloads of the written syncs, in link order, and urls stay unique.
   */
  lemma {:induction false} RunAppendsOnly(rows: seq<Row>, links: seq<string>, env: Env)
    requires NonEmptyLinks(links) && UniqueUrls(rows)
    ensures var r := Run(rows, links, env);
      r.rows == rows + Payloads(WrittenEntries(r.report), env.md5) && UniqueUrls(r.rows)
    decreases |links|
  {
    if links != [] {
      NonEmptyTail(links);
      var s := Step(rows, links[0], env);
      StepAppendsOnly(rows, links[0], env);
      WrittenSingle(s.outcome, env.md5);
      var mine := WrittenEntries([s.outcome]);
      assert s.rows == rows + Payloads(mine, env.md5);
      if s.outcome.Aborted? {
        assert Run(rows, links, env) == RunResult(s.rows, [s.outcome]);
      } else {
        RunAppendsOnly(s.rows, links[1..], env);
        var rest := Run(s.rows, links[1..], env);
        assert Run(rows, links, env) == RunResult(rest.rows, [s.outcome] + rest.report);
        WrittenEntriesConcat([s.outcome], rest.report);
        PayloadsConcat(mine, WrittenEntries(rest.report), env.md5);
      }
    }
  }

  /**
   * The shape of the report: one outcome per link reached, in link order;
   * an abort is always the last outcome, and the only way the run stops
   * before the last link.
   */
  lemma {:induction false} RunReportShape(rows: seq<Row>, links: seq<string>, env: Env)
    ensures var rep := Run(rows, links, env).report;
      && |rep| <= |links|
      && (forall i | 0 <= i < |rep| - 1 :: !rep[i].Aborted?)
      && (|rep| < |links| ==> rep != [] && rep[|rep| - 1].Aborted?)
    decreases |links|
  {
    if links != [] {
      var s := Step(rows, links[0], env);
      if !s.outcome.Aborted? {
        RunReportShape(s.rows, links[1..], env);
      }
    }
  }

  /**
   * What each outcome says about its link: a link already queued before
   * the run is never scraped (it is skipped, or the run aborts on its
   * lookup); a skipped-unnamed link was scraped without a usable name; a
   * synced link had one, and its entry carries its url and a fresh,
   * non-terminal classification.
   */
  lemma {:induction false} RunOutcomes(rows: seq<Row>, links: seq<string>, env: Env)
    ensures var rep := Run(rows, links, env).report;
      && |rep| <= |links|
      && forall i | 0 <= i < |rep| ::
        && (HasUrl(rows, links[i]) ==> rep[i] == Known || rep[i] == Aborted)
        && (rep[i] == Known ==> !env.lookupFails(links[i]))
        && (rep[i] == Aborted ==>
              env.lookupFails(links[i]) || Prepare(links[i], env) == ScrapeFailed || Prepare(links[i], env) == MatchFailed)
        && (rep[i] == Unnamed ==> env.scrape(links[i]).Some? && !IsNamed(env.scrape(links[i]).value))
        && (rep[i].Synced? ==>
              && env.scrape(links[i]).Some? && IsNamed(env.scrape(links[i]).value)
              && rep[i].entry.url == links[i]
              && !IsTerminal(rep[i].entry.status))
    decreases |links|
  {
    if links != [] {
      var s := Step(rows, links[0], env);
      StepLookup(rows, links[0], env);
      StepSync(rows, links[0], env);
      StepProgress(rows, links[0], env);
      if s.outcome.Aborted? {
        assert Run(rows, links, env).report == [Aborted];
      } else {
        RunOutcomes(s.rows, links[1..], env);
        var rest := Run(s.rows, links[1..], env).report;
        var rep := Run(rows, links, env).report;
        assert rep == [s.outcome] + rest;
        forall i | 1 <= i < |rep|
          ensures links[i] == links[1..][i - 1] && rep[i] == rest[i - 1]
          ensures HasUrl(rows, links[i]) ==> HasUrl(s.rows, links[i])
        {
          if HasUrl(rows, links[i]) {
            StepKeepsUrls(rows, links[0], env, links[i]);
          }
        }
      }
    }
  }

  /** After a step the table holds only the urls it held before and, for a non-empty link, the link. */
  lemma StepUrls(rows: seq<Row>, link: string, env: Env, url: string)
    requires link != ""
    requires HasUrl(Step(rows, link, env).rows, url)
    ensures HasUrl(rows, url) || url == link
  {
    var s := Step(rows, link, env);
    StepTable(rows, link, env);
    StepSync(rows, link, env);
    if Wrote(s.outcome) {
      UpsertRowsUrls(rows, Payload(s.outcome.entry, env.md5), url);
    }
  }

  /**
   * Every link reached that was neither queued before the run nor seen
   * earlier in the list, and whose lookup, scrape, name and match succeed,
   * gets exactly the sync of its prepared entry; a store failure is
   * reported for that link alone.
   */
  lemma {:induction false} RunSyncsNewLinks(rows: seq<Row>, links: seq<string>, env: Env)
    requires NonEmptyLinks(links)
    ensures var rep := Run(rows, links, env).report;
      forall i | 0 <= i < |rep| && i < |links| ::
        !env.lookupFails(links[i]) && !HasUrl(rows, links[i]) && links[i] !in links[..i] &&
        Prepare(links[i], env).ToSync? ==>
          && rep[i].Synced? && rep[i].entry == Prepare(links[i], env).entry
          && (rep[i].result == StoreFailed <==> env.syncFails(links[i]))
    decreases |links|
  {
    if links != [] {
      NonEmptyTail(links);
      var s := Step(rows, links[0], env);
      StepProgress(rows, links[0], env);
      if s.outcome.Aborted? {
        assert Run(rows, links, env).report == [Aborted];
      } else {
        RunSyncsNewLinks(s.rows, links[1..], env);
        var rest := Run(s.rows, links[1..], env).report;
        var rep := Run(rows, links, env).report;
        assert rep == [s.outcome] + rest;
        forall i | 1 <= i < |rep| && i < |links|
          ensures links[i] == links[1..][i - 1] && rep[i] == rest[i - 1]
          ensures links[i] !in links[..i] ==> links[i] !in links[1..][..i - 1] && links[i] != links[0]
          ensures links[i] !in links[..i] && !HasUrl(rows, links[i]) ==> !HasUrl(s.rows, links[i])
        {
          if links[i] !in links[..i] {
            assert links[..i] == [links[0]] + links[1..][..i - 1];
            if HasUrl(s.rows, links[i]) {
              StepUrls(rows, links[0], env, links[i]);
            }
          }
        }
      }
    }
  }

  /**
   * Failure isolation: when no link's lookup, scrape or match fails, the run
   * reaches every link, whatever the store does.
   */
  lemma RunCompletes(rows: seq<Row>, links: seq<string>, env: Env)
    requires forall i | 0 <= i < |links| ::
      !env.lookupFails(links[i]) && Prepare(links[i], env) != ScrapeFailed && Prepare(links[i], env) != MatchFailed
    ensures |Run(rows, links, env).report| == |links|
  {
    RunReportShape(rows, links, env);
    RunOutcomes(rows, links, env);
  }

  /** A url present before a step is present after it. */
  lemma StepKeepsUrls(rows: seq<Row>, link: string, env: Env, url: string)
    requires HasUrl(rows, url)
    ensures HasUrl(Step(rows, link, env).rows, url)
  {
    var s := Step(rows, link, env);
    StepTable(rows, link, env);
    if Wrote(s.outcome) {
      UpsertRowsUrls(rows, Payload(s.outcome.entry, env.md5), url);
    }
  }

  // ---------------------------------------------------------------------------
  // Running again changes nothing
  // ---------------------------------------------------------------------------

  lemma HashIndexPrefix(a: seq<Row>, b: seq<Row>, hash: string)
    requires IsPrefix(a, b) && HashIndex(a, hash).Some?
    ensures HashIndex(b, hash) == HashIndex(a, hash)
  {
    var k := HashIndex(a, hash).value;
    assert b[k] == a[k];
    assert forall j | 0 <= j < k :: b[j] == a[j];
    HashIndexUnique(b, hash, k);
  }

  lemma HashIndexUnique(rows: seq<Row>, hash: string, k: nat)
    requires k < |rows| && rows[k].productHash == hash
    requires forall j | 0 <= j < k :: rows[j].productHash != hash
    ensures HashIndex(rows, hash) == Some(k)
  {
    var h := HashIndex(rows, hash);
    assert h.Some?;
  }

  /**
   * On a longer table that still lacks the link, a step that wrote nothing
   * meets the same fate: only the url lookup and the guard read the table,
   * and a guard that fired on a prefix fires on the whole.
   */
  lemma StepOnExtension(r: seq<Row>, big: seq<Row>, link: string, env: Env)
    requires IsPrefix(r, big) && !HasUrl(big, link)
    requires !Wrote(Step(r, link, env).outcome)
    ensures Step(big, link, env) == StepResult(big, Step(r, link, env).outcome)
  {
    assert !HasUrl(r, link) by {
      forall i | 0 <= i < |r| ensures r[i].url != link {
        assert r[i] == big[i];
      }
    }
    var p := Prepare(link, env);
    if !env.lookupFails(link) && p.ToSync? {
      var payload := Payload(p.entry, env.md5);
      if !env.syncFails(link) && Guarded(r, payload.productHash) {
        HashIndexPrefix(r, big, payload.productHash);
      }
    }
  }

  /**
   * A step that did not abort on `r` changes nothing on any table `big`
   * that extends both `r` and the step's result: the link is either
   * already queued there, or meets the same fate as before, which wrote
   * nothing.
   */
  lemma StepStable(r: seq<Row>, link: string, env: Env, big: seq<Row>)
    requires link != "" && UniqueUrls(r)
    requires !Step(r, link, env).outcome.Aborted?
    requires IsPrefix(r, big) && IsPrefix(Step(r, link, env).rows, big)
    ensures Step(big, link, env).rows == big
    ensures !Step(big, link, env).outcome.Aborted? && !Wrote(Step(big, link, env).outcome)
  {
    var s := Step(r, link, env);
    StepLookup(r, link, env);
    StepLookup(big, link, env);
    StepTable(big, link, env);
    StepAppendsOnly(r, link, env);
    assert Wrote(s.outcome) ==> HasUrl(big, link) by {
      if Wrote(s.outcome) {
        assert big[|r|] == s.rows[|r|];
      }
    }
    if !HasUrl(big, link) {
      StepOnExtension(r, big, link, env);
    }
  }

  lemma {:induction false} RunStable(r: seq<Row>, links: seq<string>, env: Env, big: seq<Row>)
    requires NonEmptyLinks(links) && UniqueUrls(r)
    requires IsPrefix(r, big) && Run(r, links, env).rows == big
    ensures Run(big, links, env).rows == big
    ensures forall i | 0 <= i < |Run(big, links, env).report| ::
      !Wrote(Run(big, links, env).report[i])
    decreases |links|
  {
    if links != [] {
      NonEmptyTail(links);
      var s := Step(r, links[0], env);
      StepAppendsOnly(r, links[0], env);
      if s.outcome.Aborted? {
        assert Run(r, links, env) == RunResult(r, [Aborted]);
        assert Run(big, links, env) == RunResult(r, [Aborted]);
      } else {
        RunAppendsOnly(s.rows, links[1..], env);
        var rest := Run(s.rows, links[1..], env);
        assert Run(r, links, env) == RunResult(rest.rows, [s.outcome] + rest.report);
        assert IsPrefix(s.rows, big) by {
          assert big == s.rows + Payloads(WrittenEntries(rest.report), env.md5);
        }
        StepStable(r, links[0], env, big);
        RunStable(s.rows, links[1..], env, big);
        var t := Step(big, links[0], env);
        var again := Run(big, links[1..], env);
        assert Run(big, links, env) == RunResult(again.rows, [t.outcome] + again.report);
      }
    }
  }

  /**
   * Running the scraper a second time over the same links, with the same
   * collaborators, leaves the table as the first run left it and writes
   * nothing: every link the first run stored is now skipped as known, and
   * every other link meets the same fate again.
   */
  lemma RunIdempotent(rows: seq<Row>, links: seq<string>, env: Env)
    requires NonEmptyLinks(links) && UniqueUrls(rows)
    ensures var once := Run(rows, links, env).rows;
      && Run(once, links, env).rows == once
      && forall i | 0 <= i < |Run(once, links, env).report| ::
           !Wrote(Run(once, links, env).report[i])
  {
    RunAppendsOnly(rows, links, env);
    var once := Run(rows, links, env);
    assert IsPrefix(rows, once.rows) by {
      assert once.rows == rows + Payloads(WrittenEntries(once.report), env.md5);
    }
    RunStable(rows, links, env, once.rows);
  }
}
