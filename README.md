# Flowzz nightly scraper — ingestion pipeline in Dafny

This project models the ingestion core of the nightly Flowzz scraper (`scraper.py`). The scraper reads product pages from the Flowzz catalog site. It cleans and normalises their attributes, fingerprints each product, and asks the Business Central catalog for the best-matching existing item. From the match score it classifies the product as READY, REVIEW or DUPLICATE, and queues it in the Supabase table `import_queue` for human review.

The model has one module per piece of the pipeline:

- `Text`: the Python string operations the scraper relies on.
  - `str.strip()`, with the full `str.isspace` set.
  - `str.lower()`.
  - `re.sub(r'[\W_]+', '', ·)`.
  - The comparison key `normalize_for_match`.
  - `str(int)`.
- `Cleaners`: `clean_text` and `sanitize_filename`.
- `Listing`:
  - `hole_listen_safe`, the keyword / heading / item loops with the early `break`;
  - order-preserving de-duplication with `list(dict.fromkeys(...))`;
  - the slot filling at the end of `scrape_full_details`.
- `Normalizer`: `apply_pre_cleaning` over an injected synonym table.
- `Fingerprint`: the identity string of `create_product_hash`. The digest is a function parameter.
- `Classifier`: the name composition and the threshold classification inlined in `run_nightly_scraper`.
- `Queue`: `import_queue` as a class `ImportQueue` holding a sequence of rows with unique urls, and `sync_to_supabase`. The sync has two steps: a terminal-status guard looked up by `product_hash`, then an upsert keyed by `url`.
- `Pipeline`: the per-link loop of `run_nightly_scraper`.
  - The browser scraper, the catalog matcher, the digest and the store failures are fields of an `Env` value.
  - The loop is a method over the store, proved equal to a specification function `Run`.
  - End-to-end properties are proved about `Run`: rows are only appended, the shape of the report, what each outcome says about its link, and that a second run changes nothing.

In four places the code does something other than what its comments or its evident intent suggest. The model follows the code:

- **Terminal guard.** The comment at the guard says finished (PROCESSED or IGNORED) products are not changed. The code looks rows up by `product_hash`, inspects only the first row returned, and writes by `url`. So a PROCESSED row whose content changed is overwritten (`Queue.TerminalRowOverwrittenUnderNewHash`). A PROCESSED row behind a READY row with the same fingerprint is overwritten too (`Queue.OnlyFirstHashRowInspected`). A new url is not stored when the first row with its fingerprint is terminal (`Queue.TerminalHashBlocksOtherUrl`). It is appended when a non-terminal row with that fingerprint comes first, even if a terminal one follows (`Queue.NonTerminalFirstAdmitsNewUrl`). The first two cases need a sync for a url that is already queued, so they concern `sync_to_supabase` called on its own: the run loop skips every queued url before syncing (`Pipeline.RunAppendsOnly`), and no other caller appears in the modelled files. The two new-url cases can be observed in a run.
- **Cultivar suffix.** The code tests whether the name already ends in "- cultivar", which suggests such a name is not suffixed again. The code appends " - cultivar" whenever both parts are non-empty. A name equal to its cultivar becomes " - cultivar" (`Classifier.WithCultivarSameAsName`, `Classifier.WithCultivarNotIdempotent`).
- **REVIEW percentage.** A similarity shown as a percentage reads as a rounded value. The code uses `int(score*100)`, which truncates (`Classifier.ReviewPercentTruncates`).
- **Failure isolation.** The per-entry `try` in `sync_to_supabase` suggests that a failure is meant to cost only its own link. In the code, an exception from the url lookup, the page scrape or the matcher is caught outside the loop and ends the run at that link. Only store errors inside `sync_to_supabase` are swallowed per link. The run ends at a link exactly when its lookup, scrape or match fails (`Pipeline.StepProgress`, `Pipeline.RunOutcomes`). A store failure is reported for its link and the run goes on (`Pipeline.RunSyncsNewLinks`), so without lookup, scrape or match failures every link is reached (`Pipeline.RunCompletes`).

## Model

| member | source | states |
|---|---|---|
| Text.Strip | scraper.py:76 | `str.strip()`: the result is empty iff the text is all whitespace; otherwise it is the slice between the first and the last non-whitespace character, so it neither starts nor ends with whitespace |
| Text.StripIdempotent | scraper.py:76 | stripping a stripped text changes nothing |
| Text.Lower | scraper.py:260 | `str.lower()` keeps the length and lower-cases position by position |
| Text.KeepAlnum | scraper.py:274 | `re.sub(r'[\W_]+', '', s)`: the letters and digits of the text, in order, and never more characters than the input |
| Text.KeepAlnumShape | scraper.py:274 | removing `[\W_]` leaves only letters and digits, all taken from the input, and leaves an input of letters and digits unchanged |
| Text.KeepAlnumConcat | scraper.py:274 | the filter distributes over concatenation |
| Text.MatchKey | scraper.py:260 | `normalize_for_match`: the letter-and-digit filter applied to the lower-cased text |
| Text.MatchKeyShape | scraper.py:260 | the comparison key holds only lower-case letters and digits |
| Text.LowerIdempotent | scraper.py:260 | lower-casing twice is lower-casing once |
| Text.MatchKeyConcat | scraper.py:260 | the key of a concatenation is the concatenation of the keys |
| Text.MatchKeyIgnoresCase | scraper.py:260 | lower-casing the input does not change its key |
| Text.MatchKeyIgnoresPunctuation | scraper.py:260 | inserting characters that are not letters or digits anywhere does not change the key |
| Text.NatToString | scraper.py:363 | `str(n)` is n's decimal digits with no leading zero |
| Text.NatToStringRoundTrip | scraper.py:363 | the printed percentage reads back as the same number |
| Text.NatToStringInjective | scraper.py:363 | different percentages print differently |
| Cleaners.CleanText | scraper.py:74-79 | the result is "" exactly when the stripped text is empty, the stripped text is longer than 50 characters, or it is one of the six headings; otherwise it is the stripped text, at most 50 long and unframed by whitespace |
| Cleaners.CleanTextIdempotent | scraper.py:74-79 | cleaning a cleaned text changes nothing |
| Cleaners.IsForbidden | scraper.py:101 | the nine characters of the class `[\\/*?:"<>\|]` |
| Cleaners.RemoveForbidden | scraper.py:101 | the substitution leaves none of `\ / * ? : " < > \|` and keeps only characters of the input |
| Cleaners.RemoveForbiddenKeepsAllowed | scraper.py:101 | an allowed character occurs in the output iff it occurs in the input |
| Cleaners.RemoveForbiddenClean | scraper.py:101 | a text without forbidden characters is unchanged |
| Cleaners.RemoveForbiddenChar | scraper.py:101 | on one character the substitution deletes a forbidden one and keeps any other |
| Cleaners.RemoveForbiddenConcat | scraper.py:101 | the substitution distributes over concatenation, so the kept characters stay in order and in number |
| Cleaners.SanitizeFilename | scraper.py:100-101 | the file name holds no forbidden character, only characters of the product name, and no outer whitespace |
| Cleaners.SanitizeFilenameDropsForbidden | scraper.py:100-101 | a forbidden character anywhere in the name is deleted in place and the rest of the name is kept as it was |
| Cleaners.SanitizeFilenameAllowed | scraper.py:100-101 | a name without forbidden characters is only stripped |
| Cleaners.SanitizeFilenameIdempotent | scraper.py:100-101 | sanitizing twice equals sanitizing once |
| Listing.DedupFrom | scraper.py:140 | each element not yet seen is kept at its first appearance, and a repeat is dropped |
| Listing.Dedup | scraper.py:140 | `list(dict.fromkeys(xs))`: the de-duplication starting with nothing seen |
| Listing.DedupProperties | scraper.py:140 | `list(dict.fromkeys(xs))` has no repeats, holds exactly the elements of xs, and orders them by first appearance |
| Listing.DedupDistinct | scraper.py:140 | a list without repeats is returned unchanged |
| Listing.DedupKeepOrder | scraper.py:254 | the loop computes the de-duplicated list, without repeats and with the same elements |
| Listing.Admit | scraper.py:134-136 | the cleaned text is appended exactly when it is non-empty, not yet in the list, not a keyword and shorter than 40 characters |
| Listing.AddItems | scraper.py:133-136 | the item loop: every text of one block through the guard, in order |
| Listing.ScanHeaders | scraper.py:129-138 | the heading loop: after a block that did not raise and left the list non-empty, the remaining headings are skipped; a raising block only ends its own items |
| Listing.ScanKeywords | scraper.py:125-139 | the keyword loop: each keyword's headings in order, with one list carried across keywords |
| Listing.ListItems | scraper.py:122-140 | `hole_listen_safe`: the keyword loop from an empty list, then de-duplicated |
| Listing.AdmitKeepsAdmissible | scraper.py:134-136 | the append guard keeps the list free of repeats, of empty and long texts, of keywords and headings, and of unstripped texts |
| Listing.ListItemsAdmissible | scraper.py:122-140 | every item `hole_listen_safe` returns is a cleaned, non-empty, stripped text shorter than 40 characters that is neither a keyword nor a heading, with no repeats; the final de-duplication is a no-op |
| Listing.CollectListItems | scraper.py:122-140 | the nested keyword / heading / item loops with the `break` after the first heading that yields items compute `ListItems`, and the result has the properties above |
| Listing.SlotKey | scraper.py:233 | the column name: the key, a space and the 1-based index |
| Listing.SlotValue | scraper.py:233 | item i of the list, or "" past its end |
| Listing.Slots | scraper.py:232-233 | the record after the first n passes of the slot loop, each pass setting one column |
| Listing.SlotKeyInjective | scraper.py:233 | two column names `f'{key} {i+1}'` coincide only for the same key and index |
| Listing.SlotValueEmptyMeansPadding | scraper.py:233 | a column is "" exactly when the list has fewer items than its index |
| Listing.SlotKeyFresh | scraper.py:232-233 | each pass of the slot loop writes a column name no earlier pass wrote |
| Listing.SlotsKeys | scraper.py:232-233 | after n passes the record has exactly its old fields plus the first n column names |
| Listing.SlotsValues | scraper.py:232-233 | after n passes column i, for i < n, holds item i or "" |
| Listing.SlotsFrame | scraper.py:232-233 | a field that is not one of the first n column names keeps its value |
| Listing.FillSlots | scraper.py:232-233 | exactly the three columns of the key are added, column i holds item i or "", and every other field is unchanged |
| Listing.Columns | scraper.py:227-233 | the record after the slot loops of the first c list attributes, each over the items `hole_listen_safe` finds for its keywords |
| Listing.ColumnKeysDisjoint | scraper.py:227-233 | no two of the four list attributes share a column name |
| Listing.ColumnsValues | scraper.py:227-233 | after the first c attributes, each of their columns holds the matching item of the list found for that attribute, or "" |
| Listing.ColumnsKeys | scraper.py:227-233 | after c attributes the record has exactly its old fields plus their column names: nothing else is added |
| Listing.ColumnsFrame | scraper.py:227-233 | a field outside every attribute's columns keeps its value |
| Listing.FillListColumns | scraper.py:227-233 | the loop computes `Columns` over all four attributes: each gets its three columns from the items found for its keywords, exactly the old fields and those twelve columns are present, and other fields are unchanged |
| Normalizer.FirstMatch | scraper.py:264-267 | the index found is the first synonym whose key equals the value's key; none found means no synonym matches |
| Normalizer.CleanField | scraper.py:261-267 | one pass of the outer loop: an absent field is skipped; a present one takes the target of its first matching synonym, or keeps its value; the set of fields never changes |
| Normalizer.PreClean | scraper.py:259-268 | the outer loop: the table entries in order, each pass on the record the previous one left; the set of fields never changes |
| Normalizer.PreCleanFieldwise | scraper.py:259-268 | the set of fields never changes, and every field gets its field-wise expected value |
| Normalizer.PreCleanUnmappedField | scraper.py:261-262 | a field the table does not name keeps its value |
| Normalizer.PreCleanMappedField | scraper.py:262-267 | a field the table names becomes the target of the first synonym whose key equals the key of its value, and keeps its value when none matches |
| Normalizer.CleanOneField | scraper.py:261-267 | the synonym scan with its `break` sets the field to the target of the first matching synonym, and changes nothing when the field is absent or no synonym matches |
| Normalizer.ApplyPreCleaning | scraper.py:259-268 | the in-place nested loops with `break` compute `PreClean`, and the fields stay the same |
| Fingerprint.PyStr | scraper.py:273 | `str(x)` of a `dict.get` value: the text itself, or "None" when the key is missing |
| Fingerprint.Identity | scraper.py:273-274 | the identity string: manufacturer and name lower-cased, the THC text as is, joined by dashes, then filtered to letters and digits |
| Fingerprint.ProductHash | scraper.py:272-275 | `create_product_hash`: the digest of the identity string |
| Fingerprint.IdentityParts | scraper.py:272-274 | the identity is the key of the manufacturer, then the key of the name, then the letters and digits of the THC text: the dashes vanish, and only the THC keeps its case |
| Fingerprint.ProductHashStable | scraper.py:272-275 | inputs with equal keys hash alike |
| Fingerprint.ProductHashIgnoresCase | scraper.py:273 | lower-casing manufacturer and name leaves the hash unchanged |
| Fingerprint.ProductHashIgnoresPunctuation | scraper.py:274 | inserting non-word text into manufacturer or name leaves the hash unchanged |
| Fingerprint.IdentityLosesBoundaries | scraper.py:273-274 | ("ab", "c") and ("a", "bc") give the same identity |
| Fingerprint.IdentityMissingMaker | scraper.py:273 | a missing manufacturer (`str(None)`) gives the same identity as one named "NONE" |
| Fingerprint.IdentityThcCaseSensitive | scraper.py:273 | THC texts that differ only in case give different identities |
| Classifier.WithCultivar | scraper.py:347-351 | the result always ends in " - cultivar"; a name ending in the bare cultivar loses it and the whitespace before it; a name ending in "-cultivar" or "- cultivar", or not in the cultivar, is kept whole |
| Classifier.ComposeName | scraper.py:342-351 | with stripped name and cultivar both non-empty, the result is the suffix rule applied to them; otherwise it is `BC_DisplayName`, defaulting to the stripped name |
| Classifier.WithCultivarSameAsName | scraper.py:348-351 | a name equal to its cultivar becomes " - cultivar" |
| Classifier.WithCultivarNotIdempotent | scraper.py:348-351 | composing a composed name appends the suffix again |
| Classifier.PyInt | scraper.py:363 | `int(x)` truncates toward zero |
| Classifier.ReviewPercent | scraper.py:363 | for a REVIEW score the percentage is between 85 and 98 and is the floor of score·100 |
| Classifier.Classify | scraper.py:356-363 | DUPLICATE iff score > 0.98, REVIEW iff 0.85 < score ≤ 0.98, READY iff score ≤ 0.85, with the info texts "Gefunden: name (no)", "Ähnlich: name (no) \| p%" and "Neu"; never a terminal status |
| Classifier.ClassifyMonotone | scraper.py:358-363 | a higher score never yields a weaker status |
| Classifier.ClassifyBoundaries | scraper.py:358-363 | 0.85 is READY, 0.98 is REVIEW, and values just above each move up a status |
| Classifier.ReviewPercentTruncates | scraper.py:363 | a score of 0.869 shows 86%, not 87% |
| Queue.UrlIndex | scraper.py:300 | the row found has the url; none found means no row has it |
| Queue.HashIndex | scraper.py:286-288 | `existing.data[0]` is the first row with the fingerprint; none found means no row has it |
| Queue.TargetUrl | scraper.py:283 | the entry's url when non-empty, otherwise the record's `URL` field, otherwise "" |
| Queue.Payload | scraper.py:279-298 | the row a sync writes: the fingerprint of the record's manufacturer, the entry's name and the record's THC, with the name, status, match info, record and target url |
| Queue.Guarded | scraper.py:286-289 | the first row with the fingerprint exists and is PROCESSED or IGNORED |
| Queue.UpsertRows | scraper.py:300 | the row with the payload's url is overwritten in place, or the payload is appended when no row has that url |
| Queue.SyncRows | scraper.py:286-300 | the guard, then the upsert |
| Queue.UniqueUrlIndex | scraper.py:300 | in a table with unique urls, each row is the one found for its url |
| Queue.UpsertRowsSpec | scraper.py:300 | an upsert keeps urls unique, stores the payload under its url, leaves every other url's row in place, and grows the table exactly when the url was new |
| Queue.UpsertRowsUrls | scraper.py:300 | after an upsert exactly the old urls and the payload's url are present |
| Queue.SyncRowsGuarded | scraper.py:286-289 | when the first row with the fingerprint is PROCESSED or IGNORED, the table is unchanged |
| Queue.SyncRowsUnguarded | scraper.py:291-300 | otherwise the payload is stored under its url and no other url's row changes |
| Queue.TerminalRowOverwrittenUnderNewHash | scraper.py:286-300 | a PROCESSED row whose fingerprint changed is overwritten through its url |
| Queue.TerminalHashBlocksOtherUrl | scraper.py:286-289 | a new url whose fingerprint's first row is terminal is not stored |
| Queue.NonTerminalFirstAdmitsNewUrl | scraper.py:286-300 | a new url is appended when a READY row with its fingerprint comes before a PROCESSED one |
| Queue.OnlyFirstHashRowInspected | scraper.py:287-288 | a PROCESSED row behind a READY row with the same fingerprint is overwritten |
| Queue.ImportQueue.constructor | scraper.py:29 | a queue over a table with unique urls |
| Queue.ImportQueue.ContainsUrl | scraper.py:325-327 | the url lookup answers whether some row has the url |
| Queue.ImportQueue.FirstStatusByHash | scraper.py:286-288 | the status of the first row with the fingerprint, or none when no row has it |
| Queue.ImportQueue.Upsert | scraper.py:300 | the new table is the upsert of the old, and urls stay unique |
| Queue.ImportQueue.Sync | scraper.py:277-303 | a store failure changes nothing; a guarded fingerprint changes nothing; otherwise the payload is upserted by url |
| Pipeline.IsNamed | scraper.py:336 | `details.get('Produktname')` is present, non-empty and not "Unbekannt" |
| Pipeline.EntryFor | scraper.py:366-372 | the argument of `sync_to_supabase`: the link, the cleaned name, the classification's status and info, and the cleaned record |
| Pipeline.Step | scraper.py:322-372 | one pass of the loop body: a failing lookup aborts; a queued url is skipped; a failed scrape or match aborts; a missing name is skipped; otherwise the entry is synced, with the store failure, the guard or the upsert |
| Pipeline.Run | scraper.py:322-375 | the loop over the links in order, each pass on the table the previous one left, ending at the first abort |
| Pipeline.ProcessLink | scraper.py:325-372 | one pass of the loop body, with the store's new table and the link's outcome as `Step` gives them |
| Pipeline.RunNightlyScraper | scraper.py:307-378 | without the catalog login nothing happens; otherwise the store's new table and the report are those of `Run` |
| Pipeline.Prepare | scraper.py:335-372 | the scrape fails, the name is missing, or the match fails exactly when those happen; otherwise the entry handed to the sync carries the link as url, the pre-cleaned record and its name, and the status and info text the match score earns |
| Pipeline.RunAt | scraper.py:322-372 | the loop from position i is one pass of the body followed by the loop from i+1, unless that pass aborts |
| Pipeline.StepTable | scraper.py:325-372 | the table changes only when the sync writes, and then by the upsert of the payload |
| Pipeline.StepLookup | scraper.py:325-331 | a failing url lookup aborts the run; a queued url is skipped unscraped, and a skip means exactly that the lookup found the url |
| Pipeline.StepSync | scraper.py:335-372 | a skip for a missing name means the scraped name was unusable; a sync means a new, named link, its entry under the link's url with a non-terminal status, and a store failure or a guard exactly when those occur |
| Pipeline.StepProgress | scraper.py:322-374 | a pass aborts exactly when the lookup fails or, for a new link, the scrape or the match fails; a new link without a name is skipped; a new link that is prepared is synced with its entry, and a store failure is reported for it instead of ending the run |
| Pipeline.StepUrls | scraper.py:300 | a step adds no url but its own link |
| Pipeline.StepAppendsOnly | scraper.py:325-372 | a step leaves the table alone, or appends one row under the link's url |
| Pipeline.WrittenEntriesConcat | scraper.py:322-372 | the written entries of two reports in sequence are those of the first, then of the second |
| Pipeline.PayloadsConcat | scraper.py:277-300 | the payloads of two entry lists in sequence are those of the first, then of the second |
| Pipeline.RunAppendsOnly | scraper.py:322-372 | a run never changes, moves or removes a queued row: the new table is the old one followed by the payloads of the written syncs in link order, with urls unique |
| Pipeline.RunReportShape | scraper.py:316-375 | one outcome per link reached, in order; an abort is only ever last, and the only way the run stops early |
| Pipeline.RunOutcomes | scraper.py:325-372 | a link queued before the run is skipped without scraping (or the run aborts on its lookup); a skip for a missing name means the scraped name was empty, absent or "Unbekannt"; a sync means a named record, under the link's url, with a non-terminal status; an abort means the lookup, scrape or match of that link failed |
| Pipeline.RunSyncsNewLinks | scraper.py:322-372 | every link reached that is new to the table and to the list, and whose lookup, scrape, name and match succeed, gets the sync of its prepared entry, with a store failure reported for it alone |
| Pipeline.RunCompletes | scraper.py:316-375 | when no link's lookup, scrape or match fails, the run reaches every link whatever the store does |
| Pipeline.StepKeepsUrls | scraper.py:300 | a url queued before a step is queued after it |
| Pipeline.HashIndexPrefix | scraper.py:286-288 | appending rows does not change the first row with a fingerprint already present |
| Pipeline.StepOnExtension | scraper.py:286-289 | on a longer table still lacking the link, a step that wrote nothing meets the same fate |
| Pipeline.StepStable | scraper.py:325-372 | a step that did not abort changes nothing, and writes nothing, on any table extending both its input and its result |
| Pipeline.RunStable | scraper.py:322-372 | a run changes nothing, and writes nothing, on a table that extends its input and equals its result |
| Pipeline.RunIdempotent | scraper.py:322-372 | a second run over the same links with the same collaborators leaves the table as the first left it and writes nothing |

## Left out

- Browser automation: `get_driver`, the page queries of the `hole_*` extractors, and the link query of `hole_links_von_uebersicht`. The logic around those queries is modelled: the loops of `hole_listen_safe` (`Listing.CollectListItems`) and the link de-duplication (`Listing.DedupKeepOrder`). `Env.scrape` and the `headersOf` parameter of `Listing` stand in for the queries.
- The driver parts of `scrape_full_details`: the page load and the scalar fields with their "Unbekannt" default. The loop receives the whole record from `Env.scrape`.
- `make_session`, `download_image` and `remove_watermark_rectangle`: HTTP, filesystem and image I/O.
- `clean_number_int`: float parsing and Python's `round`.
- MD5 itself: the digest is a parameter, and the model states only what the identity string keeps and loses.
- The matcher `BusinessCentralConnector.get_match_info`, its similarity scoring, and the contents of `VALUE_MAPPINGS`: `connector.py` is not part of this model. The match result and the synonym table are inputs.
- The dashboard and the connectivity check: user interface and store reads with no pipeline logic.
- Console logging, and the closing `driver.quit()`.
- Unicode beyond Latin-1: lower-casing and the word-character class are exact up to U+00FF. Beyond that, lower-casing is the identity and every character counts as a non-word character.
- Floating point: scores are real numbers. The rounding of `0.98`, `0.85` and `score*100` in binary floating point is not modelled.
- The order of `existing.data`: the model takes storage order as the order the store returns rows in.
- Record values that are `None`, such as `Bild Datei` when no image was downloaded. Records map names to strings, and `sd.get('URL')` of a missing url is "".
- Listing.CollectListItems: an exception part-way through a heading's items is modelled by the block's `raised` flag and the texts read before it. The model does not say which element raised.
- Pipeline.RunNightlyScraper: link discovery and the catalog login are inputs. A failure before the loop behaves as an empty link list or as `connectorReachable == false`.
- Pipeline.RunIdempotent: assumes non-empty links, as `hole_links_von_uebersicht` filters empty hrefs. An empty link would make the upsert target the record's own `URL` field.
- Pipeline.RunAppendsOnly: assumes non-empty links, as `hole_links_von_uebersicht` filters empty hrefs. An empty link would make the upsert target the record's own `URL` field.
- Pipeline.RunSyncsNewLinks: assumes non-empty links, as `hole_links_von_uebersicht` filters empty hrefs. An empty link would make the upsert target the record's own `URL` field.
- Pipeline.StepUrls: assumes non-empty links, as `hole_links_von_uebersicht` filters empty hrefs. An empty link would make the upsert target the record's own `URL` field.
