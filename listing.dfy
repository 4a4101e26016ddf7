/**
 * List attributes of a product page: how `hole_listen_safe` gathers the
 * chips under a section heading, how `list(dict.fromkeys(...))` removes
 * repeats, and how `scrape_full_details` spreads each list over exactly
 * `MAX_ITEMS_PRO_SPALTE` numbered columns.
 *
 * The browser is a function parameter: `headersOf(kw)` lists, for one
 * keyword, the heading blocks the page query finds, in page order.
 */
module Listing {
  import opened Text
  import opened Cleaners

  // ---------------------------------------------------------------------------
  // Order-preserving de-duplication: list(dict.fromkeys(xs))
  // ---------------------------------------------------------------------------

  predicate NoDups<T(==)>(xs: seq<T>) {
    forall i, j | 0 <= i < j < |xs| :: xs[i] != xs[j]
  }

  /** Position of the first occurrence of `x` in `xs`. */
  function FirstIndex<T(==)>(xs: seq<T>, x: T): (k: nat)
    requires x in xs
    ensures k < |xs| && xs[k] == x
    ensures forall j | 0 <= j < k :: xs[j] != x
  {
    if xs[0] == x then 0 else 1 + FirstIndex(xs[1..], x)
  }

  /** The elements of `xs` not in `seen`, each once, at its first appearance. */
  function DedupFrom<T(==)>(seen: set<T>, xs: seq<T>): seq<T>
    decreases |xs|
  {
    if xs == [] then []
    else if xs[0] in seen then DedupFrom(seen, xs[1..])
    else [xs[0]] + DedupFrom(seen + {xs[0]}, xs[1..])
  }

  function Dedup<T(==)>(xs: seq<T>): seq<T> {
    DedupFrom({}, xs)
  }

  lemma {:induction false} DedupFromProperties<T>(seen: set<T>, xs: seq<T>)
    ensures NoDups(DedupFrom(seen, xs))
    ensures forall x :: x in DedupFrom(seen, xs) <==> x in xs && x !in seen
    ensures forall i, j | 0 <= i < j < |DedupFrom(seen, xs)| ::
      FirstIndex(xs, DedupFrom(seen, xs)[i]) < FirstIndex(xs, DedupFrom(seen, xs)[j])
    decreases |xs|
  {
    if xs != [] {
      var x0, rest := xs[0], xs[1..];
      assert forall x :: x in xs <==> x == x0 || x in rest;
      if x0 in seen {
        DedupFromProperties(seen, rest);
        var r := DedupFrom(seen, rest);
        forall y | y in r ensures FirstIndex(xs, y) == 1 + FirstIndex(rest, y) {
        }
      } else {
        DedupFromProperties(seen + {x0}, rest);
        var r' := DedupFrom(seen + {x0}, rest);
        var r := [x0] + r';
        forall y | y in r' ensures FirstIndex(xs, y) == 1 + FirstIndex(rest, y) {
        }
        forall i, j | 0 <= i < j < |r| ensures r[i] != r[j] && FirstIndex(xs, r[i]) < FirstIndex(xs, r[j]) {
          assert r[j] == r'[j - 1];
          assert r[j] in r';
          if i > 0 {
            assert r[i] == r'[i - 1];
          }
        }
      }
    }
  }

  /**
   * `list(dict.fromkeys(xs))` keeps exactly the elements of `xs`, each once,
   * in the order of their first appearance.
   */
  lemma DedupProperties<T>(xs: seq<T>)
    ensures NoDups(Dedup(xs))
    ensures forall x :: x in Dedup(xs) <==> x in xs
    ensures forall i, j | 0 <= i < j < |Dedup(xs)| ::
      FirstIndex(xs, Dedup(xs)[i]) < FirstIndex(xs, Dedup(xs)[j])
  {
    DedupFromProperties({}, xs);
  }

  lemma {:induction false} DedupFromDistinct<T>(seen: set<T>, xs: seq<T>)
    requires NoDups(xs)
    requires forall x | x in xs :: x !in seen
    ensures DedupFrom(seen, xs) == xs
    decreases |xs|
  {
    if xs != [] {
      assert xs[0] in xs;
      assert forall x | x in xs[1..] :: x in xs && x != xs[0];
      DedupFromDistinct(seen + {xs[0]}, xs[1..]);
    }
  }

  /** A list without repeats passes through `dict.fromkeys` unchanged. */
  lemma DedupDistinct<T>(xs: seq<T>)
    requires NoDups(xs)
    ensures Dedup(xs) == xs
  {
    DedupFromDistinct({}, xs);
  }

  /** The loop inside `dict.fromkeys` followed by `list(...)`. */
  method DedupKeepOrder<T(==)>(xs: seq<T>) returns (ys: seq<T>)
    ensures ys == Dedup(xs)
    ensures NoDups(ys)
    ensures forall x :: x in ys <==> x in xs
  {
    var seen: set<T> := {};
    ys := [];
    for i := 0 to |xs|
      invariant ys + DedupFrom(seen, xs[i..]) == Dedup(xs)
      invariant forall x :: x in seen <==> x in ys
    {
      var x := xs[i];
      assert xs[i..] == [x] + xs[i + 1..];
      if x !in seen {
        assert DedupFrom(seen, xs[i..]) == [x] + DedupFrom(seen + {x}, xs[i + 1..]);
        assert ys + ([x] + DedupFrom(seen + {x}, xs[i + 1..])) == (ys + [x]) + DedupFrom(seen + {x}, xs[i + 1..]);
        ys := ys + [x];
        seen := seen + {x};
      } else {
        assert DedupFrom(seen, xs[i..]) == DedupFrom(seen, xs[i + 1..]);
      }
    }
    assert xs[|xs|..] == [];
    assert ys == Dedup(xs);
    DedupProperties(xs);
  }

  // ---------------------------------------------------------------------------
  // hole_listen_safe: gathering the items listed under a heading
  // ---------------------------------------------------------------------------

  /** Longest item `hole_listen_safe` admits is one shorter than this. */
  const MaxItemLength: nat := 40

  /**
   * One heading the page query found. `texts` are the item texts read from
   * the block after it, in order; `raised` says the lookup of that block, or
   * the reading of an item, raised part-way, so the items read so far are
   * kept but the early exit after the block is not taken.
   */
  datatype HeaderBlock = HeaderBlock(texts: seq<string>, raised: bool)

  /** Every element is a cleaned, short, non-heading text, and there are no repeats. */
  ghost predicate Admissible(found: seq<string>, keywords: seq<string>) {
    && NoDups(found)
    && forall i | 0 <= i < |found| ::
         && found[i] != ""
         && |found[i]| < MaxItemLength
         && found[i] !in keywords
         && found[i] !in HeaderWords
         && Strip(found[i]) == found[i]
  }

  /** The guard in front of `ergebnis_liste.append(t)`. */
  function Admit(found: seq<string>, text: string, keywords: seq<string>): seq<string> {
    var t := CleanText(text);
    if t != "" && t !in found && t !in keywords && |t| < MaxItemLength then found + [t] else found
  }

  /** The item loop of one block. */
  function AddItems(found: seq<string>, texts: seq<string>, keywords: seq<string>): seq<string>
    decreases |texts|
  {
    if texts == [] then found else AddItems(Admit(found, texts[0], keywords), texts[1..], keywords)
  }

  /** The heading loop of one keyword, with its `if ergebnis_liste: break`. */
  function ScanHeaders(found: seq<string>, blocks: seq<HeaderBlock>, keywords: seq<string>): seq<string>
    decreases |blocks|
  {
    if blocks == [] then found
    else
      var after := AddItems(found, blocks[0].texts, keywords);
      if !blocks[0].raised && after != [] then after
      else ScanHeaders(after, blocks[1..], keywords)
  }

  /** The keyword loop. */
  function ScanKeywords(found: seq<string>, pending: seq<string>, keywords: seq<string>,
                        headersOf: string -> seq<HeaderBlock>): seq<string>
    decreases |pending|
  {
    if pending == [] then found
    else ScanKeywords(ScanHeaders(found, headersOf(pending[0]), keywords), pending[1..], keywords, headersOf)
  }

  /** What `hole_listen_safe(driver, keywords)` returns. */
  function ListItems(keywords: seq<string>, headersOf: string -> seq<HeaderBlock>): seq<string> {
    Dedup(ScanKeywords([], keywords, keywords, headersOf))
  }

  lemma AdmitKeepsAdmissible(found: seq<string>, text: string, keywords: seq<string>)
    requires Admissible(found, keywords)
    ensures Admissible(Admit(found, text, keywords), keywords)
  {
    var t := CleanText(text);
    if t != "" && t !in found && t !in keywords && |t| < MaxItemLength {
      var after := found + [t];
      StripFramed(t);
      forall i, j | 0 <= i < j < |after| ensures after[i] != after[j] {
        if j == |found| {
          assert after[i] == found[i];
        }
      }
      assert forall i | 0 <= i < |found| :: after[i] == found[i];
      assert after[|found|] == t;
    }
  }

  lemma {:induction false} AddItemsKeepsAdmissible(found: seq<string>, texts: seq<string>, keywords: seq<string>)
    requires Admissible(found, keywords)
    ensures Admissible(AddItems(found, texts, keywords), keywords)
    decreases |texts|
  {
    if texts != [] {
      AdmitKeepsAdmissible(found, texts[0], keywords);
      AddItemsKeepsAdmissible(Admit(found, texts[0], keywords), texts[1..], keywords);
    }
  }

  lemma {:induction false} ScanHeadersKeepsAdmissible(found: seq<string>, blocks: seq<HeaderBlock>, keywords: seq<string>)
    requires Admissible(found, keywords)
    ensures Admissible(ScanHeaders(found, blocks, keywords), keywords)
    decreases |blocks|
  {
    if blocks != [] {
      AddItemsKeepsAdmissible(found, blocks[0].texts, keywords);
      ScanHeadersKeepsAdmissible(AddItems(found, blocks[0].texts, keywords), blocks[1..], keywords);
    }
  }

  lemma {:induction false} ScanKeywordsKeepsAdmissible(found: seq<string>, pending: seq<string>, keywords: seq<string>,
                                                       headersOf: string -> seq<HeaderBlock>)
    requires Admissible(found, keywords)
    ensures Admissible(ScanKeywords(found, pending, keywords, headersOf), keywords)
    decreases |pending|
  {
    if pending != [] {
      ScanHeadersKeepsAdmissible(found, headersOf(pending[0]), keywords);
      ScanKeywordsKeepsAdmissible(ScanHeaders(found, headersOf(pending[0]), keywords), pending[1..], keywords, headersOf);
    }
  }

  /**
   * Every item `hole_listen_safe` returns is a cleaned text shorter than 40
   * characters that is neither a keyword nor a heading, and none repeats; so
   * the closing `dict.fromkeys` never removes anything.
   */
  lemma ListItemsAdmissible(keywords: seq<string>, headersOf: string -> seq<HeaderBlock>)
    ensures Admissible(ListItems(keywords, headersOf), keywords)
    ensures ListItems(keywords, headersOf) == ScanKeywords([], keywords, keywords, headersOf)
  {
    ScanKeywordsKeepsAdmissible([], keywords, keywords, headersOf);
    DedupDistinct(ScanKeywords([], keywords, keywords, headersOf));
  }

  /** `hole_listen_safe`, with the browser queries supplied by `headersOf`. */
  method CollectListItems(keywords: seq<string>, headersOf: string -> seq<HeaderBlock>) returns (items: seq<string>)
    ensures items == ListItems(keywords, headersOf)
    ensures Admissible(items, keywords)
  {
    var found: seq<string> := [];
    for k := 0 to |keywords|
      invariant ScanKeywords(found, keywords[k..], keywords, headersOf) == ScanKeywords([], keywords, keywords, headersOf)
      invariant Admissible(found, keywords)
    {
      assert keywords[k..][1..] == keywords[k + 1..];
      var headers := headersOf(keywords[k]);
      ghost var start := found;
      var h := 0;
      while h < |headers|
        invariant 0 <= h <= |headers|
        invariant ScanHeaders(found, headers[h..], keywords) == ScanHeaders(start, headers, keywords)
        invariant Admissible(found, keywords)
      {
        var block := headers[h];
        ghost var before := found;
        for j := 0 to |block.texts|
          invariant AddItems(found, block.texts[j..], keywords) == AddItems(before, block.texts, keywords)
          invariant Admissible(found, keywords)
        {
          assert block.texts[j..][1..] == block.texts[j + 1..];
          AdmitKeepsAdmissible(found, block.texts[j], keywords);
          var t := CleanText(block.texts[j]);
          if t != "" && t !in found && t !in keywords && |t| < MaxItemLength {
            found := found + [t];
          }
        }
        assert block.texts[|block.texts|..] == [];
        assert headers[h..][1..] == headers[h + 1..];
        if !block.raised && found != [] {
          assert ScanHeaders(start, headers, keywords) == found;
          break;
        }
        h := h + 1;
      }
      assert ScanHeaders(start, headers, keywords) == found by {
        if h == |headers| {
          assert headers[h..] == [];
        }
      }
    }
    assert keywords[|keywords|..] == [];
    ListItemsAdmissible(keywords, headersOf);
    items := DedupKeepOrder(found);
  }

  // ---------------------------------------------------------------------------
  // Spreading a list over numbered columns (scrape_full_details)
  // ---------------------------------------------------------------------------

  /** MAX_ITEMS_PRO_SPALTE. */
  const MaxItemsPerColumn: nat := 3

  /** The column name `f'{key} {i+1}'`. */
  function SlotKey(key: string, i: nat): string
    requires i < MaxItemsPerColumn
  {
    key + " " + NatToString(i + 1)
  }

  /** `items[i] if i < len(items) else ""`. */
  function SlotValue(items: seq<string>, i: nat): string {
    if i < |items| then items[i] else ""
  }

  /** Two column names coincide only for the same key and the same index. */
  lemma SlotKeyInjective(key1: string, i: nat, key2: string, j: nat)
    requires i < MaxItemsPerColumn && j < MaxItemsPerColumn
    requires SlotKey(key1, i) == SlotKey(key2, j)
    ensures key1 == key2 && i == j
  {
    var k := SlotKey(key1, i);
    var d1, d2 := NatToString(i + 1), NatToString(j + 1);
    assert |d1| == 1 && |d2| == 1;
    assert k == key1 + " " + d1 == key2 + " " + d2;
    assert |key1| == |key2|;
    assert key1 == k[..|key1|] == key2;
    assert k[|k| - 1] == d1[0] == DigitChar(i + 1);
    assert k[|k| - 1] == d2[0] == DigitChar(j + 1);
  }

  /** When the list holds no empty text, an empty column means the list ran out. */
  lemma SlotValueEmptyMeansPadding(items: seq<string>, keywords: seq<string>, i: nat)
    requires Admissible(items, keywords)
    ensures SlotValue(items, i) == "" <==> i >= |items|
  {
  }

  /** The column names of the first `n` slots. */
  function SlotKeysBelow(key: string, n: nat): set<string>
    requires n <= MaxItemsPerColumn
  {
    set i | 0 <= i < n :: SlotKey(key, i)
  }

  /** All column names of one list attribute. */
  function SlotKeys(key: string): set<string> {
    SlotKeysBelow(key, MaxItemsPerColumn)
  }

  /** The record after the first `n` passes of the slot-filling loop. */
  function Slots(record: Record, key: string, items: seq<string>, n: nat): Record
    requires n <= MaxItemsPerColumn
  {
    if n == 0 then record
    else Slots(record, key, items, n - 1)[SlotKey(key, n - 1) := SlotValue(items, n - 1)]
  }

  /** A new column name differs from the earlier ones. */
  lemma SlotKeyFresh(key: string, n: nat)
    requires n < MaxItemsPerColumn
    ensures SlotKey(key, n) !in SlotKeysBelow(key, n)
    ensures SlotKeysBelow(key, n + 1) == SlotKeysBelow(key, n) + {SlotKey(key, n)}
  {
    if SlotKey(key, n) in SlotKeysBelow(key, n) {
      var m :| 0 <= m < n && SlotKey(key, m) == SlotKey(key, n);
      SlotKeyInjective(key, m, key, n);
    }
  }

  /** After `n` passes the record holds its own fields and the first `n` columns. */
  lemma {:induction false} SlotsKeys(record: Record, key: string, items: seq<string>, n: nat)
    requires n <= MaxItemsPerColumn
    ensures Slots(record, key, items, n).Keys == record.Keys + SlotKeysBelow(key, n)
  {
    if n > 0 {
      SlotsKeys(record, key, items, n - 1);
      SlotKeyFresh(key, n - 1);
    }
  }

  /** After `n` passes column `m < n` holds item `m`, or "" when the list is shorter. */
  lemma {:induction false} SlotsValues(record: Record, key: string, items: seq<string>, n: nat)
    requires n <= MaxItemsPerColumn
    ensures forall m | 0 <= m < n ::
      SlotKey(key, m) in Slots(record, key, items, n) && Slots(record, key, items, n)[SlotKey(key, m)] == SlotValue(items, m)
  {
    if n > 0 {
      SlotsValues(record, key, items, n - 1);
      SlotsKeys(record, key, items, n - 1);
      SlotKeyFresh(key, n - 1);
      forall m | 0 <= m < n - 1
        ensures SlotKey(key, m) in Slots(record, key, items, n)
        ensures Slots(record, key, items, n)[SlotKey(key, m)] == SlotValue(items, m)
      {
        assert SlotKey(key, m) in SlotKeysBelow(key, n - 1);
      }
    }
  }

  /** Fields that are not columns of the attribute keep their values. */
  lemma {:induction false} SlotsFrame(record: Record, key: string, items: seq<string>, n: nat)
    requires n <= MaxItemsPerColumn
    ensures forall k | k in record && k !in SlotKeysBelow(key, n) ::
      k in Slots(record, key, items, n) && Slots(record, key, items, n)[k] == record[k]
  {
    if n > 0 {
      SlotsFrame(record, key, items, n - 1);
      SlotsKeys(record, key, items, n - 1);
      SlotKeyFresh(key, n - 1);
    }
  }

  /** The slot-filling loop for one list attribute: exactly three columns, padded with "". */
  method FillSlots(record: Record, key: string, items: seq<string>) returns (r: Record)
    ensures r == Slots(record, key, items, MaxItemsPerColumn)
    ensures r.Keys == record.Keys + SlotKeys(key)
    ensures forall i | 0 <= i < MaxItemsPerColumn :: r[SlotKey(key, i)] == SlotValue(items, i)
    ensures forall k | k in record && k !in SlotKeys(key) :: r[k] == record[k]
  {
    r := record;
    for i := 0 to MaxItemsPerColumn
      invariant r == Slots(record, key, items, i)
    {
      r := r[SlotKey(key, i) := if i < |items| then items[i] else ""];
    }
    SlotsKeys(record, key, items, MaxItemsPerColumn);
    SlotsValues(record, key, items, MaxItemsPerColumn);
    SlotsFrame(record, key, items, MaxItemsPerColumn);
  }

  /**
   * The four list attributes and the page headings each is read from. The
   * terpene heading is passed as a bare string, which `hole_listen_safe`
   * wraps into a one-element list before iterating.
   */
  const ListColumns: seq<(string, seq<string>)> := [
    ("Kategorie Effekt", ["Effekte", "Wirkung"]),
    ("Aroma", ["Aroma", "Geschmack"]),
    ("Terpen", ["Terpene"]),
    ("Med. Wirkung", ["Medizinische Wirkung", "Medizinische Wirkung bei"])
  ]

  /** The record after the first `c` list attributes have their columns. */
  function Columns(record: Record, headersOf: string -> seq<HeaderBlock>, c: nat): Record
    requires c <= |ListColumns|
  {
    if c == 0 then record
    else
      var (key, keywords) := ListColumns[c - 1];
      Slots(Columns(record, headersOf, c - 1), key, ListItems(keywords, headersOf), MaxItemsPerColumn)
  }

  /** Every column name of a list attribute is the attribute's name plus two characters. */
  lemma SlotKeysLength(key: string)
    ensures forall k | k in SlotKeys(key) :: |k| == |key| + 2
  {
    forall i | 0 <= i < MaxItemsPerColumn ensures |SlotKey(key, i)| == |key| + 2 {
      assert |NatToString(i + 1)| == 1;
    }
  }

  /** The four list attributes own disjoint sets of columns. */
  lemma ColumnKeysDisjoint(c: nat, d: nat, k: string)
    requires c < |ListColumns| && d < |ListColumns| && c != d
    requires k in SlotKeys(ListColumns[d].0)
    ensures k !in SlotKeys(ListColumns[c].0)
  {
    var a, b := ListColumns[c].0, ListColumns[d].0;
    assert |a| != |b| by {
      assert |ListColumns[0].0| == 16 && |ListColumns[1].0| == 5;
      assert |ListColumns[2].0| == 6 && |ListColumns[3].0| == 12;
    }
    SlotKeysLength(b);
    assert |k| == |b| + 2;
    SlotKeysLength(a);
  }

  /** After `c` attributes, each of their columns holds the matching list entry or "". */
  lemma {:induction false} ColumnsValues(record: Record, headersOf: string -> seq<HeaderBlock>, c: nat)
    requires c <= |ListColumns|
    ensures forall d, i | 0 <= d < c && 0 <= i < MaxItemsPerColumn ::
      SlotKey(ListColumns[d].0, i) in Columns(record, headersOf, c) &&
      Columns(record, headersOf, c)[SlotKey(ListColumns[d].0, i)] == SlotValue(ListItems(ListColumns[d].1, headersOf), i)
  {
    if c > 0 {
      ColumnsValues(record, headersOf, c - 1);
      var previous := Columns(record, headersOf, c - 1);
      var (key, keywords) := ListColumns[c - 1];
      var items := ListItems(keywords, headersOf);
      assert Columns(record, headersOf, c) == Slots(previous, key, items, MaxItemsPerColumn);
      SlotsValues(previous, key, items, MaxItemsPerColumn);
      SlotsFrame(previous, key, items, MaxItemsPerColumn);
      forall d, i | 0 <= d < c - 1 && 0 <= i < MaxItemsPerColumn
        ensures SlotKey(ListColumns[d].0, i) !in SlotKeys(key)
      {
        assert SlotKey(ListColumns[d].0, i) in SlotKeys(ListColumns[d].0);
        ColumnKeysDisjoint(c - 1, d, SlotKey(ListColumns[d].0, i));
      }
    }
  }

  /** The column names of the first `c` list attributes. */
  function ColumnKeysBelow(c: nat): set<string>
    requires c <= |ListColumns|
  {
    if c == 0 then {} else ColumnKeysBelow(c - 1) + SlotKeys(ListColumns[c - 1].0)
  }

  /** After `c` attributes the record has exactly its old fields and their columns: nothing else is added. */
  lemma {:induction false} ColumnsKeys(record: Record, headersOf: string -> seq<HeaderBlock>, c: nat)
    requires c <= |ListColumns|
    ensures Columns(record, headersOf, c).Keys == record.Keys + ColumnKeysBelow(c)
  {
    if c > 0 {
      ColumnsKeys(record, headersOf, c - 1);
      var (key, keywords) := ListColumns[c - 1];
      SlotsKeys(Columns(record, headersOf, c - 1), key, ListItems(keywords, headersOf), MaxItemsPerColumn);
    }
  }

  /** A field outside every list attribute's columns keeps its value. */
  lemma {:induction false} ColumnsFrame(record: Record, headersOf: string -> seq<HeaderBlock>, c: nat)
    requires c <= |ListColumns|
    ensures forall k | k in record && (forall d | 0 <= d < |ListColumns| :: k !in SlotKeys(ListColumns[d].0)) ::
      k in Columns(record, headersOf, c) && Columns(record, headersOf, c)[k] == record[k]
  {
    if c > 0 {
      ColumnsFrame(record, headersOf, c - 1);
      var previous := Columns(record, headersOf, c - 1);
      var (key, keywords) := ListColumns[c - 1];
      SlotsFrame(previous, key, ListItems(keywords, headersOf), MaxItemsPerColumn);
    }
  }

  /**
   * The closing loop of `scrape_full_details`: every list attribute gets its
   * three columns, filled from what `hole_listen_safe` finds for it.
   */
  method FillListColumns(record: Record, headersOf: string -> seq<HeaderBlock>)
    returns (r: Record)
    ensures r == Columns(record, headersOf, |ListColumns|)
    ensures r.Keys == record.Keys + ColumnKeysBelow(|ListColumns|)
    ensures forall c, i | 0 <= c < |ListColumns| && 0 <= i < MaxItemsPerColumn ::
      SlotKey(ListColumns[c].0, i) in r &&
      r[SlotKey(ListColumns[c].0, i)] == SlotValue(ListItems(ListColumns[c].1, headersOf), i)
    ensures forall k | k in record && (forall c | 0 <= c < |ListColumns| :: k !in SlotKeys(ListColumns[c].0)) ::
      k in r && r[k] == record[k]
  {
    r := record;
    for c := 0 to |ListColumns|
      invariant r == Columns(record, headersOf, c)
    {
      var (key, keywords) := ListColumns[c];
      var items := CollectListItems(keywords, headersOf);
      r := FillSlots(r, key, items);
    }
    ColumnsKeys(record, headersOf, |ListColumns|);
    ColumnsValues(record, headersOf, |ListColumns|);
    ColumnsFrame(record, headersOf, |ListColumns|);
  }
}
