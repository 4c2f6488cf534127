/** The planning half of `create_b5_pdf` in kojima-farm-app/app.py: order entries are grouped
    by store into an insertion-ordered dictionary, each store becomes one B5 page listing
    every item with its detail text, and the page footer gives the store's box count.
    A page is kept as a record of what is written on it, not as drawing calls. */
module LabelPages {
  import opened Text
  import opened OrderExtraction

  /** One item row of a page: the item name on the left, the detail text on the right. */
  datatype Line = Line(item: string, detail: string)

  /** One label page: store name at the top, the rows, the box count and its footer text. */
  datatype Page = Page(store: string, lines: seq<Line>, total: int, footer: string)

  // ---------------------------------------------------------------------------------
  // Reference definitions

  /** The distinct stores of `data` in order of first occurrence: the key order of the
      `defaultdict` after the grouping loop. */
  function Stores(data: seq<Entry>): seq<string>
    decreases |data|
  {
    if data == [] then []
    else
      var prev := Stores(data[..|data| - 1]);
      var s := data[|data| - 1].store;
      if s in prev then prev else prev + [s]
  }

  /** The entries of `data` for `store`, in input order: the list `grouped[store]`. */
  function EntriesOf(data: seq<Entry>, store: string): seq<Entry>
    decreases |data|
  {
    if data == [] then []
    else
      var e := data[|data| - 1];
      EntriesOf(data[..|data| - 1], store) + if e.store == store then [e] else []
  }

  /** The input positions of the entries for `store`, in increasing order. */
  function Positions(data: seq<Entry>, store: string): seq<nat>
    decreases |data|
  {
    if data == [] then []
    else
      Positions(data[..|data| - 1], store) + if data[|data| - 1].store == store then [|data| - 1] else []
  }

  /** Index of the first entry for `store`, or `|data|` when there is none. */
  function FirstIndex(data: seq<Entry>, store: string): (r: nat)
    ensures r <= |data|
    ensures r < |data| ==> data[r].store == store
    ensures forall j :: 0 <= j < r ==> data[j].store != store
    decreases |data|
  {
    if data == [] then 0
    else if data[0].store == store then 0
    else 1 + FirstIndex(data[1..], store)
  }

  function Sum(items: seq<Entry>, f: Entry -> int): int
    decreases |items|
  {
    if items == [] then 0 else Sum(items[..|items| - 1], f) + f(items[|items| - 1])
  }

  function Boxes(e: Entry): int { e.boxes }

  /** 1 for an entry with loose pieces, which travel in one more box. */
  function LooseBox(e: Entry): int { if e.remainder > 0 then 1 else 0 }

  /** What one entry adds to its store's box count. */
  function Contribution(e: Entry): int { e.boxes + (if e.remainder > 0 then 1 else 0) }

  function One(e: Entry): int { 1 }

  /** The box count printed in a store's footer. */
  function BoxCount(items: seq<Entry>): int
  {
    Sum(items, Contribution)
  }

  /** The detail text of an item row: full boxes, then the loose pieces if there are any. */
  function Detail(e: Entry): string
  {
    IntString(e.boxes) + "箱" + if e.remainder > 0 then " +バラ" + IntString(e.remainder) else ""
  }

  /** The footer text of a page. */
  function Footer(total: int): string
  {
    "計 " + IntString(total) + " 箱"
  }

  function LineFor(e: Entry): Line
  {
    Line(e.item, Detail(e))
  }

  function Lines(items: seq<Entry>): seq<Line>
    decreases |items|
  {
    if items == [] then [] else Lines(items[..|items| - 1]) + [LineFor(items[|items| - 1])]
  }

  /** The page for one store. */
  function PageFor(data: seq<Entry>, store: string): Page
  {
    var items := EntriesOf(data, store);
    Page(store, Lines(items), BoxCount(items), Footer(BoxCount(items)))
  }

  function PagesFor(data: seq<Entry>, stores: seq<string>): seq<Page>
    decreases |stores|
  {
    if stores == [] then []
    else PagesFor(data, stores[..|stores| - 1]) + [PageFor(data, stores[|stores| - 1])]
  }

  /** The whole document: one page per store, in first-occurrence order. */
  function LabelPlan(data: seq<Entry>): seq<Page>
  {
    PagesFor(data, Stores(data))
  }

  // ---------------------------------------------------------------------------------
  // The code

  /** The grouping loop: `grouped[entry['store']].append(entry)` over a `defaultdict(list)`.
      `order` is the dictionary's key order, `grouped` its contents. */
  method GroupByStore(data: seq<Entry>) returns (order: seq<string>, grouped: map<string, seq<Entry>>)
    ensures order == Stores(data)
    ensures forall s :: s in grouped <==> s in order
    ensures forall s :: s in grouped ==> grouped[s] == EntriesOf(data, s)
  {
    order, grouped := [], map[];
    for i := 0 to |data|
      invariant order == Stores(data[..i])
      invariant forall s :: s in grouped <==> s in order
      invariant forall s :: s in grouped ==> grouped[s] == EntriesOf(data[..i], s)
    {
      var entry := data[i];
      assert data[..i + 1][..i] == data[..i];
      if entry.store !in grouped {
        // the defaultdict creates the empty list on first access
        AbsentStoreHasNoEntries(data[..i], entry.store);
        order := order + [entry.store];
        grouped := grouped[entry.store := []];
      }
      grouped := grouped[entry.store := grouped[entry.store] + [entry]];
    }
    assert data[..|data|] == data;
  }

  /** The page loop of `create_b5_pdf`: one page per key of the grouping, in key order. */
  method CreateLabelPages(data: seq<Entry>) returns (pages: seq<Page>)
    ensures pages == LabelPlan(data)
  {
    var order, grouped := GroupByStore(data);
    pages := [];
    for i := 0 to |order|
      invariant pages == PagesFor(data, order[..i])
    {
      var store := order[i];
      var lines, storeTotal := StoreRows(grouped[store]);
      assert "計 " + IntString(storeTotal) + " 箱" == Footer(storeTotal);
      pages := pages + [Page(store, lines, storeTotal, "計 " + IntString(storeTotal) + " 箱")];
      PagesForStep(data, order, i);
    }
    assert order[..|order|] == order;
  }

  /** The item loop of one page: a row per item, and `store_total`, starting from 0 for
      every store, grows by each item's full boxes plus one box for loose pieces. */
  method StoreRows(items: seq<Entry>) returns (lines: seq<Line>, storeTotal: int)
    ensures lines == Lines(items)
    ensures storeTotal == BoxCount(items)
  {
    lines, storeTotal := [], 0;
    for j := 0 to |items|
      invariant lines == Lines(items[..j])
      invariant storeTotal == BoxCount(items[..j])
    {
      var item := items[j];
      PrefixStep(items, j);
      var detail := DetailText(item);
      lines := lines + [Line(item.item, detail)];
      storeTotal := storeTotal + item.boxes + (if item.remainder > 0 then 1 else 0);
    }
    assert items[..|items|] == items;
  }

  /** The detail text of one row, assembled as the item loop does it: the full boxes,
      then the loose pieces appended when there are any. */
  method DetailText(item: Entry) returns (detail: string)
    ensures detail == Detail(item)
  {
    detail := IntString(item.boxes) + "箱";
    if item.remainder > 0 {
      ghost var a := detail;
      detail := detail + " +バラ" + IntString(item.remainder);
      assert detail == a + (" +バラ" + IntString(item.remainder));
    }
  }

  lemma PagesForStep(data: seq<Entry>, stores: seq<string>, i: nat)
    requires i < |stores|
    ensures PagesFor(data, stores[..i + 1]) == PagesFor(data, stores[..i]) + [PageFor(data, stores[i])]
  {
    assert stores[..i + 1][..i] == stores[..i];
  }

  /** One more item extends the rows and the box count by that item. */
  lemma PrefixStep(items: seq<Entry>, j: nat)
    requires j < |items|
    ensures Lines(items[..j + 1]) == Lines(items[..j]) + [LineFor(items[j])]
    ensures BoxCount(items[..j + 1]) == BoxCount(items[..j]) + Contribution(items[j])
  {
    assert items[..j + 1][..j] == items[..j];
  }

  // ---------------------------------------------------------------------------------
  // Grouping

  /** A store missing from the key order has an empty group. */
  lemma {:induction false} AbsentStoreHasNoEntries(data: seq<Entry>, store: string)
    requires store !in Stores(data)
    ensures EntriesOf(data, store) == []
    decreases |data|
  {
    if data != [] {
      AbsentStoreHasNoEntries(data[..|data| - 1], store);
    }
  }

  /** The key order lists exactly the stores that occur in the input. */
  lemma {:induction false} StoresAreInputStores(data: seq<Entry>, store: string)
    ensures store in Stores(data) <==> exists j :: 0 <= j < |data| && data[j].store == store
    decreases |data|
  {
    if data != [] {
      var init := data[..|data| - 1];
      StoresAreInputStores(init, store);
      if exists j :: 0 <= j < |init| && init[j].store == store {
        var j :| 0 <= j < |init| && init[j].store == store;
        assert data[j].store == store;
      }
      if exists j :: 0 <= j < |data| && data[j].store == store {
        var j :| 0 <= j < |data| && data[j].store == store;
        if j < |init| { assert init[j].store == store; }
      }
    }
  }

  /** No store gets two pages. */
  lemma {:induction false} StoresDistinct(data: seq<Entry>)
    ensures forall i, j :: 0 <= i < j < |Stores(data)| ==> Stores(data)[i] != Stores(data)[j]
    decreases |data|
  {
    if data != [] {
      StoresDistinct(data[..|data| - 1]);
    }
  }

  lemma FirstIndexSnoc(init: seq<Entry>, e: Entry, store: string)
    ensures FirstIndex(init + [e], store) ==
      if FirstIndex(init, store) < |init| then FirstIndex(init, store)
      else if e.store == store then |init| else |init| + 1
  {
    var d := init + [e];
    assert forall j :: 0 <= j < |init| ==> d[j] == init[j];
    assert d[|init|] == e;
  }

  /** Pages come in the order in which their stores first appear in the input. */
  lemma {:induction false} StoresInFirstOccurrenceOrder(data: seq<Entry>)
    ensures forall i, j :: 0 <= i < j < |Stores(data)| ==>
      FirstIndex(data, Stores(data)[i]) < FirstIndex(data, Stores(data)[j])
    ensures forall i :: 0 <= i < |Stores(data)| ==> FirstIndex(data, Stores(data)[i]) < |data|
    decreases |data|
  {
    if data != [] {
      var init := data[..|data| - 1];
      var e := data[|data| - 1];
      assert data == init + [e];
      StoresInFirstOccurrenceOrder(init);
      var prev := Stores(init);
      forall k | 0 <= k < |prev|
        ensures FirstIndex(data, prev[k]) == FirstIndex(init, prev[k]) < |init|
      {
        FirstIndexSnoc(init, e, prev[k]);
      }
      if e.store !in prev {
        FirstIndexSnoc(init, e, e.store);
        StoresAreInputStores(init, e.store);
        assert FirstIndex(init, e.store) == |init|;
      }
    }
  }

  /** Each entry is counted in the group of its own store, as often as it occurs in the
      input, and in no other group. */
  lemma {:induction false} GroupMultiplicity(data: seq<Entry>, store: string, e: Entry)
    ensures multiset(EntriesOf(data, store))[e] == if e.store == store then multiset(data)[e] else 0
    decreases |data|
  {
    if data != [] {
      var init := data[..|data| - 1];
      GroupMultiplicity(init, store, e);
      assert data == init + [data[|data| - 1]];
    }
  }

  /** A group is the input filtered by store, order kept: its k-th entry is the input entry
      at the k-th position (increasing) whose store matches, and every matching position
      is one of them. */
  lemma {:induction false} GroupIsOrderedFilter(data: seq<Entry>, store: string)
    ensures |Positions(data, store)| == |EntriesOf(data, store)|
    ensures forall k :: 0 <= k < |Positions(data, store)| ==>
      Positions(data, store)[k] < |data| && data[Positions(data, store)[k]] == EntriesOf(data, store)[k]
    ensures forall k :: 0 <= k < |Positions(data, store)| ==> data[Positions(data, store)[k]].store == store
    ensures forall k, l :: 0 <= k < l < |Positions(data, store)| ==> Positions(data, store)[k] < Positions(data, store)[l]
    ensures forall j :: 0 <= j < |data| && data[j].store == store ==> j in Positions(data, store)
    decreases |data|
  {
    if data != [] {
      var init := data[..|data| - 1];
      GroupIsOrderedFilter(init, store);
      var ps := Positions(data, store);
      var es := EntriesOf(data, store);
      forall k | 0 <= k < |Positions(init, store)|
        ensures ps[k] == Positions(init, store)[k] && es[k] == EntriesOf(init, store)[k]
        ensures data[ps[k]] == init[ps[k]]
      {
      }
      forall j | 0 <= j < |data| && data[j].store == store ensures j in ps {
        if j < |init| { assert init[j] == data[j]; }
      }
    }
  }

  // ---------------------------------------------------------------------------------
  // Sums over the grouping

  lemma SumSnoc(items: seq<Entry>, e: Entry, f: Entry -> int)
    ensures Sum(items + [e], f) == Sum(items, f) + f(e)
  {
    assert (items + [e])[..|items|] == items;
  }

  /** Sum of `f` over the groups of the listed stores. */
  function GroupSum(data: seq<Entry>, stores: seq<string>, f: Entry -> int): int
    decreases |stores|
  {
    if stores == [] then 0
    else GroupSum(data, stores[..|stores| - 1], f) + Sum(EntriesOf(data, stores[|stores| - 1]), f)
  }

  /** One more input entry adds its value to its store's group sum and nothing elsewhere. */
  lemma {:induction false} GroupSumSnoc(init: seq<Entry>, e: Entry, stores: seq<string>, f: Entry -> int)
    requires forall i, j :: 0 <= i < j < |stores| ==> stores[i] != stores[j]
    ensures GroupSum(init + [e], stores, f) == GroupSum(init, stores, f) + if e.store in stores then f(e) else 0
    decreases |stores|
  {
    if stores != [] {
      var ks := stores[..|stores| - 1];
      var k := stores[|stores| - 1];
      assert stores == ks + [k];
      GroupSumSnoc(init, e, ks, f);
      GroupSumStep(init + [e], ks, k, f);
      GroupSumStep(init, ks, k, f);
      EntriesOfSnoc(init, e, k);
      if e.store == k {
        SumSnoc(EntriesOf(init, k), e, f);
        assert e.store !in ks;
      } else {
        assert EntriesOf(init, k) + [] == EntriesOf(init, k);
      }
      assert e.store in stores <==> e.store in ks || e.store == k;
    }
  }

  /** The groups partition the input: summing any per-entry value group by group gives
      its sum over the whole input. */
  lemma {:induction false} GroupsPartitionInput(data: seq<Entry>, f: Entry -> int)
    ensures GroupSum(data, Stores(data), f) == Sum(data, f)
    decreases |data|
  {
    if data != [] {
      var init := data[..|data| - 1];
      var e := data[|data| - 1];
      assert data == init + [e];
      GroupsPartitionInput(init, f);
      PartitionStep(init, e, f);
    }
  }

  lemma PartitionStep(init: seq<Entry>, e: Entry, f: Entry -> int)
    requires GroupSum(init, Stores(init), f) == Sum(init, f)
    ensures GroupSum(init + [e], Stores(init + [e]), f) == Sum(init + [e], f)
  {
    StoresDistinct(init);
    GroupSumSnoc(init, e, Stores(init), f);
    SumSnoc(init, e, f);
    StoresSnoc(init, e);
    if e.store !in Stores(init) {
      GroupSumStep(init + [e], Stores(init), e.store, f);
      AbsentStoreHasNoEntries(init, e.store);
      EntriesOfSnoc(init, e, e.store);
      SumSnoc([], e, f);
    }
  }

  lemma StoresSnoc(init: seq<Entry>, e: Entry)
    ensures Stores(init + [e]) == if e.store in Stores(init) then Stores(init) else Stores(init) + [e.store]
  {
    assert (init + [e])[..|init|] == init;
  }

  lemma EntriesOfSnoc(init: seq<Entry>, e: Entry, store: string)
    ensures EntriesOf(init + [e], store) == EntriesOf(init, store) + if e.store == store then [e] else []
  {
    assert (init + [e])[..|init|] == init;
  }

  lemma GroupSumStep(data: seq<Entry>, ks: seq<string>, k: string, f: Entry -> int)
    ensures GroupSum(data, ks + [k], f) == GroupSum(data, ks, f) + Sum(EntriesOf(data, k), f)
  {
    assert (ks + [k])[..|ks|] == ks;
  }

  lemma {:induction false} SumOfOnes(items: seq<Entry>)
    ensures Sum(items, One) == |items|
    decreases |items|
  {
    if items != [] { SumOfOnes(items[..|items| - 1]); }
  }

  // ---------------------------------------------------------------------------------
  // Box counts

  /** The box count is the full boxes plus one box per item with loose pieces, so it lies
      between the full boxes and the full boxes plus the number of items; it equals the
      full boxes exactly when no item has a positive remainder. */
  lemma {:induction false} BoxCountBounds(items: seq<Entry>)
    ensures BoxCount(items) == Sum(items, Boxes) + Sum(items, LooseBox)
    ensures 0 <= Sum(items, LooseBox) <= |items|
    ensures Sum(items, LooseBox) == 0 <==> forall k :: 0 <= k < |items| ==> items[k].remainder <= 0
    decreases |items|
  {
    if items != [] {
      var init := items[..|items| - 1];
      BoxCountBounds(init);
      assert forall k :: 0 <= k < |init| ==> init[k] == items[k];
    }
  }

  /** The sum of the pages' box counts. */
  function TotalOfPages(pages: seq<Page>): int
    decreases |pages|
  {
    if pages == [] then 0 else TotalOfPages(pages[..|pages| - 1]) + pages[|pages| - 1].total
  }

  /** The number of rows on all pages together. */
  function RowsOfPages(pages: seq<Page>): int
    decreases |pages|
  {
    if pages == [] then 0 else RowsOfPages(pages[..|pages| - 1]) + |pages[|pages| - 1].lines|
  }

  lemma {:induction false} LinesLength(items: seq<Entry>)
    ensures |Lines(items)| == |items|
    ensures forall k :: 0 <= k < |items| ==> Lines(items)[k] == LineFor(items[k])
    decreases |items|
  {
    if items != [] {
      var init := items[..|items| - 1];
      var e := items[|items| - 1];
      assert items == init + [e];
      LinesLength(init);
      LinesSnoc(init, e);
      var ls := Lines(items);
      forall k | 0 <= k < |items| ensures ls[k] == LineFor(items[k]) {
        if k < |init| { assert items[k] == init[k]; }
      }
    }
  }

  lemma LinesSnoc(init: seq<Entry>, e: Entry)
    ensures Lines(init + [e]) == Lines(init) + [LineFor(e)]
  {
    assert (init + [e])[..|init|] == init;
  }

  lemma {:induction false} PagesForSums(data: seq<Entry>, stores: seq<string>)
    ensures TotalOfPages(PagesFor(data, stores)) == GroupSum(data, stores, Contribution)
    ensures RowsOfPages(PagesFor(data, stores)) == GroupSum(data, stores, One)
    decreases |stores|
  {
    if stores != [] {
      var ks := stores[..|stores| - 1];
      PagesForSums(data, ks);
      var ps := PagesFor(data, stores);
      assert ps[..|ps| - 1] == PagesFor(data, ks);
      var items := EntriesOf(data, stores[|stores| - 1]);
      LinesLength(items);
      SumOfOnes(items);
    }
  }

  lemma {:induction false} PagesForIndex(data: seq<Entry>, stores: seq<string>)
    ensures |PagesFor(data, stores)| == |stores|
    ensures forall i :: 0 <= i < |stores| ==> PagesFor(data, stores)[i] == PageFor(data, stores[i])
    decreases |stores|
  {
    if stores != [] {
      var ks := stores[..|stores| - 1];
      var k := stores[|stores| - 1];
      assert stores == ks + [k];
      PagesForIndex(data, ks);
      PagesForSnoc(data, ks, k);
      var ps := PagesFor(data, stores);
      forall i | 0 <= i < |stores| ensures ps[i] == PageFor(data, stores[i]) {
        if i < |ks| { assert stores[i] == ks[i]; }
      }
    }
  }

  lemma PagesForSnoc(data: seq<Entry>, ks: seq<string>, k: string)
    ensures PagesFor(data, ks + [k]) == PagesFor(data, ks) + [PageFor(data, k)]
  {
    assert (ks + [k])[..|ks|] == ks;
  }

  // ---------------------------------------------------------------------------------
  // The plan

  /** One page per distinct store of the order, none twice, in first-occurrence order;
      every page lists its own store's entries in input order, one row each, and prints its
      own box count (recomputed from zero for every store) in the footer. */
  lemma PlanPages(data: seq<Entry>)
    ensures |LabelPlan(data)| == |Stores(data)|
    ensures forall i :: 0 <= i < |LabelPlan(data)| ==>
      var page := LabelPlan(data)[i];
      var items := EntriesOf(data, page.store);
      && page.store == Stores(data)[i]
      && |page.lines| == |items|
      && (forall k :: 0 <= k < |items| ==> page.lines[k] == Line(items[k].item, Detail(items[k])))
      && page.total == BoxCount(items)
      && page.footer == Footer(page.total)
    ensures forall i, j :: 0 <= i < j < |LabelPlan(data)| ==>
      LabelPlan(data)[i].store != LabelPlan(data)[j].store &&
      FirstIndex(data, LabelPlan(data)[i].store) < FirstIndex(data, LabelPlan(data)[j].store)
  {
    var stores := Stores(data);
    PagesForIndex(data, stores);
    StoresDistinct(data);
    StoresInFirstOccurrenceOrder(data);
    forall i | 0 <= i < |stores| ensures |LabelPlan(data)[i].lines| == |EntriesOf(data, stores[i])| {
      LinesLength(EntriesOf(data, stores[i]));
    }
    forall i | 0 <= i < |stores|
      ensures forall k :: 0 <= k < |EntriesOf(data, stores[i])| ==>
        LabelPlan(data)[i].lines[k] == Line(EntriesOf(data, stores[i])[k].item, Detail(EntriesOf(data, stores[i])[k]))
    {
      LinesLength(EntriesOf(data, stores[i]));
    }
  }

  /** The pages together hold every order entry once and their footers add up to the
      order's box count. */
  lemma PlanCoversOrder(data: seq<Entry>)
    ensures RowsOfPages(LabelPlan(data)) == |data|
    ensures TotalOfPages(LabelPlan(data)) == BoxCount(data)
  {
    PagesForSums(data, Stores(data));
    GroupsPartitionInput(data, One);
    GroupsPartitionInput(data, Contribution);
    SumOfOnes(data);
  }

  // ---------------------------------------------------------------------------------
  // Label texts

  /** Reads a detail text back: the full boxes, and the loose pieces (0 when none shown). */
  function ReadDetail(d: string): Option<(int, int)>
  {
    var k := FirstBox(d);
    if k == |d| then None
    else
      var tail := d[k + 1..];
      match ParseInt(d[..k])
      case None => None
      case Some(boxes) =>
        if tail == "" then Some((boxes, 0))
        else if |tail| > 4 && tail[..4] == " +バラ" then
          match ParseInt(tail[4..])
          case None => None
          case Some(loose) => Some((boxes, loose))
        else None
  }

  /** Index of the first '箱' in `d`, or `|d|`. */
  function FirstBox(d: string): (k: nat)
    ensures k <= |d| && (k < |d| ==> d[k] == '箱')
    ensures forall j :: 0 <= j < k ==> d[j] != '箱'
    decreases |d|
  {
    if d == [] then 0 else if d[0] == '箱' then 0 else 1 + FirstBox(d[1..])
  }

  lemma FirstBoxAfterNumber(n: int, rest: string)
    ensures FirstBox(IntString(n) + "箱" + rest) == |IntString(n)|
  {
    var d := IntString(n) + "箱" + rest;
    var m := |IntString(n)|;
    IntStringChars(n);
    assert d[m] == '箱';
    forall j | 0 <= j < m ensures d[j] != '箱' {
      assert d[j] == IntString(n)[j];
    }
  }

  /** The detail text shows the full boxes and the loose pieces exactly, and shows loose
      pieces only when the remainder is positive. */
  lemma DetailRoundTrip(e: Entry)
    ensures ReadDetail(Detail(e)) == Some((e.boxes, if e.remainder > 0 then e.remainder else 0))
  {
    var loose := if e.remainder > 0 then " +バラ" + IntString(e.remainder) else "";
    var d := IntString(e.boxes) + "箱" + loose;
    assert Detail(e) == d;
    FirstBoxAfterNumber(e.boxes, loose);
    var k := |IntString(e.boxes)|;
    assert d[..k] == IntString(e.boxes);
    assert d[k + 1..] == loose;
    IntStringRoundTrip(e.boxes);
    if e.remainder > 0 {
      IntStringRoundTrip(e.remainder);
      assert loose[4..] == IntString(e.remainder);
      assert loose[..4] == " +バラ";
    }
  }

  /** The loose part " +バラ…" is appended exactly when the remainder is positive. */
  lemma DetailLoosePart(e: Entry)
    ensures Detail(e) == IntString(e.boxes) + "箱" <==> e.remainder <= 0
  {
    if e.remainder > 0 {
      assert |Detail(e)| > |IntString(e.boxes) + "箱"|;
    }
  }

  /** Reads a footer text back to its box count. */
  function ReadFooter(f: string): Option<int>
  {
    if |f| >= 4 && f[..2] == "計 " && f[|f| - 2..] == " 箱" then ParseInt(f[2..|f| - 2]) else None
  }

  /** The footer shows the page's own box count, and nothing else. */
  lemma FooterRoundTrip(total: int)
    ensures ReadFooter(Footer(total)) == Some(total)
  {
    var f := Footer(total);
    var s := IntString(total);
    assert f[..2] == "計 ";
    assert f[|f| - 2..] == " 箱";
    assert f[2..|f| - 2] == s;
    IntStringRoundTrip(total);
  }
}
