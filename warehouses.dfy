/**
 * The warehouse summary: flat rows (a warehouse, its quantity, and one of
 * its sub-warehouses) are grouped into one record per warehouse, narrowed
 * by a keyword over warehouse and sub-warehouse names, and shown five to
 * a page.
 */
module WarehouseSummary {
  import opened Maybe
  import opened Seqs
  import opened Text
  import opened Pagination
  import opened PageWindow

  /** One row of the summary endpoint. */
  datatype SummaryRow = SummaryRow(
    warehouse: string,
    warehouseQuantity: int,
    subName: Option<string>,
    subQuantity: Option<int>)

  datatype SubSummary = SubSummary(name: string, quantity: int)

  /** `WarehouseDisplay`. */
  datatype WarehouseGroup = WarehouseGroup(
    warehouse: string,
    totalQuantity: int,
    subs: seq<SubSummary>)

  /** The label of a row without a sub-warehouse name. */
  const NoSubName: string := "Không có kho con"

  const ItemsPerPage: nat := 5

  // ---------------------------------------------------------------------
  // Grouping, defined row by row
  // ---------------------------------------------------------------------

  /** The sub entry a row contributes: its name, or the placeholder when
      the name is missing or empty; its quantity, or 0 when missing. */
  function SubOf(row: SummaryRow): (s: SubSummary)
    ensures row.subName.Some? && row.subName.value != "" ==> s.name == row.subName.value
    ensures row.subName.None? || row.subName.value == "" ==> s.name == NoSubName
    ensures s.quantity == if row.subQuantity.Some? then row.subQuantity.value else 0
  {
    var name := if row.subName.Some? && row.subName.value != "" then row.subName.value else NoSubName;
    var quantity := if row.subQuantity.Some? then row.subQuantity.value else 0;
    SubSummary(name, quantity)
  }

  ghost predicate Appears(rows: seq<SummaryRow>, n: string)
  {
    exists i :: 0 <= i < |rows| && rows[i].warehouse == n
  }

  /** The distinct warehouse names in order of first appearance. */
  function Names(rows: seq<SummaryRow>): (ns: seq<string>)
    ensures |ns| <= |rows|
    ensures forall i, j :: 0 <= i < j < |ns| ==> ns[i] != ns[j]
    ensures forall i :: 0 <= i < |rows| ==> rows[i].warehouse in ns
  {
    if rows == [] then []
    else
      var front := rows[..|rows| - 1];
      var last := rows[|rows| - 1];
      var ns := Names(front);
      assert forall i :: 0 <= i < |rows| - 1 ==> rows[i] == front[i];
      if last.warehouse in ns then ns else ns + [last.warehouse]
  }

  /** Every name comes from some row. */
  lemma {:induction false} NamesAppear(rows: seq<SummaryRow>)
    ensures forall k :: 0 <= k < |Names(rows)| ==> Appears(rows, Names(rows)[k])
  {
    if rows != [] {
      var front, x := rows[..|rows| - 1], rows[|rows| - 1];
      assert rows == front + [x];
      NamesAppear(front);
      NamesSnoc(front, x);
      var ns := Names(front);
      forall k | 0 <= k < |Names(rows)|
        ensures Appears(rows, Names(rows)[k])
      {
        if k < |ns| {
          assert Names(rows)[k] == ns[k];
          var i :| 0 <= i < |front| && front[i].warehouse == ns[k];
          assert rows[i] == front[i];
        } else {
          assert Names(rows)[k] == x.warehouse;
          assert rows[|rows| - 1] == x;
        }
      }
    }
  }

  /** The sub entries of the rows named `n`, in row order. */
  function Subs(rows: seq<SummaryRow>, n: string): seq<SubSummary>
  {
    if rows == [] then []
    else
      var last := rows[|rows| - 1];
      Subs(rows[..|rows| - 1], n) + (if last.warehouse == n then [SubOf(last)] else [])
  }

  /** The warehouse quantity of the first row named `n`. */
  function FirstQuantity(rows: seq<SummaryRow>, n: string): (q: int)
    ensures forall i :: (0 <= i < |rows| && rows[i].warehouse == n &&
      (forall j :: 0 <= j < i ==> rows[j].warehouse != n)) ==> q == rows[i].warehouseQuantity
    ensures (forall i :: 0 <= i < |rows| ==> rows[i].warehouse != n) ==> q == 0
  {
    if rows == [] then 0
    else if rows[0].warehouse == n then rows[0].warehouseQuantity
    else
      var q := FirstQuantity(rows[1..], n);
      assert forall i :: 1 <= i < |rows| ==> rows[i] == rows[1..][i - 1];
      q
  }

  /** The group of warehouse `n`. */
  function Group(rows: seq<SummaryRow>, n: string): WarehouseGroup
  {
    WarehouseGroup(n, FirstQuantity(rows, n), Subs(rows, n))
  }

  function GroupsOf(rows: seq<SummaryRow>, ns: seq<string>): (gs: seq<WarehouseGroup>)
    ensures |gs| == |ns|
    ensures forall k :: 0 <= k < |ns| ==> gs[k] == Group(rows, ns[k])
  {
    if ns == [] then [] else [Group(rows, ns[0])] + GroupsOf(rows, ns[1..])
  }

  /** Some group of `gs` carries the name `n`. */
  ghost predicate HasGroup(gs: seq<WarehouseGroup>, n: string)
  {
    exists k :: 0 <= k < |gs| && gs[k].warehouse == n
  }

  /** The grouped records, one per warehouse name, in order of first
      appearance. */
  function Grouped(rows: seq<SummaryRow>): (gs: seq<WarehouseGroup>)
    ensures |gs| <= |rows|
    ensures forall k, l :: 0 <= k < l < |gs| ==> gs[k].warehouse != gs[l].warehouse
    ensures forall i :: 0 <= i < |rows| ==> HasGroup(gs, rows[i].warehouse)
  {
    var ns := Names(rows);
    var gs := GroupsOf(rows, ns);
    assert forall i :: 0 <= i < |rows| ==> HasGroup(gs, rows[i].warehouse) by {
      forall i | 0 <= i < |rows| ensures HasGroup(gs, rows[i].warehouse) {
        var k :| 0 <= k < |ns| && ns[k] == rows[i].warehouse;
        assert gs[k].warehouse == ns[k];
      }
    }
    gs
  }

  // ---------------------------------------------------------------------
  // Facts the loop needs: one more row
  // ---------------------------------------------------------------------

  lemma SubsAbsent(rows: seq<SummaryRow>, n: string)
    requires !Appears(rows, n)
    ensures Subs(rows, n) == []
    decreases |rows|
  {
    if rows != [] {
      var front := rows[..|rows| - 1];
      forall i | 0 <= i < |front|
        ensures front[i].warehouse != n
      {
        assert rows[i] == front[i];
      }
      SubsAbsent(front, n);
    }
  }

  lemma {:induction false} FirstQuantitySnoc(rows: seq<SummaryRow>, x: SummaryRow, n: string)
    ensures FirstQuantity(rows + [x], n) ==
      if Appears(rows, n) then FirstQuantity(rows, n)
      else if x.warehouse == n then x.warehouseQuantity
      else 0
  {
    if rows != [] {
      assert (rows + [x])[0] == rows[0];
      assert (rows + [x])[1..] == rows[1..] + [x];
      FirstQuantitySnoc(rows[1..], x, n);
      if rows[0].warehouse != n {
        assert Appears(rows, n) <==> Appears(rows[1..], n) by {
          if Appears(rows, n) {
            var i :| 0 <= i < |rows| && rows[i].warehouse == n;
            assert rows[1..][i - 1] == rows[i];
          }
          if Appears(rows[1..], n) {
            var i :| 0 <= i < |rows[1..]| && rows[1..][i].warehouse == n;
            assert rows[i + 1] == rows[1..][i];
          }
        }
      } else {
        assert Appears(rows, n) by { assert rows[0].warehouse == n; }
      }
    } else {
      assert [] + [x] == [x];
    }
  }

  /** How one more row changes the group of `n`. */
  lemma GroupSnoc(rows: seq<SummaryRow>, x: SummaryRow, n: string)
    ensures Appears(rows, n) ==>
      Group(rows + [x], n) == Group(rows, n).(subs := Group(rows, n).subs + (if x.warehouse == n then [SubOf(x)] else []))
    ensures !Appears(rows, n) && x.warehouse == n ==>
      Group(rows + [x], n) == WarehouseGroup(n, x.warehouseQuantity, [SubOf(x)])
    ensures !Appears(rows, n) && x.warehouse != n ==> Group(rows + [x], n) == Group(rows, n)
  {
    assert (rows + [x])[..|rows|] == rows;
    FirstQuantitySnoc(rows, x, n);
    if !Appears(rows, n) {
      SubsAbsent(rows, n);
    }
  }

  /** One more row: its name is added at the end when it is new. */
  lemma NamesSnoc(rows: seq<SummaryRow>, x: SummaryRow)
    ensures Names(rows + [x]) == if x.warehouse in Names(rows) then Names(rows) else Names(rows) + [x.warehouse]
  {
    assert (rows + [x])[..|rows|] == rows;
  }

  lemma AppearsIff(rows: seq<SummaryRow>, n: string)
    ensures Appears(rows, n) <==> n in Names(rows)
  {
    if Appears(rows, n) {
      var i :| 0 <= i < |rows| && rows[i].warehouse == n;
    }
    if n in Names(rows) {
      NamesAppear(rows);
      var k :| 0 <= k < |Names(rows)| && Names(rows)[k] == n;
    }
  }

  // ---------------------------------------------------------------------
  // The imperative grouping of `fetchWarehouses`
  // ---------------------------------------------------------------------

  /** The dictionary the `forEach` builds: one entry per warehouse name. */
  ghost function GroupMap(rows: seq<SummaryRow>): map<string, WarehouseGroup>
  {
    map n | n in Names(rows) :: Group(rows, n)
  }

  /** The dictionary and its key order describe the groups of `rows`. */
  ghost predicate Tracks(grouped: map<string, WarehouseGroup>, order: seq<string>, rows: seq<SummaryRow>)
  {
    order == Names(rows) && grouped == GroupMap(rows)
  }

  /** The dictionary after the `forEach` body has handled `item`: a name
      seen for the first time is entered with the row's warehouse quantity
      and no sub-warehouses, then the row's sub-warehouse is appended to
      the name's entry. */
  ghost function Step(g: map<string, WarehouseGroup>, item: SummaryRow): map<string, WarehouseGroup>
  {
    var w := item.warehouse;
    var entered := if w in g then g else g[w := WarehouseGroup(w, item.warehouseQuantity, [])];
    entered[w := entered[w].(subs := entered[w].subs + [SubOf(item)])]
  }

  lemma StepAt(rows: seq<SummaryRow>, item: SummaryRow, n: string)
    requires n in Names(rows + [item])
    ensures n in Step(GroupMap(rows), item)
    ensures Step(GroupMap(rows), item)[n] == Group(rows + [item], n)
  {
    NamesSnoc(rows, item);
    AppearsIff(rows, n);
    GroupSnoc(rows, item, n);
    if n != item.warehouse {
      assert Group(rows, n).subs + [] == Group(rows, n).subs;
    }
  }

  /** Handling one more row turns the dictionary of the earlier rows into
      the dictionary of all of them. */
  lemma GroupMapSnoc(rows: seq<SummaryRow>, item: SummaryRow)
    ensures GroupMap(rows + [item]) == Step(GroupMap(rows), item)
  {
    var g', expected := GroupMap(rows + [item]), Step(GroupMap(rows), item);
    NamesSnoc(rows, item);
    assert g'.Keys == expected.Keys;
    forall n | n in g'
      ensures g'[n] == expected[n]
    {
      StepAt(rows, item, n);
    }
  }

  /** The `forEach` body for one row: a warehouse seen for the first time
      gets an entry with its quantity and no sub-warehouses, then the row's
      sub-warehouse is appended to its entry. */
  method AddRow(grouped: map<string, WarehouseGroup>, order: seq<string>, ghost rows: seq<SummaryRow>,
                item: SummaryRow)
    returns (grouped': map<string, WarehouseGroup>, order': seq<string>)
    requires Tracks(grouped, order, rows)
    ensures Tracks(grouped', order', rows + [item])
  {
    grouped', order' := grouped, order;
    if item.warehouse !in grouped' {
      grouped' := grouped'[item.warehouse := WarehouseGroup(item.warehouse, item.warehouseQuantity, [])];
      order' := order' + [item.warehouse];
    }
    var g := grouped'[item.warehouse];
    grouped' := grouped'[item.warehouse := g.(subs := g.subs + [SubOf(item)])];
    NamesSnoc(rows, item);
    GroupMapSnoc(rows, item);
  }

  /** `rawData.forEach(...)`: fill the `grouped` dictionary, remembering
      the order in which its keys were first added. */
  method BuildGroups(rows: seq<SummaryRow>) returns (grouped: map<string, WarehouseGroup>, order: seq<string>)
    ensures Tracks(grouped, order, rows)
  {
    grouped := map[];
    order := [];
    var i := 0;
    ghost var done: seq<SummaryRow> := [];
    while i < |rows|
      invariant 0 <= i <= |rows| && done == rows[..i]
      invariant Tracks(grouped, order, done)
    {
      grouped, order := AddRow(grouped, order, done, rows[i]);
      done := done + [rows[i]];
      i := i + 1;
    }
    assert done == rows;
  }

  /** The grouping of `fetchWarehouses`: build the dictionary, then
      `Object.values(grouped)` in insertion order. */
  method GroupRows(rows: seq<SummaryRow>) returns (groups: seq<WarehouseGroup>)
    ensures groups == Grouped(rows)
  {
    var grouped, order := BuildGroups(rows);
    groups := seq(|order|, k requires 0 <= k < |order| => grouped[order[k]]);
    TracksValues(grouped, order, rows, groups);
  }

  /** Reading the dictionary in key order gives the groups. */
  lemma TracksValues(grouped: map<string, WarehouseGroup>, order: seq<string>, rows: seq<SummaryRow>,
                     groups: seq<WarehouseGroup>)
    requires Tracks(grouped, order, rows)
    requires |groups| == |order|
    requires forall k :: 0 <= k < |order| ==> order[k] in grouped && groups[k] == grouped[order[k]]
    ensures groups == Grouped(rows)
  {
  }

  // ---------------------------------------------------------------------
  // What the grouping guarantees
  // ---------------------------------------------------------------------

  function SubCount(gs: seq<WarehouseGroup>): nat
  {
    if gs == [] then 0 else |gs[0].subs| + SubCount(gs[1..])
  }

  lemma {:induction false} SubCountSnoc(rows: seq<SummaryRow>, x: SummaryRow, ns: seq<string>)
    requires forall i, j :: 0 <= i < j < |ns| ==> ns[i] != ns[j]
    ensures SubCount(GroupsOf(rows + [x], ns)) == SubCount(GroupsOf(rows, ns)) + (if x.warehouse in ns then 1 else 0)
  {
    if ns != [] {
      SubCountSnoc(rows, x, ns[1..]);
      assert (rows + [x])[..|rows|] == rows;
      assert x.warehouse in ns <==> x.warehouse == ns[0] || x.warehouse in ns[1..];
    }
  }

  lemma {:induction false} SubCountAppend(rows: seq<SummaryRow>, ns: seq<string>, n: string)
    ensures SubCount(GroupsOf(rows, ns + [n])) == SubCount(GroupsOf(rows, ns)) + |Subs(rows, n)|
  {
    if ns == [] {
      assert ns + [n] == [n];
    } else {
      assert (ns + [n])[0] == ns[0];
      assert (ns + [n])[1..] == ns[1..] + [n];
      SubCountAppend(rows, ns[1..], n);
    }
  }

  /** Every row gives exactly one sub entry: the groups hold as many sub
      entries as there are rows. */
  lemma {:induction false} SubCountIsRowCount(rows: seq<SummaryRow>)
    ensures SubCount(Grouped(rows)) == |rows|
  {
    if rows != [] {
      var front := rows[..|rows| - 1];
      var x := rows[|rows| - 1];
      assert rows == front + [x];
      SubCountIsRowCount(front);
      NamesSnoc(front, x);
      var ns := Names(front);
      SubCountSnoc(front, x, ns);
      if x.warehouse !in ns {
        SubCountAppend(rows, ns, x.warehouse);
        AppearsIff(front, x.warehouse);
        SubsAbsent(front, x.warehouse);
        assert Subs(rows, x.warehouse) == [SubOf(x)];
      }
    }
  }

  /** Each group carries its own name, the quantity of the first row with
      that name (later rows do not change it), and one sub entry per row
      with that name, in row order. */
  lemma GroupedFacts(rows: seq<SummaryRow>)
    ensures forall k :: 0 <= k < |Grouped(rows)| ==>
      Grouped(rows)[k].warehouse == Names(rows)[k]
      && Grouped(rows)[k].subs == Subs(rows, Names(rows)[k])
    ensures forall i :: 0 <= i < |rows| && (forall j :: 0 <= j < i ==> rows[j].warehouse != rows[i].warehouse) ==>
      exists k :: (0 <= k < |Grouped(rows)| && Grouped(rows)[k] == Group(rows, rows[i].warehouse)
        && Grouped(rows)[k].totalQuantity == rows[i].warehouseQuantity)
  {
    var ns := Names(rows);
    var gs := GroupsOf(rows, ns);
    forall i | 0 <= i < |rows| && (forall j :: 0 <= j < i ==> rows[j].warehouse != rows[i].warehouse)
      ensures exists k :: (0 <= k < |gs| && gs[k] == Group(rows, rows[i].warehouse)
        && gs[k].totalQuantity == rows[i].warehouseQuantity)
    {
      var n := rows[i].warehouse;
      assert FirstQuantity(rows, n) == rows[i].warehouseQuantity;
      var k :| 0 <= k < |ns| && ns[k] == n;
      assert gs[k] == Group(rows, n);
    }
  }

  /** The names come in order of first appearance: every row of a later
      group comes after some row of each earlier group. */
  lemma {:induction false} NamesInFirstAppearanceOrder(rows: seq<SummaryRow>, k: int, l: int, j: int)
    requires 0 <= k < l < |Names(rows)|
    requires 0 <= j < |rows| && rows[j].warehouse == Names(rows)[l]
    ensures exists i :: 0 <= i < j && rows[i].warehouse == Names(rows)[k]
  {
    var front, x := rows[..|rows| - 1], rows[|rows| - 1];
    assert rows == front + [x];
    EarlierName(front, x, k, l);
    var name := Names(front)[k];
    assert Names(rows)[k] == name;
    var i;
    if j < |front| {
      assert front[j] == rows[j];
      SameIndex(front, x, l, j);
      NamesInFirstAppearanceOrder(front, k, l, j);
      i :| 0 <= i < j && front[i].warehouse == name;
    } else {
      NamesAppear(front);
      i :| 0 <= i < |front| && front[i].warehouse == name;
    }
    assert rows[i] == front[i];
  }

  /** A name before another one was already a name of the earlier rows. */
  lemma EarlierName(front: seq<SummaryRow>, x: SummaryRow, k: int, l: int)
    requires 0 <= k < l < |Names(front + [x])|
    ensures k < |Names(front)| && Names(front + [x])[k] == Names(front)[k]
  {
    NamesSnoc(front, x);
  }

  /** The name of an earlier row keeps its place when a row is added. */
  lemma SameIndex(front: seq<SummaryRow>, x: SummaryRow, l: int, j: int)
    requires 0 <= j < |front| && 0 <= l < |Names(front + [x])|
    requires front[j].warehouse == Names(front + [x])[l]
    ensures l < |Names(front)| && front[j].warehouse == Names(front)[l]
  {
    var ns, all := Names(front), Names(front + [x]);
    NamesSnoc(front, x);
    var l' :| 0 <= l' < |ns| && ns[l'] == front[j].warehouse;
    assert all[l'] == ns[l'];
  }

  // ---------------------------------------------------------------------
  // The keyword filter
  // ---------------------------------------------------------------------

  /** The group with only the sub entries whose lower-cased name contains
      the keyword. */
  function Narrow(g: WarehouseGroup, keyword: string): (r: WarehouseGroup)
    ensures r.warehouse == g.warehouse && r.totalQuantity == g.totalQuantity
    ensures |r.subs| <= |g.subs|
  {
    g.(subs := Filter(g.subs, (s: SubSummary) => Includes(Lower(s.name), keyword)))
  }

  function NarrowAll(gs: seq<WarehouseGroup>, keyword: string): (r: seq<WarehouseGroup>)
    ensures |r| == |gs|
    ensures forall i :: 0 <= i < |gs| ==> r[i] == Narrow(gs[i], keyword)
  {
    seq(|gs|, i requires 0 <= i < |gs| => Narrow(gs[i], keyword))
  }

  /** A narrowed group stays when its name contains the keyword or some
      sub entry survived. */
  predicate Kept(g: WarehouseGroup, keyword: string)
  {
    Includes(Lower(g.warehouse), keyword) || |g.subs| > 0
  }

  function KeptOf(keyword: string): WarehouseGroup -> bool
  {
    (g: WarehouseGroup) => Kept(g, keyword)
  }

  /** The search, once the trimmed text is not empty: narrow every group
      by the lower-cased (untrimmed) text and keep those that still
      qualify. */
  function KeywordFilter(gs: seq<WarehouseGroup>, search: string): (r: seq<WarehouseGroup>)
    ensures |r| <= |gs|
  {
    if Trim(search) == "" then gs
    else
      var keyword := Lower(search);
      Filter(NarrowAll(gs, keyword), KeptOf(keyword))
  }

  /** A blank search keeps the groups as they are; any other search keeps,
      in order, exactly the narrowed groups that qualify, each as often as
      it occurs among the narrowed groups. */
  lemma KeywordFilterFacts(gs: seq<WarehouseGroup>, search: string)
    ensures AllSpace(search) ==> KeywordFilter(gs, search) == gs
    ensures !AllSpace(search) ==>
      IsSubsequence(KeywordFilter(gs, search), NarrowAll(gs, Lower(search)))
    ensures !AllSpace(search) ==> forall i :: 0 <= i < |gs| ==>
      (Narrow(gs[i], Lower(search)) in KeywordFilter(gs, search) <==> Kept(Narrow(gs[i], Lower(search)), Lower(search)))
    ensures !AllSpace(search) ==> forall g ::
      multiset(KeywordFilter(gs, search))[g] ==
        if Kept(g, Lower(search)) then multiset(NarrowAll(gs, Lower(search)))[g] else 0
    ensures !AllSpace(search) ==> forall k :: 0 <= k < |KeywordFilter(gs, search)| ==>
      exists i :: 0 <= i < |gs| && KeywordFilter(gs, search)[k] == Narrow(gs[i], Lower(search))
  {
    TrimEmptyIff(search);
    if !AllSpace(search) {
      var keyword := Lower(search);
      var all := NarrowAll(gs, keyword);
      var r := KeywordFilter(gs, search);
      assert r == Filter(all, KeptOf(keyword));
      FilterKeeps(all, KeptOf(keyword));
      forall k | 0 <= k < |r|
        ensures exists i :: 0 <= i < |gs| && r[k] == Narrow(gs[i], keyword)
      {
        var i :| 0 <= i < |all| && r[k] == all[i];
      }
    }
  }

  /** Narrowing keeps exactly the sub entries whose name matches, each as
      many times as the group has it. */
  lemma NarrowFacts(g: WarehouseGroup, keyword: string)
    ensures Narrow(g, keyword).warehouse == g.warehouse
    ensures Narrow(g, keyword).totalQuantity == g.totalQuantity
    ensures IsSubsequence(Narrow(g, keyword).subs, g.subs)
    ensures forall i :: 0 <= i < |g.subs| ==>
      (g.subs[i] in Narrow(g, keyword).subs <==> Includes(Lower(g.subs[i].name), keyword))
    ensures forall e ::
      multiset(Narrow(g, keyword).subs)[e] == if Includes(Lower(e.name), keyword) then multiset(g.subs)[e] else 0
  {
    FilterKeeps(g.subs, (s: SubSummary) => Includes(Lower(s.name), keyword));
  }

  // ---------------------------------------------------------------------
  // The page
  // ---------------------------------------------------------------------

  class WarehousePage {
    var warehouses: seq<WarehouseGroup>
    var search: string
    /** The search text once it has been left alone for 400 ms. */
    var debouncedSearch: string
    var currentPage: int
    var failed: bool

    constructor()
      ensures warehouses == [] && search == "" && debouncedSearch == "" && currentPage == 1 && !failed
    {
      warehouses := [];
      search := "";
      debouncedSearch := "";
      currentPage := 1;
      failed := false;
    }

    function PageCount(): nat
      reads this
    {
      TotalPages(|warehouses|, ItemsPerPage)
    }

    function CurrentWarehouses(): (r: seq<WarehouseGroup>)
      reads this
      ensures |r| <= ItemsPerPage
      ensures r == JsSlice(warehouses, currentPage * ItemsPerPage - ItemsPerPage, currentPage * ItemsPerPage)
    {
      PageSlice(warehouses, currentPage, ItemsPerPage)
    }

    predicate ShowControls()
      reads this
    {
      PageCount() > 1
    }

    method PageNumbers() returns (w: seq<PageItem>)
      ensures WellFormed(w, PageCount())
      ensures forall p :: Shows(w, p) <==> 1 <= p <= PageCount() && EdgePairShown(currentPage, PageCount(), p)
      ensures PageCount() <= 5 ==> w == Run(1, PageCount())
    {
      w := EdgePairWindow(currentPage, PageCount());
    }

    method SetSearch(s: string)
      modifies this
      ensures search == s
      ensures warehouses == old(warehouses) && debouncedSearch == old(debouncedSearch)
      ensures currentPage == old(currentPage) && failed == old(failed)
    {
      search := s;
    }

    /** The debounce timer fires: the search text becomes the one the next
        fetch uses. */
    method Settle()
      modifies this
      ensures debouncedSearch == search
      ensures warehouses == old(warehouses) && search == old(search)
      ensures currentPage == old(currentPage) && failed == old(failed)
    {
      debouncedSearch := search;
    }

    /** `fetchWarehouses`: on success the rows are grouped, filtered by the
        settled search, and shown from page 1; on failure only the error is
        set. */
    method Fetch(response: Option<seq<SummaryRow>>)
      modifies this
      ensures response.Some? ==>
        warehouses == KeywordFilter(Grouped(response.value), debouncedSearch) && currentPage == 1 && !failed
      ensures response.None? ==>
        warehouses == old(warehouses) && currentPage == old(currentPage) && failed
      ensures search == old(search) && debouncedSearch == old(debouncedSearch)
    {
      if response.Some? {
        var groups := GroupRows(response.value);
        warehouses := KeywordFilter(groups, debouncedSearch);
        currentPage := 1;
        failed := false;
      } else {
        failed := true;
      }
    }

    method PreviousPage()
      modifies this
      ensures currentPage == Previous(old(currentPage))
      ensures warehouses == old(warehouses) && search == old(search)
      ensures debouncedSearch == old(debouncedSearch) && failed == old(failed)
    {
      currentPage := Previous(currentPage);
    }

    method NextPage()
      modifies this
      ensures currentPage == Next(old(currentPage), old(PageCount()))
      ensures warehouses == old(warehouses) && search == old(search)
      ensures debouncedSearch == old(debouncedSearch) && failed == old(failed)
    {
      currentPage := Next(currentPage, PageCount());
    }

    method SelectPage(p: int)
      modifies this
      ensures currentPage == p
      ensures warehouses == old(warehouses) && search == old(search)
      ensures debouncedSearch == old(debouncedSearch) && failed == old(failed)
    {
      currentPage := p;
    }
  }
}
