/**
 * The sales reports of a business: the delivered-order listing with its date
 * and order-code filters, the `stats` aggregates over it, and the dashboard
 * (summary, top products and the per-period chart). Nothing here changes the
 * tables. The clock enters as `now`, calendar truncation (day, week, month,
 * year) as a function from a timestamp to its period, and a query parameter
 * that is absent or empty as `None` (or the empty code). The dashboard's sums
 * count every order once.
 */
module Reports {
  import opened Wrappers
  import opened Schema
  import opened Sorting
  import opened Text
  import opened Aggregates

  /** The orders under `keys` that `keep` accepts, in key order. */
  function Selected(orders: map<Id, OrderRow>, keys: seq<Id>, keep: OrderRow -> bool): (r: seq<OrderRow>)
    requires forall k :: k in keys ==> k in orders
    ensures forall o :: o in r <==> exists k :: k in keys && orders[k] == o && keep(o)
    ensures |r| <= |keys|
  {
    if keys == [] then []
    else
      assert forall k :: k in keys <==> k == keys[0] || k in keys[1..];
      (if keep(orders[keys[0]]) then [orders[keys[0]]] else []) + Selected(orders, keys[1..], keep)
  }

  // ----- The report listing -----

  /** `from_date`, `to_date` and `order_code`; "" stands for an absent order code. */
  datatype ReportFilter = ReportFilter(fromDate: Option<int>, toDate: Option<int>, orderCode: string)

  /**
   * An order is reported when it is the business's and delivered, its
   * delivery date lies within each bound given (an order without a delivery
   * date fails every bound), and its code contains the requested code in any
   * letter case.
   */
  predicate InReport(o: OrderRow, business: Id, f: ReportFilter)
  {
    && o.business == business && o.status == Delivered
    && (f.fromDate.Some? ==> o.deliveryDate.Some? && o.deliveryDate.value >= f.fromDate.value)
    && (f.toDate.Some? ==> o.deliveryDate.Some? && o.deliveryDate.value <= f.toDate.value)
    && (f.orderCode != "" ==> ContainsIgnoreCase(o.orderCode, f.orderCode))
  }

  /** The ordering key of `order_by('-delivery_date')`. */
  function DeliveryKey(o: OrderRow): Option<real>
  {
    if o.deliveryDate.Some? then Some(o.deliveryDate.value as real) else None
  }

  function ReportRows(orders: map<Id, OrderRow>, business: Id, f: ReportFilter): seq<OrderRow>
  {
    Selected(orders, SortedIds(orders.Keys), o => InReport(o, business, f))
  }

  /** `ReportViewSet.get_queryset`: the reported orders, latest delivery first. */
  function ReportQueryset(orders: map<Id, OrderRow>, business: Id, f: ReportFilter): (r: seq<OrderRow>)
    ensures SortedDesc(r, DeliveryKey)
    ensures forall o :: o in r <==> exists k :: k in orders && orders[k] == o && InReport(o, business, f)
    ensures multiset(r) == multiset(ReportRows(orders, business, f))
  {
    var rows := ReportRows(orders, business, f);
    SortDescMembers(rows, DeliveryKey);
    SortDesc(rows, DeliveryKey)
  }

  lemma {:induction false} SelectedAgree(orders: map<Id, OrderRow>, keys: seq<Id>, keep: OrderRow -> bool, keep': OrderRow -> bool)
    requires forall k :: k in keys ==> k in orders
    requires forall k :: k in keys ==> keep(orders[k]) == keep'(orders[k])
    ensures Selected(orders, keys, keep) == Selected(orders, keys, keep')
  {
    if keys != [] {
      SelectedAgree(orders, keys[1..], keep, keep');
    }
  }

  lemma LowerUpper(c: char)
    ensures Lower(Upper(c)) == Lower(c)
  {
  }

  /** The order-code filter ignores letter case: an upper-cased code gives the same listing. */
  lemma CodeFilterIgnoresCase(orders: map<Id, OrderRow>, business: Id, f: ReportFilter)
    ensures ReportQueryset(orders, business, f.(orderCode := UpperString(f.orderCode)))
         == ReportQueryset(orders, business, f)
  {
    var g := f.(orderCode := UpperString(f.orderCode));
    assert LowerString(g.orderCode) == LowerString(f.orderCode) by {
      forall i | 0 <= i < |f.orderCode| ensures LowerString(g.orderCode)[i] == LowerString(f.orderCode)[i] {
        LowerUpper(f.orderCode[i]);
      }
    }
    forall o ensures InReport(o, business, g) == InReport(o, business, f) {
      assert ContainsIgnoreCase(o.orderCode, g.orderCode) == ContainsIgnoreCase(o.orderCode, f.orderCode);
    }
    SelectedAgree(orders, SortedIds(orders.Keys), o => InReport(o, business, g), o => InReport(o, business, f));
  }

  // ----- Product groups: `values('product__name').annotate(Sum(...))` -----

  /** What one item contributes to its product name's group. */
  datatype Line = Line(name: string, quantity: real, revenue: real)

  /** Every item has its product (the foreign key holds). */
  predicate ProductsKnown(items: seq<ItemRow>, products: map<Id, ProductRow>)
  {
    forall it :: it in items ==> it.product in products
  }

  function LineOf(it: ItemRow, products: map<Id, ProductRow>): Line
    requires it.product in products
  {
    Line(products[it.product].name, it.quantity, it.price as real * it.quantity)
  }

  /** The lines of the items whose order is among `ids` (`order__in=...`), in item order. */
  function Lines(items: seq<ItemRow>, products: map<Id, ProductRow>, ids: set<Id>): (r: seq<Line>)
    requires ProductsKnown(items, products)
    ensures forall l :: l in r <==> exists it :: it in items && it.order in ids && l == LineOf(it, products)
  {
    if items == [] then []
    else
      assert forall it :: it in items <==> it == items[0] || it in items[1..];
      (if items[0].order in ids then [LineOf(items[0], products)] else []) + Lines(items[1..], products, ids)
  }

  /** There are no lines exactly when no item belongs to the chosen orders. */
  lemma {:induction false} LinesEmpty(items: seq<ItemRow>, products: map<Id, ProductRow>, ids: set<Id>)
    requires ProductsKnown(items, products)
    ensures Lines(items, products, ids) == [] <==> forall it :: it in items ==> it.order !in ids
  {
    if items != [] {
      LinesEmpty(items[1..], products, ids);
      assert forall it :: it in items <==> it == items[0] || it in items[1..];
    }
  }

  /** The summed quantity of the lines with this name. */
  function QuantityOf(lines: seq<Line>, name: string): real
  {
    if lines == [] then 0.0
    else (if lines[0].name == name then lines[0].quantity else 0.0) + QuantityOf(lines[1..], name)
  }

  /** The summed revenue (price * quantity) of the lines with this name. */
  function RevenueOf(lines: seq<Line>, name: string): real
  {
    if lines == [] then 0.0
    else (if lines[0].name == name then lines[0].revenue else 0.0) + RevenueOf(lines[1..], name)
  }

  /** The product names of the lines, once each. */
  function Names(lines: seq<Line>): (r: seq<string>)
    ensures NoDuplicates(r)
    ensures forall n :: n in r <==> exists l :: l in lines && l.name == n
  {
    var all := seq(|lines|, i requires 0 <= i < |lines| => lines[i].name);
    forall n ensures n in all <==> exists l :: l in lines && l.name == n {
      if n in all {
        var i :| 0 <= i < |all| && all[i] == n;
        assert lines[i] in lines;
      }
      if exists l :: l in lines && l.name == n {
        var l :| l in lines && l.name == n;
        var i :| 0 <= i < |lines| && lines[i] == l;
        assert all[i] == n;
      }
    }
    Distinct(all)
  }

  datatype Group = Group(name: string, quantity: real, revenue: real)

  function GroupOf(lines: seq<Line>, name: string): Group
  {
    Group(name, QuantityOf(lines, name), RevenueOf(lines, name))
  }

  function GroupKey(g: Group): Option<real>
  {
    Some(g.quantity)
  }

  /** One group per product name, in order of first appearance. */
  function GroupsOf(lines: seq<Line>): (g: seq<Group>)
    ensures |g| == |Names(lines)|
  {
    var names := Names(lines);
    seq(|names|, i requires 0 <= i < |names| => GroupOf(lines, names[i]))
  }

  /** Each name that occurs has its group, and no name has two. */
  lemma GroupsOfMembers(lines: seq<Line>)
    ensures forall g :: g in GroupsOf(lines) <==> exists l :: l in lines && g == GroupOf(lines, l.name)
    ensures NoDuplicates(GroupsOf(lines))
  {
    var names := Names(lines);
    var groups := GroupsOf(lines);
    forall g ensures g in groups <==> exists l :: l in lines && g == GroupOf(lines, l.name) {
      if g in groups {
        var i :| 0 <= i < |groups| && groups[i] == g;
        assert names[i] in names;
      }
      if exists l :: l in lines && g == GroupOf(lines, l.name) {
        var l :| l in lines && g == GroupOf(lines, l.name);
        assert l.name in names;
        var i :| 0 <= i < |names| && names[i] == l.name;
        assert groups[i] == g;
      }
    }
    forall i, j | 0 <= i < j < |groups| ensures groups[i] != groups[j] {
      assert groups[i].name == names[i] && groups[j].name == names[j];
    }
  }

  /** The groups, largest quantity first (`order_by('-total_quantity')`). */
  function Ranked(lines: seq<Line>): seq<Group>
  {
    SortDesc(GroupsOf(lines), GroupKey)
  }

  /**
   * The ranking holds exactly the groups of the names that occur, each once,
   * with larger quantities first.
   */
  lemma RankedGroups(lines: seq<Line>)
    ensures SortedDesc(Ranked(lines), GroupKey)
    ensures forall g :: g in Ranked(lines) <==> exists l :: l in lines && g == GroupOf(lines, l.name)
    ensures forall i, j :: 0 <= i < j < |Ranked(lines)| ==> Ranked(lines)[i].name != Ranked(lines)[j].name
    ensures |Ranked(lines)| == |Names(lines)|
    ensures Ranked(lines) == [] <==> lines == []
  {
    var groups := GroupsOf(lines);
    var r := Ranked(lines);
    SortDescMembers(groups, GroupKey);
    GroupsOfMembers(lines);
    PermutationKeepsNoDuplicates(groups, r);
    forall i, j | 0 <= i < j < |r| ensures r[i].name != r[j].name {
      assert r[i] in groups && r[j] in groups;
    }
    if lines != [] {
      assert lines[0].name in Names(lines);
    }
  }

  /** A name that occurs ranks no higher than its quantity allows: every earlier group has at least its quantity. */
  lemma RankedAbove(lines: seq<Line>, l: Line, i: int)
    requires l in lines && 0 <= i < |Ranked(lines)|
    ensures Ranked(lines)[i].name == l.name || Ranked(lines)[i].quantity >= QuantityOf(lines, l.name)
            || exists j :: 0 <= j < i && Ranked(lines)[j].name == l.name
  {
    var r := Ranked(lines);
    RankedGroups(lines);
    var g := GroupOf(lines, l.name);
    assert g in r;
    var k :| 0 <= k < |r| && r[k] == g;
    if i < k {
      assert AtLeast(GroupKey(r[i]), GroupKey(r[k]));
    } else if k < i {
      assert r[k].name == l.name;
    }
  }

  // ----- stats -----

  function Amount(o: OrderRow): real
  {
    o.totalAmount
  }

  datatype TopProductInfo = TopProductInfo(name: Option<string>, quantity: real)
  datatype ReportStats = ReportStats(totalSales: real, averageOrderValue: real, totalOrders: nat, topProduct: TopProductInfo)

  /** The keys of the reported orders. */
  function ReportIds(orders: map<Id, OrderRow>, business: Id, f: ReportFilter): set<Id>
  {
    set k | k in orders && InReport(orders[k], business, f)
  }

  /** The best-selling name and its quantity, or no name and 0 when there are no lines. */
  function TopProduct(lines: seq<Line>): (top: TopProductInfo)
    ensures top.name.None? <==> lines == []
    ensures top.name.None? ==> top.quantity == 0.0
    ensures top.name.Some? ==> top.quantity == QuantityOf(lines, top.name.value)
                               && exists l :: l in lines && l.name == top.name.value
  {
    var ranked := Ranked(lines);
    RankedGroups(lines);
    if ranked == [] then TopProductInfo(None, 0.0)
    else
      assert ranked[0] in ranked;
      TopProductInfo(Some(ranked[0].name), ranked[0].quantity)
  }

  /** No name that occurs has a larger summed quantity than the top product. */
  lemma TopProductIsLargest(lines: seq<Line>)
    ensures forall l :: l in lines ==> QuantityOf(lines, l.name) <= TopProduct(lines).quantity
  {
    forall l | l in lines ensures QuantityOf(lines, l.name) <= TopProduct(lines).quantity {
      RankedGroups(lines);
      RankedAbove(lines, l, 0);
    }
  }

  /** The mean of the totals, 0 when there are none. */
  function Average(total: real, count: nat): (avg: real)
    ensures count == 0 ==> avg == 0.0
    ensures count > 0 ==> avg * count as real == total
  {
    if count == 0 then 0.0 else total / count as real
  }

  /** `stats`: sum, mean and count of the reported orders, and the best-selling product name among their items. */
  function Stats(t: Tables, business: Id, f: ReportFilter): (s: ReportStats)
    requires ProductsKnown(t.items, t.products)
    ensures s.totalOrders == 0 ==> s.totalSales == 0.0 && s.averageOrderValue == 0.0
    ensures s.averageOrderValue == Average(s.totalSales, s.totalOrders)
    ensures s.totalOrders == |ReportRows(t.orders, business, f)|
    ensures s.totalSales == Total(ReportRows(t.orders, business, f), Amount)
  {
    var q := ReportQueryset(t.orders, business, f);
    var total := Total(q, Amount);
    TotalPermutation(q, ReportRows(t.orders, business, f), Amount);
    ReportStats(total, Average(total, |q|), |q|, TopProduct(Lines(t.items, t.products, ReportIds(t.orders, business, f))))
  }

  /**
   * The top product of `stats` is absent exactly when no item belongs to a
   * reported order; otherwise it is the name of such an item, its quantity is
   * that name's summed quantity, and no other item's name sums to more.
   */
  lemma StatsTopProduct(t: Tables, business: Id, f: ReportFilter)
    requires ProductsKnown(t.items, t.products)
    ensures var top := Stats(t, business, f).topProduct;
            var ids := ReportIds(t.orders, business, f);
            var lines := Lines(t.items, t.products, ids);
            && (top.name.None? <==> forall it :: it in t.items ==> it.order !in ids)
            && (top.name.None? ==> top.quantity == 0.0)
            && (top.name.Some? ==> exists it :: it in t.items && it.order in ids && t.products[it.product].name == top.name.value)
            && (top.name.Some? ==> top.quantity == QuantityOf(lines, top.name.value))
            && forall it :: it in t.items && it.order in ids ==> QuantityOf(lines, t.products[it.product].name) <= top.quantity
  {
    var ids := ReportIds(t.orders, business, f);
    var lines := Lines(t.items, t.products, ids);
    LinesEmpty(t.items, t.products, ids);
    TopProductIsLargest(lines);
    forall it | it in t.items && it.order in ids
      ensures QuantityOf(lines, t.products[it.product].name) <= TopProduct(lines).quantity
    {
      assert LineOf(it, t.products) in lines;
    }
  }

  /** Without any reported order the statistics are all zero and there is no top product. */
  lemma StatsEmpty(t: Tables, business: Id, f: ReportFilter)
    requires ProductsKnown(t.items, t.products)
    requires forall k :: k in t.orders ==> !InReport(t.orders[k], business, f)
    ensures Stats(t, business, f) == ReportStats(0.0, 0.0, 0, TopProductInfo(None, 0.0))
  {
    var rows := ReportRows(t.orders, business, f);
    NoMembersEmpty(rows);
    var ids := ReportIds(t.orders, business, f);
    assert ids == {};
    LinesEmpty(t.items, t.products, ids);
  }

  lemma NoMembersEmpty<T>(s: seq<T>)
    ensures (forall x :: x !in s) ==> s == []
  {
    if s != [] {
      assert s[0] in s;
    }
  }

  // ----- The dashboard -----

  datatype Bucket = ByDay | ByWeek | ByMonth | ByYear

  /** How far back the dashboard looks and how it buckets the chart. */
  datatype Window = Window(days: nat, bucket: Bucket)

  const DaySeconds: int := 24 * 60 * 60

  /** The `timeframe` parameter, "monthly" when absent. */
  function Timeframe(param: Option<string>): string
  {
    if param.Some? then param.value else "monthly"
  }

  /** The window of a timeframe: daily, weekly and yearly by name, every other value monthly. */
  function WindowOf(timeframe: string): (w: Window)
    ensures w.bucket == ByDay <==> timeframe == "daily"
    ensures w.bucket == ByWeek <==> timeframe == "weekly"
    ensures w.bucket == ByYear <==> timeframe == "yearly"
    ensures w.days == match w.bucket
                      case ByDay => 7
                      case ByWeek => 4 * 7
                      case ByMonth => 180
                      case ByYear => 5 * 365
  {
    if timeframe == "daily" then Window(7, ByDay)
    else if timeframe == "weekly" then Window(4 * 7, ByWeek)
    else if timeframe == "yearly" then Window(365 * 5, ByYear)
    else Window(180, ByMonth)
  }

  /** Coarser buckets look further back. */
  lemma WindowsWiden()
    ensures WindowOf("daily").days < WindowOf("weekly").days < WindowOf("monthly").days < WindowOf("yearly").days
    ensures WindowOf(Timeframe(None)) == WindowOf("monthly")
  {
  }

  /** The dashboard counts the business's open and delivered orders created at or after the window's start. */
  predicate InDashboard(o: OrderRow, business: Id, start: int)
  {
    o.business == business && o.createdAt >= start && (o.status == Open || o.status == Delivered)
  }

  /** What one order contributes to the summary and to its period's chart point. */
  datatype Entry = Entry(period: int, sales: real, cost: real, itemCount: nat)

  function ItemCost(it: ItemRow): real
  {
    it.cost as real * it.quantity
  }

  function EntryOf(o: OrderRow, items: seq<ItemRow>, period: int -> int): Entry
  {
    var own := ItemsOf(items, o.id);
    Entry(period(o.createdAt), o.totalAmount, Total(own, ItemCost), |own|)
  }

  function Entries(rows: seq<OrderRow>, items: seq<ItemRow>, period: int -> int): (r: seq<Entry>)
    ensures |r| == |rows|
  {
    seq(|rows|, i requires 0 <= i < |rows| => EntryOf(rows[i], items, period))
  }

  function Sales(e: Entry): real { e.sales }
  function Cost(e: Entry): real { e.cost }
  function Profit(e: Entry): real { e.sales - e.cost }

  datatype Summary = Summary(totalSales: real, totalProfit: real, totalOrders: nat)

  /** The summary: total sales, sales less the items' cost (a missing sum counts as 0), and the order count. */
  function SummaryOf(entries: seq<Entry>): (s: Summary)
    ensures s.totalProfit == Total(entries, Profit)
  {
    ProfitSplits(entries);
    Summary(Total(entries, Sales), Total(entries, Sales) - Total(entries, Cost), |entries|)
  }

  /** Profit summed is sales summed less cost summed. */
  lemma {:induction false} ProfitSplits(entries: seq<Entry>)
    ensures Total(entries, Profit) == Total(entries, Sales) - Total(entries, Cost)
  {
    if entries != [] {
      ProfitSplits(entries[1..]);
    }
  }

  /** The sum of `f` over the entries of one period. */
  function InPeriod(entries: seq<Entry>, p: int, f: Entry -> real): real
  {
    if entries == [] then 0.0
    else (if entries[0].period == p then f(entries[0]) else 0.0) + InPeriod(entries[1..], p, f)
  }

  /** The number of items of the orders of one period. */
  function ItemsInPeriod(entries: seq<Entry>, p: int): nat
  {
    if entries == [] then 0
    else (if entries[0].period == p then entries[0].itemCount else 0) + ItemsInPeriod(entries[1..], p)
  }

  lemma {:induction false} PeriodProfitSplits(entries: seq<Entry>, p: int)
    ensures InPeriod(entries, p, Profit) == InPeriod(entries, p, Sales) - InPeriod(entries, p, Cost)
  {
    if entries != [] {
      PeriodProfitSplits(entries[1..], p);
    }
  }

  /** The per-period sums of `f`, one for each label. */
  function Series(labels: seq<int>, entries: seq<Entry>, f: Entry -> real): (r: seq<real>)
    ensures |r| == |labels|
  {
    if labels == [] then [] else [InPeriod(entries, labels[0], f)] + Series(labels[1..], entries, f)
  }

  lemma {:induction false} SeriesAt(labels: seq<int>, entries: seq<Entry>, f: Entry -> real, i: int)
    requires 0 <= i < |labels|
    ensures Series(labels, entries, f)[i] == InPeriod(entries, labels[i], f)
  {
    if i > 0 {
      SeriesAt(labels[1..], entries, f, i - 1);
    }
  }

  /** The periods in which the entries fall, once each and in ascending order. */
  function Labels(entries: seq<Entry>): (r: seq<int>)
    ensures forall i, j :: 0 <= i < j < |r| ==> r[i] < r[j]
    ensures forall p :: p in r <==> exists e :: e in entries && e.period == p
  {
    var all := seq(|entries|, i requires 0 <= i < |entries| => entries[i].period);
    forall p ensures p in all <==> exists e :: e in entries && e.period == p {
      if p in all {
        var i :| 0 <= i < |all| && all[i] == p;
        assert entries[i] in entries;
      }
      if exists e :: e in entries && e.period == p {
        var e :| e in entries && e.period == p;
        var i :| 0 <= i < |entries| && entries[i] == e;
        assert all[i] == p;
      }
    }
    AscendingDistinct(all)
  }

  datatype Chart = Chart(labels: seq<int>, sales: seq<real>, profit: seq<real>)

  /**
   * The chart: one point per period, in ascending order, with the period's
   * sales and its sales less its items' cost.
   */
  function ChartOf(entries: seq<Entry>): (c: Chart)
    ensures |c.labels| == |c.sales| == |c.profit|
    ensures forall i, j :: 0 <= i < j < |c.labels| ==> c.labels[i] < c.labels[j]
    ensures forall p :: p in c.labels <==> exists e :: e in entries && e.period == p
    ensures forall i :: 0 <= i < |c.labels| ==> c.sales[i] == InPeriod(entries, c.labels[i], Sales)
    ensures forall i :: 0 <= i < |c.labels| ==> c.profit[i] == c.sales[i] - InPeriod(entries, c.labels[i], Cost)
  {
    var labels := Labels(entries);
    var c := Chart(labels, Series(labels, entries, Sales), Series(labels, entries, Profit));
    forall i | 0 <= i < |labels|
      ensures c.sales[i] == InPeriod(entries, labels[i], Sales)
      ensures c.profit[i] == c.sales[i] - InPeriod(entries, labels[i], Cost)
    {
      SeriesAt(labels, entries, Sales, i);
      SeriesAt(labels, entries, Profit, i);
      PeriodProfitSplits(entries, labels[i]);
    }
    c
  }

  /**
   * The chart as the view computes it: a period whose orders have no items
   * has no cost sum, so its profit comes out as missing and is shown as 0.
   */
  function ChartAsWritten(entries: seq<Entry>): (c: Chart)
    ensures c.labels == ChartOf(entries).labels && c.sales == ChartOf(entries).sales
    ensures |c.profit| == |c.labels|
    ensures forall i :: 0 <= i < |c.labels| ==>
              c.profit[i] == if ItemsInPeriod(entries, c.labels[i]) == 0 then 0.0 else ChartOf(entries).profit[i]
  {
    var chart := ChartOf(entries);
    var profit := seq(|chart.labels|, i requires 0 <= i < |chart.labels| =>
                    if ItemsInPeriod(entries, chart.labels[i]) == 0 then 0.0 else chart.profit[i]);
    Chart(chart.labels, chart.sales, profit)
  }

  /** `v` counted once for each label equal to `x`. */
  function Hits(labels: seq<int>, x: int, v: real): real
  {
    if labels == [] then 0.0 else (if labels[0] == x then v else 0.0) + Hits(labels[1..], x, v)
  }

  lemma {:induction false} HitsOnce(labels: seq<int>, x: int, v: real)
    requires NoDuplicates(labels)
    ensures Hits(labels, x, v) == if x in labels then v else 0.0
  {
    if labels != [] {
      var tail := labels[1..];
      forall i, j | 0 <= i < j < |tail| ensures tail[i] != tail[j] {
        assert tail[i] == labels[i + 1] && tail[j] == labels[j + 1];
      }
      HitsOnce(tail, x, v);
      assert x in labels <==> x == labels[0] || x in tail;
      if labels[0] == x {
        forall k | 0 <= k < |tail| ensures tail[k] != x {
          assert tail[k] == labels[k + 1];
        }
      }
    }
  }

  lemma {:induction false} SeriesCons(labels: seq<int>, e: Entry, rest: seq<Entry>, f: Entry -> real)
    ensures Total(Series(labels, [e] + rest, f), Value) == Hits(labels, e.period, f(e)) + Total(Series(labels, rest, f), Value)
  {
    if labels != [] {
      SeriesCons(labels[1..], e, rest, f);
      assert ([e] + rest)[1..] == rest;
    }
  }

  lemma {:induction false} SeriesEmpty(labels: seq<int>, f: Entry -> real)
    ensures Total(Series(labels, [], f), Value) == 0.0
  {
    if labels != [] {
      SeriesEmpty(labels[1..], f);
    }
  }

  /** Summing a per-period series over periods without repeats that cover every entry gives the overall sum. */
  lemma {:induction false} SeriesPartition(labels: seq<int>, entries: seq<Entry>, f: Entry -> real)
    requires NoDuplicates(labels)
    requires forall e :: e in entries ==> e.period in labels
    ensures Total(Series(labels, entries, f), Value) == Total(entries, f)
  {
    if entries == [] {
      SeriesEmpty(labels, f);
    } else {
      var e := entries[0];
      var rest := entries[1..];
      assert entries == [e] + rest;
      SeriesPartition(labels, rest, f);
      SeriesCons(labels, e, rest, f);
      HitsOnce(labels, e.period, f(e));
    }
  }

  /** The chart's sales add up to the summary's sales and its profit to the summary's profit. */
  lemma ChartAddsUp(entries: seq<Entry>)
    ensures Total(ChartOf(entries).sales, Value) == SummaryOf(entries).totalSales
    ensures Total(ChartOf(entries).profit, Value) == SummaryOf(entries).totalProfit
  {
    var labels := Labels(entries);
    assert NoDuplicates(labels);
    SeriesPartition(labels, entries, Sales);
    SeriesPartition(labels, entries, Profit);
  }

  /** An entry without items has neither sales nor cost. */
  predicate ItemlessEmpty(e: Entry)
  {
    e.itemCount == 0 ==> e.sales == 0.0 && e.cost == 0.0
  }

  lemma {:induction false} ItemlessPeriod(entries: seq<Entry>, p: int)
    requires forall i :: 0 <= i < |entries| ==> ItemlessEmpty(entries[i])
    requires ItemsInPeriod(entries, p) == 0
    ensures InPeriod(entries, p, Sales) == 0.0 && InPeriod(entries, p, Cost) == 0.0
  {
    if entries != [] {
      assert forall i :: 0 <= i < |entries[1..]| ==> entries[1..][i] == entries[i + 1];
      ItemlessPeriod(entries[1..], p);
    }
  }

  /** Where no entry without items has sales or cost, the chart as written is the chart. */
  lemma ChartAsWrittenAgrees(entries: seq<Entry>)
    requires forall i :: 0 <= i < |entries| ==> ItemlessEmpty(entries[i])
    ensures ChartAsWritten(entries) == ChartOf(entries)
  {
    var c := ChartOf(entries);
    var w := ChartAsWritten(entries);
    forall i | 0 <= i < |c.labels| ensures w.profit[i] == c.profit[i] {
      if ItemsInPeriod(entries, c.labels[i]) == 0 {
        ItemlessPeriod(entries, c.labels[i]);
      }
    }
    assert w.profit == c.profit;
  }

  /** On consistent tables a stored order without items has a zero total, and its items no cost. */
  lemma EntriesItemlessEmpty(t: Tables, rows: seq<OrderRow>, period: int -> int)
    requires TablesConsistent(t)
    requires forall o :: o in rows ==> o.id in t.orders && t.orders[o.id] == o
    ensures var es := Entries(rows, t.items, period);
            forall i :: 0 <= i < |es| ==> ItemlessEmpty(es[i])
  {
    forall i | 0 <= i < |rows| ensures ItemlessEmpty(EntryOf(rows[i], t.items, period)) {
      var o := rows[i];
      assert o in rows;
      assert t.orders[o.id].totalAmount == SumSubtotals(ItemsOf(t.items, o.id));
    }
  }

  /**
   * On consistent tables (every total the sum of its items' subtotals, as
   * every write of orders leaves them) the dashboard's chart is the chart the
   * view computes, item-less periods included.
   */
  lemma DashboardChartAgrees(t: Tables, business: Id, timeframe: Option<string>, now: int, truncate: (Bucket, int) -> int)
    requires TablesConsistent(t)
    ensures ProductsKnown(t.items, t.products)
    ensures DashboardOf(t, business, timeframe, now, truncate).chart
         == ChartAsWritten(Entries(DashboardRowsOf(t, business, timeframe, now), t.items, Period(truncate, timeframe)))
  {
    var rows := DashboardRowsOf(t, business, timeframe, now);
    forall o | o in rows ensures o.id in t.orders && t.orders[o.id] == o {
      var k :| k in t.orders && t.orders[k] == o && InDashboard(o, business, WindowStart(now, WindowOf(Timeframe(timeframe))));
    }
    EntriesItemlessEmpty(t, rows, Period(truncate, timeframe));
    ChartAsWrittenAgrees(Entries(rows, t.items, Period(truncate, timeframe)));
  }

  /**
   * Where the two charts part: an entry of 100 without items has a summary
   * profit of 100 while the chart as written shows 0 for its period. No order
   * of consistent tables gives such an entry (`DashboardChartAgrees`).
   */
  lemma ChartDropsItemlessProfit()
    ensures var entries := [Entry(0, 100.0, 0.0, 0)];
            && SummaryOf(entries).totalProfit == 100.0
            && ChartAsWritten(entries).profit == [0.0]
            && ChartOf(entries).profit == [100.0]
  {
    var entries := [Entry(0, 100.0, 0.0, 0)];
    var labels := Labels(entries);
    var periods := seq(|entries|, i requires 0 <= i < |entries| => entries[i].period);
    assert periods == [0];
    assert Distinct(periods) == [0];
    assert SortDesc([0], Negated) == [0];
    assert labels == [0];
    assert InPeriod(entries, 0, Profit) == 100.0;
    assert ItemsInPeriod(entries, 0) == 0;
  }

  /** The top products: at most three groups from the top of the ranking. */
  function TopProducts(lines: seq<Line>): (r: seq<Group>)
    ensures |r| <= 3
    ensures SortedDesc(r, GroupKey)
  {
    var ranked := Ranked(lines);
    RankedGroups(lines);
    if |ranked| <= 3 then ranked else ranked[..3]
  }

  /**
   * The top products are distinct names that occur with their summed quantity
   * and revenue; there are three of them unless fewer names occur, and every
   * name left out sold no more than any listed one.
   */
  lemma TopProductsAreTop(lines: seq<Line>)
    ensures var r := TopProducts(lines);
            && |r| == (if |Names(lines)| < 3 then |Names(lines)| else 3)
            && (forall g :: g in r ==> g == GroupOf(lines, g.name) && exists l :: l in lines && l.name == g.name)
            && (forall i, j :: 0 <= i < j < |r| ==> r[i].name != r[j].name)
            && forall l, g :: l in lines && g in r && (forall h :: h in r ==> h.name != l.name)
                 ==> g.quantity >= QuantityOf(lines, l.name)
  {
    var ranked := Ranked(lines);
    var r := TopProducts(lines);
    RankedGroups(lines);
    assert r == ranked[..|r|];
    forall g | g in r ensures g == GroupOf(lines, g.name) && exists l :: l in lines && l.name == g.name {
      assert g in ranked;
    }
    forall l, g | l in lines && g in r && (forall h :: h in r ==> h.name != l.name)
      ensures g.quantity >= QuantityOf(lines, l.name)
    {
      var i :| 0 <= i < |r| && r[i] == g;
      forall j | 0 <= j <= i ensures ranked[j].name != l.name {
        assert ranked[j] in r;
      }
      RankedAbove(lines, l, i);
    }
  }

  datatype Dashboard = Dashboard(summary: Summary, topProducts: seq<Group>, chart: Chart)

  /** The window's start: `now` less the window's days. */
  function WindowStart(now: int, w: Window): int
  {
    now - w.days * DaySeconds
  }

  /** The orders the dashboard counts, in key order. */
  function DashboardRows(orders: map<Id, OrderRow>, business: Id, start: int): (r: seq<OrderRow>)
    ensures forall o :: o in r <==> exists k :: k in orders && orders[k] == o && InDashboard(o, business, start)
  {
    Selected(orders, SortedIds(orders.Keys), o => InDashboard(o, business, start))
  }

  /**
   * `dashboard`: the window chosen by the timeframe, then the summary, the top
   * three products among the counted orders' items, and the chart, where
   * `truncate` maps a bucket and a creation time to its period.
   */
  function DashboardOf(t: Tables, business: Id, timeframe: Option<string>, now: int, truncate: (Bucket, int) -> int): (d: Dashboard)
    requires ProductsKnown(t.items, t.products)
    ensures |d.topProducts| <= 3 && SortedDesc(d.topProducts, GroupKey)
    ensures |d.chart.labels| == |d.chart.sales| == |d.chart.profit|
    ensures forall i, j :: 0 <= i < j < |d.chart.labels| ==> d.chart.labels[i] < d.chart.labels[j]
    ensures d.summary.totalProfit == d.summary.totalSales - Total(Entries(DashboardRowsOf(t, business, timeframe, now), t.items, Period(truncate, timeframe)), Cost)
    ensures Total(d.chart.sales, Value) == d.summary.totalSales && Total(d.chart.profit, Value) == d.summary.totalProfit
  {
    var w := WindowOf(Timeframe(timeframe));
    var start := WindowStart(now, w);
    var rows := DashboardRows(t.orders, business, start);
    var ids := set k | k in t.orders && InDashboard(t.orders[k], business, start);
    var entries := Entries(rows, t.items, Period(truncate, timeframe));
    ChartAddsUp(entries);
    Dashboard(SummaryOf(entries), TopProducts(Lines(t.items, t.products, ids)), ChartOf(entries))
  }

  /** The dashboard's counted orders for a timeframe. */
  function DashboardRowsOf(t: Tables, business: Id, timeframe: Option<string>, now: int): seq<OrderRow>
  {
    DashboardRows(t.orders, business, WindowStart(now, WindowOf(Timeframe(timeframe))))
  }

  /** The period of a creation time under the timeframe's bucket. */
  function Period(truncate: (Bucket, int) -> int, timeframe: Option<string>): int -> int
  {
    c => truncate(WindowOf(Timeframe(timeframe)).bucket, c)
  }

  /** The summary counts each order of the window once, and sums their totals. */
  lemma DashboardSummary(t: Tables, business: Id, timeframe: Option<string>, now: int, truncate: (Bucket, int) -> int)
    requires ProductsKnown(t.items, t.products)
    ensures var d := DashboardOf(t, business, timeframe, now, truncate);
            var rows := DashboardRowsOf(t, business, timeframe, now);
            && d.summary.totalOrders == |rows|
            && d.summary.totalSales == Total(rows, Amount)
  {
    var rows := DashboardRowsOf(t, business, timeframe, now);
    var entries := Entries(rows, t.items, Period(truncate, timeframe));
    EntriesSales(rows, t.items, Period(truncate, timeframe));
  }

  lemma {:induction false} EntriesSales(rows: seq<OrderRow>, items: seq<ItemRow>, period: int -> int)
    ensures Total(Entries(rows, items, period), Sales) == Total(rows, Amount)
  {
    if rows != [] {
      EntriesSales(rows[1..], items, period);
      assert Entries(rows, items, period)[1..] == Entries(rows[1..], items, period);
    }
  }
}
