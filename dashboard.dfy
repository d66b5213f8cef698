/**
 The recompute step run on every change of a filter control: from the table
 and the filter state to the three summary cards and the four charts.
 */
module Dashboard {
  import opened Keys
  import opened Table
  import opened Grouping
  import opened Filters

  /** A summary card: a number, or "N/A" when there is nothing to summarise. */
  datatype Stat<T> = NA | Known(value: T)

  /** A chart: drawn from its data, or the "no data" figure. */
  datatype Chart<T> = NoData | Shown(data: T)

  /** The seven outputs of the recompute step, in the order the page shows
      them. */
  datatype Outputs = Outputs(
    totalConsumption: Stat<real>,
    avgPrice: Stat<real>,
    uniqueCountries: Stat<nat>,
    bar: Chart<seq<Row>>,
    pie: Chart<seq<Row>>,
    scatter: Chart<seq<Record>>,
    line: Chart<seq<Row>>)

  /** "N/A" on every card and the "no data" figure on every chart. */
  const NothingToShow: Outputs := Outputs(NA, NA, NA, NoData, NoData, NoData, NoData)

  /** The rows every year-specific output is computed from: rows of the
      table with a selected beverage and the chosen year. */
  function View(df: seq<Record>, f: FilterState): (view: seq<Record>)
    ensures |view| <= |df|
    ensures forall r :: r in view ==> r in df && r.Beverage in f.beverages && f.year == Some(r.Year)
  {
    YearView(FilterChain(df, f), f.year)
  }

  /** The bar chart: mean consumption per beverage, or the fallback figure
      when there are no groups. It is drawn exactly for a non-empty view. */
  function BarChartOf(view: seq<Record>): (chart: Chart<seq<Row>>)
    ensures chart.Shown? <==> |view| > 0
    ensures chart.Shown? ==> chart.data == GroupBy(view, Beverage, Consumption, Avg)
  {
    var barData := GroupBy(view, Beverage, Consumption, Avg);
    KeySetBounds(view, Beverage);
    if |barData| > 0 then Shown(barData) else NoData
  }

  /** The pie chart: consumption summed per continent, drawn only when the
      sums add up to more than zero, which is exactly when the view's total
      consumption is positive. */
  function PieChartOf(view: seq<Record>): (chart: Chart<seq<Row>>)
    ensures chart.Shown? <==> |view| > 0 && Total(view, Consumption) > 0.0
    ensures chart.Shown? ==> PieSlices(view, chart.data)
  {
    var pieData := GroupBy(view, Continent, Consumption, Sum);
    GroupSumsAddUp(view, Continent, Consumption);
    KeySetBounds(view, Continent);
    assert |view| == 0 ==> Total(view, Consumption) == 0.0;
    PieSlicesOf(view);
    if |pieData| > 0 && SumValues(pieData) > 0.0 then Shown(pieData) else NoData
  }

  /** The slices of a pie chart over the given rows: one per continent
      present, in sorted order, each the summed consumption of that continent,
      together adding up to the rows' total consumption. */
  ghost predicate PieSlices(view: seq<Record>, slices: seq<Row>)
  {
    && |slices| == |KeySet(view, Continent)|
    && SumValues(slices) == Total(view, Consumption)
    && (forall i :: 0 <= i < |slices| ==> slices[i].key.StrKey?)
    && (forall i, j :: 0 <= i < j < |slices| ==> StrLess(slices[i].key.text, slices[j].key.text))
    && (forall c :: c in KeySet(view, Continent) <==> exists i :: 0 <= i < |slices| && slices[i].key == c)
    && (forall i :: 0 <= i < |slices| ==>
          |Group(view, Continent, slices[i].key)| > 0 &&
          slices[i].value == Total(Group(view, Continent, slices[i].key), Consumption))
  }

  lemma PieSlicesOf(view: seq<Record>)
    ensures PieSlices(view, GroupBy(view, Continent, Consumption, Sum))
  {
    var rows := GroupBy(view, Continent, Consumption, Sum);
    GroupSumsAddUp(view, Continent, Consumption);
    forall i | 0 <= i < |rows| ensures rows[i].key.StrKey? {
      assert rows[i].key in KeySet(view, Continent);
    }
    forall i, j | 0 <= i < j < |rows| ensures StrLess(rows[i].key.text, rows[j].key.text) {
      assert KeyLess(rows[i].key, rows[j].key);
    }
  }

  /** The scatter plot: one point per row of the year view, drawn exactly
      when there is a row. */
  function ScatterOf(view: seq<Record>): (chart: Chart<seq<Record>>)
    ensures chart.Shown? <==> |view| > 0
    ensures chart.Shown? ==> chart.data == view
  {
    if |view| > 0 then Shown(view) else NoData
  }

  /** The line chart: mean consumption per year over the filtered rows of
      every year, drawn exactly when at least two years are present. */
  function LineChartOf(filtered: seq<Record>): (chart: Chart<seq<Row>>)
    ensures chart.Shown? <==> |KeySet(filtered, Year)| >= 2
    ensures chart.Shown? ==> LineSeries(filtered, chart.data)
  {
    var lineData := GroupBy(filtered, Year, Consumption, Avg);
    LineRows(filtered);
    if |lineData| > 0 && |lineData| > 1 then Shown(lineData) else NoData
  }

  /** Recomputes the dashboard. When the year view is empty every output is
      blank; otherwise the fallbacks for average price, bar chart and scatter
      plot can never be taken, and the scatter plot shows the year view. */
  function UpdateDashboard(df: seq<Record>, f: FilterState): (out: Outputs)
    ensures out == NothingToShow <==> |View(df, f)| == 0
    ensures |View(df, f)| > 0 ==>
      out.avgPrice.Known? && out.bar.Shown? && out.scatter == Shown(View(df, f))
  {
    var filtered := FilterChain(df, f);
    var view := YearView(filtered, f.year);
    if |view| == 0 then NothingToShow
    else
      assert view[0] in view;
      Outputs(
        Known(Total(view, Consumption)),
        if |view| > 0 then Known(Mean(view, Price)) else NA,
        Known(|KeySet(view, Country)|),
        BarChartOf(view),
        PieChartOf(view),
        ScatterOf(view),
        LineChartOf(filtered))
  }

  /** The outputs past the early return, field by field. */
  lemma Populated(df: seq<Record>, f: FilterState)
    requires |View(df, f)| > 0
    ensures var v := View(df, f);
      UpdateDashboard(df, f) == Outputs(
        Known(Total(v, Consumption)), Known(Mean(v, Price)), Known(|KeySet(v, Country)|),
        BarChartOf(v), PieChartOf(v), ScatterOf(v), LineChartOf(FilterChain(df, f)))
  {
  }

  /** Every condition a row of the year view meets. */
  ghost predicate Matches(f: FilterState, r: Record)
  {
    Selected(f, r) && f.year == Some(r.Year)
  }

  /** A single pass over the table keeping the rows that meet all four
      filters. */
  ghost function MatchSelection(df: seq<Record>, f: FilterState): seq<Record>
  {
    if df == [] then []
    else (if Matches(f, df[0]) then [df[0]] else []) + MatchSelection(df[1..], f)
  }

  lemma {:induction false} YearOfSelection(df: seq<Record>, f: FilterState)
    ensures YearView(Selection(df, f), f.year) == MatchSelection(df, f)
  {
    if df != [] {
      YearOfSelection(df[1..], f);
      if f.year.Some? {
        var m := Equals(Year, IntKey(f.year.value));
        var head := if Selected(f, df[0]) then [df[0]] else [];
        WhereAppend(head, Selection(df[1..], f), m);
        assert head != [] ==> head[1..] == [];
      }
    }
  }

  /** The year view is one pass over the table keeping the rows that meet all
      four filters: each such row as often as the table has it, in table
      order, and no other row. */
  lemma ViewIsMatchSelection(df: seq<Record>, f: FilterState)
    ensures View(df, f) == MatchSelection(df, f)
  {
    FilterChainIsSelection(df, f);
    YearOfSelection(df, f);
  }

  /** The year view holds exactly the table rows meeting all four filters,
      each as often as the table has it, in table order. */
  lemma ViewKeeps(df: seq<Record>, f: FilterState)
    ensures forall r :: r in View(df, f) <==> r in df && Matches(f, r)
    ensures forall r :: multiset(View(df, f))[r] == if Matches(f, r) then multiset(df)[r] else 0
    ensures Subsequence(View(df, f), FilterChain(df, f))
  {
    FilterChainKeeps(df, f);
    YearViewKeeps(FilterChain(df, f), f.year);
    ViewIsMatchSelection(df, f);
    MatchSelectionCount(df, f);
  }

  lemma {:induction false} MatchSelectionCount(df: seq<Record>, f: FilterState)
    ensures forall r :: multiset(MatchSelection(df, f))[r] == if Matches(f, r) then multiset(df)[r] else 0
  {
    if df != [] {
      MatchSelectionCount(df[1..], f);
      assert df == [df[0]] + df[1..];
      var head := if Matches(f, df[0]) then [df[0]] else [];
      assert multiset(MatchSelection(df, f)) == multiset(head) + multiset(MatchSelection(df[1..], f));
    }
  }

  /** No beverage selected means no data anywhere, whatever the other
      filters say. */
  lemma NoBeveragesNothingToShow(df: seq<Record>, f: FilterState)
    requires |f.beverages| == 0
    ensures UpdateDashboard(df, f) == NothingToShow
  {
    ViewKeeps(df, f);
  }

  /** The three cards: total consumption is the sum over the year view,
      average price its mean, and the country count the number of distinct
      countries in it, between one and the number of rows. */
  lemma Summaries(df: seq<Record>, f: FilterState)
    requires |View(df, f)| > 0
    ensures var out := UpdateDashboard(df, f);
      && out.totalConsumption == Known(Total(View(df, f), Consumption))
      && out.avgPrice == Known(Total(View(df, f), Price) / (|View(df, f)| as real))
      && out.uniqueCountries == Known(|KeySet(View(df, f), Country)|)
      && 1 <= out.uniqueCountries.value <= |View(df, f)|
  {
    var v := View(df, f);
    Populated(df, f);
    KeySetBounds(v, Country);
  }

  /** The bar chart: one bar per beverage of the year view, in sorted order,
      each the mean consumption of that beverage. */
  lemma BarChart(df: seq<Record>, f: FilterState)
    requires |View(df, f)| > 0
    ensures var out := UpdateDashboard(df, f); var v := View(df, f);
      && out.bar.Shown?
      && |out.bar.data| == |KeySet(v, Beverage)| >= 1
      && (forall i, j :: 0 <= i < j < |out.bar.data| ==>
            StrLess(out.bar.data[i].key.text, out.bar.data[j].key.text))
      && (forall b :: b in KeySet(v, Beverage) <==>
            exists i :: 0 <= i < |out.bar.data| && out.bar.data[i].key == b)
      && (forall i :: 0 <= i < |out.bar.data| ==>
            |Group(v, Beverage, out.bar.data[i].key)| > 0 &&
            out.bar.data[i].value == Mean(Group(v, Beverage, out.bar.data[i].key), Consumption))
  {
    var v := View(df, f);
    Populated(df, f);
    BarRows(v);
  }

  lemma BarRows(v: seq<Record>)
    requires |v| > 0
    ensures var rows := GroupBy(v, Beverage, Consumption, Avg);
      && BarChartOf(v) == Shown(rows)
      && |rows| == |KeySet(v, Beverage)| >= 1
      && (forall i, j :: 0 <= i < j < |rows| ==> StrLess(rows[i].key.text, rows[j].key.text))
  {
    var rows := GroupBy(v, Beverage, Consumption, Avg);
    KeySetBounds(v, Beverage);
    forall i | 0 <= i < |rows| ensures rows[i].key.StrKey? {
      assert rows[i].key in KeySet(v, Beverage);
    }
  }

  /** The pie chart: one slice per continent of the year view, in sorted
      order, each the summed consumption of that continent; the slices add up
      to the total consumption, so the chart is drawn exactly when that total
      is positive. */
  lemma PieChart(df: seq<Record>, f: FilterState)
    requires |View(df, f)| > 0
    ensures var out := UpdateDashboard(df, f); var v := View(df, f);
      && (out.pie.Shown? <==> Total(v, Consumption) > 0.0)
      && (out.pie.Shown? ==> PieSlices(v, out.pie.data))
  {
    Populated(df, f);
  }

  /** The line chart uses the filtered rows of every year, one point per year
      in ascending year order holding the mean consumption of that year. It is
      drawn exactly when the year view is non-empty and at least two years
      are present. */
  lemma LineChart(df: seq<Record>, f: FilterState)
    ensures var out := UpdateDashboard(df, f); var filtered := FilterChain(df, f);
      && (out.line.Shown? <==> |View(df, f)| > 0 && |KeySet(filtered, Year)| >= 2)
      && (out.line.Shown? ==> LineSeries(filtered, out.line.data))
  {
    var filtered := FilterChain(df, f);
    if |View(df, f)| > 0 {
      Populated(df, f);
    }
    LineRows(filtered);
  }

  /** The points of a line chart over the given rows: one per year present,
      in ascending year order, each the mean consumption of its year. */
  ghost predicate LineSeries(filtered: seq<Record>, points: seq<Row>)
  {
    && |points| == |KeySet(filtered, Year)|
    && (forall i :: 0 <= i < |points| ==> points[i].key.IntKey?)
    && (forall i, j :: 0 <= i < j < |points| ==> points[i].key.number < points[j].key.number)
    && (forall i :: 0 <= i < |points| ==>
          |Group(filtered, Year, points[i].key)| > 0 &&
          points[i].value == Mean(Group(filtered, Year, points[i].key), Consumption))
  }

  lemma LineRows(filtered: seq<Record>)
    ensures LineSeries(filtered, GroupBy(filtered, Year, Consumption, Avg))
  {
    LineKeys(filtered);
    LineValues(filtered);
  }

  lemma LineKeys(filtered: seq<Record>)
    ensures var rows := GroupBy(filtered, Year, Consumption, Avg);
      && (forall i :: 0 <= i < |rows| ==> rows[i].key.IntKey?)
      && (forall i, j :: 0 <= i < j < |rows| ==> rows[i].key.number < rows[j].key.number)
  {
    var rows := GroupBy(filtered, Year, Consumption, Avg);
    forall i | 0 <= i < |rows| ensures rows[i].key.IntKey? {
      assert rows[i].key in KeySet(filtered, Year);
    }
    forall i, j | 0 <= i < j < |rows| ensures rows[i].key.number < rows[j].key.number {
      assert KeyLess(rows[i].key, rows[j].key);
    }
  }

  lemma LineValues(filtered: seq<Record>)
    ensures var rows := GroupBy(filtered, Year, Consumption, Avg);
      forall i :: 0 <= i < |rows| ==>
        |Group(filtered, Year, rows[i].key)| > 0 &&
        rows[i].value == Mean(Group(filtered, Year, rows[i].key), Consumption)
  {
  }

  /** Moving the year slider changes the line chart only by blanking it: the
      series itself never depends on the chosen year. */
  lemma LineIgnoresYear(df: seq<Record>, f: FilterState, year: Option<int>)
    requires |View(df, f)| > 0 && |View(df, f.(year := year))| > 0
    ensures UpdateDashboard(df, f).line == UpdateDashboard(df, f.(year := year)).line
  {
    assert FilterChain(df, f) == FilterChain(df, f.(year := year));
  }

  /** On a non-empty table the initial controls show data: the year view of
      the smallest year is non-empty and the line chart covers the whole
      table. */
  lemma DefaultShowsData(df: seq<Record>)
    requires |df| > 0
    ensures var out := UpdateDashboard(df, DefaultFilter(df));
      && out.scatter.Shown? && out.bar.Shown?
      && (out.line.Shown? <==> |KeySet(df, Year)| >= 2)
  {
    DefaultFilterKeepsAll(df);
    LineChart(df, DefaultFilter(df));
  }

  /** Three European rows of 2020: two beers and a wine. */
  function BeerTable(): seq<Record>
  {
    [ Record("France", "Europe", "Beer", "Medium", 2020, 2.0, 4.0),
      Record("Italy", "Europe", "Wine", "Medium", 2020, 1.0, 6.0),
      Record("Spain", "Europe", "Beer", "Medium", 2020, 3.0, 2.0) ]
  }

  /** Europe, beer only, all strengths, 2020. */
  function BeerFilter(): FilterState
  {
    FilterState(Some("Europe"), ["Beer"], Some(AllStrengths), Some(2020))
  }

  lemma BeerSelection()
    ensures Selection(BeerTable(), BeerFilter()) == [BeerTable()[0], BeerTable()[2]]
  {
    var df, f := BeerTable(), BeerFilter();
    var beer1, wine, beer2 := df[0], df[1], df[2];
    assert "Wine" != "Beer" by {
      assert "Wine"[0] != "Beer"[0];
    }
    assert Selected(f, beer1) && !Selected(f, wine) && Selected(f, beer2);
    assert df[1..] == [wine, beer2] && df[1..][1..] == [beer2] && df[1..][1..][1..] == [];
    assert Selection([beer2], f) == [beer2];
  }

  lemma BeerYear()
    ensures var v := [BeerTable()[0], BeerTable()[2]];
      YearView(v, Some(2020)) == v
  {
    var beer1, beer2 := BeerTable()[0], BeerTable()[2];
    assert beer1.Year == 2020 && beer2.Year == 2020;
    assert [beer1, beer2][1..] == [beer2] && [beer2][1..] == [];
    assert Where([beer2], Equals(Year, IntKey(2020))) == [beer2];
  }

  lemma BeerView()
    ensures FilterChain(BeerTable(), BeerFilter()) == [BeerTable()[0], BeerTable()[2]]
    ensures View(BeerTable(), BeerFilter()) == [BeerTable()[0], BeerTable()[2]]
  {
    FilterChainIsSelection(BeerTable(), BeerFilter());
    BeerSelection();
    BeerYear();
  }

  lemma BeerBars()
    ensures var v := [BeerTable()[0], BeerTable()[2]];
      GroupBy(v, Beverage, Consumption, Avg) == [Row(StrKey("Beer"), 2.5)]
  {
    var beer1, beer2 := BeerTable()[0], BeerTable()[2];
    assert beer1.Beverage == "Beer" && beer2.Beverage == "Beer" && beer2.Consumption == 3.0;
    var v := [beer1, beer2];
    assert v[1..] == [beer2] && [beer2][1..] == [];
    assert forall r :: r in v <==> r == beer1 || r == beer2;
    assert Cell(beer1, Beverage) == StrKey("Beer") == Cell(beer2, Beverage);
    assert KeySet(v, Beverage) == {StrKey("Beer")} by {
      assert beer1 in v;
    }
    var rows := GroupBy(v, Beverage, Consumption, Avg);
    assert rows[0].key == StrKey("Beer") by {
      assert StrKey("Beer") in KeySet(v, Beverage);
    }
    assert Where([beer2], Equals(Beverage, StrKey("Beer"))) == [beer2];
    assert Group(v, Beverage, StrKey("Beer")) == v;
    assert Total([beer2], Consumption) == 3.0;
  }

  lemma BeerPie()
    ensures var v := [BeerTable()[0], BeerTable()[2]];
      GroupBy(v, Continent, Consumption, Sum) == [Row(StrKey("Europe"), 5.0)]
  {
    var beer1, beer2 := BeerTable()[0], BeerTable()[2];
    assert beer1.Continent == "Europe" && beer2.Continent == "Europe";
    assert beer1.Consumption == 2.0 && beer2.Consumption == 3.0;
    var v := [beer1, beer2];
    assert v[1..] == [beer2] && [beer2][1..] == [];
    assert forall r :: r in v <==> r == beer1 || r == beer2;
    assert Cell(beer1, Continent) == StrKey("Europe") == Cell(beer2, Continent);
    assert KeySet(v, Continent) == {StrKey("Europe")} by {
      assert beer1 in v;
    }
    var rows := GroupBy(v, Continent, Consumption, Sum);
    assert rows[0].key == StrKey("Europe") by {
      assert StrKey("Europe") in KeySet(v, Continent);
    }
    assert Where([beer2], Equals(Continent, StrKey("Europe"))) == [beer2];
    assert Group(v, Continent, StrKey("Europe")) == v;
    assert Total([], Consumption) == 0.0;
    assert Total([beer2], Consumption) == 3.0;
  }

  lemma BeerSummaries()
    ensures var v := [BeerTable()[0], BeerTable()[2]];
      && Total(v, Consumption) == 5.0 && Mean(v, Price) == 3.0
      && |KeySet(v, Country)| == 2 && |KeySet(v, Year)| == 1
  {
    var beer1, beer2 := BeerTable()[0], BeerTable()[2];
    assert beer1 == Record("France", "Europe", "Beer", "Medium", 2020, 2.0, 4.0);
    assert beer2 == Record("Spain", "Europe", "Beer", "Medium", 2020, 3.0, 2.0);
    var v := [beer1, beer2];
    assert v[1..] == [beer2] && [beer2][1..] == [];
    assert forall r :: r in v <==> r == beer1 || r == beer2;
    assert Total([], Consumption) == 0.0 && Total([], Price) == 0.0;
    assert Total([beer2], Consumption) == 3.0 && Total([beer2], Price) == 2.0;
    assert Cell(beer1, Country) == StrKey("France") && Cell(beer2, Country) == StrKey("Spain");
    assert KeySet(v, Country) == {StrKey("France"), StrKey("Spain")} by {
      assert beer1 in v && beer2 in v;
    }
    assert StrKey("France") != StrKey("Spain") by {
      assert "France"[0] != "Spain"[0];
    }
    assert KeySet(v, Year) == {IntKey(2020)};
  }

  /** The worked example: the two beers remain, total 5.0 litres, average
      price 3.0, two countries, one bar for beer at 2.5, one slice for Europe
      at 5.0, both beers in the scatter plot, and no line chart since only
      one year is present. */
  lemma BeerScenario()
    ensures var out := UpdateDashboard(BeerTable(), BeerFilter());
      && out.totalConsumption == Known(5.0)
      && out.avgPrice == Known(3.0)
      && out.uniqueCountries == Known(2)
      && out.bar == Shown([Row(StrKey("Beer"), 2.5)])
      && out.pie == Shown([Row(StrKey("Europe"), 5.0)])
      && out.scatter == Shown([BeerTable()[0], BeerTable()[2]])
      && out.line == NoData
  {
    var df, f := BeerTable(), BeerFilter();
    var v := [df[0], df[2]];
    BeerView();
    BeerSummaries();
    BeerBars();
    BeerPie();
    LineRows(v);
    var out := UpdateDashboard(df, f);
    assert out == Outputs(Known(Total(v, Consumption)), Known(Mean(v, Price)), Known(|KeySet(v, Country)|),
      BarChartOf(v), PieChartOf(v), ScatterOf(v), LineChartOf(v));
  }
}
