# Alcohol-consumption dashboard: the recompute step

This project is a Dafny model of the logic behind a small Dash dashboard for a global alcohol-consumption dataset. The dashboard has four filter controls: a continent dropdown, a beverage checklist, alcohol-strength radio items and a year slider. Every change of a control runs one callback, `update_dashboard`. The callback narrows the table and returns seven outputs:

- three summary cards: total consumption, average price and the number of distinct countries;
- four charts: a bar chart of mean consumption per beverage, a pie chart of consumption per continent, a scatter plot of price against consumption, and a line chart of mean consumption per year.

The model treats the callback as a pure function from the table (`seq<Record>`) and the filter state to the seven outputs. Its parts are:

- `Keys` (keys.dfy): group keys. A key is a text cell or an integer Year. Keys are ordered the way pandas sorts group keys; text compares like Python `str`. The module also has sorted insertion.
- `Table` (table.dfy): the record, the key columns, boolean row masks (`df[col] == v` and `isin`), and column sums and means.
- `Grouping` (grouping.dfy): `groupby(col)[...].mean()` and `.sum()`. There is one row per distinct key, in ascending key order. A lemma proves that the grouped sums add up to the whole table's sum.
- `Filters` (filters.dfy): the filter state and its Python truthiness rules, the filter chain, the year view, and the controls' initial values.
- `Dashboard` (dashboard.dfy): `UpdateDashboard`, with the early "N/A / no data" return and one function per chart decision. The lemmas state what each card and chart shows. They also show that the fallbacks for average price, bar chart and scatter plot can never be reached once the early return is passed.

Each chart is modelled as `Shown(data) | NoData`, and each card as `Known(value) | NA`.

Notes on the code's behaviour:
- The continent filter is off for `None` and for the empty string (`if selected_continent:`).
- The strength filter is off for `None`, the empty string and `'All_Strengths'`.
- The line chart covers the filtered rows of every year. It is still blanked together with everything else when the chosen year has no rows (`Dashboard.LineChart`).

## Model

| member | source | states |
|---|---|---|
| `Keys.Insert` | main.py:178 | adding a key to a strictly ascending key list keeps it strictly ascending, adds exactly that key, and grows the list by one iff the key was new |
| `Keys.StrLessTotal` | main.py:178 | the text order used for group keys is total: two different strings are ordered one way or the other |
| `Keys.StrLessTransitive` | main.py:178 | the text order used for group keys is transitive |
| `Table.Where` | main.py:150 | a row mask keeps exactly the rows it holds for and never adds rows |
| `Table.WhereIsSubsequence` | main.py:150 | the rows a mask keeps stay in their original relative order |
| `Table.WhereAppend` | main.py:153 | a mask judges rows one by one: masking a concatenation is the concatenation of the masked parts |
| `Table.KeySetBounds` | main.py:176 | the number of distinct values of a column is at most the number of rows, and at least one for a non-empty table |
| `Table.WhereCount` | main.py:150 | a mask keeps every row it holds for exactly as often as the table has it, and drops every other row |
| `Table.Total` | main.py:174 | the column sum of a column of non-negative values is never negative |
| `Table.TotalAppend` | main.py:174 | the column sum is additive: the sum over two tables put together is the sum of their sums |
| `Table.Mean` | main.py:175 | the column mean of a non-empty column of non-negative values is never negative |
| `Grouping.DistinctKeys` | main.py:178 | the group keys are strictly ascending and are exactly the values the column takes |
| `Grouping.Group` | main.py:178 | a group is non-empty exactly when its key occurs in the column |
| `Grouping.GroupBy` | main.py:178 | one row per distinct column value, as many rows as distinct values, keys strictly ascending, each row holding the mean or the sum of its group |
| `Grouping.GroupSumsAddUp` | main.py:192-193 | the per-group sums of a grouped sum add up to the sum over the whole table |
| `Filters.BeverageKeys` | main.py:153 | a beverage passes the `isin` mask iff it is one of the selected names |
| `Filters.FilterChain` | main.py:147-158 | the chain never adds rows, keeps only rows of a selected beverage, and yields an empty table when no beverage is selected |
| `Filters.YearView` | main.py:160 | the year view keeps exactly the filtered rows of the chosen year, each as often as among the filtered rows; a missing year keeps nothing |
| `Filters.FilterChainIsSelection` | main.py:147-158 | the continent, beverage and strength masks applied in turn equal one pass keeping the rows that meet all three conditions; so an empty selection keeps nothing, and rows keep their multiplicity and order |
| `Filters.FilterChainKeeps` | main.py:149-158 | a row survives the chain iff its continent matches when a continent is chosen, its beverage is selected, and its strength matches unless the choice is absent or `'All_Strengths'`; survivors keep their relative order |
| `Filters.YearViewKeeps` | main.py:160 | the year view is exactly the filtered rows whose Year equals the chosen year, each as often as among the filtered rows, in order |
| `Filters.MinYear` | main.py:97 | the slider's initial year is a Year that occurs in the table and no row has a smaller one; there is none only for an empty table |
| `Filters.DefaultFilter` | main.py:67-97 | the initial controls: no continent, every beverage of the table in sorted order without repeats, `'All_Strengths'`, and the smallest year |
| `Filters.DefaultFilterKeepsAll` | main.py:67-97 | with the initial controls the filter chain keeps the whole table, and a non-empty table has rows in the initial year view |
| `Dashboard.UpdateDashboard` | main.py:146-236 | every output is "N/A" or "no data" iff the year view is empty; otherwise the average-price, bar and scatter fallbacks are not taken and the scatter plot shows exactly the year view |
| `Dashboard.View` | main.py:147-160 | the year view never has more rows than the table, and each of its rows has a selected beverage and the chosen year |
| `Dashboard.BarChartOf` | main.py:178-190 | the bar chart is drawn exactly when the year view is non-empty, from the mean consumption per beverage |
| `Dashboard.PieChartOf` | main.py:192-204 | the pie chart is drawn exactly when the view is non-empty with positive total consumption; its slices are one per continent, in sorted order, each that continent's summed consumption, adding up to the total |
| `Dashboard.ScatterOf` | main.py:206-219 | the scatter plot is drawn exactly when the view is non-empty, with one point per row of the view |
| `Dashboard.LineChartOf` | main.py:221-234 | the line chart is drawn exactly when the rows span at least two years; one point per year, in ascending year order, each the mean consumption of that year |
| `Dashboard.ViewKeeps` | main.py:147-160 | the year view holds exactly the table rows meeting all four filters, each as often as the table has it, in table order |
| `Dashboard.ViewIsMatchSelection` | main.py:147-160 | the filter chain followed by the year mask equals one pass over the table keeping the rows that meet all four filters |
| `Dashboard.NoBeveragesNothingToShow` | main.py:152-172 | with no beverage selected every card is "N/A" and every chart "no data", whatever the other filters are |
| `Dashboard.Summaries` | main.py:174-176 | total consumption is the sum over the year view, average price is the sum of prices divided by the row count, and the country count is the number of distinct countries, between 1 and the row count |
| `Dashboard.BarChart` | main.py:178-190 | the bar chart is always drawn past the early return: one bar per beverage of the year view, in sorted order, each the mean consumption of that beverage |
| `Dashboard.PieChart` | main.py:192-204 | past the early return the pie chart is drawn iff the total consumption is positive; it has one slice per continent of the year view, in sorted order, each the summed consumption of that continent, and the slices add up to the total |
| `Dashboard.LineChart` | main.py:221-234 | the line chart is drawn iff the year view is non-empty and the filtered rows span at least two years; its points are one per year, in ascending year order, each the mean consumption of that year over the filtered rows of all years |
| `Dashboard.LineIgnoresYear` | main.py:221 | whenever the line chart is computed it is the same for every chosen year |
| `Dashboard.DefaultShowsData` | main.py:67-98 | on a non-empty table the initial controls draw the scatter plot and the bar chart, and the line chart is drawn iff the table spans at least two years |
| `Dashboard.BeerScenario` | main.py:146-236 | on three European rows of 2020 (beer 2.0, wine 1.0, beer 3.0) filtered to Europe, beer, all strengths and 2020: total 5.0, average price 3.0, two countries, one bar for beer at 2.5, one pie slice for Europe at 5.0, both beers in the scatter plot, no line chart |

## Left out

- Loading the CSV file and exiting when it is missing (main.py:10-14): file I/O and process termination. The table is a parameter.
- The Dash app, page layout, widgets and style dictionaries (main.py:16-131), the callback wiring (main.py:133-145) and the server start (main.py:238-239). Only the initial control values are modelled (`Filters.DefaultFilter`).
- Plotly figure construction: `px.bar`, `px.pie`, `px.scatter`, `px.line`, titles (which mention the chosen year), colours, hole and pull settings, axis types and the empty-figure layout with its message (main.py:162-169). Each chart is `Shown(data)` or `NoData`. The four fallback figures differ only in their titles, so they all become `NoData`.
- The `:.2f` text formatting of the total and the average (main.py:174-175). The cards hold the `real` value.
- Floating-point arithmetic: sums and means are exact `real`s, so rounding and summation order are not modelled.
- Missing values: pandas skips NaN in `sum`, `mean` and `nunique`, and `groupby` drops NaN keys. Every record here has all its fields.
- The column-only empty frame built for an empty beverage selection (main.py:155), and its dtypes. It is modelled as the empty sequence.
- An absent beverage list (`None`) takes the same branch as the empty list and is written `[]`.
- A missing year slider value is `None`. It can arise only from the minimum of an empty table, which pandas reports as NaN and no row equals.
