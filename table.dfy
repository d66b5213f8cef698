/**
 The alcohol-consumption table: one record per row, the columns the dashboard
 groups and filters on, boolean masks as pandas applies them, and the column
 sums and means the dashboard reports.
 */
module Table {
  import opened Keys

  /** One row of the dataset. Consumption is litres per capita and Price the
      average price per litre. */
  datatype Record = Record(
    Country: string,
    Continent: string,
    Beverage: string,
    Alcohol_Strength: string,
    Year: int,
    Consumption: real,
    Price: real)

  /** The columns that are compared against a filter value or grouped on. */
  datatype Column = Country | Continent | Beverage | AlcoholStrength | Year

  /** The numeric columns that are summed or averaged. */
  datatype Measure = Consumption | Price

  function Cell(r: Record, col: Column): (k: Key)
    ensures col == Year <==> k.IntKey?
  {
    match col
    case Country => StrKey(r.Country)
    case Continent => StrKey(r.Continent)
    case Beverage => StrKey(r.Beverage)
    case AlcoholStrength => StrKey(r.Alcohol_Strength)
    case Year => IntKey(r.Year)
  }

  function Amount(r: Record, m: Measure): real
  {
    match m
    case Consumption => r.Consumption
    case Price => r.Price
  }

  /** A boolean row mask: `df[col] == key` or `df[col].isin(keys)`. */
  datatype Mask = Equals(col: Column, key: Key) | IsIn(col: Column, keys: set<Key>)

  predicate Holds(m: Mask, r: Record)
  {
    match m
    case Equals(col, key) => Cell(r, col) == key
    case IsIn(col, keys) => Cell(r, col) in keys
  }

  /** `df[mask]`: the rows the mask holds for, in table order. */
  function Where(s: seq<Record>, m: Mask): (t: seq<Record>)
    ensures |t| <= |s|
    ensures forall r :: r in t <==> r in s && Holds(m, r)
  {
    if s == [] then []
    else (if Holds(m, s[0]) then [s[0]] else []) + Where(s[1..], m)
  }

  /** `a` is `b` with some rows left out and the rest in their original order. */
  ghost predicate Subsequence(a: seq<Record>, b: seq<Record>)
    decreases |b|
  {
    || a == []
    || (b != [] && a[0] == b[0] && Subsequence(a[1..], b[1..]))
    || (b != [] && Subsequence(a, b[1..]))
  }

  lemma {:induction false} WhereIsSubsequence(s: seq<Record>, m: Mask)
    ensures Subsequence(Where(s, m), s)
  {
    if s != [] {
      WhereIsSubsequence(s[1..], m);
      if Holds(m, s[0]) {
        assert Where(s, m) == [s[0]] + Where(s[1..], m);
        assert Where(s, m)[1..] == Where(s[1..], m);
      } else {
        assert Where(s, m) == Where(s[1..], m);
      }
    }
  }

  /** The filter distributes over concatenation: rows are judged one by one
      and never reordered. */
  lemma {:induction false} WhereAppend(s: seq<Record>, t: seq<Record>, m: Mask)
    ensures Where(s + t, m) == Where(s, m) + Where(t, m)
  {
    if s != [] {
      assert (s + t)[1..] == s[1..] + t;
      WhereAppend(s[1..], t, m);
    } else {
      assert s + t == t;
    }
  }

  /** A mask keeps every row it holds for exactly as often as the table has
      it, and no other row. */
  lemma {:induction false} WhereCount(s: seq<Record>, m: Mask, r: Record)
    ensures multiset(Where(s, m))[r] == if Holds(m, r) then multiset(s)[r] else 0
  {
    if s != [] {
      WhereCount(s[1..], m, r);
      assert s == [s[0]] + s[1..];
      assert multiset(s) == multiset([s[0]]) + multiset(s[1..]);
      var head := if Holds(m, s[0]) then [s[0]] else [];
      assert multiset(Where(s, m)) == multiset(head) + multiset(Where(s[1..], m));
    }
  }

  /** Column sum, `df[col].sum()`: never negative on a column of
      non-negative values. */
  function Total(s: seq<Record>, m: Measure): (t: real)
    ensures (forall r :: r in s ==> Amount(r, m) >= 0.0) ==> t >= 0.0
  {
    if s == [] then 0.0
    else
      assert forall r :: r in s[1..] ==> r in s;
      Amount(s[0], m) + Total(s[1..], m)
  }

  /** Column mean, `df[col].mean()`, defined on a non-empty column: never
      negative on a column of non-negative values. */
  function Mean(s: seq<Record>, m: Measure): (avg: real)
    requires |s| > 0
    ensures (forall r :: r in s ==> Amount(r, m) >= 0.0) ==> avg >= 0.0
  {
    Total(s, m) / (|s| as real)
  }

  lemma {:induction false} TotalAppend(s: seq<Record>, t: seq<Record>, m: Measure)
    ensures Total(s + t, m) == Total(s, m) + Total(t, m)
  {
    if s != [] {
      assert (s + t)[1..] == s[1..] + t;
      TotalAppend(s[1..], t, m);
    } else {
      assert s + t == t;
    }
  }

  /** The set of values a column takes in a table. */
  function KeySet(s: seq<Record>, col: Column): set<Key>
  {
    set r | r in s :: Cell(r, col)
  }

  /** `df[col].nunique()`: a non-empty table has at least one and at most one
      distinct value per row. */
  lemma {:induction false} KeySetBounds(s: seq<Record>, col: Column)
    ensures |KeySet(s, col)| <= |s|
    ensures |s| > 0 ==> |KeySet(s, col)| >= 1
  {
    if s != [] {
      KeySetBounds(s[1..], col);
      assert s[0] in s;
      assert KeySet(s, col) == KeySet(s[1..], col) + {Cell(s[0], col)};
    }
  }
}
