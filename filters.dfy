/**
 The dashboard's four filter controls and the chain of row masks they apply
 to the table: continent, beverage selection, alcohol strength, then year.
 */
module Filters {
  import opened Keys
  import opened Table
  import opened Grouping

  datatype Option<T> = None | Some(value: T)

  /** The strength radio item that switches the strength filter off. */
  const AllStrengths: string := "All_Strengths"

  /** The values of the continent dropdown, the beverage checklist, the
      strength radio items and the year slider. An absent beverage list
      behaves as the empty one and is written `[]`. */
  datatype FilterState = FilterState(
    continent: Option<string>,
    beverages: seq<string>,
    strength: Option<string>,
    year: Option<int>)

  /** Python truthiness of an optional string: `None` and `""` are false. */
  predicate Truthy(o: Option<string>)
  {
    o.Some? && o.value != ""
  }

  /** The strength filter applies unless the choice is absent, empty or the
      "all strengths" sentinel. */
  predicate StrengthActive(f: FilterState)
  {
    Truthy(f.strength) && f.strength.value != AllStrengths
  }

  function BeverageKeys(bs: seq<string>): (keys: set<Key>)
    ensures forall b :: b in bs <==> StrKey(b) in keys
  {
    set b | b in bs :: StrKey(b)
  }

  /** The continent, beverage and strength masks applied in turn. An empty
      beverage selection replaces the table by an empty one. */
  function FilterChain(df: seq<Record>, f: FilterState): (filtered: seq<Record>)
    ensures |filtered| <= |df|
    ensures |f.beverages| == 0 ==> filtered == []
    ensures forall r :: r in filtered ==> r in df && r.Beverage in f.beverages
  {
    var byContinent :=
      if Truthy(f.continent) then Where(df, Equals(Continent, StrKey(f.continent.value))) else df;
    var byBeverage :=
      if |f.beverages| > 0 then Where(byContinent, IsIn(Beverage, BeverageKeys(f.beverages))) else [];
    if StrengthActive(f) then Where(byBeverage, Equals(AlcoholStrength, StrKey(f.strength.value)))
    else byBeverage
  }

  /** The rows of the chosen year, each as often as among the filtered rows.
      No row equals a missing year. */
  function YearView(filtered: seq<Record>, year: Option<int>): (view: seq<Record>)
    ensures forall r :: r in view <==> r in filtered && year == Some(r.Year)
    ensures forall r :: multiset(view)[r] == if year == Some(r.Year) then multiset(filtered)[r] else 0
  {
    match year
    case None => []
    case Some(y) =>
      var view := Where(filtered, Equals(Year, IntKey(y)));
      forall r ensures multiset(view)[r] == if year == Some(r.Year) then multiset(filtered)[r] else 0 {
        WhereCount(filtered, Equals(Year, IntKey(y)), r);
      }
      view
  }

  /** The three conditions of the filter chain, stated of a single row. */
  ghost predicate Selected(f: FilterState, r: Record)
  {
    && (Truthy(f.continent) ==> r.Continent == f.continent.value)
    && r.Beverage in f.beverages
    && (StrengthActive(f) ==> r.Alcohol_Strength == f.strength.value)
  }

  /** A single pass over the table keeping the selected rows. */
  ghost function Selection(df: seq<Record>, f: FilterState): seq<Record>
  {
    if df == [] then []
    else (if Selected(f, df[0]) then [df[0]] else []) + Selection(df[1..], f)
  }

  lemma FilterChainAppend(a: seq<Record>, b: seq<Record>, f: FilterState)
    ensures FilterChain(a + b, f) == FilterChain(a, f) + FilterChain(b, f)
  {
    var c := Equals(Continent, StrKey(if f.continent.Some? then f.continent.value else ""));
    var bev := IsIn(Beverage, BeverageKeys(f.beverages));
    var st := Equals(AlcoholStrength, StrKey(if f.strength.Some? then f.strength.value else ""));
    var a1 := if Truthy(f.continent) then Where(a, c) else a;
    var b1 := if Truthy(f.continent) then Where(b, c) else b;
    if Truthy(f.continent) {
      WhereAppend(a, b, c);
    }
    if |f.beverages| > 0 {
      WhereAppend(a1, b1, bev);
      if StrengthActive(f) {
        WhereAppend(Where(a1, bev), Where(b1, bev), st);
      }
    }
  }

  /** The chain of masks keeps exactly the selected rows, each as often and in
      the same order as in the table. */
  lemma {:induction false} FilterChainIsSelection(df: seq<Record>, f: FilterState)
    ensures FilterChain(df, f) == Selection(df, f)
  {
    if df != [] {
      assert df == [df[0]] + df[1..];
      FilterChainAppend([df[0]], df[1..], f);
      FilterChainIsSelection(df[1..], f);
      assert StrKey(df[0].Beverage) in BeverageKeys(f.beverages) <==> df[0].Beverage in f.beverages;
    }
  }

  lemma {:induction false} SelectionKeeps(df: seq<Record>, f: FilterState)
    ensures forall r :: r in Selection(df, f) <==> r in df && Selected(f, r)
    ensures Subsequence(Selection(df, f), df)
  {
    if df != [] {
      SelectionKeeps(df[1..], f);
      assert forall r :: r in df <==> r == df[0] || r in df[1..];
      if Selected(f, df[0]) {
        assert Selection(df, f)[1..] == Selection(df[1..], f);
      } else {
        assert Selection(df, f) == Selection(df[1..], f);
      }
    }
  }

  /** A row survives the filter chain iff it meets all three conditions, and
      the survivors keep their relative order. */
  lemma FilterChainKeeps(df: seq<Record>, f: FilterState)
    ensures forall r :: r in FilterChain(df, f) <==> r in df && Selected(f, r)
    ensures Subsequence(FilterChain(df, f), df)
  {
    FilterChainIsSelection(df, f);
    SelectionKeeps(df, f);
  }

  /** The year view keeps exactly the filtered rows of the chosen year, each
      as often as among the filtered rows, in order. */
  lemma YearViewKeeps(filtered: seq<Record>, year: Option<int>)
    ensures forall r :: r in YearView(filtered, year) <==> r in filtered && year == Some(r.Year)
    ensures forall r ::
      multiset(YearView(filtered, year))[r] == if year == Some(r.Year) then multiset(filtered)[r] else 0
    ensures Subsequence(YearView(filtered, year), filtered)
  {
    if year.Some? {
      WhereIsSubsequence(filtered, Equals(Year, IntKey(year.value)));
    }
  }

  /** The smallest Year of the table, `df['Year'].min()`; none for an empty
      table. */
  function MinYear(df: seq<Record>): (y: Option<int>)
    ensures y.Some? <==> |df| > 0
    ensures y.Some? ==> (exists r :: r in df && r.Year == y.value) && forall r :: r in df ==> y.value <= r.Year
  {
    if df == [] then None
    else
      var rest := MinYear(df[1..]);
      assert forall r :: r in df <==> r == df[0] || r in df[1..];
      if rest.None? || df[0].Year <= rest.value then Some(df[0].Year) else rest
  }

  /** The beverage names of a sorted key list, in the same order. */
  function Names(ks: seq<Key>): (names: seq<string>)
    requires forall k :: k in ks ==> k.StrKey?
    ensures |names| == |ks|
    ensures forall i :: 0 <= i < |ks| ==> ks[i] == StrKey(names[i])
  {
    assert forall i :: 0 <= i < |ks| ==> ks[i] in ks;
    seq(|ks|, i requires 0 <= i < |ks| => ks[i].text)
  }

  /** The state the controls start in: no continent, every beverage of the
      table in sorted order, all strengths, and the smallest year. */
  function DefaultFilter(df: seq<Record>): (f: FilterState)
    ensures f.continent == None && f.strength == Some(AllStrengths)
    ensures forall i, j :: 0 <= i < j < |f.beverages| ==> StrLess(f.beverages[i], f.beverages[j])
    ensures forall b :: b in f.beverages <==> exists r :: r in df && r.Beverage == b
    ensures f.year == MinYear(df)
  {
    var ks := DistinctKeys(df, Beverage);
    var names := Names(ks);
    forall b ensures b in names <==> exists r :: r in df && r.Beverage == b {
      if b in names {
        var i :| 0 <= i < |names| && names[i] == b;
        assert ks[i] in ks;
      }
      if exists r :: r in df && r.Beverage == b {
        var r :| r in df && r.Beverage == b;
        assert StrKey(b) in KeySet(df, Beverage);
        var i :| 0 <= i < |ks| && ks[i] == StrKey(b);
        assert names[i] == b;
      }
    }
    FilterState(None, names, Some(AllStrengths), MinYear(df))
  }

  lemma {:induction false} SelectionOfAll(df: seq<Record>, f: FilterState)
    requires forall r :: r in df ==> Selected(f, r)
    ensures Selection(df, f) == df
  {
    if df != [] {
      assert df[0] in df;
      SelectionOfAll(df[1..], f);
    }
  }

  /** With the controls in their initial state nothing is filtered out, and a
      non-empty table always has rows in the initial year view. */
  lemma DefaultFilterKeepsAll(df: seq<Record>)
    ensures FilterChain(df, DefaultFilter(df)) == df
    ensures |df| > 0 ==> |YearView(df, DefaultFilter(df).year)| > 0
  {
    var f := DefaultFilter(df);
    SelectionOfAll(df, f);
    FilterChainIsSelection(df, f);
    if |df| > 0 {
      var r :| r in df && r.Year == f.year.value;
      YearViewKeeps(df, f.year);
      assert r in YearView(df, f.year);
    }
  }
}
