/** The selections each analysis of the dashboard makes over the shared
    cleaned table (data1.py:21-93). Every view is a function of the table
    value, so building a view never changes the table the others read. */
module Views {
  import opened Wrappers
  import opened Seqs
  import opened Movies
  import opened Selection
  import opened Countries

  /** Outlier cutoff of the runtime analysis (data1.py:42). */
  const RuntimeCutoff: real := 300.0
  /** Outlier cutoff of the collection analysis, `1e9` (data1.py:85). */
  const RevenueCutoff: real := 1000000000.0
  /** Number of languages of the runtime boxplot (data1.py:43). */
  const RuntimeLanguageCount: nat := 8
  /** Number of languages, and of countries, of the rating boxplots (data1.py:68, 74). */
  const RatingGroupCount: nat := 6
  /** Bin count of every histogram (data1.py:27, 30, 58, 91). */
  const HistogramBins: nat := 50

  /** `column < bound` as pandas evaluates it: a missing value compares false. */
  predicate Below(cell: Option<real>, bound: real)
  {
    cell.Some? && cell.value < bound
  }

  /** The mask of the runtime analysis, `df["runtime"] < 300`. */
  predicate UnderRuntimeCutoff(row: Row)
  {
    Below(row.runtime, RuntimeCutoff)
  }

  /** The mask of the collection analysis, `df["revenue"] < 1e9`. */
  predicate UnderRevenueCutoff(row: Row)
  {
    Below(row.revenue, RevenueCutoff)
  }

  function Language(row: Row): Option<string>
  {
    row.originalLanguage
  }

  /** `df[df["runtime"] < 300]` (data1.py:42). */
  function RuntimeView(table: seq<Row>): (view: seq<Row>)
    ensures forall row :: row in view <==> row in table && row.runtime.Some? && row.runtime.value < RuntimeCutoff
  {
    Where(table, UnderRuntimeCutoff)
  }

  /** `df[df["revenue"] < 1e9]` (data1.py:85). */
  function RevenueView(table: seq<Row>): (view: seq<Row>)
    ensures forall row :: row in view <==> row in table && row.revenue.Some? && row.revenue.value < RevenueCutoff
  {
    Where(table, UnderRevenueCutoff)
  }

  /** Both cutoffs are strict: a row exactly at the cutoff is left out. */
  lemma CutoffsAreStrict(table: seq<Row>, row: Row)
    requires row in table
    ensures row.runtime == Some(RuntimeCutoff) ==> row !in RuntimeView(table)
    ensures row.revenue == Some(RevenueCutoff) ==> row !in RevenueView(table)
  {
  }

  /** Both outlier views are sub-tables: the rows they keep appear in the
      table's order, and every other row of the table is one they reject. */
  lemma OutlierViewsKeepOrder(table: seq<Row>)
    ensures |Kept(table, UnderRuntimeCutoff)| == |RuntimeView(table)|
    ensures Increasing(Kept(table, UnderRuntimeCutoff))
    ensures forall k :: 0 <= k < |RuntimeView(table)| ==>
              Kept(table, UnderRuntimeCutoff)[k] < |table| && RuntimeView(table)[k] == table[Kept(table, UnderRuntimeCutoff)[k]]
    ensures |Kept(table, UnderRevenueCutoff)| == |RevenueView(table)|
    ensures Increasing(Kept(table, UnderRevenueCutoff))
    ensures forall k :: 0 <= k < |RevenueView(table)| ==>
              Kept(table, UnderRevenueCutoff)[k] < |table| && RevenueView(table)[k] == table[Kept(table, UnderRevenueCutoff)[k]]
  {
    KeptSelectsPositions(table, UnderRuntimeCutoff);
    WhereKeepsSelectedPositions(table, UnderRuntimeCutoff);
    KeptSelectsPositions(table, UnderRevenueCutoff);
    WhereKeepsSelectedPositions(table, UnderRevenueCutoff);
  }

  /** The eight languages of the runtime boxplot (data1.py:43), counted over
      the rows under the runtime cutoff, not over the whole table. */
  function RuntimeLanguages(table: seq<Row>): (langs: seq<string>)
    ensures |langs| <= RuntimeLanguageCount
    ensures forall i, j :: 0 <= i < j < |langs| ==> langs[i] != langs[j]
    ensures forall row :: (row in RuntimeView(table) && row.originalLanguage.Some? &&
               !HasKeyIn(row.originalLanguage, langs)) ==> |langs| == RuntimeLanguageCount
    ensures forall l :: l in langs ==>
              exists row :: row in table && Below(row.runtime, RuntimeCutoff) && row.originalLanguage == Some(l)
    ensures forall a, row ::
              (a in langs && row in RuntimeView(table) && row.originalLanguage.Some? &&
               !HasKeyIn(row.originalLanguage, langs)) ==>
              Occurrences(RuntimeView(table), Language, row.originalLanguage.value) <=
              Occurrences(RuntimeView(table), Language, a)
  {
    TopKeys(RuntimeView(table), Language, RuntimeLanguageCount)
  }

  /** The rows of the runtime boxplot (data1.py:44): under the cutoff and in
      one of the selected languages. */
  function RuntimeBoxRows(table: seq<Row>): (box: seq<Row>)
    ensures forall row :: row in box <==>
              row in table && Below(row.runtime, RuntimeCutoff) && HasKeyIn(row.originalLanguage, RuntimeLanguages(table))
    ensures forall row :: multiset(box)[row] ==
              if HasKeyIn(row.originalLanguage, RuntimeLanguages(table)) then multiset(RuntimeView(table))[row] else 0
  {
    InGroups(RuntimeView(table), Language, RuntimeLanguages(table))
  }

  /** The groups of the slogan analysis (data1.py:53, 57): rows with a slogan
      and rows without one. */
  function SloganGroups(table: seq<Row>): (groups: (seq<Row>, seq<Row>))
    ensures forall row :: row in groups.0 <==> row in table && row.hasSlogan
    ensures forall row :: row in groups.1 <==> row in table && !row.hasSlogan
  {
    SplitBy(table, (row: Row) => row.hasSlogan)
  }

  /** The groups of the collection analysis (data1.py:86, 90): rows under the
      revenue cutoff, split by membership of a collection. */
  function CollectionGroups(table: seq<Row>): (groups: (seq<Row>, seq<Row>))
    ensures forall row :: row in groups.0 <==> row in table && Below(row.revenue, RevenueCutoff) && row.belongsToCollection
    ensures forall row :: row in groups.1 <==> row in table && Below(row.revenue, RevenueCutoff) && !row.belongsToCollection
  {
    SplitBy(RevenueView(table), (row: Row) => row.belongsToCollection)
  }

  /** The six languages of the rating-by-language boxplot (data1.py:68),
      counted over the whole table. */
  function RatingLanguages(table: seq<Row>): (langs: seq<string>)
    ensures |langs| <= RatingGroupCount
    ensures forall i, j :: 0 <= i < j < |langs| ==> langs[i] != langs[j]
    ensures forall row :: (row in table && row.originalLanguage.Some? &&
               !HasKeyIn(row.originalLanguage, langs)) ==> |langs| == RatingGroupCount
    ensures forall l :: l in langs ==> exists row :: row in table && row.originalLanguage == Some(l)
    ensures forall a, row ::
              (a in langs && row in table && row.originalLanguage.Some? &&
               !HasKeyIn(row.originalLanguage, langs)) ==>
              Occurrences(table, Language, row.originalLanguage.value) <= Occurrences(table, Language, a)
  {
    TopKeys(table, Language, RatingGroupCount)
  }

  /** The rows of the rating-by-language boxplot (data1.py:69). */
  function RatingByLanguageRows(table: seq<Row>): (box: seq<Row>)
    ensures forall row :: row in box <==> row in table && HasKeyIn(row.originalLanguage, RatingLanguages(table))
    ensures forall row :: multiset(box)[row] ==
              if HasKeyIn(row.originalLanguage, RatingLanguages(table)) then multiset(table)[row] else 0
  {
    InGroups(table, Language, RatingLanguages(table))
  }

  /** A row of the table after the `production_country` column is added. */
  datatype CountryRow = CountryRow(row: Row, productionCountry: Option<string>)

  /** The `production_country` value of one row (data1.py:67). */
  function CountryOf(row: Row): (country: Option<string>)
    ensures country.None? <==> forall q, c :: !IsMatch(Stringify(row.productionCountries), q, c)
    ensures row.productionCountries.None? ==> country.None?
    ensures country.Some? ==> |country.value| > 0 && forall i :: 0 <= i < |country.value| ==> country.value[i] != '\''
  {
    ExtractCountry(Stringify(row.productionCountries))
  }

  function Country(c: CountryRow): Option<string>
  {
    c.productionCountry
  }

  /** `df = df.copy()` followed by the new `production_country` column
      (data1.py:66-67): a copy of the table, row by row, with the extracted
      country beside each row. */
  method AddProductionCountry(table: seq<Row>) returns (withCountry: seq<CountryRow>)
    ensures |withCountry| == |table|
    ensures forall i :: 0 <= i < |table| ==>
              withCountry[i].row == table[i] && withCountry[i].productionCountry == CountryOf(table[i])
  {
    withCountry := [];
    for i := 0 to |table|
      invariant |withCountry| == i
      invariant forall k :: 0 <= k < i ==>
                  withCountry[k].row == table[k] && withCountry[k].productionCountry == CountryOf(table[k])
    {
      withCountry := withCountry + [CountryRow(table[i], CountryOf(table[i]))];
    }
  }

  /** The six countries of the rating-by-country boxplot (data1.py:74); rows
      without an extracted country are not counted. */
  function RatingCountries(withCountry: seq<CountryRow>): (countries: seq<string>)
    ensures |countries| <= RatingGroupCount
    ensures forall i, j :: 0 <= i < j < |countries| ==> countries[i] != countries[j]
    ensures forall c :: (c in withCountry && c.productionCountry.Some? &&
               !HasKeyIn(c.productionCountry, countries)) ==> |countries| == RatingGroupCount
    ensures forall k :: k in countries ==> exists c :: c in withCountry && c.productionCountry == Some(k)
    ensures forall a, c ::
              (a in countries && c in withCountry && c.productionCountry.Some? &&
               !HasKeyIn(c.productionCountry, countries)) ==>
              Occurrences(withCountry, Country, c.productionCountry.value) <= Occurrences(withCountry, Country, a)
  {
    TopKeys(withCountry, Country, RatingGroupCount)
  }

  /** The rows of the rating-by-country boxplot (data1.py:75); a row whose
      country is missing never appears. */
  function RatingByCountryRows(withCountry: seq<CountryRow>): (box: seq<CountryRow>)
    ensures forall c :: c in box <==> c in withCountry && HasKeyIn(c.productionCountry, RatingCountries(withCountry))
    ensures forall c :: c in box ==> c.productionCountry.Some? && c.productionCountry.value in RatingCountries(withCountry)
    ensures forall c :: multiset(box)[c] ==
              if HasKeyIn(c.productionCountry, RatingCountries(withCountry)) then multiset(withCountry)[c] else 0
  {
    InGroups(withCountry, Country, RatingCountries(withCountry))
  }
}
