/** The loader/cleaner of the dashboard (`load_data`, data1.py:10-17): numeric
    coercion of five columns, two derived flags, and the drop of incomplete rows. */
module Movies {
  import opened Wrappers
  import opened Seqs

  /** One row of movies_metadata.csv as read; `None` is an empty cell. */
  datatype RawRow = RawRow(
    budget: Option<string>,
    revenue: Option<string>,
    popularity: Option<string>,
    voteAverage: Option<string>,
    runtime: Option<string>,
    originalLanguage: Option<string>,
    originalTitle: Option<string>,
    belongsToCollection: Option<string>,
    tagline: Option<string>,
    productionCountries: Option<string>)

  /** One row of the cleaned table: the five coerced columns, the two derived
      flags, and the columns the analyses read unchanged. */
  datatype Row = Row(
    budget: Option<real>,
    revenue: Option<real>,
    popularity: Option<real>,
    voteAverage: Option<real>,
    runtime: Option<real>,
    originalLanguage: Option<string>,
    originalTitle: Option<string>,
    belongsToCollection: bool,
    hasSlogan: bool,
    productionCountries: Option<string>)

  /** Stands for the numeric grammar of `pd.to_numeric`: `Some(v)` when the
      text reads as the number `v`, `None` when it does not parse. */
  type Parser = string -> Option<real>

  /** `pd.to_numeric(..., errors="coerce")` on one cell: an empty cell and a
      cell that does not parse both become missing. */
  function Coerce(cell: Option<string>, parse: Parser): (v: Option<real>)
    ensures v.Some? <==> Readable(cell, parse)
    ensures v.Some? ==> v == parse(cell.value)
  {
    match cell
    case None => None
    case Some(text) => parse(text)
  }

  /** A cell that is present and parses as a number. */
  predicate Readable(cell: Option<string>, parse: Parser)
  {
    cell.Some? && parse(cell.value).Some?
  }

  /** All five numeric cells of a raw row are present and parse. */
  predicate AllReadable(raw: RawRow, parse: Parser)
  {
    && Readable(raw.budget, parse)
    && Readable(raw.revenue, parse)
    && Readable(raw.popularity, parse)
    && Readable(raw.voteAverage, parse)
    && Readable(raw.runtime, parse)
  }

  /** Python's `str.isspace` for one code point: the characters `str.strip()`
      removes when called without arguments. */
  predicate IsSpace(c: char)
  {
    var n := c as int;
    || n == 0x20 || 0x09 <= n <= 0x0D || 0x1C <= n <= 0x1F
    || n == 0x85 || n == 0xA0 || n == 0x1680 || 0x2000 <= n <= 0x200A
    || n == 0x2028 || n == 0x2029 || n == 0x202F || n == 0x205F || n == 0x3000
  }

  /** `s` without its leading whitespace. */
  function TrimStart(s: string): (r: string)
    ensures |r| <= |s| && r == s[|s| - |r|..]
    ensures forall i :: 0 <= i < |s| - |r| ==> IsSpace(s[i])
    ensures r != [] ==> !IsSpace(r[0])
  {
    if s != [] && IsSpace(s[0]) then TrimStart(s[1..]) else s
  }

  /** `s` without its trailing whitespace. */
  function TrimEnd(s: string): (r: string)
    ensures |r| <= |s| && r == s[..|r|]
    ensures forall i :: |r| <= i < |s| ==> IsSpace(s[i])
    ensures r != [] ==> !IsSpace(r[|r| - 1])
  {
    if s != [] && IsSpace(s[|s| - 1]) then TrimEnd(s[..|s| - 1]) else s
  }

  /** `r` is the part of `s` from position `a` on that is left once a
      leading run of `a` whitespace characters and a trailing run of
      whitespace are cut off. */
  ghost predicate MiddleOf(s: string, a: nat, r: string)
  {
    && a + |r| <= |s|
    && r == s[a..a + |r|]
    && (forall i :: 0 <= i < a ==> IsSpace(s[i]))
    && (forall i :: a + |r| <= i < |s| ==> IsSpace(s[i]))
  }

  /** Python's `str.strip()`: the middle of `s` between a leading and a
      trailing run of whitespace, starting and ending with a non-whitespace
      character when not empty. */
  function Strip(s: string): (r: string)
    ensures |r| <= |s|
    ensures r != [] ==> !IsSpace(r[0]) && !IsSpace(r[|r| - 1])
    ensures MiddleOf(s, |s| - |TrimStart(s)|, r)
  {
    var t := TrimStart(s);
    MiddleOfTrims(s, t, TrimEnd(t));
    TrimEnd(t)
  }

  /** Cutting a whitespace prefix off `s` and then a whitespace suffix off
      what is left leaves a middle of `s`. */
  lemma MiddleOfTrims(s: string, t: string, r: string)
    requires |t| <= |s| && t == s[|s| - |t|..]
    requires forall i :: 0 <= i < |s| - |t| ==> IsSpace(s[i])
    requires |r| <= |t| && r == t[..|r|]
    requires forall i :: |r| <= i < |t| ==> IsSpace(t[i])
    ensures MiddleOf(s, |s| - |t|, r)
  {
    var a := |s| - |t|;
    assert r == s[a..a + |r|];
    forall i | a + |r| <= i < |s| ensures IsSpace(s[i]) {
      assert s[i] == t[i - a];
    }
  }

  /** Stripping leaves nothing exactly when every character is whitespace. */
  lemma StripEmptyIffBlank(s: string)
    ensures Strip(s) == [] <==> forall i :: 0 <= i < |s| ==> IsSpace(s[i])
  {
  }

  /** `has_slogan` (data1.py:16): the tagline is present and not blank once
      stripped, so an all-whitespace tagline has no slogan. */
  function HasSlogan(tagline: Option<string>): (b: bool)
    ensures b <==> tagline.Some? && exists i :: 0 <= i < |tagline.value| && !IsSpace(tagline.value[i])
  {
    if tagline.Some? then StripEmptyIffBlank(tagline.value); Strip(tagline.value) != "" else false
  }

  /** The five numeric cells of a cleaned row are all present. */
  predicate Complete(row: Row)
  {
    row.budget.Some? && row.revenue.Some? && row.popularity.Some? && row.voteAverage.Some? && row.runtime.Some?
  }

  /** One raw row after the coercion loop and the two derived columns
      (data1.py:13-16), before the drop. */
  function CoerceRow(raw: RawRow, parse: Parser): (row: Row)
    ensures row.belongsToCollection <==> raw.belongsToCollection.Some?
    ensures row.hasSlogan <==>
              raw.tagline.Some? && exists i :: 0 <= i < |raw.tagline.value| && !IsSpace(raw.tagline.value[i])
    ensures Complete(row) <==> AllReadable(raw, parse)
    ensures row.originalLanguage == raw.originalLanguage && row.originalTitle == raw.originalTitle
    ensures row.productionCountries == raw.productionCountries
    ensures Complete(row) ==>
              && row.budget == parse(raw.budget.value) && row.revenue == parse(raw.revenue.value)
              && row.popularity == parse(raw.popularity.value) && row.voteAverage == parse(raw.voteAverage.value)
              && row.runtime == parse(raw.runtime.value)
  {
    Row(Coerce(raw.budget, parse), Coerce(raw.revenue, parse), Coerce(raw.popularity, parse),
        Coerce(raw.voteAverage, parse), Coerce(raw.runtime, parse),
        raw.originalLanguage, raw.originalTitle,
        raw.belongsToCollection.Some?, HasSlogan(raw.tagline),
        raw.productionCountries)
  }

  /** Every raw row coerced, in order (the table before `dropna`). */
  function CoerceAll(raw: seq<RawRow>, parse: Parser): (rows: seq<Row>)
    ensures |rows| == |raw|
    ensures forall i :: 0 <= i < |raw| ==> rows[i] == CoerceRow(raw[i], parse)
  {
    if raw == [] then [] else CoerceAll(raw[..|raw| - 1], parse) + [CoerceRow(raw[|raw| - 1], parse)]
  }

  /** The table `load_data` returns: the coerced rows with every row missing
      any of the five numeric values dropped (data1.py:17). */
  function Cleaned(raw: seq<RawRow>, parse: Parser): (table: seq<Row>)
    ensures |table| <= |raw|
    ensures forall row :: row in table ==> Complete(row)
  {
    Where(CoerceAll(raw, parse), Complete)
  }

  /** The positions of the raw rows that survive cleaning. */
  function Survivors(raw: seq<RawRow>, parse: Parser): seq<nat>
  {
    Kept(CoerceAll(raw, parse), Complete)
  }

  /** A raw row survives exactly when its five numeric cells are present and
      parse; survivors keep their relative order, so the cleaned table is a
      subsequence of the coerced input, row for row. */
  lemma CleanedKeepsExactlyReadableRows(raw: seq<RawRow>, parse: Parser)
    ensures |Cleaned(raw, parse)| == |Survivors(raw, parse)|
    ensures Increasing(Survivors(raw, parse))
    ensures forall k :: 0 <= k < |Survivors(raw, parse)| ==>
              Survivors(raw, parse)[k] < |raw| &&
              Cleaned(raw, parse)[k] == CoerceRow(raw[Survivors(raw, parse)[k]], parse)
    ensures forall i :: 0 <= i < |raw| ==> (i in Survivors(raw, parse) <==> AllReadable(raw[i], parse))
  {
    var rows := CoerceAll(raw, parse);
    KeptSelectsPositions(rows, Complete);
    WhereKeepsSelectedPositions(rows, Complete);
  }

  /** The five numeric cells of a raw row, in the order of the coercion loop
      (data1.py:13). */
  function NumericCells(raw: RawRow): seq<Option<string>>
  {
    [raw.budget, raw.revenue, raw.popularity, raw.voteAverage, raw.runtime]
  }

  /** A numeric cell that fails to parse becomes missing, not zero or any
      other default, and its whole row is dropped. */
  lemma UnparsedCellDropsRow(raw: seq<RawRow>, parse: Parser, i: nat, cell: Option<string>)
    requires i < |raw| && cell in NumericCells(raw[i])
    requires cell.Some? && parse(cell.value).None?
    ensures Coerce(cell, parse) == None
    ensures !Complete(CoerceRow(raw[i], parse))
    ensures i !in Survivors(raw, parse)
  {
    CleanedKeepsExactlyReadableRows(raw, parse);
  }

  /** Appending one raw row appends its coerced form exactly when it is complete. */
  lemma {:induction false} CleanedAppend(raw: seq<RawRow>, r: RawRow, parse: Parser)
    ensures Cleaned(raw + [r], parse) ==
              Cleaned(raw, parse) + (if AllReadable(r, parse) then [CoerceRow(r, parse)] else [])
  {
  }

  /** The flags are per-row derivations: dropping the incomplete raw rows
      first and deriving afterwards gives the same table. */
  lemma {:induction false} DeriveCommutesWithDrop(raw: seq<RawRow>, parse: Parser)
    ensures Cleaned(raw, parse) == CoerceAll(Where(raw, r => AllReadable(r, parse)), parse)
  {
    if raw != [] {
      var init, last := raw[..|raw| - 1], raw[|raw| - 1];
      assert raw == init + [last];
      DeriveCommutesWithDrop(init, parse);
      CleanedAppend(init, last, parse);
      var kept := Where(init, r => AllReadable(r, parse));
      if AllReadable(last, parse) {
        var k := kept + [last];
        assert k[..|k| - 1] == kept;
      }
    }
  }

  /** `load_data` (data1.py:10-17) on rows already read from the file: each
      row is coerced and flagged, and kept only when all five numbers are present. */
  method LoadData(raw: seq<RawRow>, parse: Parser) returns (table: seq<Row>)
    ensures table == Cleaned(raw, parse)
  {
    table := [];
    var i := 0;
    while i < |raw|
      invariant 0 <= i <= |raw|
      invariant table == Cleaned(raw[..i], parse)
    {
      var row := CoerceRow(raw[i], parse);
      ghost var done := raw[..i];
      assert raw[..i + 1] == done + [raw[i]];
      CleanedAppend(done, raw[i], parse);
      assert Complete(row) <==> AllReadable(raw[i], parse);
      if Complete(row) {
        table := table + [row];
      }
      assert table == Cleaned(raw[..i + 1], parse);
      i := i + 1;
    }
    assert raw[..i] == raw;
  }

  /** Three rows with budgets 1000, missing and 2000 and revenues 5000, 9000
      and 1000: the second row is dropped and two rows remain, in order. */
  lemma ThreeRowScenario(parse: Parser, r1: RawRow, r2: RawRow, r3: RawRow)
    requires r1.budget == Some("1000") && r2.budget == None && r3.budget == Some("2000")
    requires r1.revenue == Some("5000") && r2.revenue == Some("9000") && r3.revenue == Some("1000")
    requires Readable(r1.popularity, parse) && Readable(r1.voteAverage, parse) && Readable(r1.runtime, parse)
    requires Readable(r3.popularity, parse) && Readable(r3.voteAverage, parse) && Readable(r3.runtime, parse)
    requires parse("1000") == Some(1000.0) && parse("2000") == Some(2000.0)
    requires parse("5000") == Some(5000.0) && parse("9000") == Some(9000.0)
    ensures Cleaned([r1, r2, r3], parse) == [CoerceRow(r1, parse), CoerceRow(r3, parse)]
    ensures Cleaned([r1, r2, r3], parse)[0].budget == Some(1000.0)
    ensures Cleaned([r1, r2, r3], parse)[1].budget == Some(2000.0)
  {
    var row1, row2, row3 := CoerceRow(r1, parse), CoerceRow(r2, parse), CoerceRow(r3, parse);
    assert CoerceAll([r1, r2, r3], parse) == [row1, row2, row3];
    KeepDropKeep(row1, row2, row3, Complete);
    assert row1.budget == Some(1000.0) && row3.budget == Some(2000.0);
  }

  /** A mask that keeps the first and third of three rows and drops the second. */
  lemma KeepDropKeep<T(!new)>(a: T, b: T, c: T, keep: T -> bool)
    requires keep(a) && !keep(b) && keep(c)
    ensures Where([a, b, c], keep) == [a, c]
  {
    assert [a, b, c][..2] == [a, b] && [a, b][..1] == [a];
    assert Where([a], keep) == [a];
  }
}
