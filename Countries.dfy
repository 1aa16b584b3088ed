/** The country extractor of the rating analysis (data1.py:67):
    `astype(str).str.extract(r"'name': '([^']+)'")` on `production_countries`. */
module Countries {
  import opened Wrappers

  /** The literal part of the pattern in front of the capture group. */
  const NamePrefix: string := "'name': '"

  /** The pattern `'name': '([^']+)'` matches `text` at position `p`, with `c`
      as the text of its capture group: the prefix, one or more characters
      other than `'`, then a closing `'`. */
  predicate IsMatch(text: string, p: nat, c: string)
  {
    && |c| > 0
    && (forall i :: 0 <= i < |c| ==> c[i] != '\'')
    && p + |NamePrefix| + |c| < |text|
    && text[p..p + |NamePrefix| + |c| + 1] == NamePrefix + c + "'"
  }

  /** The literal prefix occurs at position `q`. */
  predicate PrefixAt(text: string, q: nat)
  {
    q + |NamePrefix| <= |text| && text[q..q + |NamePrefix|] == NamePrefix
  }

  /** The first position at or after `i` that holds `'`, or `|text|` if none does. */
  function QuoteFrom(text: string, i: nat): (j: nat)
    requires i <= |text|
    ensures i <= j <= |text|
    ensures forall k :: i <= k < j ==> text[k] != '\''
    ensures j < |text| ==> text[j] == '\''
    decreases |text| - i
  {
    if i == |text| || text[i] == '\'' then i else QuoteFrom(text, i + 1)
  }

  /** The pattern matches at `p` with at most one capture: the run of
      non-`'` characters after the prefix, up to the first `'`. */
  lemma MatchIsQuoteRun(text: string, p: nat, c: string)
    requires IsMatch(text, p, c)
    ensures NameAt(text, p) == Some(c)
  {
    var start := p + |NamePrefix|;
    var m := text[p..start + |c| + 1];
    assert m == NamePrefix + c + "'";
    assert forall k :: 0 <= k < |NamePrefix| ==> text[p + k] == m[k];
    assert text[p..start] == m[..|NamePrefix|];
    assert forall k :: 0 <= k < |c| ==> text[start + k] == c[k];
    assert text[start + |c|] == m[|NamePrefix| + |c|] == '\'';
    assert text[start..start + |c|] == c;
  }

  /** Where `NameAt` finds nothing, the pattern does not match. */
  lemma NoCaptureNoMatch(text: string, p: nat)
    requires NameAt(text, p).None?
    ensures forall c :: !IsMatch(text, p, c)
  {
    forall c | IsMatch(text, p, c) ensures false {
      MatchIsQuoteRun(text, p, c);
    }
  }

  /** The capture of the match at position `p`, if the pattern matches there.
      The greedy `[^']+` must stop at the first `'`, so a match at `p` has
      only one possible capture. */
  function NameAt(text: string, p: nat): (r: Option<string>)
    ensures r.Some? ==> IsMatch(text, p, r.value)
  {
    var start := p + |NamePrefix|;
    if PrefixAt(text, p) then
      var j := QuoteFrom(text, start);
      if start < j < |text| then
        assert text[p..j + 1] == NamePrefix + text[start..j] + "'";
        Some(text[start..j])
      else None
    else None
  }

  /** The capture of the leftmost match at or after position `p`. */
  function ExtractFrom(text: string, p: nat): (r: Option<string>)
    ensures r.None? <==> forall q, c :: p <= q ==> !IsMatch(text, q, c)
    ensures r.Some? ==>
              exists q :: p <= q && IsMatch(text, q, r.value) &&
                          forall q', c :: p <= q' < q ==> !IsMatch(text, q', c)
    decreases |text| - p
  {
    if p >= |text| then None
    else
      match NameAt(text, p)
      case Some(c) => Some(c)
      case None => NoCaptureNoMatch(text, p); ExtractFrom(text, p + 1)
  }

  /** `str.extract` with the pattern `'name': '([^']+)'`: the capture of the
      leftmost match, or missing when the pattern matches nowhere. */
  function ExtractCountry(text: string): (r: Option<string>)
    ensures r.None? <==> forall q, c :: !IsMatch(text, q, c)
    ensures r.Some? ==> |r.value| > 0 && forall i :: 0 <= i < |r.value| ==> r.value[i] != '\''
    ensures r.Some? ==>
              exists q :: IsMatch(text, q, r.value) && forall q', c :: q' < q ==> !IsMatch(text, q', c)
  {
    ExtractFrom(text, 0)
  }

  /** `astype(str)` on a `production_countries` cell: a missing cell becomes "nan". */
  function Stringify(cell: Option<string>): (text: string)
    ensures cell.Some? ==> text == cell.value
    ensures cell.None? ==> |text| < |NamePrefix|
  {
    match cell
    case None => "nan"
    case Some(s) => s
  }

  /** A match starts with the first two characters of the prefix. */
  lemma MatchOpensWithQuoteN(text: string, q: nat, c: string)
    ensures IsMatch(text, q, c) ==> text[q] == '\'' && text[q + 1] == 'n'
  {
  }

  /** A match has the whole prefix in front of a first captured character
      that is not `'`. */
  lemma MatchHasPrefixAndCapture(text: string, q: nat, c: string)
    ensures IsMatch(text, q, c) ==>
              && PrefixAt(text, q) && q + |NamePrefix| < |text| && text[q + |NamePrefix|] != '\''
  {
    if IsMatch(text, q, c) {
      var m := text[q..q + |NamePrefix| + |c| + 1];
      assert m[..|NamePrefix|] == NamePrefix;
      assert m[|NamePrefix|] == c[0];
    }
  }

  /** No country is found when every occurrence of the prefix is directly
      followed by `'` or by the end of the text (or there is none at all). */
  lemma EmptyCapturesGiveNoCountry(text: string)
    requires forall q: nat :: PrefixAt(text, q) ==>
               q + |NamePrefix| == |text| || text[q + |NamePrefix|] == '\''
    ensures ExtractCountry(text) == None
  {
    forall q: nat, c ensures !IsMatch(text, q, c) {
      MatchHasPrefixAndCapture(text, q, c);
    }
  }

  /** Conversely, the leftmost match decides the result: if the pattern
      matches at `p` with capture `c` and nowhere before `p`, the extracted
      country is `c`. */
  lemma LeftmostMatchIsExtracted(text: string, p: nat, c: string)
    requires IsMatch(text, p, c)
    requires forall q: nat, c' :: q < p ==> !IsMatch(text, q, c')
    ensures ExtractCountry(text) == Some(c)
  {
    var r := ExtractCountry(text);
    var q :| IsMatch(text, q, r.value) && forall q', c' :: q' < q ==> !IsMatch(text, q', c');
    assert q == p;
    MatchIsQuoteRun(text, p, c);
    MatchIsQuoteRun(text, p, r.value);
  }

  /** A missing cell is stringified as "nan", which is too short to match,
      so its row gets no country. */
  lemma MissingCellHasNoCountry()
    ensures ExtractCountry(Stringify(None)) == None
  {
  }

  /** The usual shape of the field: the first `name` entry is extracted. */
  lemma UnitedStatesExample()
    ensures ExtractCountry("[{'iso_3166_1': 'US', 'name': 'United States'}]") == Some("United States")
  {
    var text := UnitedStatesText();
    NoMatchBefore(text, 22);
    assert IsMatch(text, 22, "United States");
    LeftmostMatchIsExtracted(text, 22, "United States");
  }

  /** The example cell, with its `'name'` entry at position 22 and no `'n`
      before it. */
  lemma UnitedStatesText() returns (text: string)
    ensures text == "[{'iso_3166_1': 'US', 'name': 'United States'}]"
    ensures text[22..45] == NamePrefix + "United States" + "'"
    ensures forall q: nat :: q < 22 ==> text[q] != '\'' || text[q + 1] != 'n'
  {
    var head := "[{'iso_3166_1': 'US', ";
    text := head + NamePrefix + "United States" + "'}]";
    assert text[22..45] == NamePrefix + "United States" + "'";
    assert forall q :: 0 <= q < 22 ==> text[q] == head[q];
    assert forall q :: 0 <= q < 22 && head[q] == '\'' ==> q == 2 || q == 13 || q == 16 || q == 19;
    forall q: nat | q < 22 ensures text[q] != '\'' || text[q + 1] != 'n' {
      if q == 21 {
        assert text[22] == '\'';
      }
    }
  }

  /** The pattern cannot match before position `p` when no `'` before `p`
      is followed by `n`. */
  lemma NoMatchBefore(text: string, p: nat)
    requires p < |text|
    requires forall q: nat :: q < p ==> text[q] != '\'' || text[q + 1] != 'n'
    ensures forall q: nat, c :: q < p ==> !IsMatch(text, q, c)
  {
    forall q: nat, c | q < p ensures !IsMatch(text, q, c) {
      MatchOpensWithQuoteN(text, q, c);
    }
  }
}
