/** The two hard-coded test reports (data1.py:104-132): fixed statistics and
    a strict 0.05 threshold on the p-value choosing the text shown. */
module Reports {

  /** Significance level of both reports (data1.py:112, 127). */
  const Alpha: real := 0.05

  /** Shapiro-Wilk statistic and p-value, as written in the source (data1.py:105-106). */
  const ShapiroStatistic: real := 0.3681
  const ShapiroP: real := 0.0

  /** Kruskal-Wallis statistic and p-value, as written in the source (data1.py:120-121). */
  const KruskalStatistic: real := 63.5410
  const KruskalP: real := 0.0

  /** The branch of the normality report. */
  datatype Normality = NotNormal | Normal

  /** The branch of the group-comparison report. */
  datatype Comparison = SignificantDifferences | NoSignificantDifferences

  /** The normality report (data1.py:112-117): "not normal" exactly below 0.05. */
  function NormalityReport(p: real): (v: Normality)
    ensures v == NotNormal <==> p < Alpha
  {
    if p < Alpha then NotNormal else Normal
  }

  /** The comparison report (data1.py:127-132): "significant" exactly below 0.05. */
  function ComparisonReport(p: real): (v: Comparison)
    ensures v == SignificantDifferences <==> p < Alpha
  {
    if p < Alpha then SignificantDifferences else NoSignificantDifferences
  }

  /** The threshold is strict: a p-value of exactly 0.05 takes the "normal"
      and "no significant differences" branches; any smaller value the others. */
  lemma ThresholdIsStrict(p: real)
    ensures NormalityReport(Alpha) == Normal && ComparisonReport(Alpha) == NoSignificantDifferences
    ensures p < Alpha ==> NormalityReport(p) == NotNormal && ComparisonReport(p) == SignificantDifferences
  {
  }

  /** With the p-values written in the source, the dashboard always shows
      "not normal" and "significant differences". */
  lemma HardCodedBranches()
    ensures NormalityReport(ShapiroP) == NotNormal
    ensures ComparisonReport(KruskalP) == SignificantDifferences
  {
  }
}
