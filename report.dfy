/**
 * How the two stages relate, and the summary page corrected so that a family
 * without data is left off the page instead of aborting the report.
 */
module Report {
  import opened Tables
  import Grouping
  import opened Summary

  /**
   * A family that gets a chart also gets a summary entry, and the first model of
   * its summary is the representative table's model. (The converse fails: the
   * summary does not skip `concurrency` and looks at every model's own rows.)
   */
  lemma ChartedFamilyIsSummarised(data: Data, prefixes: seq<string>, p: string, d: Direction)
    requires AllRowsNonEmpty(data) && data != []
    requires exists c :: c in Grouping.Charts(Labels(data[0].table), prefixes) && c.family == p
    ensures FamilyEntries(data, d, p) != []
    ensures FamilyEntries(data, d, p)[0].model == data[0].name
  {
    var t := data[0].table;
    Grouping.ChartedExactly(Labels(t), prefixes, p);
    var m :| m in Labels(t) && Grouping.Joins(m, p);
    var i :| 0 <= i < |t| && Labels(t)[i] == m;
    MatchingNonEmptyIff(t, p);
    EntryPosition(data, d, p, 0);
  }

  /** The first configured family that has no setting in `better`. */
  function FirstUnconfigured(prefixes: seq<string>, better: Policy): (r: Option<string>)
    ensures r.None? <==> forall p | p in prefixes :: p in better
    ensures r.Some? ==> r.value in prefixes && r.value !in better
    ensures r.Some? ==>
      exists i :: 0 <= i < |prefixes| && prefixes[i] == r.value
        && forall j | 0 <= j < i :: prefixes[j] in better
  {
    if prefixes == [] then None
    else if prefixes[0] !in better then Some(prefixes[0])
    else
      var r := FirstUnconfigured(prefixes[1..], better);
      assert forall p | p in prefixes :: p == prefixes[0] || p in prefixes[1..];
      UnconfiguredShift(prefixes, better, r);
      r
  }

  /** A first unconfigured family after a configured head is the first of the whole list. */
  lemma UnconfiguredShift(prefixes: seq<string>, better: Policy, r: Option<string>)
    requires prefixes != [] && prefixes[0] in better
    requires r.Some? ==>
      exists i :: 0 <= i < |prefixes[1..]| && prefixes[1..][i] == r.value
        && forall j | 0 <= j < i :: prefixes[1..][j] in better
    ensures r.Some? ==>
      exists i :: 0 <= i < |prefixes| && prefixes[i] == r.value
        && forall j | 0 <= j < i :: prefixes[j] in better
  {
    if r.Some? {
      var i :| 0 <= i < |prefixes[1..]| && prefixes[1..][i] == r.value
        && forall j | 0 <= j < i :: prefixes[1..][j] in better;
      assert prefixes[i + 1] == r.value;
      assert forall j | 1 <= j < i + 1 :: prefixes[j] == prefixes[1..][j - 1];
    }
  }

  /**
   * The top-model table as evidently intended: a family nobody has data for is
   * skipped, as the chart loop skips it, rather than raising `ValueError`.
   */
  function TopTableSkippingEmpty(prefixes: seq<string>, better: Policy, summary: map<string, seq<Entry>>)
    : (r: Result<map<string, string>>)
    requires forall p | p in prefixes :: p in summary
    ensures r.Ok? <==> forall p | p in prefixes :: p in better
    ensures r.Err? ==> r.failure.MissingDirection? && r.failure.family in prefixes && r.failure.family !in better
    ensures r.Ok? ==> r.value.Keys == set p | p in prefixes && summary[p] != []
    ensures r.Ok? ==> forall p | p in r.value ::
      && p in better
      && exists i :: 0 <= i < |summary[p]| && summary[p][i].model == r.value[p]
           && (forall j | 0 <= j < |summary[p]| :: AtLeast(DirectionOf(better[p]), summary[p][i].value, summary[p][j].value))
           && (forall j | 0 <= j < i :: Improves(DirectionOf(better[p]), summary[p][i].value, summary[p][j].value))
    ensures r.Ok? ==> forall p | p in r.value :: p in better && summary[p] != [] && r.value[p] == Winner(DirectionOf(better[p]), summary[p])
  {
    match FirstUnconfigured(prefixes, better)
    case Some(p) => Err(MissingDirection(p))
    case None =>
      var top := map p | p in prefixes && summary[p] != [] :: Winner(DirectionOf(better[p]), summary[p]);
      assert forall p | p in top :: summary[p][BestIndex(DirectionOf(better[p]), summary[p])].model == top[p];
      Ok(top)
  }

  /** Where the report as written succeeds, the corrected one gives the same table. */
  lemma SkippingAgreesWithOriginal(prefixes: seq<string>, better: Policy, summary: map<string, seq<Entry>>)
    requires forall p | p in prefixes :: p in summary
    requires TopTable(prefixes, better, summary).Ok?
    ensures TopTableSkippingEmpty(prefixes, better, summary) == TopTable(prefixes, better, summary)
  {
    var a := TopTableSkippingEmpty(prefixes, better, summary).value;
    var b := TopTable(prefixes, better, summary).value;
    assert a.Keys == b.Keys;
  }

  function ReportTopModelsSkippingEmpty(data: Data, prefixes: seq<string>, better: Policy)
    : Result<map<string, string>>
    requires AllRowsNonEmpty(data)
  {
    match SummaryTable(data, prefixes, better)
    case Err(f) => Err(f)
    case Ok(summary) => TopTableSkippingEmpty(prefixes, better, summary)
  }

  /**
   * With every family configured, the corrected page always exists and lists
   * exactly the families some model has rows for.
   */
  lemma CorrectedReportListsFamiliesWithData(data: Data, prefixes: seq<string>, better: Policy)
    requires AllRowsNonEmpty(data)
    requires forall p | p in prefixes :: p in better
    ensures ReportTopModelsSkippingEmpty(data, prefixes, better).Ok?
    ensures ReportTopModelsSkippingEmpty(data, prefixes, better).value.Keys
      == set p | p in prefixes && HasMatch(data, p)
  {
    var summary := SummaryTable(data, prefixes, better).value;
    forall p | p in prefixes ensures summary[p] != [] <==> HasMatch(data, p) {
      EntriesNonEmptyIff(data, DirectionFor(better, p), p);
    }
  }
}
