/**
 * The benchmark of `Fixtures` worked through the model.
 */
module Scenarios {
  import opened Tables
  import Sanitize
  import Grouping
  import opened Summary
  import Report
  import opened Fixtures

  lemma RelevantRows()
    ensures Matching(ModelA.table, Qpm) == [Row(Qpm, [5, 50])]
    ensures Matching(ModelB.table, Qpm) == [Row(Qpm, [6, 40])]
  {
    assert !StartsWith(ConcurrencyLabel, Qpm);
    assert StartsWith(Qpm, Qpm);
    assert ModelA.table[..1] == [Row(ConcurrencyLabel, [1, 10])];
    assert ModelB.table[..1] == [Row(ConcurrencyLabel, [1, 10])];
  }

  lemma QpmValues()
    ensures NonEmptyRows(ModelA.table) && NonEmptyRows(ModelB.table)
    ensures Matching(ModelA.table, Qpm) != [] && FamilyValue(Higher, ModelA.table, Qpm) == 50
    ensures Matching(ModelB.table, Qpm) != [] && FamilyValue(Higher, ModelB.table, Qpm) == 40
  {
    RelevantRows();
    OneRowOfTwoCells(ModelA.table, Qpm, 5, 50);
    OneRowOfTwoCells(ModelB.table, Qpm, 6, 40);
  }

  lemma OneRowOfTwoCells(t: Table, p: string, x: int, y: int)
    requires NonEmptyRows(t) && Matching(t, p) == [Row(p, [x, y])] && x <= y
    ensures FamilyValue(Higher, t, p) == y
  {
    assert [Row(p, [x, y])][..0] == [];
    assert Cells([Row(p, [x, y])]) == [x, y];
    assert [x, y][..1] == [x];
  }

  lemma QpmSummary()
    ensures FamilyEntries(Benchmark, Higher, Qpm) == [Entry("modelA", 50), Entry("modelB", 40)]
  {
    QpmValues();
    TwoModelsBothMatching(ModelA, ModelB, Higher, Qpm);
  }

  lemma TwoModelsBothMatching(a: Model, b: Model, d: Direction, p: string)
    requires NonEmptyRows(a.table) && NonEmptyRows(b.table)
    requires Matching(a.table, p) != [] && Matching(b.table, p) != []
    ensures AllRowsNonEmpty([a, b])
    ensures FamilyEntries([a, b], d, p) == [EntryOf(d, a, p), EntryOf(d, b, p)]
  {
    assert [a, b][..1] == [a] && [a][..0] == [];
    assert AllRowsNonEmpty([a]);
    assert FamilyEntries([a], d, p) == [EntryOf(d, a, p)];
    assert FamilyEntries([a, b], d, p) == FamilyEntries([a], d, p) + [EntryOf(d, b, p)];
  }

  lemma QpmSummaryTable()
    ensures SummaryTable(Benchmark, [Qpm], HigherQpm)
      == Ok(map[Qpm := [Entry("modelA", 50), Entry("modelB", 40)]])
  {
    QpmSummary();
    OneFamilySummary(Benchmark, Qpm, HigherQpm);
  }

  lemma OneFamilySummary(data: Data, p: string, better: Policy)
    requires AllRowsNonEmpty(data) && p in better
    ensures SummaryTable(data, [p], better) == Ok(map[p := FamilyEntries(data, DirectionOf(better[p]), p)])
  {
    assert [p][1..] == [];
    assert Summaries(data, [p], better) == map[p := FamilyEntries(data, DirectionOf(better[p]), p)];
  }

  /** Model A's maximum of 50 beats model B's 40 in the "higher" family. */
  lemma QpmTopModel()
    ensures ReportTopModels(Benchmark, [Qpm], HigherQpm) == Ok(map[Qpm := "modelA"])
  {
    QpmSummaryTable();
    OneFamilyTop(Qpm, HigherQpm, [Entry("modelA", 50), Entry("modelB", 40)]);
    FirstOfTwoWins(Entry("modelA", 50), Entry("modelB", 40));
  }

  lemma OneFamilyTop(p: string, better: Policy, e: seq<Entry>)
    requires p in better && e != []
    ensures TopTable([p], better, map[p := e]) == Ok(map[p := Winner(DirectionOf(better[p]), e)])
  {
    assert [p][1..] == [];
    assert Winners([p], better, map[p := e]) == map[p := Winner(DirectionOf(better[p]), e)];
  }

  lemma FirstOfTwoWins(x: Entry, y: Entry)
    requires x.value >= y.value
    ensures Winner(Higher, [x, y]) == x.model
  {
    assert [x, y][..1] == [x];
  }

  lemma NoTtftRows()
    ensures !HasMatch(Benchmark, Ttft)
    ensures HasMatch(Benchmark, Qpm)
  {
    RelevantRows();
    assert !StartsWith(ConcurrencyLabel, Ttft) && !StartsWith(Qpm, Ttft);
    forall k | 0 <= k < |Benchmark| ensures Matching(Benchmark[k].table, Ttft) == [] {
      assert Benchmark[k].table[..1] == [Row(ConcurrencyLabel, [1, 10])];
      assert Benchmark[k].table[..1][..0] == [];
    }
    assert Matching(Benchmark[0].table, Qpm) != [];
  }

  /** No label of the representative table starts with the time-to-first-token prefix: no chart. */
  lemma NoTtftChart()
    ensures !exists c :: c in Grouping.Charts(Labels(ModelA.table), [Qpm, Ttft]) && c.family == Ttft
  {
    var metrics := Labels(ModelA.table);
    assert metrics == [ConcurrencyLabel, Qpm];
    assert !StartsWith(ConcurrencyLabel, Ttft) && !StartsWith(Qpm, Ttft);
    Grouping.ChartedExactly(metrics, [Qpm, Ttft], Ttft);
  }

  /**
   * No model has time-to-first-token rows, yet the family is configured: the
   * summary page as written fails on it.
   */
  lemma FamilyWithoutDataAbortsReport()
    ensures ReportTopModels(Benchmark, [Qpm, Ttft], BothConfigured) == Err(EmptyFamily(Ttft))
  {
    NoTtftRows();
    SecondFamilyWithoutDataFails(Benchmark, Qpm, Ttft, BothConfigured);
  }

  lemma SecondFamilyWithoutDataFails(data: Data, a: string, b: string, better: Policy)
    requires AllRowsNonEmpty(data) && a in better && b in better
    requires HasMatch(data, a) && !HasMatch(data, b)
    ensures ReportTopModels(data, [a, b], better) == Err(EmptyFamily(b))
  {
    FirstFamilyWithoutDataFails(data, [a, b], better, 1);
  }

  /** The corrected summary page survives and lists the one family with data. */
  lemma CorrectedReportSkipsFamilyWithoutData()
    ensures Report.ReportTopModelsSkippingEmpty(Benchmark, [Qpm, Ttft], BothConfigured).Ok?
    ensures Report.ReportTopModelsSkippingEmpty(Benchmark, [Qpm, Ttft], BothConfigured).value.Keys == {Qpm}
  {
    var prefixes := [Qpm, Ttft];
    NoTtftRows();
    assert forall p | p in prefixes :: p in BothConfigured;
    Report.CorrectedReportListsFamiliesWithData(Benchmark, prefixes, BothConfigured);
    OnlyFirstHasData(Benchmark, Qpm, Ttft);
  }

  lemma OnlyFirstHasData(data: Data, a: string, b: string)
    requires HasMatch(data, a) && !HasMatch(data, b)
    ensures (set p | p in [a, b] && HasMatch(data, p)) == {a}
  {
  }
}
