/**
 * `plot_metrics` without the drawing: the representative table, the grouping of
 * its row labels by family prefix, and the families that get a chart, with the
 * file each chart is written to.
 */
module Grouping {
  import opened Tables
  import Sanitize

  /** Whether row label `m` is put in the group of prefix `p` (lines 29-32). */
  predicate Joins(m: string, p: string) {
    m != ConcurrencyLabel && StartsWith(m, p)
  }

  function Copies(m: string, n: nat): seq<string> {
    if n == 0 then [] else Copies(m, n - 1) + [m]
  }

  /**
   * The list `grouped_metrics[p]` ends with: in label order, every label that joins
   * `p`, appended once for every occurrence of `p` in the prefix list (a repeated
   * prefix is one dictionary key that the inner loop visits twice).
   */
  function GroupOf(metrics: seq<string>, prefixes: seq<string>, p: string): seq<string> {
    if metrics == [] then []
    else
      var m := metrics[|metrics| - 1];
      GroupOf(metrics[..|metrics| - 1], prefixes, p)
        + (if Joins(m, p) then Copies(m, Occurrences(prefixes, p)) else [])
  }

  /** Reference: the labels joining `p`, in label order, each once. */
  function Select(metrics: seq<string>, p: string): seq<string> {
    if metrics == [] then []
    else
      var m := metrics[|metrics| - 1];
      Select(metrics[..|metrics| - 1], p) + (if Joins(m, p) then [m] else [])
  }

  /** One pass of the inner loop (lines 31-33): label `m` appended to every group it starts with. */
  method AddMetric(grouped: map<string, seq<string>>, m: string, prefixes: seq<string>)
    returns (updated: map<string, seq<string>>)
    requires forall p | p in prefixes :: p in grouped
    ensures updated.Keys == grouped.Keys
    ensures forall p | p in updated ::
      updated[p] == grouped[p] + (if StartsWith(m, p) then Copies(m, Occurrences(prefixes, p)) else [])
  {
    updated := grouped;
    var j := 0;
    while j < |prefixes|
      invariant 0 <= j <= |prefixes|
      invariant updated.Keys == grouped.Keys
      invariant forall p | p in updated ::
        updated[p] == grouped[p] + (if StartsWith(m, p) then Copies(m, Occurrences(prefixes[..j], p)) else [])
    {
      var p := prefixes[j];
      ghost var before := updated;
      if StartsWith(m, p) {
        updated := updated[p := updated[p] + [m]];
      }
      AppendStep(grouped, before, updated, m, prefixes, j);
      j := j + 1;
    }
    assert prefixes[..j] == prefixes;
  }

  /** One visit of the inner loop keeps the groups equal to the appends of the prefixes visited so far. */
  lemma AppendStep(grouped: map<string, seq<string>>, before: map<string, seq<string>>,
                   after: map<string, seq<string>>, m: string, prefixes: seq<string>, j: nat)
    requires j < |prefixes| && before.Keys == grouped.Keys && prefixes[j] in before
    requires forall q | q in before ::
      before[q] == grouped[q] + (if StartsWith(m, q) then Copies(m, Occurrences(prefixes[..j], q)) else [])
    requires after == if StartsWith(m, prefixes[j]) then before[prefixes[j] := before[prefixes[j]] + [m]] else before
    ensures after.Keys == grouped.Keys
    ensures forall q | q in after ::
      after[q] == grouped[q] + (if StartsWith(m, q) then Copies(m, Occurrences(prefixes[..j + 1], q)) else [])
  {
    forall q | q in after
      ensures after[q] == grouped[q]
        + (if StartsWith(m, q) then Copies(m, Occurrences(prefixes[..j + 1], q)) else [])
    {
      OccurrencesOfPrefix(prefixes, j, q);
      if q == prefixes[j] && StartsWith(m, q) {
        var n := Occurrences(prefixes[..j], q);
        assert after[q] == (grouped[q] + Copies(m, n)) + [m];
        assert Copies(m, n + 1) == Copies(m, n) + [m];
      } else {
        assert after[q] == before[q];
      }
    }
  }

  lemma OccurrencesOfPrefix<T>(s: seq<T>, j: nat, x: T)
    requires j < |s|
    ensures Occurrences(s[..j + 1], x) == Occurrences(s[..j], x) + (if s[j] == x then 1 else 0)
  {
    assert s[..j + 1][..j] == s[..j];
  }

  /** The nested loop of lines 27-33, appending to the lists of a dictionary. */
  method GroupMetrics(metrics: seq<string>, prefixes: seq<string>) returns (grouped: map<string, seq<string>>)
    ensures grouped.Keys == set p | p in prefixes
    ensures forall p | p in grouped :: grouped[p] == GroupOf(metrics, prefixes, p)
  {
    grouped := map p | p in prefixes :: [];
    var i := 0;
    while i < |metrics|
      invariant 0 <= i <= |metrics|
      invariant grouped.Keys == set p | p in prefixes
      invariant forall p | p in grouped :: grouped[p] == GroupOf(metrics[..i], prefixes, p)
    {
      var m := metrics[i];
      assert metrics[..i + 1][..i] == metrics[..i];
      if m != ConcurrencyLabel {
        grouped := AddMetric(grouped, m, prefixes);
      }
      i := i + 1;
    }
    assert metrics[..i] == metrics;
  }

  lemma {:induction false} CopiesMembers(m: string, n: nat, x: string)
    ensures x in Copies(m, n) <==> n > 0 && x == m
  {
    if n > 0 {
      CopiesMembers(m, n - 1, x);
    }
  }

  /**
   * A label is in the group of `p` exactly when it is a row label of the
   * representative table, is not `concurrency`, starts with `p`, and `p` is a
   * configured prefix. A label joining several prefixes is in each of their groups.
   */
  lemma {:induction false} GroupMembers(metrics: seq<string>, prefixes: seq<string>, p: string, x: string)
    ensures x in GroupOf(metrics, prefixes, p) <==> x in metrics && Joins(x, p) && p in prefixes
  {
    if metrics != [] {
      var init, m := metrics[..|metrics| - 1], metrics[|metrics| - 1];
      assert metrics == init + [m];
      GroupMembers(init, prefixes, p, x);
      CopiesMembers(m, Occurrences(prefixes, p), x);
      OccurrencesPositive(prefixes, p);
    }
  }

  /** With `p` configured once, its group is exactly the order-preserving selection. */
  lemma {:induction false} GroupIsSelection(metrics: seq<string>, prefixes: seq<string>, p: string)
    requires Occurrences(prefixes, p) == 1
    ensures GroupOf(metrics, prefixes, p) == Select(metrics, p)
  {
    if metrics != [] {
      GroupIsSelection(metrics[..|metrics| - 1], prefixes, p);
      assert Copies(metrics[|metrics| - 1], 1) == [metrics[|metrics| - 1]];
    }
  }

  /** A label of a prefix configured once appears in its group as often as among the labels. */
  lemma {:induction false} SelectCounts(metrics: seq<string>, p: string, x: string)
    requires Joins(x, p)
    ensures Occurrences(Select(metrics, p), x) == Occurrences(metrics, x)
  {
    if metrics != [] {
      var init, m := metrics[..|metrics| - 1], metrics[|metrics| - 1];
      SelectCounts(init, p, x);
      var s := Select(init, p);
      if Joins(m, p) {
        assert Select(metrics, p) == s + [m];
        assert (s + [m])[..|s + [m]| - 1] == s;
      } else {
        assert Select(metrics, p) == s;
        assert m != x;
      }
    }
  }

  /** The selection lists the labels in the representative table's row order. */
  lemma {:induction false} SelectInOrder(metrics: seq<string>, p: string)
    ensures Subseq(Select(metrics, p), metrics)
  {
    if metrics != [] {
      var init, m := metrics[..|metrics| - 1], metrics[|metrics| - 1];
      SelectInOrder(init, p);
      var s := Select(init, p);
      if Joins(m, p) {
        assert Select(metrics, p) == s + [m];
        assert (s + [m])[..|s + [m]| - 1] == s;
      } else {
        assert Select(metrics, p) == s;
        if s != [] {
          assert Subseq(s, metrics[..|metrics| - 1]);
        }
      }
    }
  }

  /** The dictionary's keys in insertion order: each prefix at its first occurrence. */
  function KeyOrder(prefixes: seq<string>): (keys: seq<string>)
    ensures forall q :: q in keys <==> q in prefixes
    ensures forall i, j | 0 <= i < j < |keys| :: keys[i] != keys[j]
  {
    if prefixes == [] then []
    else
      var init, q := KeyOrder(prefixes[..|prefixes| - 1]), prefixes[|prefixes| - 1];
      assert forall x :: x in prefixes <==> x in prefixes[..|prefixes| - 1] || x == q;
      if q in init then init else init + [q]
  }

  /** `keys[i]` first occurs in `prefixes` after every earlier occurrence of `keys[..i]` only. */
  predicate FirstSeenAfter(prefixes: seq<string>, keys: seq<string>, i: nat)
    requires i < |keys|
  {
    exists a :: 0 <= a < |prefixes| && prefixes[a] == keys[i]
      && forall b | 0 <= b < a :: prefixes[b] in keys[..i]
  }

  /** Insertion order: each key's first occurrence is preceded only by the keys listed before it. */
  lemma {:induction false} KeyOrderFirstSeen(prefixes: seq<string>)
    ensures forall i | 0 <= i < |KeyOrder(prefixes)| :: FirstSeenAfter(prefixes, KeyOrder(prefixes), i)
  {
    if prefixes != [] {
      var n := |prefixes|;
      var pre, q := prefixes[..n - 1], prefixes[n - 1];
      var init, keys := KeyOrder(pre), KeyOrder(prefixes);
      KeyOrderFirstSeen(pre);
      assert prefixes == pre + [q];
      assert init == keys[..|init|];
      forall i | 0 <= i < |keys|
        ensures FirstSeenAfter(prefixes, keys, i)
      {
        if i < |init| {
          FirstSeenExtends(pre, q, init, keys, i);
        } else {
          assert keys == init + [q] && i == |init|;
          assert keys[..i] == init;
          assert forall b | 0 <= b < n - 1 :: prefixes[b] == pre[b];
          assert prefixes[n - 1] == keys[i];
        }
      }
    }
  }

  /** A key already listed for a prefix of the list keeps its first occurrence. */
  lemma FirstSeenExtends(pre: seq<string>, q: string, init: seq<string>, keys: seq<string>, i: nat)
    requires i < |init| <= |keys| && init == keys[..|init|]
    requires FirstSeenAfter(pre, init, i)
    ensures FirstSeenAfter(pre + [q], keys, i)
  {
    var a :| 0 <= a < |pre| && pre[a] == init[i]
      && forall b | 0 <= b < a :: pre[b] in init[..i];
    assert keys[..i] == init[..i];
    assert (pre + [q])[a] == keys[i];
    assert forall b | 0 <= b < a :: (pre + [q])[b] == pre[b];
  }

  /** One chart: its family, the metrics drawn on it, and the image file it is saved as. */
  datatype Chart = Chart(family: string, metrics: seq<string>, file: string)

  /** The image file of a family (lines 49-50, without the directory). */
  function ImageFile(p: string): string {
    Sanitize.SafeFilename(p) + ".png"
  }

  /** The charts drawn when the dictionary's keys are visited in the order `keys`. */
  function ChartsFor(metrics: seq<string>, prefixes: seq<string>, keys: seq<string>): seq<Chart> {
    if keys == [] then []
    else
      var p := keys[|keys| - 1];
      var group := GroupOf(metrics, prefixes, p);
      ChartsFor(metrics, prefixes, keys[..|keys| - 1])
        + (if group == [] then [] else [Chart(p, group, ImageFile(p))])
  }

  function Charts(metrics: seq<string>, prefixes: seq<string>): seq<Chart> {
    ChartsFor(metrics, prefixes, KeyOrder(prefixes))
  }

  /** The first model, in data order, whose table has no row `metric`. */
  function FirstLacking(data: Data, metric: string): (r: Option<nat>)
    ensures r.None? <==> forall k | 0 <= k < |data| :: HasRow(data[k].table, metric)
    ensures r.Some? ==>
      && r.value < |data| && !HasRow(data[r.value].table, metric)
      && forall k | 0 <= k < r.value :: HasRow(data[k].table, metric)
  {
    if data == [] then None
    else if !HasRow(data[0].table, metric) then Some(0)
    else
      match FirstLacking(data[1..], metric)
      case None => None
      case Some(k) => Some(k + 1)
  }

  /**
   * The `KeyError` of `df.loc[metric]` (line 41) while one chart is drawn: metrics
   * in group order, models in data order, the first pair without the row.
   */
  function SeriesFailure(data: Data, group: seq<string>): Option<Failure> {
    if group == [] then None
    else
      match FirstLacking(data, group[0])
      case Some(k) => Some(MissingMetric(data[k].name, group[0]))
      case None => SeriesFailure(data, group[1..])
  }

  /**
   * Drawing one chart fails exactly when some model lacks one of its metrics,
   * and then the failure names such a model and metric.
   */
  lemma {:induction false} SeriesFailureCases(data: Data, group: seq<string>)
    ensures SeriesFailure(data, group).None? <==>
      forall i, k | 0 <= i < |group| && 0 <= k < |data| :: HasRow(data[k].table, group[i])
    ensures var r := SeriesFailure(data, group);
      r.Some? ==>
        && r.value.MissingMetric? && r.value.metric in group
        && exists k :: 0 <= k < |data| && data[k].name == r.value.model && !HasRow(data[k].table, r.value.metric)
  {
    if group != [] {
      SeriesFailureCases(data, group[1..]);
      assert forall i | 1 <= i < |group| :: group[1..][i - 1] == group[i];
      var lacking := FirstLacking(data, group[0]);
      if lacking.Some? {
        var k := lacking.value;
        assert 0 <= k < |data| && !HasRow(data[k].table, group[0]);
      }
    }
  }

  /** The first failure while the charts are drawn in order. */
  function DrawFailure(data: Data, charts: seq<Chart>): Option<Failure> {
    if charts == [] then None
    else if SeriesFailure(data, charts[0].metrics).Some? then SeriesFailure(data, charts[0].metrics)
    else DrawFailure(data, charts[1..])
  }

  /** Drawing the charts fails exactly when drawing one of them fails, and then with that chart's failure. */
  lemma {:induction false} DrawFailureCases(data: Data, charts: seq<Chart>)
    ensures DrawFailure(data, charts).None? <==> forall c | c in charts :: SeriesFailure(data, c.metrics).None?
    ensures DrawFailure(data, charts).Some? ==>
      exists c :: c in charts && SeriesFailure(data, c.metrics) == DrawFailure(data, charts)
  {
    if charts != [] {
      DrawFailureCases(data, charts[1..]);
      assert forall c | c in charts :: c == charts[0] || c in charts[1..];
    }
  }

  /** What `plot_metrics` ends with: the charts saved, or the exception raised. */
  function PlotOutcome(data: Data, prefixes: seq<string>): Result<seq<Chart>> {
    if data == [] then Err(NoTables)
    else if !HasRow(data[0].table, ConcurrencyLabel) then Err(NoConcurrencyRow)
    else
      var charts := Charts(Labels(data[0].table), prefixes);
      match DrawFailure(data, charts)
      case Some(f) => Err(f)
      case None => Ok(charts)
  }

  /** pandas' label lookup `df.loc[metric]`: whether the table has that row. */
  method FindRow(t: Table, metric: string) returns (found: bool)
    ensures found == HasRow(t, metric)
  {
    var n := 0;
    while n < |t| && t[n].metric != metric
      invariant 0 <= n <= |t|
      invariant forall j | 0 <= j < n :: t[j].metric != metric
    {
      n := n + 1;
    }
    return n < |t|;
  }

  /** Line 40-41 for one metric: the models in data order, until one lacks the row. */
  method FindLacking(data: Data, metric: string) returns (r: Option<nat>)
    ensures r == FirstLacking(data, metric)
  {
    var k := 0;
    while k < |data|
      invariant 0 <= k <= |data|
      invariant forall j | 0 <= j < k :: HasRow(data[j].table, metric)
    {
      var found := FindRow(data[k].table, metric);
      if !found {
        return Some(k);
      }
      k := k + 1;
    }
    return None;
  }

  /** Lines 39-41: one series per metric of the group and per model. */
  method DrawChart(data: Data, group: seq<string>) returns (f: Option<Failure>)
    ensures f == SeriesFailure(data, group)
  {
    var i := 0;
    while i < |group|
      invariant 0 <= i <= |group|
      invariant SeriesFailure(data, group[i..]) == SeriesFailure(data, group)
    {
      var metric := group[i];
      assert group[i..][0] == metric && group[i..][1..] == group[i + 1..];
      var lacking := FindLacking(data, metric);
      if lacking.Some? {
        return Some(MissingMetric(data[lacking.value].name, metric));
      }
      i := i + 1;
    }
    return None;
  }

  /**
   * `plot_metrics` without the drawing itself: the first table is the
   * representative one, its `concurrency` row must exist, every non-empty group
   * gets a chart, and every model must have every metric drawn.
   */
  method PlotMetrics(data: Data, prefixes: seq<string>) returns (r: Result<seq<Chart>>)
    ensures r == PlotOutcome(data, prefixes)
  {
    if |data| == 0 {
      return Err(NoTables);
    }
    var hasConcurrency := FindRow(data[0].table, ConcurrencyLabel);
    if !hasConcurrency {
      return Err(NoConcurrencyRow);
    }
    var metrics := Labels(data[0].table);
    var grouped := GroupMetrics(metrics, prefixes);
    r := DrawCharts(data, metrics, prefixes, grouped);
  }

  /** Lines 35-52: the groups visited in key order, the empty ones skipped. */
  method DrawCharts(data: Data, metrics: seq<string>, prefixes: seq<string>, grouped: map<string, seq<string>>)
    returns (r: Result<seq<Chart>>)
    requires grouped.Keys == set p | p in prefixes
    requires forall p | p in grouped :: grouped[p] == GroupOf(metrics, prefixes, p)
    ensures DrawFailure(data, Charts(metrics, prefixes)).Some? ==>
      r == Err(DrawFailure(data, Charts(metrics, prefixes)).value)
    ensures DrawFailure(data, Charts(metrics, prefixes)).None? ==> r == Ok(Charts(metrics, prefixes))
  {
    var keys := KeyOrder(prefixes);
    var charts: seq<Chart> := [];
    var n := 0;
    while n < |keys|
      invariant 0 <= n <= |keys|
      invariant charts == ChartsFor(metrics, prefixes, keys[..n])
      invariant DrawFailure(data, charts).None?
    {
      var p := keys[n];
      assert keys[..n + 1][..n] == keys[..n];
      ChartsForPrefix(metrics, prefixes, keys, n + 1);
      var group := grouped[p];
      if group != [] {
        var failure := DrawChart(data, group);
        var chart := Chart(p, group, ImageFile(p));
        assert ChartsFor(metrics, prefixes, keys[..n + 1]) == charts + [chart];
        DrawFailureOfAppend(data, charts, chart);
        if failure.Some? {
          DrawFailureOfPrefix(data, charts + [chart], Charts(metrics, prefixes));
          return Err(failure.value);
        }
        charts := charts + [chart];
      }
      n := n + 1;
    }
    assert keys[..n] == keys;
    return Ok(charts);
  }

  lemma {:induction false} ChartsForPrefix(metrics: seq<string>, prefixes: seq<string>, keys: seq<string>, n: nat)
    requires n <= |keys|
    ensures ChartsFor(metrics, prefixes, keys[..n]) <= ChartsFor(metrics, prefixes, keys)
    decreases |keys| - n
  {
    if n < |keys| {
      ChartsForPrefix(metrics, prefixes, keys[..|keys| - 1], n);
      assert keys[..|keys| - 1][..n] == keys[..n];
    } else {
      assert keys[..n] == keys;
    }
  }

  /** The outcome of `plot_metrics` in terms of the input, failure by failure. */
  lemma PlotOutcomeCases(data: Data, prefixes: seq<string>)
    ensures data == [] <==> PlotOutcome(data, prefixes) == Err(NoTables)
    ensures data != [] && !HasRow(data[0].table, ConcurrencyLabel) <==>
      PlotOutcome(data, prefixes) == Err(NoConcurrencyRow)
    ensures PlotOutcome(data, prefixes).Ok? <==>
      && data != [] && HasRow(data[0].table, ConcurrencyLabel)
      && forall c, m, k | c in Charts(Labels(data[0].table), prefixes) && m in c.metrics && 0 <= k < |data| ::
           HasRow(data[k].table, m)
    ensures PlotOutcome(data, prefixes).Ok? ==>
      PlotOutcome(data, prefixes).value == Charts(Labels(data[0].table), prefixes)
  {
    if data != [] && HasRow(data[0].table, ConcurrencyLabel) {
      var charts := Charts(Labels(data[0].table), prefixes);
      DrawFailureCases(data, charts);
      if DrawFailure(data, charts).None? {
        forall c, m, k | c in charts && m in c.metrics && 0 <= k < |data|
          ensures HasRow(data[k].table, m)
        {
          SeriesFailureCases(data, c.metrics);
          var i :| 0 <= i < |c.metrics| && c.metrics[i] == m;
        }
      } else {
        var c :| c in charts && SeriesFailure(data, c.metrics) == DrawFailure(data, charts);
        SeriesFailureCases(data, c.metrics);
        var m := SeriesFailure(data, c.metrics).value.metric;
        var k :| 0 <= k < |data| && !HasRow(data[k].table, m);
      }
    }
  }

  lemma {:induction false} DrawFailureOfAppend(data: Data, charts: seq<Chart>, c: Chart)
    requires DrawFailure(data, charts).None?
    ensures DrawFailure(data, charts + [c]) == SeriesFailure(data, c.metrics)
  {
    if charts != [] {
      assert (charts + [c])[1..] == charts[1..] + [c];
      DrawFailureOfAppend(data, charts[1..], c);
    } else {
      assert [c][1..] == [];
    }
  }

  /** The first failure of a prefix that fails is the first failure of the whole. */
  lemma {:induction false} DrawFailureOfPrefix(data: Data, charts: seq<Chart>, all: seq<Chart>)
    requires charts <= all && DrawFailure(data, charts).Some?
    ensures DrawFailure(data, all) == DrawFailure(data, charts)
  {
    assert charts[0] == all[0];
    var f := SeriesFailure(data, charts[0].metrics);
    if f.Some? {
      assert DrawFailure(data, all) == f;
    } else {
      assert charts[1..] <= all[1..];
      DrawFailureOfPrefix(data, charts[1..], all[1..]);
      assert DrawFailure(data, all) == DrawFailure(data, all[1..]);
    }
  }

  lemma {:induction false} ChartsForMembers(metrics: seq<string>, prefixes: seq<string>, keys: seq<string>, c: Chart)
    ensures c in ChartsFor(metrics, prefixes, keys) <==>
      c.family in keys && c.metrics == GroupOf(metrics, prefixes, c.family)
      && c.metrics != [] && c.file == ImageFile(c.family)
  {
    if keys != [] {
      var init := keys[..|keys| - 1];
      assert keys == init + [keys[|keys| - 1]];
      ChartsForMembers(metrics, prefixes, init, c);
    }
  }

  /**
   * A family gets a chart exactly when it is configured and some label of the
   * representative table joins it; the chart carries that family's group and is
   * saved under the sanitised family name.
   */
  lemma ChartedExactly(metrics: seq<string>, prefixes: seq<string>, p: string)
    ensures (exists c :: c in Charts(metrics, prefixes) && c.family == p)
      <==> p in prefixes && exists m :: m in metrics && Joins(m, p)
    ensures forall c | c in Charts(metrics, prefixes) ::
      c.family in prefixes && c.metrics == GroupOf(metrics, prefixes, c.family)
      && c.metrics != [] && c.file == ImageFile(c.family)
  {
    var keys := KeyOrder(prefixes);
    forall c | c in Charts(metrics, prefixes)
      ensures c.family in prefixes && c.metrics == GroupOf(metrics, prefixes, c.family)
      && c.metrics != [] && c.file == ImageFile(c.family)
    {
      ChartsForMembers(metrics, prefixes, keys, c);
    }
    if p in prefixes && exists m :: m in metrics && Joins(m, p) {
      var m :| m in metrics && Joins(m, p);
      GroupMembers(metrics, prefixes, p, m);
      var c := Chart(p, GroupOf(metrics, prefixes, p), ImageFile(p));
      ChartsForMembers(metrics, prefixes, keys, c);
    }
    if exists c :: c in Charts(metrics, prefixes) && c.family == p {
      var c :| c in Charts(metrics, prefixes) && c.family == p;
      ChartsForMembers(metrics, prefixes, keys, c);
      var x := c.metrics[0];
      GroupMembers(metrics, prefixes, p, x);
    }
  }

  /** No family is drawn twice, even when it is configured twice. */
  lemma {:induction false} ChartsDistinct(metrics: seq<string>, prefixes: seq<string>, keys: seq<string>)
    requires forall i, j | 0 <= i < j < |keys| :: keys[i] != keys[j]
    ensures var cs := ChartsFor(metrics, prefixes, keys);
      forall i, j | 0 <= i < j < |cs| :: cs[i].family != cs[j].family
  {
    if keys != [] {
      var init := keys[..|keys| - 1];
      ChartsDistinct(metrics, prefixes, init);
      var cs := ChartsFor(metrics, prefixes, init);
      forall i | 0 <= i < |cs| ensures cs[i].family != keys[|keys| - 1] {
        ChartsForMembers(metrics, prefixes, init, cs[i]);
      }
    }
  }
}
