/**
 * The summary page of `create_pdf`: for every family and every model the extreme
 * value over that model's rows of the family (`summary`), then the model with the
 * best such value per family (`top_models`).
 */
module Summary {
  import opened Tables

  /** `better[prefix]`: the value "higher" selects the maximum, anything else the minimum. */
  datatype Direction = Higher | Lower

  function DirectionOf(setting: string): (d: Direction)
    ensures d == Higher <==> setting == "higher"
  {
    if setting == "higher" then Higher else Lower
  }

  /** The `better` dictionary: family prefix to its setting. */
  type Policy = map<string, string>

  /**
   * The direction the summary loop uses for `p`. A prefix without a setting only
   * reaches the summary when no model has rows for it (otherwise `better[prefix]`
   * raises first), so its entries do not depend on the direction chosen here.
   */
  function DirectionFor(better: Policy, p: string): Direction {
    if p in better then DirectionOf(better[p]) else Lower
  }

  /** A row is relevant to `p` when its label starts with `p`; `concurrency` is not excluded here. */
  function Matching(t: Table, p: string): (rows: Table)
    ensures |rows| <= |t|
  {
    if t == [] then []
    else
      var init := Matching(t[..|t| - 1], p);
      init + (if StartsWith(t[|t| - 1].metric, p) then [t[|t| - 1]] else [])
  }

  /** The relevant rows keep the table's row order. */
  lemma {:induction false} MatchingInOrder(t: Table, p: string)
    ensures Subseq(Matching(t, p), t)
  {
    if t != [] {
      var init, last := t[..|t| - 1], t[|t| - 1];
      MatchingInOrder(init, p);
      var m := Matching(init, p);
      if StartsWith(last.metric, p) {
        assert Matching(t, p) == m + [last];
        assert (m + [last])[..|m + [last]| - 1] == m;
      } else {
        assert Matching(t, p) == m;
        if m != [] {
          assert Subseq(m, t[..|t| - 1]);
        }
      }
    }
  }

  /** A row is relevant exactly when it is a row of the table whose label starts with `p`. */
  lemma {:induction false} MatchingMembers(t: Table, p: string, r: Row)
    ensures r in Matching(t, p) <==> r in t && StartsWith(r.metric, p)
  {
    if t != [] {
      var init, last := t[..|t| - 1], t[|t| - 1];
      MatchingMembers(init, p, r);
      assert t == init + [last];
      if StartsWith(last.metric, p) {
        assert Matching(t, p) == Matching(init, p) + [last];
      } else {
        assert Matching(t, p) == Matching(init, p);
      }
    }
  }

  /** `df.loc[relevant_metrics]` has rows exactly when some label starts with `p`. */
  lemma MatchingNonEmptyIff(t: Table, p: string)
    ensures Matching(t, p) != [] <==> exists i :: 0 <= i < |t| && StartsWith(t[i].metric, p)
  {
    if Matching(t, p) != [] {
      var r := Matching(t, p)[0];
      MatchingMembers(t, p, r);
      var i :| 0 <= i < |t| && t[i] == r;
    } else {
      forall i | 0 <= i < |t|
        ensures !StartsWith(t[i].metric, p)
      {
        MatchingMembers(t, p, t[i]);
      }
    }
  }

  /** Every cell of the rows, row after row. */
  function Cells(rows: Table): (cells: seq<int>)
    ensures NonEmptyRows(rows) ==> |cells| >= |rows|
  {
    if rows == [] then [] else Cells(rows[..|rows| - 1]) + rows[|rows| - 1].cells
  }

  predicate NonEmptyRows(t: Table) {
    forall i | 0 <= i < |t| :: t[i].cells != []
  }

  /**
   * Every row of every table holds at least one value. pandas tables are
   * rectangular, so this excludes only tables without data columns.
   */
  predicate AllRowsNonEmpty(data: Data) {
    forall k | 0 <= k < |data| :: NonEmptyRows(data[k].table)
  }

  function Max(xs: seq<int>): (r: int)
    requires xs != []
    ensures r in xs
    ensures forall x | x in xs :: x <= r
  {
    if |xs| == 1 then xs[0]
    else
      var m := Max(xs[..|xs| - 1]);
      assert forall x | x in xs :: x in xs[..|xs| - 1] || x == xs[|xs| - 1];
      if xs[|xs| - 1] > m then xs[|xs| - 1] else m
  }

  function Min(xs: seq<int>): (r: int)
    requires xs != []
    ensures r in xs
    ensures forall x | x in xs :: r <= x
  {
    if |xs| == 1 then xs[0]
    else
      var m := Min(xs[..|xs| - 1]);
      assert forall x | x in xs :: x in xs[..|xs| - 1] || x == xs[|xs| - 1];
      if xs[|xs| - 1] < m then xs[|xs| - 1] else m
  }

  /** `v` is at least as good as `w` in direction `d`. */
  predicate AtLeast(d: Direction, v: int, w: int) {
    if d == Higher then v >= w else v <= w
  }

  /** `v` is strictly better than `w`: the comparison Python's `max`/`min` replaces on. */
  predicate Improves(d: Direction, v: int, w: int) {
    if d == Higher then v > w else v < w
  }

  /** `df.loc[relevant_metrics].max().max()` or `.min().min()` (lines 85-90). */
  function FamilyValue(d: Direction, t: Table, p: string): int
    requires NonEmptyRows(t) && Matching(t, p) != []
  {
    MatchingKeepsNonEmpty(t, p);
    var cells := Cells(Matching(t, p));
    if d == Higher then Max(cells) else Min(cells)
  }

  lemma {:induction false} MatchingKeepsNonEmpty(t: Table, p: string)
    requires NonEmptyRows(t)
    ensures NonEmptyRows(Matching(t, p))
  {
    if t != [] {
      MatchingKeepsNonEmpty(t[..|t| - 1], p);
    }
  }

  lemma CellsOfAppend(rows: Table, row: Row)
    ensures Cells(rows + [row]) == Cells(rows) + row.cells
  {
    assert (rows + [row])[..|rows|] == rows;
  }

  lemma {:induction false} MatchingCells(t: Table, p: string, x: int)
    ensures x in Cells(Matching(t, p)) <==>
      exists i :: 0 <= i < |t| && StartsWith(t[i].metric, p) && x in t[i].cells
  {
    if x in Cells(Matching(t, p)) {
      CellComesFromRow(t, p, x);
    }
    if exists i :: 0 <= i < |t| && StartsWith(t[i].metric, p) && x in t[i].cells {
      var i :| 0 <= i < |t| && StartsWith(t[i].metric, p) && x in t[i].cells;
      RowCellIsCell(t, p, i, x);
    }
  }

  lemma {:induction false} CellComesFromRow(t: Table, p: string, x: int)
    requires x in Cells(Matching(t, p))
    ensures exists i :: 0 <= i < |t| && StartsWith(t[i].metric, p) && x in t[i].cells
  {
    var init, last := t[..|t| - 1], t[|t| - 1];
    var m := Matching(init, p);
    if StartsWith(last.metric, p) {
      assert Matching(t, p) == m + [last];
      CellsOfAppend(m, last);
    } else {
      assert Matching(t, p) == m;
    }
    if x in Cells(m) {
      CellComesFromRow(init, p, x);
      var i :| 0 <= i < |init| && StartsWith(init[i].metric, p) && x in init[i].cells;
      assert t[i] == init[i];
    } else {
      assert StartsWith(last.metric, p) && x in last.cells;
    }
  }

  lemma {:induction false} RowCellIsCell(t: Table, p: string, i: nat, x: int)
    requires i < |t| && StartsWith(t[i].metric, p) && x in t[i].cells
    ensures x in Cells(Matching(t, p))
  {
    var init, last := t[..|t| - 1], t[|t| - 1];
    var m := Matching(init, p);
    if StartsWith(last.metric, p) {
      assert Matching(t, p) == m + [last];
      CellsOfAppend(m, last);
    } else {
      assert Matching(t, p) == m;
    }
    if i < |init| {
      assert init[i] == t[i];
      RowCellIsCell(init, p, i, x);
    }
  }

  /**
   * The value of a model in family `p` is one of the cells of its rows starting
   * with `p`, and it is at least as good as every such cell: the maximum for
   * "higher", the minimum otherwise.
   */
  lemma FamilyValueIsExtreme(d: Direction, t: Table, p: string)
    requires NonEmptyRows(t) && Matching(t, p) != []
    ensures exists i, j ::
      0 <= i < |t| && StartsWith(t[i].metric, p) && 0 <= j < |t[i].cells| && t[i].cells[j] == FamilyValue(d, t, p)
    ensures forall i, j | 0 <= i < |t| && StartsWith(t[i].metric, p) && 0 <= j < |t[i].cells| ::
      AtLeast(d, FamilyValue(d, t, p), t[i].cells[j])
  {
    var v := FamilyValue(d, t, p);
    MatchingCells(t, p, v);
    forall i, j | 0 <= i < |t| && StartsWith(t[i].metric, p) && 0 <= j < |t[i].cells|
      ensures AtLeast(d, v, t[i].cells[j])
    {
      MatchingCells(t, p, t[i].cells[j]);
    }
  }

  /** One entry of the ordered dictionary `summary[p]`. */
  datatype Entry = Entry(model: string, value: int)

  function EntryOf(d: Direction, m: Model, p: string): Entry
    requires NonEmptyRows(m.table) && Matching(m.table, p) != []
  {
    Entry(m.name, FamilyValue(d, m.table, p))
  }

  /** `summary[p]` in insertion order: the models with a relevant row, in data order. */
  function FamilyEntries(data: Data, d: Direction, p: string): seq<Entry>
    requires AllRowsNonEmpty(data)
  {
    if data == [] then []
    else
      var last := data[|data| - 1];
      FamilyEntries(data[..|data| - 1], d, p)
        + (if Matching(last.table, p) != [] then [EntryOf(d, last, p)] else [])
  }

  /** Some model has a row whose label starts with `p`. */
  predicate HasMatch(data: Data, p: string) {
    exists k :: 0 <= k < |data| && Matching(data[k].table, p) != []
  }

  /**
   * `summary[p]` has an entry for a model exactly when that model's own table has
   * a row starting with `p`, and the entry holds that model's family value.
   */
  lemma {:induction false} EntriesMembers(data: Data, d: Direction, p: string, x: Entry)
    requires AllRowsNonEmpty(data)
    ensures x in FamilyEntries(data, d, p) <==>
      exists k :: 0 <= k < |data| && Matching(data[k].table, p) != [] && x == EntryOf(d, data[k], p)
  {
    if x in FamilyEntries(data, d, p) {
      EntryComesFromModel(data, d, p, x);
    }
    if exists k :: 0 <= k < |data| && Matching(data[k].table, p) != [] && x == EntryOf(d, data[k], p) {
      var k :| 0 <= k < |data| && Matching(data[k].table, p) != [] && x == EntryOf(d, data[k], p);
      EntryPosition(data, d, p, k);
    }
  }

  lemma {:induction false} EntryComesFromModel(data: Data, d: Direction, p: string, x: Entry)
    requires AllRowsNonEmpty(data) && x in FamilyEntries(data, d, p)
    ensures exists k :: 0 <= k < |data| && Matching(data[k].table, p) != [] && x == EntryOf(d, data[k], p)
  {
    var init, last := data[..|data| - 1], data[|data| - 1];
    assert AllRowsNonEmpty(init) by {
      forall k | 0 <= k < |init| ensures NonEmptyRows(init[k].table) {
        assert init[k] == data[k];
      }
    }
    var front := FamilyEntries(init, d, p);
    if x in front {
      EntryComesFromModel(init, d, p, x);
      var k :| 0 <= k < |init| && Matching(init[k].table, p) != [] && x == EntryOf(d, init[k], p);
      assert data[k] == init[k];
    } else {
      assert Matching(last.table, p) != [] && x == EntryOf(d, last, p);
    }
  }

  lemma EntriesNonEmptyIff(data: Data, d: Direction, p: string)
    requires AllRowsNonEmpty(data)
    ensures FamilyEntries(data, d, p) != [] <==> HasMatch(data, p)
  {
    var e := FamilyEntries(data, d, p);
    if e != [] {
      EntryComesFromModel(data, d, p, e[0]);
    }
    if HasMatch(data, p) {
      var k :| 0 <= k < |data| && Matching(data[k].table, p) != [];
      EntryPosition(data, d, p, k);
    }
  }

  /** With distinct model names, no model has two entries. */
  lemma {:induction false} EntriesDistinct(data: Data, d: Direction, p: string)
    requires AllRowsNonEmpty(data) && DistinctNames(data)
    ensures var e := FamilyEntries(data, d, p);
      forall i, j | 0 <= i < j < |e| :: e[i].model != e[j].model
  {
    if data != [] {
      var init, last := data[..|data| - 1], data[|data| - 1];
      EntriesDistinct(init, d, p);
      var e := FamilyEntries(init, d, p);
      forall i | 0 <= i < |e| ensures e[i].model != last.name {
        EntriesMembers(init, d, p, e[i]);
      }
      if Matching(last.table, p) != [] {
        assert FamilyEntries(data, d, p) == e + [EntryOf(d, last, p)];
      } else {
        assert FamilyEntries(data, d, p) == e;
      }
    }
  }

  /** The entries of a prefix of the data are a prefix of the entries. */
  lemma {:induction false} EntriesOfPrefix(data: Data, d: Direction, p: string, n: nat)
    requires AllRowsNonEmpty(data) && n <= |data|
    ensures FamilyEntries(data[..n], d, p) <= FamilyEntries(data, d, p)
    decreases |data| - n
  {
    if n < |data| {
      EntriesOfPrefix(data[..|data| - 1], d, p, n);
      assert data[..|data| - 1][..n] == data[..n];
    } else {
      assert data[..n] == data;
    }
  }

  /** Where model `k`'s entry sits in `summary[p]`: after those of the matching models before it. */
  lemma EntryPosition(data: Data, d: Direction, p: string, k: nat)
    requires AllRowsNonEmpty(data) && k < |data| && Matching(data[k].table, p) != []
    ensures var pos := |FamilyEntries(data[..k], d, p)|;
      pos < |FamilyEntries(data, d, p)| && FamilyEntries(data, d, p)[pos] == EntryOf(d, data[k], p)
  {
    EntriesOfPrefix(data, d, p, k + 1);
    assert data[..k + 1][..k] == data[..k];
  }

  /** Entries keep the data order: a model before another has its entry first. */
  lemma EntryOrder(data: Data, d: Direction, p: string, j: nat, k: nat)
    requires AllRowsNonEmpty(data) && j < k <= |data| && Matching(data[j].table, p) != []
    ensures |FamilyEntries(data[..j], d, p)| < |FamilyEntries(data[..k], d, p)|
  {
    EntriesOfPrefix(data[..k], d, p, j + 1);
    assert data[..k][..j + 1] == data[..j + 1];
    assert data[..j + 1][..j] == data[..j];
  }

  /**
   * The index Python's `max(d, key=d.get)` / `min(...)` returns: a left-to-right scan
   * that replaces its candidate only on a strictly better value.
   */
  function BestIndex(d: Direction, e: seq<Entry>): (k: nat)
    requires e != []
    ensures k < |e|
    ensures forall j | 0 <= j < |e| :: AtLeast(d, e[k].value, e[j].value)
    ensures forall j | 0 <= j < k :: Improves(d, e[k].value, e[j].value)
  {
    if |e| == 1 then 0
    else
      var k := BestIndex(d, e[..|e| - 1]);
      assert forall j | 0 <= j < |e| - 1 :: e[..|e| - 1][j] == e[j];
      if Improves(d, e[|e| - 1].value, e[k].value) then |e| - 1 else k
  }

  /** The first prefix whose setting is missing although some model has rows for it. */
  function FirstMissing(data: Data, prefixes: seq<string>, better: Policy): (r: Option<string>)
    ensures r.Some? ==> r.value in prefixes && r.value !in better && HasMatch(data, r.value)
    ensures r.None? <==> forall p | p in prefixes :: p in better || !HasMatch(data, p)
    ensures r.Some? ==>
      exists i :: 0 <= i < |prefixes| && prefixes[i] == r.value
        && forall j | 0 <= j < i :: prefixes[j] in better || !HasMatch(data, prefixes[j])
  {
    if prefixes == [] then None
    else if prefixes[0] !in better && HasMatch(data, prefixes[0]) then Some(prefixes[0])
    else
      var r := FirstMissing(data, prefixes[1..], better);
      assert forall p | p in prefixes :: p == prefixes[0] || p in prefixes[1..];
      FirstMissingShift(data, prefixes, better, r);
      r
  }

  /** A first missing setting after a head that has one (or no rows) is the first of the whole list. */
  lemma FirstMissingShift(data: Data, prefixes: seq<string>, better: Policy, r: Option<string>)
    requires prefixes != [] && (prefixes[0] in better || !HasMatch(data, prefixes[0]))
    requires r.Some? ==>
      exists i :: 0 <= i < |prefixes[1..]| && prefixes[1..][i] == r.value
        && forall j | 0 <= j < i :: prefixes[1..][j] in better || !HasMatch(data, prefixes[1..][j])
    ensures r.Some? ==>
      exists i :: 0 <= i < |prefixes| && prefixes[i] == r.value
        && forall j | 0 <= j < i :: prefixes[j] in better || !HasMatch(data, prefixes[j])
  {
    if r.Some? {
      var i :| 0 <= i < |prefixes[1..]| && prefixes[1..][i] == r.value
        && forall j | 0 <= j < i :: prefixes[1..][j] in better || !HasMatch(data, prefixes[1..][j]);
      assert prefixes[i + 1] == r.value;
      assert forall j | 1 <= j < i + 1 :: prefixes[j] == prefixes[1..][j - 1];
    }
  }

  /** The outcome of the summary loop (lines 81-90). */
  function SummaryTable(data: Data, prefixes: seq<string>, better: Policy): Result<map<string, seq<Entry>>>
    requires AllRowsNonEmpty(data)
  {
    match FirstMissing(data, prefixes, better)
    case Some(p) => Err(MissingDirection(p))
    case None => Ok(Summaries(data, prefixes, better))
  }

  /** `summary` once the loop has visited `prefixes`: each family mapped to its entries. */
  function Summaries(data: Data, prefixes: seq<string>, better: Policy): map<string, seq<Entry>>
    requires AllRowsNonEmpty(data)
  {
    map p | p in prefixes :: FamilyEntries(data, DirectionFor(better, p), p)
  }

  lemma SummariesStep(data: Data, prefixes: seq<string>, better: Policy, i: nat)
    requires AllRowsNonEmpty(data) && i < |prefixes|
    ensures Summaries(data, prefixes[..i + 1], better)
      == Summaries(data, prefixes[..i], better)[prefixes[i] := FamilyEntries(data, DirectionFor(better, prefixes[i]), prefixes[i])]
  {
    assert prefixes[..i + 1] == prefixes[..i] + [prefixes[i]];
  }

  /**
   * Lines 83-90 for one prefix: the inner loop over the models, which raises
   * on the first model with relevant rows when `p` has no setting.
   */
  method SummariseFamily(data: Data, p: string, better: Policy) returns (r: Result<seq<Entry>>)
    requires AllRowsNonEmpty(data)
    ensures p !in better && HasMatch(data, p) ==> r == Err(MissingDirection(p))
    ensures p in better || !HasMatch(data, p) ==> r == Ok(FamilyEntries(data, DirectionFor(better, p), p))
  {
    var entries: seq<Entry> := [];
    var j := 0;
    while j < |data|
      invariant 0 <= j <= |data|
      invariant entries == FamilyEntries(data[..j], DirectionFor(better, p), p)
      invariant p !in better ==> forall k | 0 <= k < j :: Matching(data[k].table, p) == []
    {
      var model := data[j];
      assert data[..j + 1][..j] == data[..j];
      var relevant := Matching(model.table, p);
      if relevant != [] {
        if p !in better {
          return Err(MissingDirection(p));
        }
        entries := entries + [Entry(model.name, FamilyValue(DirectionOf(better[p]), model.table, p))];
      }
      j := j + 1;
    }
    assert data[..j] == data;
    return Ok(entries);
  }

  lemma FirstMissingStep(data: Data, prefixes: seq<string>, better: Policy, i: nat)
    requires i < |prefixes|
    ensures FirstMissing(data, prefixes[i..], better)
      == if prefixes[i] !in better && HasMatch(data, prefixes[i]) then Some(prefixes[i])
         else FirstMissing(data, prefixes[i + 1..], better)
  {
    assert prefixes[i..][0] == prefixes[i];
    assert prefixes[i..][1..] == prefixes[i + 1..];
  }

  /** Lines 81-90: the loop filling `summary`, one prefix at a time. */
  method BuildSummary(data: Data, prefixes: seq<string>, better: Policy)
    returns (r: Result<map<string, seq<Entry>>>)
    requires AllRowsNonEmpty(data)
    ensures r == SummaryTable(data, prefixes, better)
  {
    var summary: map<string, seq<Entry>> := map[];
    var i := 0;
    assert Summaries(data, prefixes[..0], better) == map[];
    while i < |prefixes|
      invariant 0 <= i <= |prefixes|
      invariant FirstMissing(data, prefixes[i..], better) == FirstMissing(data, prefixes, better)
      invariant summary == Summaries(data, prefixes[..i], better)
    {
      var p := prefixes[i];
      SummariesStep(data, prefixes, better, i);
      FirstMissingStep(data, prefixes, better, i);
      var entries := SummariseFamily(data, p, better);
      if entries.Err? {
        return Err(MissingDirection(p));
      }
      summary := summary[p := entries.value];
      i := i + 1;
    }
    assert prefixes[..i] == prefixes;
    return Ok(summary);
  }

  /** The model `max`/`min` with `key=summary[p].get` returns. */
  function Winner(d: Direction, e: seq<Entry>): string
    requires e != []
  {
    e[BestIndex(d, e)].model
  }

  /** The first prefix the top-model loop fails on, and how. */
  function FirstTopFailure(prefixes: seq<string>, better: Policy, summary: map<string, seq<Entry>>)
    : (r: Option<Failure>)
    requires forall p | p in prefixes :: p in summary
    ensures r.None? <==> forall p | p in prefixes :: p in better && summary[p] != []
    ensures r.Some? ==> r.value.MissingDirection? || r.value.EmptyFamily?
    ensures r.Some? && r.value.MissingDirection? ==>
      r.value.family in prefixes && r.value.family !in better
    ensures r.Some? && r.value.EmptyFamily? ==>
      r.value.family in prefixes && r.value.family in better && summary[r.value.family] == []
    ensures r.Some? ==>
      exists i :: 0 <= i < |prefixes| && prefixes[i] == r.value.family
        && forall j | 0 <= j < i :: prefixes[j] in better && summary[prefixes[j]] != []
  {
    if prefixes == [] then None
    else if prefixes[0] !in better then Some(MissingDirection(prefixes[0]))
    else if summary[prefixes[0]] == [] then Some(EmptyFamily(prefixes[0]))
    else
      var r := FirstTopFailure(prefixes[1..], better, summary);
      assert forall p | p in prefixes :: p == prefixes[0] || p in prefixes[1..];
      TopFailureShift(prefixes, better, summary, r);
      r
  }

  /** A first failure after a head that selects is the first failure of the whole list. */
  lemma TopFailureShift(prefixes: seq<string>, better: Policy, summary: map<string, seq<Entry>>, r: Option<Failure>)
    requires prefixes != [] && prefixes[0] in better && prefixes[0] in summary && summary[prefixes[0]] != []
    requires forall p | p in prefixes :: p in summary
    requires r.Some? && (r.value.MissingDirection? || r.value.EmptyFamily?) ==>
      exists i :: 0 <= i < |prefixes[1..]| && prefixes[1..][i] == r.value.family
        && forall j | 0 <= j < i :: prefixes[1..][j] in better && summary[prefixes[1..][j]] != []
    ensures r.Some? && (r.value.MissingDirection? || r.value.EmptyFamily?) ==>
      exists i :: 0 <= i < |prefixes| && prefixes[i] == r.value.family
        && forall j | 0 <= j < i :: prefixes[j] in better && summary[prefixes[j]] != []
  {
    if r.Some? && (r.value.MissingDirection? || r.value.EmptyFamily?) {
      var i :| 0 <= i < |prefixes[1..]| && prefixes[1..][i] == r.value.family
        && forall j | 0 <= j < i :: prefixes[1..][j] in better && summary[prefixes[1..][j]] != [];
      assert prefixes[i + 1] == r.value.family;
      assert forall j | 1 <= j < i + 1 :: prefixes[j] == prefixes[1..][j - 1];
    }
  }

  /** The outcome of the top-model loop (lines 92-97). */
  function TopTable(prefixes: seq<string>, better: Policy, summary: map<string, seq<Entry>>)
    : Result<map<string, string>>
    requires forall p | p in prefixes :: p in summary
  {
    match FirstTopFailure(prefixes, better, summary)
    case Some(f) => Err(f)
    case None => Ok(Winners(prefixes, better, summary))
  }

  /** Every family in `prefixes` has a setting and a non-empty summary. */
  predicate Selectable(prefixes: seq<string>, better: Policy, summary: map<string, seq<Entry>>) {
    forall p | p in prefixes :: p in better && p in summary && summary[p] != []
  }

  /** `top_models` once the loop has visited `prefixes`. */
  function Winners(prefixes: seq<string>, better: Policy, summary: map<string, seq<Entry>>): map<string, string>
    requires Selectable(prefixes, better, summary)
  {
    map p | p in prefixes :: Winner(DirectionOf(better[p]), summary[p])
  }

  lemma WinnersStep(prefixes: seq<string>, better: Policy, summary: map<string, seq<Entry>>, i: nat)
    requires i < |prefixes| && Selectable(prefixes[..i], better, summary)
    requires prefixes[i] in better && prefixes[i] in summary && summary[prefixes[i]] != []
    ensures Selectable(prefixes[..i + 1], better, summary)
    ensures Winners(prefixes[..i + 1], better, summary)
      == Winners(prefixes[..i], better, summary)[prefixes[i] :=
           Winner(DirectionOf(better[prefixes[i]]), summary[prefixes[i]])]
  {
    assert prefixes[..i + 1] == prefixes[..i] + [prefixes[i]];
  }

  lemma TopFailureStep(prefixes: seq<string>, better: Policy, summary: map<string, seq<Entry>>, i: nat)
    requires forall p | p in prefixes :: p in summary
    requires i < |prefixes|
    ensures forall p | p in prefixes[i..] :: p in summary
    ensures FirstTopFailure(prefixes[i..], better, summary)
      == if prefixes[i] !in better then Some(MissingDirection(prefixes[i]))
         else if summary[prefixes[i]] == [] then Some(EmptyFamily(prefixes[i]))
         else FirstTopFailure(prefixes[i + 1..], better, summary)
  {
    assert prefixes[i..][0] == prefixes[i];
    assert prefixes[i..][1..] == prefixes[i + 1..];
  }

  /** Lines 92-97: the loop filling `top_models`. */
  method SelectTopModels(prefixes: seq<string>, better: Policy, summary: map<string, seq<Entry>>)
    returns (r: Result<map<string, string>>)
    requires forall p | p in prefixes :: p in summary
    ensures r == TopTable(prefixes, better, summary)
  {
    var top: map<string, string> := map[];
    var i := 0;
    assert Winners(prefixes[..0], better, summary) == map[];
    while i < |prefixes|
      invariant 0 <= i <= |prefixes|
      invariant FirstTopFailure(prefixes[i..], better, summary) == FirstTopFailure(prefixes, better, summary)
      invariant Selectable(prefixes[..i], better, summary)
      invariant top == Winners(prefixes[..i], better, summary)
    {
      var p := prefixes[i];
      TopFailureStep(prefixes, better, summary, i);
      if p !in better {
        return Err(MissingDirection(p));
      }
      var candidates := summary[p];
      if candidates == [] {
        return Err(EmptyFamily(p));
      }
      var k := BestIndex(DirectionOf(better[p]), candidates);
      WinnersStep(prefixes, better, summary, i);
      top := top[p := candidates[k].model];
      i := i + 1;
    }
    assert prefixes[..i] == prefixes;
    return Ok(top);
  }

  /** Both loops of the summary page, in order. */
  function ReportTopModels(data: Data, prefixes: seq<string>, better: Policy): Result<map<string, string>>
    requires AllRowsNonEmpty(data)
  {
    match SummaryTable(data, prefixes, better)
    case Err(f) => Err(f)
    case Ok(summary) => TopTable(prefixes, better, summary)
  }

  method TopModels(data: Data, prefixes: seq<string>, better: Policy) returns (r: Result<map<string, string>>)
    requires AllRowsNonEmpty(data)
    ensures r == ReportTopModels(data, prefixes, better)
  {
    var summary := BuildSummary(data, prefixes, better);
    if summary.Err? {
      return Err(summary.failure);
    }
    r := SelectTopModels(prefixes, better, summary.value);
  }

  /**
   * The summary page is produced exactly when every family has a setting and
   * some model with a row for it; otherwise the failure names a family that lacks one.
   */
  lemma ReportOutcome(data: Data, prefixes: seq<string>, better: Policy)
    requires AllRowsNonEmpty(data)
    ensures ReportTopModels(data, prefixes, better).Ok? <==>
      forall p | p in prefixes :: p in better && HasMatch(data, p)
    ensures var r := ReportTopModels(data, prefixes, better);
      r.Err? ==> r.failure.MissingDirection? || r.failure.EmptyFamily?
    ensures var r := ReportTopModels(data, prefixes, better);
      r.Err? ==>
        && r.failure.family in prefixes
        && (r.failure.MissingDirection? ==> r.failure.family !in better)
        && (r.failure.EmptyFamily? ==> r.failure.family in better && !HasMatch(data, r.failure.family))
  {
    var s := SummaryTable(data, prefixes, better);
    if s.Ok? {
      forall p | p in prefixes
        ensures FamilyEntries(data, DirectionFor(better, p), p) != [] <==> HasMatch(data, p)
      {
        EntriesNonEmptyIff(data, DirectionFor(better, p), p);
      }
    }
  }

  /**
   * With every family configured, the summary page as written fails on the
   * first family no model has rows for (Python's `max` of an empty dictionary).
   */
  lemma {:induction false} FirstFamilyWithoutDataFails(data: Data, prefixes: seq<string>, better: Policy, i: nat)
    requires AllRowsNonEmpty(data)
    requires forall p | p in prefixes :: p in better
    requires i < |prefixes| && !HasMatch(data, prefixes[i])
    requires forall j | 0 <= j < i :: HasMatch(data, prefixes[j])
    ensures ReportTopModels(data, prefixes, better) == Err(EmptyFamily(prefixes[i]))
  {
    var summary := SummaryTable(data, prefixes, better).value;
    forall p | p in prefixes ensures summary[p] != [] <==> HasMatch(data, p) {
      EntriesNonEmptyIff(data, DirectionFor(better, p), p);
    }
    TopFailureAt(prefixes, better, summary, i);
  }

  lemma {:induction false} TopFailureAt(prefixes: seq<string>, better: Policy, summary: map<string, seq<Entry>>, i: nat)
    requires forall p | p in prefixes :: p in summary && p in better
    requires i < |prefixes| && summary[prefixes[i]] == []
    requires forall j | 0 <= j < i :: summary[prefixes[j]] != []
    ensures FirstTopFailure(prefixes, better, summary) == Some(EmptyFamily(prefixes[i]))
  {
    if i > 0 {
      TopFailureAt(prefixes[1..], better, summary, i - 1);
    }
  }

  /** Sets the tie-break of `Winner` in the data's iteration order. */
  predicate BestAt(data: Data, d: Direction, p: string, k: int)
    requires AllRowsNonEmpty(data)
  {
    && 0 <= k < |data| && Matching(data[k].table, p) != []
    && (forall j | 0 <= j < |data| && Matching(data[j].table, p) != [] ::
          AtLeast(d, FamilyValue(d, data[k].table, p), FamilyValue(d, data[j].table, p)))
    && (forall j | 0 <= j < k && Matching(data[j].table, p) != [] ::
          Improves(d, FamilyValue(d, data[k].table, p), FamilyValue(d, data[j].table, p)))
  }

  /**
   * The winner of `summary[p]` is a model with rows for `p` whose value is at
   * least as good as every other such model's, and strictly better than those
   * before it in iteration order: the earliest of the tied models wins.
   */
  lemma WinnerIsBest(data: Data, d: Direction, p: string)
    requires AllRowsNonEmpty(data) && DistinctNames(data) && FamilyEntries(data, d, p) != []
    ensures exists k :: BestAt(data, d, p, k) && data[k].name == Winner(d, FamilyEntries(data, d, p))
  {
    var e := FamilyEntries(data, d, p);
    var b := BestIndex(d, e);
    EntriesMembers(data, d, p, e[b]);
    var k :| 0 <= k < |data| && Matching(data[k].table, p) != [] && e[b] == EntryOf(d, data[k], p);
    EntryPosition(data, d, p, k);
    var posK := |FamilyEntries(data[..k], d, p)|;
    assert posK == b by {
      EntriesDistinct(data, d, p);
      assert e[posK].model == e[b].model;
    }
    BestAtPosition(data, d, p, k);
  }

  /** A model whose entry is the one `max`/`min` picks is the first best model. */
  lemma BestAtPosition(data: Data, d: Direction, p: string, k: nat)
    requires AllRowsNonEmpty(data) && k < |data| && Matching(data[k].table, p) != []
    requires FamilyEntries(data, d, p) != []
    requires |FamilyEntries(data[..k], d, p)| == BestIndex(d, FamilyEntries(data, d, p))
    ensures BestAt(data, d, p, k)
  {
    var e := FamilyEntries(data, d, p);
    var b := BestIndex(d, e);
    EntryPosition(data, d, p, k);
    var v := FamilyValue(d, data[k].table, p);
    assert e[b].value == v;
    forall j | 0 <= j < |data| && Matching(data[j].table, p) != []
      ensures AtLeast(d, v, FamilyValue(d, data[j].table, p))
    {
      EntryPosition(data, d, p, j);
      var posJ := |FamilyEntries(data[..j], d, p)|;
      assert e[posJ].value == FamilyValue(d, data[j].table, p);
      assert AtLeast(d, e[b].value, e[posJ].value);
    }
    forall j | 0 <= j < k && Matching(data[j].table, p) != []
      ensures Improves(d, v, FamilyValue(d, data[j].table, p))
    {
      EntryPosition(data, d, p, j);
      EntryOrder(data, d, p, j, k);
      var posJ := |FamilyEntries(data[..j], d, p)|;
      assert e[posJ].value == FamilyValue(d, data[j].table, p);
      assert Improves(d, e[b].value, e[posJ].value);
    }
  }

  /**
   * When every family has a setting and some model with rows for it, the page
   * exists and `top_models[p]` names the best model of family `p` in its
   * direction, the earliest among equals.
   */
  lemma TopModelIsBest(data: Data, prefixes: seq<string>, better: Policy, p: string)
    requires AllRowsNonEmpty(data) && DistinctNames(data)
    requires forall q | q in prefixes :: q in better && HasMatch(data, q)
    requires p in prefixes
    ensures ReportTopModels(data, prefixes, better).Ok? && p in ReportTopModels(data, prefixes, better).value
    ensures exists k ::
      BestAt(data, DirectionOf(better[p]), p, k) && data[k].name == ReportTopModels(data, prefixes, better).value[p]
  {
    ReportOutcome(data, prefixes, better);
    var d := DirectionOf(better[p]);
    var summary := SummaryTable(data, prefixes, better).value;
    assert summary[p] == FamilyEntries(data, d, p);
    EntriesNonEmptyIff(data, d, p);
    WinnerIsBest(data, d, p);
  }
}
