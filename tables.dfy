/**
 * The loaded benchmark data and the vocabulary shared by the stages.
 *
 * A result table is an ordered sequence of labelled rows (the CSV's index column
 * and its data columns); the loaded data is an ordered sequence of named tables,
 * so that the iteration order of the Python dictionary behind every "first" and
 * every tie-break is explicit.
 */
module Tables {

  /** One row of a result table: its label (the index column) and its cells. */
  datatype Row = Row(metric: string, cells: seq<int>)

  type Table = seq<Row>

  /** One loaded file: the model name (the file's base name) and its table. */
  datatype Model = Model(name: string, table: Table)

  /** The loaded data, in the dictionary's insertion order. */
  type Data = seq<Model>

  /** The distinguished row holding the shared x-axis. */
  const ConcurrencyLabel: string := "concurrency"

  /** The exceptions the two stages can raise, as values. */
  datatype Failure =
    | NoTables                          // IndexError: `list(data.keys())[0]` on empty data
    | NoConcurrencyRow                  // KeyError: `.loc['concurrency']` on the representative table
    | MissingDirection(family: string)  // KeyError: `better[prefix]`
    | EmptyFamily(family: string)       // ValueError: `max`/`min` of an empty summary
    | MissingMetric(model: string, metric: string)  // KeyError: `df.loc[metric]` while drawing

  datatype Result<T> = Ok(value: T) | Err(failure: Failure)

  datatype Option<T> = None | Some(value: T)

  /** Python's `s.startswith(p)`. */
  predicate StartsWith(s: string, p: string) {
    |p| <= |s| && s[..|p|] == p
  }

  /** The row labels of a table, in row order (pandas' `df.index`). */
  function Labels(t: Table): seq<string> {
    seq(|t|, i requires 0 <= i < |t| => t[i].metric)
  }

  predicate HasRow(t: Table, metric: string) {
    exists i :: 0 <= i < |t| && t[i].metric == metric
  }

  /** Dictionary keys are unique: no model name occurs twice. */
  predicate DistinctNames(data: Data) {
    forall i, j :: 0 <= i < j < |data| ==> data[i].name != data[j].name
  }

  /** How often `x` occurs in `s`. */
  function Occurrences<T(==)>(s: seq<T>, x: T): nat {
    if s == [] then 0
    else Occurrences(s[..|s| - 1], x) + (if s[|s| - 1] == x then 1 else 0)
  }

  /** `a` is obtained from `b` by deleting elements: `b`'s order is kept. */
  predicate Subseq<T(==)>(a: seq<T>, b: seq<T>)
    decreases |b|
  {
    a == []
    || (b != []
        && (Subseq(a, b[..|b| - 1])
            || (a[|a| - 1] == b[|b| - 1] && Subseq(a[..|a| - 1], b[..|b| - 1]))))
  }

  lemma {:induction false} OccurrencesPositive<T>(s: seq<T>, x: T)
    ensures Occurrences(s, x) > 0 <==> x in s
  {
    if s != [] {
      OccurrencesPositive(s[..|s| - 1], x);
      assert s == s[..|s| - 1] + [s[|s| - 1]];
    }
  }
}
