/** The table reconstructor: a flat, newline-separated run of cells is folded
    into records of a fixed number of columns. A synthetic "Index" cell is put
    in front, the header cells (or an explicit key list) name the columns, and
    an incomplete trailing group is dropped. */
module Tables {
  import opened Results
  import opened Dicts
  import opened PyText

  /** A reconstructed table row: column name to cell text. */
  type Row = Dict<string, string>

  /** The (name, cell) pairs of a group, in column order. */
  function Pairs(ks: seq<string>, cells: seq<string>): (pairs: seq<(string, string)>)
    requires |cells| <= |ks|
    ensures |pairs| == |cells|
    ensures forall p :: 0 <= p < |cells| ==> pairs[p] == (ks[p], cells[p])
  {
    seq(|cells|, p requires 0 <= p < |cells| => (ks[p], cells[p]))
  }

  /** The record built from one group of cells: starting from an empty dict,
      column p is assigned cell p, a later column overwriting an earlier one
      of the same name. */
  function GroupRecord(ks: seq<string>, cells: seq<string>): Row
    requires |cells| <= |ks|
  {
    PutAll([], Pairs(ks, cells))
  }

  /** The complete groups of `n` consecutive cells, in order; a trailing
      group of fewer than `n` cells is dropped. */
  function Groups<T>(cells: seq<T>, n: nat): (gs: seq<seq<T>>)
    requires n > 0
    decreases |cells|
    ensures forall j :: 0 <= j < |gs| ==> |gs[j]| == n
  {
    if |cells| < n then [] else [cells[..n]] + Groups(cells[n..], n)
  }

  /** One record per group. */
  function Records(ks: seq<string>, gs: seq<seq<string>>): (rows: seq<Row>)
    requires forall j :: 0 <= j < |gs| ==> |gs[j]| <= |ks|
    ensures |rows| == |gs|
    ensures forall j :: 0 <= j < |gs| ==> rows[j] == GroupRecord(ks, gs[j])
  {
    seq(|gs|, j requires 0 <= j < |gs| => GroupRecord(ks, gs[j]))
  }

  lemma MulSucc(a: nat, n: nat)
    ensures (a + 1) * n == a * n + n
  {
  }

  lemma MulMono(a: nat, b: nat, n: nat)
    requires a <= b
    ensures a * n <= b * n
  {
  }

  /** There are exactly floor(|cells| / n) groups. */
  lemma {:induction false} GroupsCount<T>(cells: seq<T>, n: nat)
    requires n > 0
    ensures |Groups(cells, n)| * n <= |cells| < |Groups(cells, n)| * n + n
    ensures |Groups(cells, n)| == |cells| / n
    decreases |cells|
  {
    var k := |Groups(cells, n)|;
    if |cells| >= n {
      GroupsCount(cells[n..], n);
      MulSucc(k - 1, n);
    }
    DivFloor(|cells|, n, k);
  }

  lemma DivFloor(m: nat, n: nat, k: nat)
    requires n > 0 && k * n <= m < k * n + n
    ensures m / n == k
  {
    var q := m / n;
    if q < k {
      MulMono(q + 1, k, n);
      MulSucc(q, n);
    } else if q > k {
      MulMono(k + 1, q, n);
      MulSucc(k, n);
    }
  }

  /** Group j holds cells j*n .. j*n+n-1. */
  lemma {:induction false} GroupAt<T>(cells: seq<T>, n: nat, j: nat)
    requires n > 0 && j < |Groups(cells, n)|
    ensures j * n + n <= |cells|
    ensures Groups(cells, n)[j] == cells[j * n..j * n + n]
    decreases j
  {
    assert |cells| >= n;
    var rest := cells[n..];
    assert Groups(cells, n) == [cells[..n]] + Groups(rest, n);
    if j > 0 {
      var i := j - 1;
      GroupAt(rest, n, i);
      MulSucc(i, n);
      var lo := i * n + n;
      assert rest[i * n..i * n + n] == cells[lo..lo + n];
    }
  }

  /** The lines of a table's text behind a synthetic "Index" line. */
  function DataLines(s: string): seq<string> {
    ["Index"] + Split(Strip(s), "\n")
  }

  /** `DataLines(s)` is `("Index\n" + s.strip()).split("\n")`. */
  lemma DataLinesSplit(s: string)
    ensures DataLines(s) == Split("Index\n" + Strip(s), "\n")
  {
    var t := Strip(s);
    SplitAfter("Index", '\n', t);
    assert "Index\n" + t == "Index" + "\n" + t;
  }

  /** The column names: the explicit list if given, else the first `offset` lines. */
  function TableKeys(data: seq<string>, n: nat, keys: Option<seq<string>>, offset: Option<nat>): seq<string> {
    match keys
    case Some(ks) => ks
    case None => Take(data, if offset.Some? then offset.value else n)
  }

  /** The cells after the first `offset` lines (default `n`). */
  function TableValues(data: seq<string>, n: nat, offset: Option<nat>): seq<string> {
    Drop(data, if offset.Some? then offset.value else n)
  }

  /** The outcome of folding `values` into records named by `ks`: an
      IndexError when a cell falls in a column beyond the key list, else one
      record per complete group. */
  function Table(ks: seq<string>, values: seq<string>, n: nat): Result<seq<Row>>
    requires n > 0
  {
    if |ks| < n && |values| > |ks| then Err(IndexError)
    else Ok(Records(ks, Groups(values, n)))
  }

  /** `parse_table_data(s, n, keys, offset)` */
  function TableData(s: string, n: nat, keys: Option<seq<string>>, offset: Option<nat>): Result<seq<Row>>
    requires n > 0
  {
    var data := DataLines(s);
    Table(TableKeys(data, n, keys, offset), TableValues(data, n, offset), n)
  }

  lemma ModAddN(x: nat, n: nat)
    requires n > 0
    ensures (x + n) % n == x % n
  {
    var q := x / n;
    var q2 := (x + n) / n;
    MulSucc(q, n);
    MulSucc(q + 1, n);
    if q2 >= q + 2 {
      MulMono(q + 2, q2, n);
      assert false;
    } else if q2 <= q {
      MulMono(q2, q, n);
      assert false;
    }
  }

  /** `start` is a whole number of groups of `n` cells. */
  predicate Aligned(start: nat, n: nat)
    requires n > 0
    decreases start
  {
    start == 0 || (start >= n && Aligned(start - n, n))
  }

  /** The column of a cell: a whole number of groups, then `p` more cells. */
  lemma {:induction false} AlignedMod(start: nat, n: nat, i: nat)
    requires n > 0 && start <= i < start + n && Aligned(start, n)
    ensures i % n == i - start
    decreases start
  {
    if start > 0 {
      AlignedMod(start - n, n, i - n);
      ModAddN(i - n, n);
    }
  }

  /** Filling the next column of the open group. */
  lemma GroupRecordSnoc(ks: seq<string>, values: seq<string>, start: nat, index: nat)
    requires start <= index < |values| && index - start < |ks|
    ensures GroupRecord(ks, values[start..index + 1]) ==
            Put(GroupRecord(ks, values[start..index]), ks[index - start], values[index])
  {
    var e := (ks[index - start], values[index]);
    assert Pairs(ks, values[start..index + 1]) == Pairs(ks, values[start..index]) + [e];
    PutAllSnoc([], Pairs(ks, values[start..index]), e);
  }

  /** The groups from `start` on, when a complete group starts there. */
  lemma GroupsStep<T>(values: seq<T>, n: nat, start: nat)
    requires n > 0 && start + n <= |values|
    ensures Groups(values[start..], n) == [values[start..start + n]] + Groups(values[start + n..], n)
  {
    assert values[start..][..n] == values[start..start + n];
    assert values[start..][n..] == values[start + n..];
  }

  /** Closing the open group: it is the next of the complete groups. */
  lemma CloseGroup<T>(values: seq<T>, n: nat, groups: nat, start: nat)
    requires n > 0 && start + n <= |values|
    requires groups <= |Groups(values, n)| && Groups(values, n)[groups..] == Groups(values[start..], n)
    ensures groups < |Groups(values, n)|
    ensures Groups(values, n)[groups] == values[start..start + n]
    ensures Groups(values, n)[groups + 1..] == Groups(values[start + n..], n)
  {
    GroupsStep(values, n, start);
    assert Groups(values, n)[groups..][0] == Groups(values, n)[groups];
  }

  /** `records` are the records of the complete groups before `start`, and
      the groups from `start` on are the remaining ones. */
  predicate Folded(ks: seq<string>, values: seq<string>, n: nat, start: nat, records: seq<Row>)
    requires n > 0 && start <= |values|
  {
    var gs := Groups(values, n);
    |records| <= |gs| && gs[|records|..] == Groups(values[start..], n) &&
    (records != [] ==> n <= |ks|) &&
    records == Records(ks, gs[..|records|])
  }

  lemma FoldedInit(ks: seq<string>, values: seq<string>, n: nat)
    requires n > 0
    ensures Folded(ks, values, n, 0, [])
  {
    assert values[0..] == values;
  }

  /** Closing the open group adds its record to those of the earlier groups. */
  lemma CloseRecord(ks: seq<string>, values: seq<string>, n: nat, start: nat, records: seq<Row>)
    requires n > 0 && start + n <= |values| && n <= |ks|
    requires Folded(ks, values, n, start, records)
    ensures Folded(ks, values, n, start + n, records + [GroupRecord(ks, values[start..start + n])])
  {
    var groups := |records|;
    CloseGroup(values, n, groups, start);
    var gs := Groups(values, n);
    assert gs[..groups + 1] == gs[..groups] + [gs[groups]];
  }

  /** Without a complete group left, the records are those of all the groups. */
  lemma FoldedDone(ks: seq<string>, values: seq<string>, n: nat, start: nat, records: seq<Row>)
    requires n > 0 && start <= |values| && |values| - start < n
    requires Folded(ks, values, n, start, records)
    ensures forall j :: 0 <= j < |Groups(values, n)| ==> |Groups(values, n)[j]| <= |ks|
    ensures records == Records(ks, Groups(values, n))
  {
    var gs := Groups(values, n);
    assert Groups(values[start..], n) == [];
    assert gs[..|records|] == gs;
  }

  /** The loop of `parse_table_data`: cell `index` goes to column `index % n`,
      and a record is emitted whenever the last column has been filled. */
  method ParseTableData(s: string, n: nat, keys: Option<seq<string>>, offset: Option<nat>)
      returns (r: Result<seq<Row>>)
    requires n > 0
    ensures r == TableData(s, n, keys, offset)
  {
    var data := DataLines(s);
    var ks := TableKeys(data, n, keys, offset);
    var values := TableValues(data, n, offset);
    r := FoldCells(ks, values, n);
  }

  /** The state of the loop before cell `index`: the open group starts at
      `start` and `current` holds its cells so far. */
  predicate Filling(ks: seq<string>, values: seq<string>, n: nat, start: nat, index: nat,
                    records: seq<Row>, current: Row)
    requires n > 0
  {
    start <= index <= |values| && index - start < n && index - start <= |ks| &&
    Aligned(start, n) && (|ks| < n ==> start == 0 && records == []) &&
    Folded(ks, values, n, start, records) &&
    current == GroupRecord(ks, values[start..index])
  }

  /** Cell `index` goes to column `index - start`; filling the last column
      closes the group. */
  lemma FillCell(ks: seq<string>, values: seq<string>, n: nat, start: nat, index: nat,
                 records: seq<Row>, current: Row)
    requires n > 0 && Filling(ks, values, n, start, index, records, current)
    requires index < |values| && index - start < |ks|
    ensures var next := Put(current, ks[index - start], values[index]);
            if index - start == n - 1 then Filling(ks, values, n, index + 1, index + 1, records + [next], [])
            else Filling(ks, values, n, start, index + 1, records, next)
  {
    GroupRecordSnoc(ks, values, start, index);
    if index - start == n - 1 {
      CloseRecord(ks, values, n, start, records);
      assert Aligned(index + 1, n) by {
        assert index + 1 - n == start;
      }
      assert values[index + 1..index + 1] == [];
    }
  }

  /** The `for index, value in enumerate(values)` loop itself. */
  method FoldCells(ks: seq<string>, values: seq<string>, n: nat) returns (r: Result<seq<Row>>)
    requires n > 0
    ensures r == Table(ks, values, n)
  {
    var records: seq<Row> := [];
    var current: Row := [];
    var start := 0;
    var index := 0;
    FoldedInit(ks, values, n);
    while index < |values|
      invariant Filling(ks, values, n, start, index, records, current)
    {
      AlignedMod(start, n, index);
      var pointer := index % n;
      if pointer >= |ks| {
        return Err(IndexError);
      }
      FillCell(ks, values, n, start, index, records, current);
      current := Put(current, ks[pointer], values[index]);
      if pointer == n - 1 {
        records := records + [current];
        current := [];
        start := index + 1;
      }
      index := index + 1;
    }
    FoldedDone(ks, values, n, start, records);
    return Ok(records);
  }

  // ---------------------------------------------------------------------
  // What the reconstructed table holds

  /** The first `m` column names are pairwise different. */
  predicate DistinctNames(ks: seq<string>, m: nat)
    requires m <= |ks|
  {
    forall i, j :: 0 <= i < j < m ==> ks[i] != ks[j]
  }

  /** With distinct column names, a group's record is exactly its (name, cell)
      pairs in column order. */
  lemma GroupRecordExact(ks: seq<string>, cells: seq<string>)
    requires |cells| <= |ks| && DistinctNames(ks, |cells|)
    ensures GroupRecord(ks, cells) == Pairs(ks, cells)
  {
    PutAllDistinct(Pairs(ks, cells));
  }

  /** Column p of a group's record holds cell p unless a later column has the
      same name. */
  lemma GroupRecordGet(ks: seq<string>, cells: seq<string>, p: nat)
    requires |cells| <= |ks| && p < |cells|
    requires forall q :: p < q < |cells| ==> ks[q] != ks[p]
    ensures Get(GroupRecord(ks, cells), ks[p]) == Some(cells[p])
  {
    var pairs := Pairs(ks, cells);
    GetPutAll([], pairs, ks[p]);
    assert Keys(pairs)[p] == ks[p];
    LastValueAt(pairs, p);
  }

  /** The table has floor(|values| / n) records: a trailing partial group is dropped. */
  lemma TableCount(ks: seq<string>, values: seq<string>, n: nat)
    requires n > 0 && Table(ks, values, n).Ok?
    ensures |Table(ks, values, n).value| == |values| / n
  {
    GroupsCount(values, n);
  }

  /** Record j maps column name p to cell j*n + p of the values. */
  lemma TableCell(ks: seq<string>, values: seq<string>, n: nat, j: nat, p: nat)
    requires n > 0 && Table(ks, values, n).Ok?
    requires j < |Table(ks, values, n).value| && p < n
    requires n <= |ks| && forall q :: p < q < n ==> ks[q] != ks[p]
    ensures j * n + p < |values|
    ensures Get(Table(ks, values, n).value[j], ks[p]) == Some(values[j * n + p])
  {
    var rows := Table(ks, values, n).value;
    GroupAt(values, n, j);
    var cells := values[j * n..j * n + n];
    assert rows[j] == GroupRecord(ks, cells);
    GroupRecordGet(ks, cells, p);
    assert cells[p] == values[j * n + p];
  }

  /** A table fails exactly when some cell lands in a column the key list does
      not reach. */
  lemma TableFails(ks: seq<string>, values: seq<string>, n: nat)
    requires n > 0
    ensures Table(ks, values, n).Err? <==>
            exists index :: 0 <= index < |values| && index % n >= |ks|
  {
    if |ks| < n && |values| > |ks| {
      AlignedMod(0, n, |ks|);
    } else {
      forall index | 0 <= index < |values| ensures index % n < |ks| {
        if |ks| < n {
          AlignedMod(0, n, index);
        }
      }
    }
  }

  /** With keys and offset left out, the header is the first `n` lines, the
      first column is called "Index", and the table never fails. */
  lemma TableDefaults(s: string, n: nat)
    requires n > 0
    ensures TableData(s, n, None, None).Ok?
    ensures TableKeys(DataLines(s), n, None, None)[0] == "Index"
  {
    var data := DataLines(s);
    var ks := TableKeys(data, n, None, None);
    var values := TableValues(data, n, None);
    if |data| < n {
      assert values == [];
    } else {
      assert |ks| == n;
    }
  }
}
