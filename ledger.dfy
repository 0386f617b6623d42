/**
  The resumable incident ledger: a CSV file that batches of incidents are
  appended to, and the query that finds the largest `incident_id` already in
  it so that the next batch can be numbered after it. The file is modelled by
  what `pandas.read_csv` would give back for it: a header and rows of cells.
 */
module Ledger {
  import opened Wrappers

  /** A cell as `read_csv` gives it back: an integer, a float, some text, or a blank (NaN). */
  datatype Cell = IntCell(i: int) | RealCell(x: real) | TextCell(s: string) | Blank

  type Row = seq<Cell>

  /** A `DataFrame` (without its index): column names and rows of cells under them, by position. */
  datatype Frame = Frame(columns: seq<string>, rows: seq<Row>)

  /** A CSV path: `None` when the file does not exist, else its header and rows. */
  type Store = Option<Frame>

  /** Why `get_last_incident_id` raises. */
  datatype LedgerError =
    | NonNumericId   // the column holds a cell `max` or `int()` cannot take as an integer
    | NoIdValues     // every cell of the column is blank: `int(nan)` raises ValueError

  const ID_COLUMN: string := "incident_id"

  /** `DataFrame.empty`: no columns or no rows. */
  predicate Empty(f: Frame) {
    |f.columns| == 0 || |f.rows| == 0
  }

  /** The position of the first column called `name`. */
  function ColumnIndex(columns: seq<string>, name: string): (k: nat)
    requires name in columns
    ensures k < |columns| && columns[k] == name
    ensures forall l | 0 <= l < k :: columns[l] != name
  {
    if columns[0] == name then 0 else 1 + ColumnIndex(columns[1..], name)
  }

  /** The cell of `row` under column `k`; a short row reads as NaN there. */
  function CellAt(row: Row, k: nat): Cell {
    if k < |row| then row[k] else Blank
  }

  /** `df["incident_id"]`: the id cell of every row, in order. */
  function IdCells(f: Frame): (ids: seq<Cell>)
    requires ID_COLUMN in f.columns
    ensures |ids| == |f.rows|
    ensures forall j | 0 <= j < |ids| :: ids[j] == CellAt(f.rows[j], ColumnIndex(f.columns, ID_COLUMN))
  {
    var k := ColumnIndex(f.columns, ID_COLUMN);
    seq(|f.rows|, j requires 0 <= j < |f.rows| => CellAt(f.rows[j], k))
  }

  /** A cell `max` takes part in: an integer, or a blank that it skips. */
  predicate Countable(c: Cell) {
    c.IntCell? || c.Blank?
  }

  /**
    `Series.max()` over integer cells, skipping blanks: `None` when there is no
    integer at all, an error when a cell is not an integer.
   */
  function ColumnMax(cells: seq<Cell>): (r: Result<Option<int>, LedgerError>)
    ensures r.Ok? <==> forall j | 0 <= j < |cells| :: Countable(cells[j])
    ensures r.Err? ==> r.error == NonNumericId
    ensures r.Ok? ==> (r.value.Some? <==> exists j | 0 <= j < |cells| :: cells[j].IntCell?)
    ensures r.Ok? && r.value.Some? ==>
      && (forall j | 0 <= j < |cells| && cells[j].IntCell? :: cells[j].i <= r.value.value)
      && (exists j | 0 <= j < |cells| :: cells[j] == IntCell(r.value.value))
  {
    if |cells| == 0 then Ok(None)
    else
      var init := cells[..|cells| - 1];
      assert forall j | 0 <= j < |init| :: init[j] == cells[j];
      match ColumnMax(init)
      case Err(e) => Err(e)
      case Ok(m) =>
        match cells[|cells| - 1]
        case Blank => Ok(m)
        case IntCell(i) =>
          Ok(Some(match m case None => i case Some(x) => if x < i then i else x))
        case _ => Err(NonNumericId)
  }

  /**
    `get_last_incident_id`: 0 when the file does not exist, when it reads as an
    empty frame or has no `incident_id` column; otherwise the largest id in it.
   */
  function LastIncidentId(store: Store): (r: Result<int, LedgerError>)
    ensures store.None? ==> r == Ok(0)
    ensures store.Some? && (Empty(store.value) || ID_COLUMN !in store.value.columns) ==> r == Ok(0)
  {
    match store
    case None => Ok(0)
    case Some(t) =>
      if Empty(t) || ID_COLUMN !in t.columns then Ok(0)
      else
        match ColumnMax(IdCells(t))
        case Err(e) => Err(e)
        case Ok(None) => Err(NoIdValues)
        case Ok(Some(m)) => Ok(m)
  }

  /**
    The file after `append_dataframe(path, df)`: nothing happens for an empty
    frame; otherwise a missing file is created with `df`'s header and rows, and
    an existing one gets `df`'s rows after its own, under its own header.
   */
  function Appended(store: Store, df: Frame): (r: Store)
    ensures Empty(df) ==> r == store
    ensures !Empty(df) && store.None? ==> r == Some(df)
    ensures !Empty(df) && store.Some? ==>
      && r.Some? && r.value.columns == store.value.columns
      && |r.value.rows| == |store.value.rows| + |df.rows|
      && (forall j | 0 <= j < |store.value.rows| :: r.value.rows[j] == store.value.rows[j])
      && (forall j | |store.value.rows| <= j < |r.value.rows| :: r.value.rows[j] == df.rows[j - |store.value.rows|])
  {
    if Empty(df) then store
    else match store
      case None => Some(df)
      case Some(t) => Some(Frame(t.columns, t.rows + df.rows))
  }

  /** The CSV file at one path, which `append_dataframe` writes to in place. */
  class CsvFile {
    var contents: Store

    constructor (initial: Store)
      ensures contents == initial
    {
      contents := initial;
    }

    /** `append_dataframe(path, df)`: the header is written only when the file is created. */
    method Append(df: Frame)
      modifies this
      ensures contents == Appended(old(contents), df)
    {
      if Empty(df) {
        return;
      }
      var header := contents.None?;
      if header {
        contents := Some(df);
      } else {
        contents := Some(Frame(contents.value.columns, contents.value.rows + df.rows));
      }
    }
  }
}

/** What the ledger's query and append promise, alone and together with the generator's numbering. */
module LedgerProperties {
  import opened Wrappers
  import opened Ledger
  import IncidentGenerator

  /** The largest integer cell is determined: two values that are each an upper bound and a member agree. */
  lemma MaxDetermined(cells: seq<Cell>, m1: int, m2: int)
    requires forall j | 0 <= j < |cells| && cells[j].IntCell? :: cells[j].i <= m1
    requires forall j | 0 <= j < |cells| && cells[j].IntCell? :: cells[j].i <= m2
    requires (exists j | 0 <= j < |cells| :: cells[j] == IntCell(m1))
    requires (exists j | 0 <= j < |cells| :: cells[j] == IntCell(m2))
    ensures m1 == m2
  {
    var j1 :| 0 <= j1 < |cells| && cells[j1] == IntCell(m1);
    var j2 :| 0 <= j2 < |cells| && cells[j2] == IntCell(m2);
    assert cells[j1].i <= m2 && cells[j2].i <= m1;
  }

  /** The maximum of a column made of two parts is the larger of the parts' maxima. */
  lemma ColumnMaxConcat(a: seq<Cell>, b: seq<Cell>, ma: int, mb: int)
    requires ColumnMax(a) == Ok(Some(ma)) && ColumnMax(b) == Ok(Some(mb))
    ensures ColumnMax(a + b) == Ok(Some(if ma < mb then mb else ma))
  {
    var ab := a + b;
    var m := if ma < mb then mb else ma;
    assert forall j | 0 <= j < |ab| :: Countable(ab[j]) by {
      forall j | 0 <= j < |ab|
        ensures Countable(ab[j])
      {
        if j < |a| { assert ab[j] == a[j]; } else { assert ab[j] == b[j - |a|]; }
      }
    }
    var ja :| 0 <= ja < |a| && a[ja] == IntCell(ma);
    var jb :| 0 <= jb < |b| && b[jb] == IntCell(mb);
    assert ab[ja] == IntCell(ma) && ab[|a| + jb] == IntCell(mb);
    var r := ColumnMax(ab);
    assert r.Ok? && r.value.Some?;
    forall j | 0 <= j < |ab| && ab[j].IntCell?
      ensures ab[j].i <= m
    {
      if j < |a| { assert ab[j] == a[j]; } else { assert ab[j] == b[j - |a|]; }
    }
    if ma < mb {
      MaxDetermined(ab, r.value.value, m);
    } else {
      MaxDetermined(ab, r.value.value, m);
    }
  }

  /** Appending an empty frame does nothing, and does not create a missing file. */
  lemma AppendEmptyNoop(store: Store, df: Frame)
    requires Empty(df)
    ensures Appended(store, df) == store
    ensures LastIncidentId(Appended(store, df)) == LastIncidentId(store)
  {
  }

  /** The id column of a grown file is the old id column followed by the batch's. */
  lemma IdCellsAppended(t: Frame, df: Frame)
    requires ID_COLUMN in t.columns && df.columns == t.columns
    ensures IdCells(Frame(t.columns, t.rows + df.rows)) == IdCells(t) + IdCells(df)
  {
    var g := Frame(t.columns, t.rows + df.rows);
    var lhs, rhs := IdCells(g), IdCells(t) + IdCells(df);
    assert |lhs| == |rhs|;
    forall j | 0 <= j < |lhs|
      ensures lhs[j] == rhs[j]
    {
      if j < |t.rows| {
        assert g.rows[j] == t.rows[j];
      } else {
        assert g.rows[j] == df.rows[j - |t.rows|];
      }
    }
  }

  /** The ids of the frame are integers, pairwise different. */
  predicate DistinctIds(f: Frame)
    requires ID_COLUMN in f.columns
  {
    var ids := IdCells(f);
    && (forall j | 0 <= j < |ids| :: ids[j].IntCell?)
    && (forall i, j | 0 <= i < j < |ids| :: ids[i] != ids[j])
  }

  /** Batch `df` is numbered `from + 1, from + 2, ...` in its id column. */
  predicate NumberedAfter(df: Frame, from: int)
    requires ID_COLUMN in df.columns
  {
    var ids := IdCells(df);
    forall j | 0 <= j < |ids| :: ids[j] == IntCell(from + j + 1)
  }

  /** The maximum of a batch numbered after `from` is its last id. */
  lemma NumberedMax(df: Frame, from: int)
    requires ID_COLUMN in df.columns && |df.rows| > 0 && NumberedAfter(df, from)
    ensures ColumnMax(IdCells(df)) == Ok(Some(from + |df.rows|))
  {
    var ids := IdCells(df);
    var r := ColumnMax(ids);
    assert ids[0].IntCell?;
    assert r.Ok? && r.value.Some?;
    assert ids[|ids| - 1] == IntCell(from + |df.rows|);
    MaxDetermined(ids, r.value.value, from + |df.rows|);
  }

  /** The ids of a file that has a last id lie at or below it. */
  lemma StoredBelow(t: Frame, last: int)
    requires LastIncidentId(Some(t)) == Ok(last) && ID_COLUMN in t.columns
    requires forall j | 0 <= j < |IdCells(t)| :: IdCells(t)[j].IntCell?
    ensures forall j | 0 <= j < |IdCells(t)| :: IdCells(t)[j].i <= last
  {
    if !Empty(t) {
      LastIdOfColumn(t);
    }
  }

  /**
    For a file with rows and an id column, the last id exists exactly when
    every id is an integer or blank and at least one is an integer; it is then
    the largest of them, and a column of blanks alone raises at `int(nan)`.
   */
  lemma LastIdOfColumn(t: Frame)
    requires !Empty(t) && ID_COLUMN in t.columns
    ensures var r := LastIncidentId(Some(t));
      var ids := IdCells(t);
      && (r.Ok? <==> (forall j | 0 <= j < |ids| :: Countable(ids[j])) && exists j | 0 <= j < |ids| :: ids[j].IntCell?)
      && (r.Ok? ==> (forall j | 0 <= j < |ids| && ids[j].IntCell? :: ids[j].i <= r.value)
                    && exists j | 0 <= j < |ids| :: ids[j] == IntCell(r.value))
      && (r.Err? && (forall j | 0 <= j < |ids| :: Countable(ids[j])) ==> r.error == NoIdValues)
      && (r.Err? && !(forall j | 0 <= j < |ids| :: Countable(ids[j])) ==> r.error == NonNumericId)
  {
  }

  /** For a file with rows and an id column, the last id is the column's maximum. */
  lemma LastIdIsMax(t: Frame, m: int)
    requires !Empty(t) && ID_COLUMN in t.columns
    ensures LastIncidentId(Some(t)) == Ok(m) <==> ColumnMax(IdCells(t)) == Ok(Some(m))
  {
  }

  /**
    Resuming: with `L` the last id of the file, appending a batch of `k`
    records numbered `L + 1 .. L + k` under the file's own header makes the
    last id `L + k`.
   */
  lemma ResumeLastId(store: Store, df: Frame, last: int)
    requires LastIncidentId(store) == Ok(last)
    requires ID_COLUMN in df.columns && |df.rows| > 0 && NumberedAfter(df, last)
    requires store.Some? ==> store.value.columns == df.columns
    ensures LastIncidentId(Appended(store, df)) == Ok(last + |df.rows|)
  {
    NumberedMax(df, last);
    if store.None? {
      LastIdIsMax(df, last + |df.rows|);
    } else {
      GrownLastId(store.value, df, last);
    }
  }

  /** The existing-file case of the resume step. */
  lemma GrownLastId(t: Frame, df: Frame, last: int)
    requires LastIncidentId(Some(t)) == Ok(last)
    requires ID_COLUMN in df.columns && t.columns == df.columns && |df.rows| > 0
    requires ColumnMax(IdCells(df)) == Ok(Some(last + |df.rows|))
    ensures LastIncidentId(Appended(Some(t), df)) == Ok(last + |df.rows|)
  {
    if |t.rows| == 0 {
      assert t.rows + df.rows == df.rows;
      assert Frame(t.columns, t.rows + df.rows) == df;
      assert Appended(Some(t), df) == Some(df);
      LastIdIsMax(df, last + |df.rows|);
    } else {
      var g := Frame(t.columns, t.rows + df.rows);
      assert Appended(Some(t), df) == Some(g);
      LastIdIsMax(t, last);
      GrownMax(t, df, last);
      LastIdIsMax(g, last + |df.rows|);
    }
  }

  /** The id column's maximum after the batch is the batch's, which exceeds the file's. */
  lemma GrownMax(t: Frame, df: Frame, last: int)
    requires ID_COLUMN in df.columns && t.columns == df.columns && |df.rows| > 0
    requires ColumnMax(IdCells(df)) == Ok(Some(last + |df.rows|))
    requires ColumnMax(IdCells(t)) == Ok(Some(last))
    ensures ColumnMax(IdCells(Frame(t.columns, t.rows + df.rows))) == Ok(Some(last + |df.rows|))
  {
    IdCellsAppended(t, df);
    ColumnMaxConcat(IdCells(t), IdCells(df), last, last + |df.rows|);
  }

  /**
    The same append keeps the ids distinct when the file held distinct
    ids: every new id is above every id already stored.
   */
  lemma ResumeDistinct(t: Frame, df: Frame, last: int)
    requires LastIncidentId(Some(t)) == Ok(last) && ID_COLUMN in t.columns && DistinctIds(t)
    requires df.columns == t.columns && |df.rows| > 0 && NumberedAfter(df, last)
    ensures var g := Appended(Some(t), df).value;
      && g == Frame(t.columns, t.rows + df.rows)
      && DistinctIds(g)
      && forall i, j | 0 <= i < |t.rows| <= j < |g.rows| :: IdCells(g)[i].i < IdCells(g)[j].i
  {
    var g := Frame(t.columns, t.rows + df.rows);
    IdCellsAppended(t, df);
    StoredBelow(t, last);
    var before, ids, all := IdCells(t), IdCells(df), IdCells(g);
    var n := |t.rows|;
    forall j | 0 <= j < |all|
      ensures all[j].IntCell?
      ensures j < n ==> all[j] == before[j] && all[j].i <= last
      ensures n <= j ==> all[j] == IntCell(last + j - n + 1)
    {
      if j < n {
        assert all[j] == before[j];
      } else {
        assert all[j] == ids[j - n];
      }
    }
    forall i, j | 0 <= i < j < |all|
      ensures all[i] != all[j]
    {
      if j < n {
        assert before[i] != before[j];
      }
    }
  }

  /** A batch numbered after `L` appended to a missing file gives a file of distinct ids. */
  lemma ResumeCreates(df: Frame, last: int)
    requires ID_COLUMN in df.columns && |df.rows| > 0 && NumberedAfter(df, last)
    ensures Appended(None, df) == Some(df) && DistinctIds(df)
  {
  }

  /** Local ids `1 .. k` written into the id column shifted by `L` number the batch `L + 1 .. L + k`. */
  lemma ShiftedNumbering(df: Frame, last: int, xs: seq<IncidentGenerator.Incident>)
    requires forall j | 0 <= j < |xs| :: xs[j].incidentId == j + 1
    requires ID_COLUMN in df.columns
    requires |df.rows| == |xs| && forall j | 0 <= j < |xs| :: IdCells(df)[j] == IntCell(last + xs[j].incidentId)
    ensures NumberedAfter(df, last)
  {
  }

  /** `ResumeDistinct` for a file that may be missing. */
  lemma ResumeKeepsDistinct(store: Store, df: Frame, last: int)
    requires LastIncidentId(store) == Ok(last) && |df.rows| > 0
    requires ID_COLUMN in df.columns && (store.Some? ==> store.value.columns == df.columns)
    requires NumberedAfter(df, last)
    ensures store.None? || DistinctIds(store.value) ==> DistinctIds(Appended(store, df).value)
  {
    if store.None? {
      ResumeCreates(df, last);
    } else if DistinctIds(store.value) {
      ResumeDistinct(store.value, df, last);
    }
  }

  /**
    The resume step end to end. `IncidentGeneratorProperties.GenerateIds` gives
    the records of a successful generation the ids `1 .. n`; with `L` the
    ledger's last id, those ids shifted by `L` in the id column of a frame under
    the ledger's header, appended, make the last id `L + n`, and keep the
    ledger's ids distinct when they were, or create a ledger of distinct ids.
   */
  lemma ResumeBatch(store: Store, df: Frame, last: int, xs: seq<IncidentGenerator.Incident>)
    requires LastIncidentId(store) == Ok(last) && |xs| > 0
    requires forall j | 0 <= j < |xs| :: xs[j].incidentId == j + 1
    requires ID_COLUMN in df.columns && (store.Some? ==> store.value.columns == df.columns)
    requires |df.rows| == |xs| && forall j | 0 <= j < |xs| :: IdCells(df)[j] == IntCell(last + xs[j].incidentId)
    ensures LastIncidentId(Appended(store, df)) == Ok(last + |xs|)
    ensures store.None? || DistinctIds(store.value) ==> DistinctIds(Appended(store, df).value)
  {
    ShiftedNumbering(df, last, xs);
    ResumeKeepsDistinct(store, df, last);
    ResumeLastId(store, df, last);
  }
}
