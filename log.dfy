/** The research log `datos_recoleccion_tesis.csv`: an append-only table whose
    header is written by the first append, when the file does not yet exist
    (app.py:116-117, 134-138). The file is modelled as an existence flag and its
    rows; a single writer is assumed. */
module Log {
  import opened Record

  /** The abstract state of the log file. */
  datatype LogFile = LogFile(present: bool, rows: seq<Row>)

  /** The log before the first request of a deployment: no file at all. */
  const Fresh: LogFile := LogFile(false, [])

  /** The file after one append: it now exists, its earlier rows are untouched,
      the header comes first when the file was missing, and the row comes last. */
  function AfterAppend(f: LogFile, row: Row): (g: LogFile)
    ensures g.present
    ensures |g.rows| == |f.rows| + (if f.present then 1 else 2)
    ensures g.rows[..|f.rows|] == f.rows
    ensures !f.present ==> g.rows[|f.rows|] == Header
    ensures g.rows[|g.rows| - 1] == row
  {
    LogFile(true, f.rows + (if f.present then [] else [Header]) + [row])
  }

  /** The file after appending `rs` one row after the other: it exists once
      anything was appended, and its earlier rows are untouched. */
  function AppendAll(f: LogFile, rs: seq<Row>): (g: LogFile)
    ensures g.present == (f.present || rs != [])
    ensures |g.rows| >= |f.rows| + |rs| && g.rows[..|f.rows|] == f.rows
    decreases |rs|
  {
    if rs == [] then f else AppendAll(AfterAppend(f, rs[0]), rs[1..])
  }

  /** Appending rows keeps the old rows, adds the header only when the file was
      missing and something is appended, and then every row in order: nothing is
      merged or deduplicated. */
  lemma {:induction false} AppendAllRows(f: LogFile, rs: seq<Row>)
    ensures AppendAll(f, rs).present == (f.present || rs != [])
    ensures AppendAll(f, rs).rows == f.rows + (if !f.present && rs != [] then [Header] else []) + rs
    decreases |rs|
  {
    if rs != [] {
      var g := AfterAppend(f, rs[0]);
      AppendAllRows(g, rs[1..]);
      assert rs == [rs[0]] + rs[1..];
    }
  }

  /** N appends to a fresh log give exactly one header followed by the N rows,
      provided they are data rows (as every composed row is). */
  lemma FreshLogHasOneHeader(rs: seq<Row>)
    requires rs != []
    requires forall k :: 0 <= k < |rs| ==> IsDataRow(rs[k])
    ensures AppendAll(Fresh, rs) == LogFile(true, [Header] + rs)
    ensures forall k :: 1 <= k < |AppendAll(Fresh, rs).rows| ==> AppendAll(Fresh, rs).rows[k] != Header
  {
    AppendAllRows(Fresh, rs);
    var rows := AppendAll(Fresh, rs).rows;
    forall k | 1 <= k < |rows| ensures rows[k] != Header {
      assert rows[k] == rs[k - 1];
      assert !Header[4].Int?;
    }
  }

  /** The log file as an object whose state each request updates in place. */
  class InteractionLog {
    var present: bool
    var rows: seq<Row>

    function State(): LogFile
      reads this
    {
      LogFile(present, rows)
    }

    /** A file that does not exist holds no rows. */
    ghost predicate Valid()
      reads this
    {
      !present ==> rows == []
    }

    /** The log as found on disk when the process starts. */
    constructor (present0: bool, rows0: seq<Row>)
      requires !present0 ==> rows0 == []
      ensures Valid() && State() == LogFile(present0, rows0)
    {
      present := present0;
      rows := rows0;
    }

    /** `archivo_existe = os.path.isfile(...)`, then open in append mode (which
        creates the file), write the header if the file was missing, then the row. */
    method Append(row: Row)
      requires Valid()
      modifies this
      ensures Valid()
      ensures State() == AfterAppend(old(State()), row)
      ensures !old(present) ==> rows == [Header, row]
    {
      var archivoExiste := present;
      present := true;
      if !archivoExiste {
        rows := rows + [Header];
      }
      rows := rows + [row];
    }
  }
}
