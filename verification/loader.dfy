/** The emitted loader: the column-name analyzer, `loadWithColumns` (scan
    one row into listed columns), `LoadMany<Plural>` (scan a row set into a
    list of instances) and `loadColumnsWhere` (query one row by the
    identifying columns). The database is an oracle. */
module Loader {
  import opened Wrappers
  import opened Text
  import opened ColumnType
  import opened EntityRuntime
  import opened SqlText

  /** One scanned database value: SQL NULL or a value. */
  datatype Cell = Null | CellValue(value: Value)

  /** What scanning a row gives: a driver error (no row included), or the
      row's cells. */
  datatype ScanResult = ScanFailed(cause: DbError) | Row(cells: seq<Cell>)

  /** A statement handed to the database: its text and its arguments. */
  datatype Statement = Statement(text: string, args: seq<Arg>)

  /** Converting one cell into a field: NULL only fits a pointer field. */
  function Assign(d: ColumnTypeDefn, c: Cell): (r: Option<Slot>)
    ensures r.None? <==> c.Null? && !d.nullable
    ensures r.Some? ==> SlotFits(d, r.value)
    ensures r.Some? ==> (ValueOf(r.value) == NilArg <==> c.Null?)
    ensures r.Some? && c.CellValue? ==> ValueOf(r.value) == ArgValue(c.value)
  {
    match c
    case Null => if d.nullable then Some(Ref(None)) else None
    case CellValue(v) => Some(if d.nullable then Ref(Some(v)) else Direct(v))
  }

  /** The column `cols[k]` is not listed again after position `k`, so its
      scanned value is the one that stays. */
  ghost predicate LastOccurrence(cols: seq<nat>, k: nat) {
    forall j :: k < j < |cols| ==> cols[j] != cols[k]
  }

  datatype Scan = Scan(inst: Instance, failedAt: Option<nat>)

  /** The `k`-th cell converts into the `k`-th listed column's field. */
  predicate Converts(s: Schema, cols: seq<nat>, cells: seq<Cell>, k: nat)
    requires ValidList(s, cols) && |cells| == |cols| && k < |cols|
  {
    Assign(s.columns[cols[k]], cells[k]).Some?
  }

  /** Writes one converted field; nothing else changes. */
  function Store(s: Schema, m: Instance, c: nat, slot: Slot): (r: Instance)
    requires Fits(s, m) && c < |s.columns| && SlotFits(s.columns[c], slot)
    ensures Fits(s, r) && r.loaded == m.loaded && r.isSet == m.isSet
    ensures r.values[c] == slot
    ensures forall i :: 0 <= i < |s.columns| && i != c ==> r.values[i] == m.values[i]
  {
    m.(values := m.values[c := slot])
  }

  /** Column `i` is listed at some position from `from` on. */
  predicate ListedFrom(cols: seq<nat>, from: nat, i: nat) {
    exists k :: from <= k < |cols| && cols[k] == i
  }

  /** `Scan` into the listed fields' pointers, in order from position
      `from`; the first cell that cannot be converted stops it, after the
      earlier fields were written. A column listed twice keeps the value
      scanned last. */
  function {:induction false} WriteFrom(s: Schema, m: Instance, cols: seq<nat>, cells: seq<Cell>, from: nat): (r: Scan)
    requires Fits(s, m) && ValidList(s, cols) && |cells| == |cols| && from <= |cols|
    ensures Fits(s, r.inst) && r.inst.loaded == m.loaded && r.inst.isSet == m.isSet
    ensures r.failedAt.None? <==> forall k :: from <= k < |cols| ==> Converts(s, cols, cells, k)
    ensures r.failedAt.Some? ==>
              && from <= r.failedAt.value < |cols|
              && !Converts(s, cols, cells, r.failedAt.value)
              && forall k :: from <= k < r.failedAt.value ==> Converts(s, cols, cells, k)
    ensures r.failedAt.None? ==>
              && (forall i :: 0 <= i < |s.columns| && !ListedFrom(cols, from, i) ==> r.inst.values[i] == m.values[i])
              && forall k :: from <= k < |cols| && LastOccurrence(cols, k) ==>
                   Some(r.inst.values[cols[k]]) == Assign(s.columns[cols[k]], cells[k])
    decreases |cols| - from
  {
    if from == |cols| then Scan(m, None)
    else
      match Assign(s.columns[cols[from]], cells[from])
      case None =>
        assert !Converts(s, cols, cells, from);
        Scan(m, Some(from))
      case Some(slot) =>
        var r := WriteFrom(s, Store(s, m, cols[from], slot), cols, cells, from + 1);
        assert r.failedAt.None? ==> !ListedFrom(cols, from + 1, cols[from]) ==> r.inst.values[cols[from]] == slot;
        r
  }

  datatype LoadResult = LoadResult(inst: Instance, err: Option<OpError>)

  /** `loadWithColumns`: scans the row into the listed columns; on success
      every listed column becomes Loaded. A scan error, or a row whose
      width differs from the list, changes nothing; a value that cannot be
      converted stops the scan with the flags unchanged. */
  function LoadWithColumns(s: Schema, m: Instance, cols: seq<nat>, scan: ScanResult): (r: LoadResult)
    requires Fits(s, m) && ValidList(s, cols)
    ensures Fits(s, r.inst) && r.inst.isSet == m.isSet
    ensures scan.ScanFailed? ==> r == LoadResult(m, Some(Driver(scan.cause)))
    ensures scan.Row? && |scan.cells| != |cols| ==>
              r == LoadResult(m, Some(ArgumentCountMismatch(|cols|, |scan.cells|)))
    ensures r.err.Some? ==> r.inst.loaded == m.loaded
    ensures r.err.None? <==>
              scan.Row? && |scan.cells| == |cols| && forall k :: 0 <= k < |cols| ==> Converts(s, cols, scan.cells, k)
    ensures r.err.None? ==>
              && (forall i :: 0 <= i < |s.columns| ==> r.inst.loaded[i] == (i in cols || m.loaded[i]))
              && (forall i :: 0 <= i < |s.columns| && i !in cols ==> r.inst.values[i] == m.values[i])
              && forall k :: 0 <= k < |cols| && LastOccurrence(cols, k) ==>
                   Some(r.inst.values[cols[k]]) == Assign(s.columns[cols[k]], scan.cells[k])
  {
    match scan
    case ScanFailed(e) => LoadResult(m, Some(Driver(e)))
    case Row(cells) =>
      if |cells| != |cols| then LoadResult(m, Some(ArgumentCountMismatch(|cols|, |cells|)))
      else
        var w := WriteFrom(s, m, cols, cells, 0);
        assert forall i :: ListedFrom(cols, 0, i) <==> i in cols;
        match w.failedAt
        case Some(k) => LoadResult(w.inst, Some(ScanConversion(k)))
        case None => LoadResult(SetLoaded(w.inst, cols, true), None)
  }

  /** The first column whose name is `name`: the `case` of the analyzer's
      switch that matches. */
  function MatchColumn(defns: seq<ColumnTypeDefn>, name: string): (r: Option<nat>)
    ensures r.None? <==> forall j :: 0 <= j < |defns| ==> defns[j].columnName != name
    ensures r.Some? ==> r.value < |defns| && defns[r.value].columnName == name
                        && forall j :: 0 <= j < r.value ==> defns[j].columnName != name
  {
    if |defns| == 0 then None
    else if defns[0].columnName == name then Some(0)
    else
      match MatchColumn(defns[1..], name)
      case None => None
      case Some(j) => Some(j + 1)
  }

  /** The switch's match for each result column name. */
  function Matches(s: Schema, names: seq<string>): (r: seq<Option<nat>>)
    ensures |r| == |names|
    ensures forall i :: 0 <= i < |names| ==> r[i] == MatchColumn(s.columns, names[i])
  {
    seq(|names|, i requires 0 <= i < |names| => MatchColumn(s.columns, names[i]))
  }

  /** The analyzer loop from position `from` on, given each name's match:
      the first name without a match fails with its position. */
  function {:induction false} AnalyzeFrom(ms: seq<Option<nat>>, names: seq<string>, from: nat): (r: Result<seq<nat>, OpError>)
    requires |ms| == |names| && from <= |names|
    ensures r.Success? <==> forall i :: from <= i < |ms| ==> ms[i].Some?
    ensures r.Success? ==> |r.value| == |ms| - from
                           && forall k :: 0 <= k < |r.value| ==> Some(r.value[k]) == ms[from + k]
    ensures r.Failure? ==> exists i :: from <= i < |ms| && r.error == UnknownColumn(i, names[i])
                                       && ms[i].None? && forall j :: from <= j < i ==> ms[j].Some?
    decreases |names| - from
  {
    if from == |names| then Success([])
    else
      match ms[from]
      case None => Failure(UnknownColumn(from, names[from]))
      case Some(c) =>
        match AnalyzeFrom(ms, names, from + 1)
        case Failure(e) => Failure(e)
        case Success(rest) => Success([c] + rest)
  }

  /** `analyzeColumnsFor<Plural>`: maps result column names to columns,
      position by position; the first unknown name fails with its position. */
  function Analyze(s: Schema, names: seq<string>): (r: Result<seq<nat>, OpError>)
    ensures r.Success? <==> forall i :: 0 <= i < |names| ==> exists j :: 0 <= j < |s.columns| && s.columns[j].columnName == names[i]
    ensures r.Success? ==> ValidList(s, r.value) && |r.value| == |names|
                           && forall k :: 0 <= k < |names| ==> s.columns[r.value[k]].columnName == names[k]
    ensures r.Failure? ==> exists i :: 0 <= i < |names| && r.error == UnknownColumn(i, names[i])
                                       && (forall j :: 0 <= j < |s.columns| ==> s.columns[j].columnName != names[i])
                                       && forall i' :: 0 <= i' < i ==> exists j :: 0 <= j < |s.columns| && s.columns[j].columnName == names[i']
  {
    AnalyzeFrom(Matches(s, names), names, 0)
  }

  /** A result set: its column names (or the error reading them), the rows
      `Next` yields with what scanning each gives, and `rows.Err()` after
      the last row. */
  datatype RowSet = RowSet(columnNames: Result<seq<string>, DbError>, rows: seq<ScanResult>, finalError: Option<DbError>)

  /** The list `LoadMany<Plural>` returns, and whether it closed the row
      set itself because a row failed. */
  datatype ManyResult = ManyResult(models: Result<seq<Instance>, OpError>, closedEarly: bool)

  /** Scanning one row into a fresh instance. */
  function RowLoad(s: Schema, cols: seq<nat>, row: ScanResult): LoadResult
    requires ValidList(s, cols)
  {
    LoadWithColumns(s, ZeroInstance(s), cols, row)
  }

  /** The `for rows.Next()` loop from row `from` on: each row is scanned
      into a fresh instance by `load`; the first row that fails ends the
      loop with its error. */
  function {:induction false} LoadRows(load: ScanResult -> LoadResult, rows: seq<ScanResult>, from: nat): (r: Result<seq<Instance>, OpError>)
    requires from <= |rows|
    ensures r.Success? <==> forall k :: from <= k < |rows| ==> load(rows[k]).err.None?
    ensures r.Success? ==> |r.value| == |rows| - from
                           && forall k :: from <= k < |rows| ==> r.value[k - from] == load(rows[k]).inst
    ensures r.Failure? ==> exists k :: from <= k < |rows| && Some(r.error) == load(rows[k]).err
                                       && forall j :: from <= j < k ==> load(rows[j]).err.None?
    decreases |rows| - from
  {
    if from == |rows| then Success([])
    else
      var l := load(rows[from]);
      match l.err
      case Some(e) => Failure(e)
      case None =>
        match LoadRows(load, rows, from + 1)
        case Failure(e) => Failure(e)
        case Success(ms) => Success([l.inst] + ms)
  }

  /** `LoadMany<Plural>`: an error reading the column names or analysing
      them ends it before any row is read; otherwise one instance per row,
      in row order, each Loaded in exactly the result columns and Set in
      none. A failing row closes the row set and returns no list; a row-set
      error after the last row returns no list either. */
  function LoadMany(s: Schema, rs: RowSet): (r: ManyResult)
    ensures rs.columnNames.Failure? ==> r == ManyResult(Failure(Driver(rs.columnNames.error)), false)
    ensures rs.columnNames.Success? && Analyze(s, rs.columnNames.value).Failure? ==>
              r == ManyResult(Failure(Analyze(s, rs.columnNames.value).error), false)
    ensures r.closedEarly ==> r.models.Failure?
    ensures r.models.Success? ==>
              && rs.columnNames.Success? && rs.finalError.None?
              && var cols := Analyze(s, rs.columnNames.value).value;
              && |r.models.value| == |rs.rows|
              && forall k :: 0 <= k < |rs.rows| ==>
                   var m := r.models.value[k];
                   && m == RowLoad(s, cols, rs.rows[k]).inst
                   && Fits(s, m)
                   && forall i :: 0 <= i < |s.columns| ==> (m.loaded[i] <==> i in cols) && !m.isSet[i]
    ensures rs.columnNames.Success? && Analyze(s, rs.columnNames.value).Success? ==>
              var cols := Analyze(s, rs.columnNames.value).value;
              && (r.closedEarly <==> exists k :: 0 <= k < |rs.rows| && RowLoad(s, cols, rs.rows[k]).err.Some?)
              && (!r.closedEarly ==> (r.models.Success? <==> rs.finalError.None?))
              && (!r.closedEarly && rs.finalError.Some? ==> r.models == Failure(Driver(rs.finalError.value)))
  {
    match rs.columnNames
    case Failure(e) => ManyResult(Failure(Driver(e)), false)
    case Success(names) =>
      match Analyze(s, names)
      case Failure(e) => ManyResult(Failure(e), false)
      case Success(cols) =>
        match LoadRows(row => RowLoad(s, cols, row), rs.rows, 0)
        case Failure(e) => ManyResult(Failure(e), true)
        case Success(ms) =>
          if rs.finalError.Some? then ManyResult(Failure(Driver(rs.finalError.value)), false)
          else ManyResult(Success(ms), false)
  }

  /** What `loadColumnsWhere` did: the statement it issued and the load. */
  datatype WhereLoad = WhereLoad(issued: Statement, load: LoadResult)

  /** `loadColumnsWhere`: selects the listed columns of the row the
      where-columns identify, binding the where-columns' values in list
      order, and scans the row into the instance. `andClause` is the runtime
      helper `BuildAndEqualClause`, `query` the database. */
  function LoadColumnsWhere(s: Schema, m: Instance, where: seq<nat>, cols: seq<nat>,
                            andClause: (nat, seq<string>) -> string,
                            query: Statement -> ScanResult): (r: WhereLoad)
    requires Fits(s, m) && ValidList(s, where) && ValidList(s, cols)
    ensures r.issued.text == SelectText(s.tableName, Names(s, cols), andClause(1, Names(s, where)))
    ensures |r.issued.args| == |where|
    ensures forall k :: 0 <= k < |where| ==> r.issued.args[k] == ValueOf(m.values[where[k]])
    ensures r.load == LoadWithColumns(s, m, cols, query(r.issued))
  {
    var st := Statement(SelectText(s.tableName, Names(s, cols), andClause(1, Names(s, where))), ValuesOf(m, where));
    WhereLoad(st, LoadWithColumns(s, m, cols, query(st)))
  }
}
