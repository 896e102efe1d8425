/** The emitted saver: `updateColumnsWhere` (UPDATE by the identifying
    columns) and `insertColumns` (INSERT), each followed by the
    rows-affected check. The database is an oracle. */
module Saver {
  import opened Wrappers
  import opened Text
  import opened EntityRuntime
  import opened SqlText
  import opened Loader

  /** What executing a statement gives: a driver error, or a result whose
      rows-affected count may itself be an error. */
  datatype ExecResult = ExecFailed(cause: DbError) | Executed(rowsAffected: Result<int, DbError>)

  datatype SaveResult = SaveResult(issued: Statement, err: Option<OpError>)

  /** The check after `db.Exec`: driver errors are returned unchanged, and
      any count other than exactly one row means the row does not exist. */
  function CheckExec(res: ExecResult): (r: Option<OpError>)
    ensures res.ExecFailed? ==> r == Some(Driver(res.cause))
    ensures res.Executed? && res.rowsAffected.Failure? ==> r == Some(Driver(res.rowsAffected.error))
    ensures res.Executed? && res.rowsAffected.Success? ==>
              (r.None? <==> res.rowsAffected.value == 1) && (r.Some? ==> r.value == RowDoesNotExist)
  {
    match res
    case ExecFailed(e) => Some(Driver(e))
    case Executed(Failure(e)) => Some(Driver(e))
    case Executed(Success(n)) => if n != 1 then Some(RowDoesNotExist) else None
  }

  /** `updateColumnsWhere`: sets the listed columns, numbered from 1, on
      the row the where-columns identify; the where clause (built by the
      list's `andEqualClauseOf`) numbers its placeholders from n+1, and the
      arguments are the listed values followed by the where values. */
  function UpdateColumnsWhere(s: Schema, m: Instance, where: seq<nat>, cols: seq<nat>,
                              andEqualClauseOf: (nat, seq<string>) -> string,
                              exec: Statement -> ExecResult): (r: SaveResult)
    requires Fits(s, m) && ValidList(s, where) && ValidList(s, cols)
    ensures r.issued.text == UpdateText(s.tableName, Names(s, cols), andEqualClauseOf(|cols| + 1, Names(s, where)))
    ensures |r.issued.args| == |cols| + |where|
    ensures forall k :: 0 <= k < |cols| ==> r.issued.args[k] == ValueOf(m.values[cols[k]])
    ensures forall k :: 0 <= k < |where| ==> r.issued.args[|cols| + k] == ValueOf(m.values[where[k]])
    ensures r.err == CheckExec(exec(r.issued))
  {
    var text := UpdateText(s.tableName, Names(s, cols), andEqualClauseOf(|cols| + 1, Names(s, where)));
    var st := Statement(text, ValuesOf(m, cols) + ValuesOf(m, where));
    SaveResult(st, CheckExec(exec(st)))
  }

  /** The emitted `insertColumns(db, columns...)`: inserts the listed
      columns with one placeholder each, binding their values in order. */
  function InsertColumns(s: Schema, m: Instance, cols: seq<nat>, exec: Statement -> ExecResult): (r: SaveResult)
    requires Fits(s, m) && ValidList(s, cols)
    ensures r.issued.text == InsertText(s.tableName, Names(s, cols))
    ensures |r.issued.args| == |cols|
    ensures forall k :: 0 <= k < |cols| ==> r.issued.args[k] == ValueOf(m.values[cols[k]])
    ensures r.err == CheckExec(exec(r.issued))
  {
    var st := Statement(InsertText(s.tableName, Names(s, cols)), ValuesOf(m, cols));
    SaveResult(st, CheckExec(exec(st)))
  }

  /** The UPDATE's assignment list, read back, names every listed column
      once with placeholders `$1 .. $n` in order, and the arguments bound
      to those placeholders are the listed columns' values. */
  lemma UpdatePlaceholdersMatchArguments(s: Schema, m: Instance, where: seq<nat>, cols: seq<nat>,
                                         andEqualClauseOf: (nat, seq<string>) -> string,
                                         exec: Statement -> ExecResult)
    requires Fits(s, m) && ValidList(s, where) && ValidList(s, cols) && |cols| > 0
    requires forall k :: 0 <= k < |cols| ==> NoComma(s.columns[cols[k]].columnName)
    ensures var r := UpdateColumnsWhere(s, m, where, cols, andEqualClauseOf, exec);
            var sets := SplitCommas(JoinCommas(Assignments(Names(s, cols), 1)));
            && r.issued.text == "UPDATE " + s.tableName + " SET " + JoinCommas(Assignments(Names(s, cols), 1))
                                + " WHERE " + andEqualClauseOf(|cols| + 1, Names(s, where))
            && |sets| == |cols|
            && forall k :: 0 <= k < |cols| ==>
                 && sets[k] == Quote(s.columns[cols[k]].columnName) + "=" + Placeholder(k + 1)
                 && r.issued.args[k] == ValueOf(m.values[cols[k]])
  {
    var names := Names(s, cols);
    AssignmentsSplitBack(names, 1);
  }
}
