/** The older, standalone catalogue reader: a looser type mapper that accepts
    fewer exact names but any name starting with TIMESTAMP, reports the raw
    string on failure, and a column reader without the skip outcome. */
module LegacySchema {
  import opened Wrappers
  import opened Text
  import opened InformationSchema

  /** `ErrNoSuchDataType`: the raw, unnormalised type string. */
  datatype ErrNoSuchDataType = ErrNoSuchDataType(raw: string)

  datatype LegacyLookup = LegacyLookup(dataType: SqlDataType, err: Option<ErrNoSuchDataType>)

  /** Reference table of the exact names the legacy mapper accepts. */
  const LegacyTypeNames: map<string, SqlDataType> := map[
    "INT" := SqlInt,
    "INTEGER" := SqlInt,
    "BIGINT" := SqlBigInt,
    "BOOLEAN" := SqlBoolean,
    "CHARACTER VARYING" := SqlVarChar,
    "BYTEA" := SqlByteArray
  ]

  predicate StartsWith(s: string, prefix: string) {
    |prefix| <= |s| && s[..|prefix|] == prefix
  }

  function LegacyLookupNormalized(t: string): Option<SqlDataType> {
    if t == "INT" || t == "INTEGER" then Some(SqlInt)
    else if t == "BIGINT" then Some(SqlBigInt)
    else if t == "BOOLEAN" then Some(SqlBoolean)
    else if t == "CHARACTER VARYING" then Some(SqlVarChar)
    else if t == "BYTEA" then Some(SqlByteArray)
    else None
  }

  lemma LegacyLookupAgreesWithTable(t: string)
    ensures LegacyLookupNormalized(t) == (if t in LegacyTypeNames then Some(LegacyTypeNames[t]) else None)
  {
  }

  /** The legacy `StringToSqlDataType`: exact names from the table, then any
      normalised name starting with TIMESTAMP; otherwise `SqlUnknown` with the
      raw input as the error. */
  function LegacyStringToSqlDataType(v: string): (r: LegacyLookup)
    ensures r.err.None? <==>
              NormalizeTypeName(v) in LegacyTypeNames || StartsWith(NormalizeTypeName(v), "TIMESTAMP")
    ensures NormalizeTypeName(v) in LegacyTypeNames ==>
              r == LegacyLookup(LegacyTypeNames[NormalizeTypeName(v)], None)
    ensures NormalizeTypeName(v) !in LegacyTypeNames && StartsWith(NormalizeTypeName(v), "TIMESTAMP") ==>
              r == LegacyLookup(SqlTimestamp, None)
    ensures r.err.Some? ==> r == LegacyLookup(SqlUnknown, Some(ErrNoSuchDataType(v)))
  {
    var t := NormalizeTypeName(v);
    LegacyLookupAgreesWithTable(t);
    match LegacyLookupNormalized(t)
    case Some(dt) => LegacyLookup(dt, None)
    case None =>
      if StartsWith(t, "TIMESTAMP") then LegacyLookup(SqlTimestamp, None)
      else LegacyLookup(SqlUnknown, Some(ErrNoSuchDataType(v)))
  }

  /** The legacy mapper only ever produces the six older type tags. */
  lemma LegacyRange(v: string)
    ensures LegacyStringToSqlDataType(v).err.None? ==>
              LegacyStringToSqlDataType(v).dataType in {SqlInt, SqlBigInt, SqlBoolean, SqlVarChar, SqlByteArray, SqlTimestamp}
  {
  }

  /** No exact legacy name starts with a `T`. */
  lemma LegacyNamesInitials()
    ensures forall k :: k in LegacyTypeNames ==> |k| > 0 && k[0] in {'I', 'B', 'C'}
  {
  }

  /** Unlike the current mapper, the legacy one accepts every name starting
      with TIMESTAMP, "TIMESTAMP WITH TIME ZONE" included, as a timestamp. */
  lemma LegacyAcceptsAnyTimestamp(v: string)
    requires StartsWith(NormalizeTypeName(v), "TIMESTAMP")
    ensures LegacyStringToSqlDataType(v) == LegacyLookup(SqlTimestamp, None)
  {
    LegacyNamesInitials();
    var t := NormalizeTypeName(v);
    assert t[0] == t[..9][0] == 'T';
    assert t !in LegacyTypeNames;
  }

  /** The two mappers disagree on a time-zone-aware timestamp: the legacy
      one accepts it, the current one reports it unknown. */
  lemma MappersDisagreeOnTimeZone(v: string, columnName: string, tableName: string)
    requires NormalizeTypeName(v) == "TIMESTAMP WITH TIME ZONE"
    ensures LegacyStringToSqlDataType(v).err.None?
    ensures StringToSqlDataType(v, columnName, tableName).err.Some?
  {
    assert "TIMESTAMP WITH TIME ZONE"[..9] == "TIMESTAMP";
    LegacyAcceptsAnyTimestamp(v);
    TimeZoneAwareRejected(v, columnName, tableName);
  }

  /** Unlike the current mapper, the legacy one does not know TEXT. */
  lemma LegacyRejectsText(v: string)
    requires NormalizeTypeName(v) == "TEXT"
    ensures LegacyStringToSqlDataType(v) == LegacyLookup(SqlUnknown, Some(ErrNoSuchDataType(v)))
  {
    LegacyNamesInitials();
    var t := NormalizeTypeName(v);
    assert t[0] == 'T' && |t| == 4;
    assert !StartsWith(t, "TIMESTAMP");
  }

  /** One row of the legacy catalogue query. */
  datatype LegacyRow = LegacyRow(columnName: string, dataType: string, isNullable: string)

  datatype LegacyError =
    | LegacyNoSuchType(cause: ErrNoSuchDataType)
    | LegacyBadIsNullable(tableName: string, columnName: string, value: string)

  /** The per-row body of the legacy `Columns`: type lookup, then `is_nullable`. */
  function LegacyConvertRow(tableName: string, row: LegacyRow): (r: Result<Column, LegacyError>)
    ensures r.Success? <==>
              LegacyStringToSqlDataType(row.dataType).err.None? && ParseIsNullable(row.isNullable).Some?
    ensures r.Success? ==>
              r.value == Column(row.columnName, LegacyStringToSqlDataType(row.dataType).dataType,
                                row.isNullable == "YES")
    ensures r.Failure? && LegacyStringToSqlDataType(row.dataType).err.Some? ==>
              r.error == LegacyNoSuchType(ErrNoSuchDataType(row.dataType))
    ensures r.Failure? && LegacyStringToSqlDataType(row.dataType).err.None? ==>
              r.error == LegacyBadIsNullable(tableName, row.columnName, row.isNullable)
  {
    var lookup := LegacyStringToSqlDataType(row.dataType);
    match lookup.err
    case Some(e) => Failure(LegacyNoSuchType(e))
    case None =>
      match ParseIsNullable(row.isNullable)
      case None => Failure(LegacyBadIsNullable(tableName, row.columnName, row.isNullable))
      case Some(n) => Success(Column(row.columnName, lookup.dataType, n))
  }

  /** The legacy row loop on the per-row results: the first failure aborts. */
  function CollectAll<T, E>(results: seq<Result<T, E>>): Result<seq<T>, E> {
    if |results| == 0 then Success([])
    else
      match results[0]
      case Failure(e) => Failure(e)
      case Success(c) =>
        match CollectAll(results[1..])
        case Failure(e) => Failure(e)
        case Success(cs) => Success([c] + cs)
  }

  lemma {:induction false} CollectAllCharacterized<T, E>(results: seq<Result<T, E>>)
    ensures CollectAll(results).Success? <==> forall i :: 0 <= i < |results| ==> results[i].Success?
    ensures CollectAll(results).Success? ==>
              && |CollectAll(results).value| == |results|
              && forall i :: 0 <= i < |results| ==> CollectAll(results).value[i] == results[i].value
    ensures CollectAll(results).Failure? ==>
              exists i :: 0 <= i < |results|
                && results[i] == Failure(CollectAll(results).error)
                && forall j :: 0 <= j < i ==> results[j].Success?
  {
    if |results| > 0 {
      var rest := results[1..];
      CollectAllCharacterized(rest);
      assert forall i :: 1 <= i < |results| ==> results[i] == rest[i - 1];
      if results[0].Success? && CollectAll(rest).Failure? {
        var e := CollectAll(rest).error;
        var i :| 0 <= i < |rest| && rest[i] == Failure(e) && forall j :: 0 <= j < i ==> rest[j].Success?;
        assert results[i + 1] == Failure(e);
      }
    }
  }

  function LegacyOutcomes(tableName: string, rows: seq<LegacyRow>): (r: seq<Result<Column, LegacyError>>)
    ensures |r| == |rows|
    ensures forall i :: 0 <= i < |rows| ==> r[i] == LegacyConvertRow(tableName, rows[i])
  {
    seq(|rows|, i requires 0 <= i < |rows| => LegacyConvertRow(tableName, rows[i]))
  }

  /** The legacy `Columns` without the query. */
  function LegacyColumns(tableName: string, rows: seq<LegacyRow>): Result<seq<Column>, LegacyError> {
    CollectAll(LegacyOutcomes(tableName, rows))
  }

  /** Every row becomes a column at the same position when no row fails;
      otherwise the error is the first failing row's. */
  lemma LegacyColumnsAligned(tableName: string, rows: seq<LegacyRow>)
    ensures LegacyColumns(tableName, rows).Success? <==>
              forall i :: 0 <= i < |rows| ==> LegacyConvertRow(tableName, rows[i]).Success?
    ensures LegacyColumns(tableName, rows).Success? ==>
              && |LegacyColumns(tableName, rows).value| == |rows|
              && forall i :: 0 <= i < |rows| ==>
                   LegacyColumns(tableName, rows).value[i] == LegacyConvertRow(tableName, rows[i]).value
    ensures LegacyColumns(tableName, rows).Failure? ==>
              exists i :: 0 <= i < |rows|
                && LegacyConvertRow(tableName, rows[i]) == Failure(LegacyColumns(tableName, rows).error)
                && forall j :: 0 <= j < i ==> LegacyConvertRow(tableName, rows[j]).Success?
  {
    CollectAllCharacterized(LegacyOutcomes(tableName, rows));
  }
}
