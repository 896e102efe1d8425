/** The catalogue side of the generator: the closed set of SQL data types, the
    mapping from a catalogue type string to that set (with its distinct "skip"
    outcome), the creation/update timestamp naming convention, and the
    conversion of `information_schema.columns` rows into columns. The
    catalogue queries themselves are I/O and are not modelled: the rows they
    return are the input. */
module InformationSchema {
  import opened Wrappers
  import opened Text

  /** The generator's SQL type tags; `SqlUnknown` is Go's zero value. */
  datatype SqlDataType =
    | SqlUnknown
    | SqlInt
    | SqlBigInt
    | SqlByteArray
    | SqlVarChar
    | SqlBoolean
    | SqlTimestamp
    | SqlFloat64
    | SqlText
    | SqlNumeric
    | SqlDate
    | SqlSmallInt
    | SqlReal

  /** `ErrSkipColumn` is a sentinel distinct from every `NoSuchDataTypeError`. */
  datatype TypeError =
    | ErrSkipColumn
    | NoSuchDataTypeError(sqlTypeName: string, tableName: string, columnName: string)

  /** Go's `(SqlDataType, error)` result pair. */
  datatype TypeLookup = TypeLookup(dataType: SqlDataType, err: Option<TypeError>)

  /** Upper-case, then trim spaces at both ends. */
  function NormalizeTypeName(v: string): string {
    TrimSpaces(Upper(v))
  }

  /** Reference table of the accepted (normalised) type names. */
  const TypeNames: map<string, SqlDataType> := map[
    "REAL" := SqlReal,
    "SMALLINT" := SqlSmallInt,
    "INT" := SqlInt,
    "INTEGER" := SqlInt,
    "BIGINT" := SqlBigInt,
    "BOOLEAN" := SqlBoolean,
    "CHARACTER VARYING" := SqlVarChar,
    "TEXT" := SqlText,
    "BYTEA" := SqlByteArray,
    "DOUBLE PRECISION" := SqlFloat64,
    "DATE" := SqlDate,
    "NUMERIC" := SqlNumeric,
    "TIMESTAMP WITHOUT TIME ZONE" := SqlTimestamp,
    "TIMESTAMP" := SqlTimestamp
  ]

  /** The type-name switch of `StringToSqlDataType`, on the normalised name. */
  function LookupNormalized(t: string): Option<SqlDataType> {
    if t == "REAL" then Some(SqlReal)
    else if t == "SMALLINT" then Some(SqlSmallInt)
    else if t == "INT" || t == "INTEGER" then Some(SqlInt)
    else if t == "BIGINT" then Some(SqlBigInt)
    else if t == "BOOLEAN" then Some(SqlBoolean)
    else if t == "CHARACTER VARYING" then Some(SqlVarChar)
    else if t == "TEXT" then Some(SqlText)
    else if t == "BYTEA" then Some(SqlByteArray)
    else if t == "DOUBLE PRECISION" then Some(SqlFloat64)
    else if t == "DATE" then Some(SqlDate)
    else if t == "NUMERIC" then Some(SqlNumeric)
    else if t == "TIMESTAMP WITHOUT TIME ZONE" || t == "TIMESTAMP" then Some(SqlTimestamp)
    else None
  }

  lemma LookupAgreesWithTable(t: string)
    ensures LookupNormalized(t) == (if t in TypeNames then Some(TypeNames[t]) else None)
    ensures "TSVECTOR" !in TypeNames
  {
  }

  /** Maps a catalogue type string to a type tag. Success is exactly the
      reference table; the skip sentinel is exactly TSVECTOR; anything else
      is a `NoSuchDataTypeError` carrying the raw string, the table and the
      column; every error outcome carries `SqlUnknown`. */
  function StringToSqlDataType(v: string, columnName: string, tableName: string): (r: TypeLookup)
    ensures r.err.None? <==> NormalizeTypeName(v) in TypeNames
    ensures r.err.None? ==> r.dataType == TypeNames[NormalizeTypeName(v)]
    ensures r.err.None? ==> r.dataType != SqlUnknown
    ensures r.err.Some? ==> r.dataType == SqlUnknown
    ensures r.err == Some(ErrSkipColumn) <==> NormalizeTypeName(v) == "TSVECTOR"
    ensures r.err.Some? && r.err != Some(ErrSkipColumn) ==>
              r.err == Some(NoSuchDataTypeError(v, tableName, columnName))
  {
    var t := NormalizeTypeName(v);
    LookupAgreesWithTable(t);
    match LookupNormalized(t)
    case Some(dt) => TypeLookup(dt, None)
    case None =>
      if t == "TSVECTOR" then TypeLookup(SqlUnknown, Some(ErrSkipColumn))
      else TypeLookup(SqlUnknown, Some(NoSuchDataTypeError(v, tableName, columnName)))
  }

  lemma UpperIdempotent(v: string)
    ensures Upper(Upper(v)) == Upper(v)
  {
  }

  lemma {:induction false} TrimLeftPadded(u: string)
    ensures TrimLeftSpaces(" " + u) == TrimLeftSpaces(u)
  {
    assert (" " + u)[1..] == u;
  }

  lemma {:induction false} TrimRightPadded(u: string)
    ensures TrimRightSpaces(u + " ") == TrimRightSpaces(u)
  {
    assert (u + " ")[..|u|] == u;
  }

  /** Trimming a string padded on the left, or on the right, leaves the same result. */
  lemma {:induction false} TrimLeftAppendSpace(u: string)
    ensures TrimRightSpaces(TrimLeftSpaces(u + " ")) == TrimRightSpaces(TrimLeftSpaces(u))
    decreases |u|
  {
    if |u| > 0 && u[0] == ' ' {
      assert (u + " ")[1..] == u[1..] + " ";
      TrimLeftAppendSpace(u[1..]);
    } else if |u| == 0 {
      assert TrimLeftSpaces(" ") == "";
    } else {
      TrimRightPadded(u);
    }
  }

  /** Padding with spaces and changing letter case never changes the lookup:
      "integer " and "INT" both give `SqlInt`. */
  lemma {:induction false} NormalizeIgnoresPaddingAndCase(v: string)
    ensures NormalizeTypeName(" " + v + " ") == NormalizeTypeName(v)
    ensures NormalizeTypeName(Upper(v)) == NormalizeTypeName(v)
  {
    UpperIdempotent(v);
    assert Upper(" " + v + " ") == " " + (Upper(v) + " ");
    TrimLeftPadded(Upper(v) + " ");
    TrimLeftAppendSpace(Upper(v));
  }

  lemma LookupIgnoresPaddingAndCase(v: string, columnName: string, tableName: string)
    ensures StringToSqlDataType(" " + v + " ", columnName, tableName).dataType
            == StringToSqlDataType(v, columnName, tableName).dataType
    ensures StringToSqlDataType(Upper(v), columnName, tableName).dataType
            == StringToSqlDataType(v, columnName, tableName).dataType
  {
    NormalizeIgnoresPaddingAndCase(v);
  }

  /** An already upper-case name is its own upper-case form. */
  lemma UpperOfUpperCase(s: string)
    requires forall i :: 0 <= i < |s| ==> !('a' <= s[i] <= 'z')
    ensures Upper(s) == s
  {
  }

  /** A name with no lower-case letter and no space at either end is its
      own normal form. */
  lemma NormalFormIsItself(s: string)
    requires forall i :: 0 <= i < |s| ==> !('a' <= s[i] <= 'z')
    requires |s| > 0 && s[0] != ' ' && s[|s| - 1] != ' '
    ensures NormalizeTypeName(s) == s
  {
    UpperOfUpperCase(s);
  }

  /** Every accepted name is at most 17 characters long, except the long
      spelling of a timestamp. */
  lemma TableNameLengths()
    ensures forall k :: k in TypeNames ==> |k| <= 17 || k == "TIMESTAMP WITHOUT TIME ZONE"
  {
  }

  /** Time-zone-aware timestamps are not supported: however the catalogue
      spells it, the type is reported as unknown with its raw name. */
  lemma TimeZoneAwareRejected(v: string, columnName: string, tableName: string)
    requires NormalizeTypeName(v) == "TIMESTAMP WITH TIME ZONE"
    ensures StringToSqlDataType(v, columnName, tableName)
            == TypeLookup(SqlUnknown, Some(NoSuchDataTypeError(v, tableName, columnName)))
  {
    TableNameLengths();
    assert |"TIMESTAMP WITH TIME ZONE"| == 24;
  }

  /** A column as the generator sees it. */
  datatype Column = Column(name: string, dataType: SqlDataType, nullable: bool)

  /** The fixed creation-timestamp convention; no column is both kinds. */
  predicate IsCreationTimestamp(c: Column)
    ensures IsCreationTimestamp(c) ==> c.dataType == SqlTimestamp && !IsUpdateTimestamp(c)
  {
    c.name == "created_at" && c.dataType == SqlTimestamp
  }

  /** The fixed update-timestamp convention. */
  predicate IsUpdateTimestamp(c: Column)
    ensures IsUpdateTimestamp(c) ==> c.dataType == SqlTimestamp && c.name != "created_at"
  {
    c.name == "updated_at" && c.dataType == SqlTimestamp
  }

  /** One row of the `information_schema.columns` query. */
  datatype CatalogueRow = CatalogueRow(columnName: string, dataType: string, isNullable: string, udtName: string)

  /** The errors `Columns` (and the other catalogue accessors) can return. */
  datatype SchemaError =
    | UnmappedType(cause: TypeError)
    | BadIsNullable(tableName: string, columnName: string, value: string)
    | CatalogueFailure(message: string)

  /** The `is_nullable` switch shared by both catalogue readers. */
  function ParseIsNullable(s: string): (r: Option<bool>)
    ensures r.Some? <==> s == "NO" || s == "YES"
    ensures r.Some? ==> (r.value <==> s == "YES")
  {
    if s == "NO" then Some(false) else if s == "YES" then Some(true) else None
  }

  /** A USER-DEFINED type is looked up by its `udt_name`. */
  function EffectiveTypeName(row: CatalogueRow): string {
    if Upper(row.dataType) == "USER-DEFINED" then row.udtName else row.dataType
  }

  datatype RowOutcome = Keep(column: Column) | Skip | Abort(err: SchemaError)

  /** The per-row body of `Columns`: type lookup first, then `is_nullable`. */
  function ConvertRow(tableName: string, row: CatalogueRow): (r: RowOutcome)
    ensures r.Skip? <==> NormalizeTypeName(EffectiveTypeName(row)) == "TSVECTOR"
    ensures r.Keep? <==>
              NormalizeTypeName(EffectiveTypeName(row)) in TypeNames
              && ParseIsNullable(row.isNullable).Some?
    ensures r.Keep? ==>
              && r.column.name == row.columnName
              && r.column.dataType == TypeNames[NormalizeTypeName(EffectiveTypeName(row))]
              && r.column.dataType != SqlUnknown
              && (r.column.nullable <==> row.isNullable == "YES")
    ensures r.Abort? && NormalizeTypeName(EffectiveTypeName(row)) !in TypeNames ==>
              r.err == UnmappedType(NoSuchDataTypeError(EffectiveTypeName(row), tableName, row.columnName))
    ensures r.Abort? && NormalizeTypeName(EffectiveTypeName(row)) in TypeNames ==>
              r.err == BadIsNullable(tableName, row.columnName, row.isNullable)
  {
    var lookup := StringToSqlDataType(EffectiveTypeName(row), row.columnName, tableName);
    match lookup.err
    case Some(ErrSkipColumn) => Skip
    case Some(e) => Abort(UnmappedType(e))
    case None =>
      match ParseIsNullable(row.isNullable)
      case None => Abort(BadIsNullable(tableName, row.columnName, row.isNullable))
      case Some(n) => Keep(Column(row.columnName, lookup.dataType, n))
  }

  /** The row loop of `Columns` from row `from` on, on the per-row
      outcomes: skipped rows are dropped, the first abort ends the loop,
      survivors keep their order. */
  function Collect(outcomes: seq<RowOutcome>, from: nat): (r: Result<seq<Column>, SchemaError>)
    requires from <= |outcomes|
    ensures r.Success? ==> |r.value| <= |outcomes| - from
    decreases |outcomes| - from
  {
    if from == |outcomes| then Success([])
    else
      match outcomes[from]
      case Abort(e) => Failure(e)
      case Skip => Collect(outcomes, from + 1)
      case Keep(c) =>
        match Collect(outcomes, from + 1)
        case Failure(e) => Failure(e)
        case Success(cs) => Success([c] + cs)
  }

  /** The per-row outcomes of a catalogue result, in row order. */
  function Outcomes(tableName: string, rows: seq<CatalogueRow>): (r: seq<RowOutcome>)
    ensures |r| == |rows|
    ensures forall i :: 0 <= i < |rows| ==> r[i] == ConvertRow(tableName, rows[i])
  {
    seq(|rows|, i requires 0 <= i < |rows| => ConvertRow(tableName, rows[i]))
  }

  /** `Columns` without the query: converts every catalogue row in order. */
  function Columns(tableName: string, rows: seq<CatalogueRow>): (r: Result<seq<Column>, SchemaError>)
    ensures r.Failure? ==> r.error.UnmappedType? ==> r.error.cause.NoSuchDataTypeError?
  {
    var outcomes := Outcomes(tableName, rows);
    CollectCharacterized(outcomes, 0);
    Collect(outcomes, 0)
  }

  /** Reference: the positions of the surviving outcomes, in increasing order. */
  function KeptIndices(outcomes: seq<RowOutcome>, from: nat): seq<nat>
    requires from <= |outcomes|
    decreases |outcomes| - from
  {
    if from == |outcomes| then []
    else if outcomes[from].Keep? then [from] + KeptIndices(outcomes, from + 1)
    else KeptIndices(outcomes, from + 1)
  }

  lemma {:induction false} KeptIndicesShape(outcomes: seq<RowOutcome>, from: nat)
    requires from <= |outcomes|
    ensures forall k :: 0 <= k < |KeptIndices(outcomes, from)| ==>
              from <= KeptIndices(outcomes, from)[k] < |outcomes|
    ensures forall k, l :: 0 <= k < l < |KeptIndices(outcomes, from)| ==>
              KeptIndices(outcomes, from)[k] < KeptIndices(outcomes, from)[l]
    ensures forall i :: from <= i < |outcomes| ==>
              (i in KeptIndices(outcomes, from) <==> outcomes[i].Keep?)
    decreases |outcomes| - from
  {
    if from < |outcomes| {
      KeptIndicesShape(outcomes, from + 1);
    }
  }

  /** The row loop succeeds exactly when no outcome aborts; then the k-th
      column comes from the k-th surviving row. Otherwise the error is that
      of the first aborting row. */
  lemma {:induction false} CollectCharacterized(outcomes: seq<RowOutcome>, from: nat)
    requires from <= |outcomes|
    ensures Collect(outcomes, from).Success? <==> forall i :: from <= i < |outcomes| ==> !outcomes[i].Abort?
    ensures Collect(outcomes, from).Success? ==>
              var cs := Collect(outcomes, from).value;
              var ks := KeptIndices(outcomes, from);
              && |cs| == |ks|
              && forall k :: 0 <= k < |ks| ==> ks[k] < |outcomes| && Keep(cs[k]) == outcomes[ks[k]]
    ensures Collect(outcomes, from).Failure? ==>
              exists i :: from <= i < |outcomes|
                && outcomes[i] == Abort(Collect(outcomes, from).error)
                && forall j :: from <= j < i ==> !outcomes[j].Abort?
    decreases |outcomes| - from
  {
    if from < |outcomes| {
      CollectCharacterized(outcomes, from + 1);
      match outcomes[from]
      case Abort(e) =>
        assert Collect(outcomes, from) == Failure(e);
      case Skip =>
        assert Collect(outcomes, from) == Collect(outcomes, from + 1);
        assert KeptIndices(outcomes, from) == KeptIndices(outcomes, from + 1);
      case Keep(c) =>
        if Collect(outcomes, from + 1).Success? {
          var cs' := Collect(outcomes, from + 1).value;
          var ks' := KeptIndices(outcomes, from + 1);
          assert Collect(outcomes, from).value == [c] + cs';
          assert KeptIndices(outcomes, from) == [from] + ks';
        } else {
          assert Collect(outcomes, from) == Collect(outcomes, from + 1);
        }
    }
  }

  /** `Columns` succeeds exactly when no row aborts. */
  lemma ColumnsSucceedsUnlessAbort(tableName: string, rows: seq<CatalogueRow>)
    ensures Columns(tableName, rows).Success? <==>
              forall i :: 0 <= i < |rows| ==> !ConvertRow(tableName, rows[i]).Abort?
  {
    var o := Outcomes(tableName, rows);
    CollectCharacterized(o, 0);
  }

  /** A failing `Columns` reports the error of the first aborting row. */
  lemma ColumnsFailsAtFirstAbort(tableName: string, rows: seq<CatalogueRow>)
    ensures Columns(tableName, rows).Failure? ==>
              exists i :: 0 <= i < |rows|
                && ConvertRow(tableName, rows[i]) == Abort(Columns(tableName, rows).error)
                && forall j :: 0 <= j < i ==> !ConvertRow(tableName, rows[j]).Abort?
  {
    var o := Outcomes(tableName, rows);
    CollectCharacterized(o, 0);
  }

  /** On success the k-th column is the conversion of the k-th surviving
      row, so survivors keep their order and none is lost. */
  lemma ColumnsKeepsSurvivorsInOrder(tableName: string, rows: seq<CatalogueRow>)
    requires Columns(tableName, rows).Success?
    ensures var ks := KeptIndices(Outcomes(tableName, rows), 0);
            && |ks| == |Columns(tableName, rows).value|
            && (forall k, l :: 0 <= k < l < |ks| ==> ks[k] < ks[l])
            && (forall k :: 0 <= k < |ks| ==>
                  (ks[k] < |rows| && Keep(Columns(tableName, rows).value[k]) == ConvertRow(tableName, rows[ks[k]])))
            && (forall i :: 0 <= i < |rows| && ConvertRow(tableName, rows[i]).Keep? ==> i in ks)
  {
    var outcomes := Outcomes(tableName, rows);
    CollectCharacterized(outcomes, 0);
    KeptIndicesShape(outcomes, 0);
  }
}
