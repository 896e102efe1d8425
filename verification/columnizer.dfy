/** The entity model builder (`NewColumnizedStruct`) and the import list of
    the struct emitter. A table's columns become fields, index-aligned with
    the columns; the unique and primary-key fields are picked out by column
    name, in column order; the timestamp fields and the preferred unique
    field are chosen by fixed rules. */
module Columnizer {
  import opened Wrappers
  import opened Text
  import opened InformationSchema
  import opened DataTypes
  import opened Naming

  /** `ColumnizedField`: the descriptor, the Go field name, the rendered Go
      type, the SQL type and whether the field is a pointer. */
  datatype Field = Field(descriptor: seq<Elem>, name: string, dataType: string, sqlType: SqlDataType, pointer: bool)

  /** `ColumnizedStruct` without its back-pointer to the column type. */
  datatype Entity = Entity(
    tableName: string,
    pluralName: string,
    singularName: string,
    listTypeName: string,
    fields: seq<Field>,
    columns: seq<Column>,
    primaryKey: seq<Field>,
    unique: seq<Field>,
    preferredUnique: Option<Field>,
    updatedAt: Option<Field>,
    createdAt: Option<Field>)

  /** What the builder asks of a table: its name and the three catalogue
      reads, each of which may fail. Unique and primary-key columns are flat
      lists of column names. */
  datatype TableSource = TableSource(
    name: string,
    columns: Result<seq<Column>, SchemaError>,
    primaryKey: Result<seq<string>, SchemaError>,
    unique: Result<seq<string>, SchemaError>)

  datatype BuildError = SourceError(cause: SchemaError) | DescriptorFailure(reason: DescriptorError)

  /** The SQL types that have a field-type descriptor. */
  predicate Supported(dt: SqlDataType) {
    dt !in {SqlSmallInt, SqlReal, SqlUnknown}
  }

  /** One iteration of the column loop: name, descriptor, rendered type. A
      nil descriptor is handed to `dataTypeToString` as the empty list,
      where indexing its first element panics. */
  function MakeField(c: Column): (r: Result<Field, DescriptorError>)
    ensures r.Success? <==> Supported(c.dataType)
    ensures r.Failure? ==> r.error == IndexOutOfRange
    ensures r.Success? ==>
              && r.value.name == UnderscoresToCamelCase(c.name)
              && r.value.sqlType == c.dataType
              && r.value.pointer == c.nullable
              && r.value.dataType == (if c.nullable then "*" else "") + GoValueType(c.dataType)
              && |r.value.descriptor| > 0
              && (r.value.descriptor[0] == KindElem(Ptr) <==> c.nullable)
              && Some(r.value.descriptor) == ColumnToDataType(c.dataType, c.nullable)
  {
    var defn := ColumnToDataType(c.dataType, c.nullable);
    assert defn.Some? ==>
      DataTypeToString(defn.value) == Success((if c.nullable then "*" else "") + GoValueType(c.dataType)) by {
      if defn.Some? { DescriptorRendersGoType(c.dataType, c.nullable); }
    }
    match DataTypeToString(defn.GetOr([]))
    case Failure(e) => Failure(e)
    case Success(s) => Success(Field(defn.GetOr([]), UnderscoresToCamelCase(c.name), s, c.dataType, c.nullable))
  }

  /** The fields of all columns, in column order. The loop stops at the
      first column without a descriptor, and every such stop is the same
      index panic, so the outcome does not depend on which column it was. */
  function MakeFields(cols: seq<Column>): (r: Result<seq<Field>, BuildError>)
    ensures r.Success? <==> forall i :: 0 <= i < |cols| ==> Supported(cols[i].dataType)
    ensures r.Failure? ==> r.error == DescriptorFailure(IndexOutOfRange)
    ensures r.Success? ==>
              && |r.value| == |cols|
              && forall i :: 0 <= i < |cols| ==> Success(r.value[i]) == MakeField(cols[i])
  {
    if forall i :: 0 <= i < |cols| ==> Supported(cols[i].dataType) then
      Success(seq(|cols|, i requires 0 <= i < |cols| => MakeField(cols[i]).value))
    else Failure(DescriptorFailure(IndexOutOfRange))
  }

  /** Reference: the positions of the columns whose name is in `names`,
      in increasing order. */
  function NamedIndices(cols: seq<Column>, names: seq<string>): (r: seq<nat>)
    ensures forall k :: 0 <= k < |r| ==> r[k] < |cols|
    ensures forall k, l :: 0 <= k < l < |r| ==> r[k] < r[l]
    ensures forall i :: 0 <= i < |cols| ==> (i in r <==> cols[i].name in names)
  {
    if |cols| == 0 then []
    else
      var n := |cols| - 1;
      NamedIndices(cols[..n], names) + (if cols[n].name in names then [n] else [])
  }

  /** The membership loop: appends each field whose column name is in the
      name list, walking the columns in order. */
  function {:induction false} SelectNamed(fields: seq<Field>, cols: seq<Column>, names: seq<string>): (r: seq<Field>)
    requires |fields| == |cols|
    ensures |r| == |NamedIndices(cols, names)|
    ensures forall k :: 0 <= k < |r| ==> r[k] == fields[NamedIndices(cols, names)[k]]
  {
    if |cols| == 0 then []
    else
      var n := |cols| - 1;
      SelectNamed(fields[..n], cols[..n], names) + (if cols[n].name in names then [fields[n]] else [])
  }

  /** The field of the last column the flag picks out: each flagged column
      overwrites the pointer, so the last one wins. */
  function LastFlagged(fields: seq<Field>, cols: seq<Column>, flag: Column -> bool): (r: Option<Field>)
    requires |fields| == |cols|
    ensures r.None? <==> forall i :: 0 <= i < |cols| ==> !flag(cols[i])
    ensures r.Some? ==> exists i :: 0 <= i < |cols| && flag(cols[i]) && r.value == fields[i]
                                   && forall j :: i < j < |cols| ==> !flag(cols[j])
  {
    match LastFlaggedBefore(cols, flag, |cols|)
    case None => None
    case Some(i) => Some(fields[i])
  }

  /** The position of the last flagged column among the first `n`. */
  function {:induction false} LastFlaggedBefore(cols: seq<Column>, flag: Column -> bool, n: nat): (r: Option<nat>)
    requires n <= |cols|
    ensures r.None? <==> forall i :: 0 <= i < n ==> !flag(cols[i])
    ensures r.Some? ==> r.value < n && flag(cols[r.value]) && forall j :: r.value < j < n ==> !flag(cols[j])
  {
    if n == 0 then None
    else if flag(cols[n - 1]) then Some(n - 1)
    else LastFlaggedBefore(cols, flag, n - 1)
  }

  /** The first unique field of integer type, if any. */
  function FirstInt(unique: seq<Field>): (r: Option<nat>)
    ensures r.None? <==> forall i :: 0 <= i < |unique| ==> unique[i].sqlType != SqlInt
    ensures r.Some? ==> r.value < |unique| && unique[r.value].sqlType == SqlInt
                        && forall j :: 0 <= j < r.value ==> unique[j].sqlType != SqlInt
  {
    if |unique| == 0 then None
    else if unique[0].sqlType == SqlInt then Some(0)
    else
      match FirstInt(unique[1..])
      case None => None
      case Some(k) => Some(k + 1)
  }

  /** `u` is the preferred unique field of `unique`: the first one of
      integer type, else the first one; none exactly when the list is empty. */
  ghost predicate IsPreferredUnique(u: Option<Field>, unique: seq<Field>) {
    && (u.None? <==> |unique| == 0)
    && (u.Some? ==>
          if exists i :: 0 <= i < |unique| && unique[i].sqlType == SqlInt
          then exists i :: 0 <= i < |unique| && unique[i] == u.value && u.value.sqlType == SqlInt
                           && forall j :: 0 <= j < i ==> unique[j].sqlType != SqlInt
          else u.value == unique[0])
  }

  /** `PreferredUnique`: the first integer unique field, else the first
      unique field, and nil when there are no unique fields. */
  function PickPreferredUnique(unique: seq<Field>): (r: Option<Field>)
    ensures r.Some? ==> r.value in unique
    ensures IsPreferredUnique(r, unique)
  {
    if |unique| == 0 then None
    else
      match FirstInt(unique)
      case Some(k) => Some(unique[k])
      case None => Some(unique[0])
  }

  /** `f` is the field of the last column `flag` picks out, none when it
      picks out no column. */
  ghost predicate IsLastFlagged(f: Option<Field>, fields: seq<Field>, cols: seq<Column>, flag: Column -> bool)
    requires |fields| == |cols|
  {
    && (f.None? <==> forall i :: 0 <= i < |cols| ==> !flag(cols[i]))
    && (f.Some? ==> exists i :: 0 <= i < |cols| && flag(cols[i]) && f.value == fields[i]
                                && forall j :: i < j < |cols| ==> !flag(cols[j]))
  }

  /** The fields picked out of `fields` by the positions of the named
      columns, in column order. */
  ghost predicate PicksNamed(picked: seq<Field>, fields: seq<Field>, cols: seq<Column>, names: seq<string>) {
    var idx := NamedIndices(cols, names);
    && |picked| == |idx|
    && forall k :: 0 <= k < |picked| ==> idx[k] < |fields| && picked[k] == fields[idx[k]]
  }

  /** Each field is the one its column's loop iteration makes. */
  ghost predicate FieldsOf(fields: seq<Field>, cols: seq<Column>) {
    && |fields| == |cols|
    && forall i :: 0 <= i < |cols| ==>
          && fields[i].name == UnderscoresToCamelCase(cols[i].name)
          && fields[i].sqlType == cols[i].dataType
          && fields[i].pointer == cols[i].nullable
          && fields[i].dataType == (if cols[i].nullable then "*" else "") + GoValueType(cols[i].dataType)
          && Some(fields[i].descriptor) == ColumnToDataType(cols[i].dataType, cols[i].nullable)
  }

  /** What a successful build promises about its entity. */
  ghost predicate BuiltFrom(e: Entity, cols: seq<Column>, pk: seq<string>, unique: seq<string>) {
    && e.columns == cols
    && FieldsOf(e.fields, cols)
    && PicksNamed(e.unique, e.fields, cols, unique)
    && PicksNamed(e.primaryKey, e.fields, cols, pk)
    && IsPreferredUnique(e.preferredUnique, e.unique)
    && IsLastFlagged(e.createdAt, e.fields, cols, IsCreationTimestamp)
    && IsLastFlagged(e.updatedAt, e.fields, cols, IsUpdateTimestamp)
  }

  lemma MadeFieldsAreFieldsOf(cols: seq<Column>, fields: seq<Field>)
    requires MakeFields(cols) == Success(fields)
    ensures FieldsOf(fields, cols)
  {
    forall i | 0 <= i < |cols|
      ensures fields[i].name == UnderscoresToCamelCase(cols[i].name)
      ensures fields[i].sqlType == cols[i].dataType
      ensures fields[i].pointer == cols[i].nullable
      ensures fields[i].dataType == (if cols[i].nullable then "*" else "") + GoValueType(cols[i].dataType)
      ensures Some(fields[i].descriptor) == ColumnToDataType(cols[i].dataType, cols[i].nullable)
    {
      assert Success(fields[i]) == MakeField(cols[i]);
    }
  }

  /** The part of the build after every column has its field: the
      membership loops, the timestamp pointers and the preferred unique. */
  function Assemble(name: string, names: (string, string), cols: seq<Column>, pk: seq<string>, unique: seq<string>,
                    fields: seq<Field>): (e: Entity)
    requires MakeFields(cols) == Success(fields)
    ensures e.tableName == name && (e.pluralName, e.singularName) == names
    ensures e.listTypeName == names.1 + "List"
    ensures BuiltFrom(e, cols, pk, unique)
  {
    MadeFieldsAreFieldsOf(cols, fields);
    var uniqueFields := SelectNamed(fields, cols, unique);
    var e := Entity(
      name, names.0, names.1, names.1 + "List",
      fields, cols,
      SelectNamed(fields, cols, pk),
      uniqueFields,
      PickPreferredUnique(uniqueFields),
      LastFlagged(fields, cols, IsUpdateTimestamp),
      LastFlagged(fields, cols, IsCreationTimestamp));
    assert PicksNamed(e.unique, fields, cols, unique);
    assert PicksNamed(e.primaryKey, fields, cols, pk);
    assert IsPreferredUnique(e.preferredUnique, e.unique);
    assert IsLastFlagged(e.updatedAt, fields, cols, IsUpdateTimestamp);
    assert IsLastFlagged(e.createdAt, fields, cols, IsCreationTimestamp);
    e
  }

  /** `NewColumnizedStruct` with the namers the generator always passes
      (`tempModelNamer` and `UnderscoresToCamelCase`). The catalogue reads
      are consulted in the order columns, primary key, unique; the first
      failure is returned as is. The table name must be non-empty, because
      the singular name drops the last character of the plural. */
  function NewColumnizedStruct(t: TableSource): (r: Result<Entity, BuildError>)
    requires |t.name| > 0
    ensures t.columns.Failure? ==> r == Failure(SourceError(t.columns.error))
    ensures t.columns.Success? && t.primaryKey.Failure? ==> r == Failure(SourceError(t.primaryKey.error))
    ensures t.columns.Success? && t.primaryKey.Success? && t.unique.Failure? ==>
              r == Failure(SourceError(t.unique.error))
    ensures t.columns.Success? && t.primaryKey.Success? && t.unique.Success? ==>
              (r.Success? <==> forall i :: 0 <= i < |t.columns.value| ==> Supported(t.columns.value[i].dataType))
    ensures t.columns.Success? && t.primaryKey.Success? && t.unique.Success? && r.Failure? ==>
              r.error == DescriptorFailure(IndexOutOfRange)
    ensures r.Success? ==>
              && t.columns.Success? && t.primaryKey.Success? && t.unique.Success?
              && r.value.tableName == t.name
              && (r.value.pluralName, r.value.singularName) == TempModelNamer(t.name)
              && r.value.listTypeName == r.value.singularName + "List"
              && BuiltFrom(r.value, t.columns.value, t.primaryKey.value, t.unique.value)
  {
    match t.columns
    case Failure(e) => Failure(SourceError(e))
    case Success(cols) =>
      match t.primaryKey
      case Failure(e) => Failure(SourceError(e))
      case Success(pk) =>
        match t.unique
        case Failure(e) => Failure(SourceError(e))
        case Success(unique) =>
          var names := TempModelNamer(t.name);
          match MakeFields(cols)
          case Failure(e) => Failure(e)
          case Success(fields) => Success(Assemble(t.name, names, cols, pk, unique, fields))
  }

  /** The import loop's test: after an optional leading `Ptr`, a `Struct`
      kind followed by the `time.Time` prototype. Descriptors too short for
      the test are not time fields (the builder never produces them). */
  predicate IsTimeDescriptor(d: seq<Elem>) {
    var i := if |d| > 0 && d[0] == KindElem(Ptr) then 1 else 0;
    i + 1 < |d| && d[i] == KindElem(Struct) && d[i + 1] == TimePrototype
  }

  function TimeImports(fields: seq<Field>): (r: seq<string>)
    ensures forall k :: 0 <= k < |r| ==> r[k] == "time"
    ensures |r| > 0 <==> exists i :: 0 <= i < |fields| && IsTimeDescriptor(fields[i].descriptor)
  {
    if |fields| == 0 then []
    else
      var rest := TimeImports(fields[1..]);
      assert forall i :: 1 <= i < |fields| ==> fields[i] == fields[1..][i - 1];
      (if IsTimeDescriptor(fields[0].descriptor) then ["time"] else []) + rest
  }

  /** `ColumnizedStruct.Imports`: the three fixed packages, then "time" once
      for every time-typed field. */
  function Imports(fields: seq<Field>): (r: seq<string>)
    ensures |r| >= 3 && r[..3] == ["bytes", "fmt", "database/sql"]
    ensures forall k :: 3 <= k < |r| ==> r[k] == "time"
    ensures "time" in r <==> exists i :: 0 <= i < |fields| && IsTimeDescriptor(fields[i].descriptor)
  {
    var r := ["bytes", "fmt", "database/sql"] + TimeImports(fields);
    assert r[..3] == ["bytes", "fmt", "database/sql"];
    assert "time" in r ==> "time" in r[3..];
    assert |r| > 3 ==> r[3] in r;
    r
  }

  /** A descriptor is a time descriptor exactly for timestamp and date columns. */
  lemma TimeDescriptorIffTimeType(dt: SqlDataType, nullable: bool)
    requires ColumnToDataType(dt, nullable).Some?
    ensures IsTimeDescriptor(ColumnToDataType(dt, nullable).value) <==> dt in {SqlTimestamp, SqlDate}
  {
  }

  /** A built struct imports "time" exactly when some column is a timestamp
      or a date. */
  lemma ImportsTimeIffTimeColumn(e: Entity, cols: seq<Column>, pk: seq<string>, unique: seq<string>)
    requires BuiltFrom(e, cols, pk, unique)
    ensures "time" in Imports(e.fields) <==> exists i :: 0 <= i < |cols| && cols[i].dataType in {SqlTimestamp, SqlDate}
  {
    forall i | 0 <= i < |cols|
      ensures IsTimeDescriptor(e.fields[i].descriptor) <==> cols[i].dataType in {SqlTimestamp, SqlDate}
    {
      TimeDescriptorIffTimeType(cols[i].dataType, cols[i].nullable);
    }
  }
}
