/** The column descriptor table the generator derives from a built entity:
    one descriptor per column, carrying the names under which the emitted
    code refers to it and its position. */
module ColumnType {
  import opened Wrappers
  import opened Text
  import opened InformationSchema
  import opened Naming
  import opened Columnizer

  /** `privatizeTypeName`: lower-cases the first character and keeps the
      rest. The name must be non-empty (indexing its first byte). */
  function PrivatizeTypeName(v: string): (r: string)
    requires |v| > 0
    ensures |r| == |v| && r[0] == LowerChar(v[0]) && r[1..] == v[1..]
  {
    [LowerChar(v[0])] + v[1..]
  }

  /** A table name starting with a lower-case letter gets that letter back
      when its camel-cased form is privatized. */
  lemma PrivatizeUndoesCamelCaseFirst(v: string)
    requires |v| > 0 && 'a' <= v[0] <= 'z'
    ensures |UnderscoresToCamelCase(v)| > 0
    ensures PrivatizeTypeName(UnderscoresToCamelCase(v))[0] == v[0]
  {
    CamelCaseShape(v);
  }

  /** `ColumnTypeDefn`. */
  datatype ColumnTypeDefn = ColumnTypeDefn(
    columnName: string,
    typeName: string,
    instanceName: string,
    fieldName: string,
    nullable: bool,
    index: nat,
    dataType: SqlDataType)

  /** `ColumnType` without its back-pointer to the entity. */
  datatype ColumnTypeModel = ColumnTypeModel(
    interfaceName: string,
    listTypeName: string,
    defns: seq<ColumnTypeDefn>,
    allColumnsName: string,
    primaryKeyColumnsName: string)

  /** `privatizeTypeName` runs once per column, so it can only panic on
      the empty singular name when the table has a column. */
  predicate CanPrivatize(e: Entity) {
    |e.columns| > 0 ==> |e.singularName| > 0
  }

  function MakeDefn(e: Entity, i: nat): ColumnTypeDefn
    requires CanPrivatize(e) && i < |e.columns| == |e.fields|
  {
    ColumnTypeDefn(
      e.columns[i].name,
      PrivatizeTypeName(e.singularName) + "Column" + e.fields[i].name,
      e.pluralName + "." + e.fields[i].name,
      e.fields[i].name,
      e.columns[i].nullable,
      i,
      e.columns[i].dataType)
  }

  /** `NewColumnType`: the four type and variable names, and one descriptor
      per column. Each descriptor's type name privatizes the singular name,
      which must then be non-empty; the fields must be aligned with the
      columns (as the builder produces them). */
  function NewColumnType(e: Entity): (r: ColumnTypeModel)
    requires CanPrivatize(e) && |e.fields| == |e.columns|
    ensures r.interfaceName == e.singularName + "Column"
    ensures r.listTypeName == e.singularName + "ColumnList"
    ensures r.allColumnsName == e.pluralName + "Columns"
    ensures r.primaryKeyColumnsName == e.pluralName + "PrimaryKeyColumns"
    ensures |r.defns| == |e.columns|
    ensures forall i :: 0 <= i < |e.columns| ==>
              && r.defns[i].index == i
              && r.defns[i].columnName == e.columns[i].name
              && r.defns[i].fieldName == e.fields[i].name
              && r.defns[i].nullable == e.columns[i].nullable
              && r.defns[i].dataType == e.columns[i].dataType
              && r.defns[i].typeName == PrivatizeTypeName(e.singularName) + "Column" + e.fields[i].name
              && r.defns[i].instanceName == e.pluralName + "." + e.fields[i].name
  {
    ColumnTypeModel(
      e.singularName + "Column",
      e.singularName + "ColumnList",
      seq(|e.columns|, i requires 0 <= i < |e.columns| => MakeDefn(e, i)),
      e.pluralName + "Columns",
      e.pluralName + "PrimaryKeyColumns")
  }

  /** Position of the first descriptor with the given field name. */
  function FirstWithFieldName(defns: seq<ColumnTypeDefn>, fieldName: string): (r: nat)
    requires exists i :: 0 <= i < |defns| && defns[i].fieldName == fieldName
    ensures r < |defns| && defns[r].fieldName == fieldName
    ensures forall j :: 0 <= j < r ==> defns[j].fieldName != fieldName
  {
    if defns[0].fieldName == fieldName then 0
    else
      assert exists i :: 0 <= i < |defns[1..]| && defns[1..][i].fieldName == fieldName by {
        var i :| 0 <= i < |defns| && defns[i].fieldName == fieldName;
        assert defns[1..][i - 1] == defns[i];
      }
      1 + FirstWithFieldName(defns[1..], fieldName)
  }

  /** `ColumnTypeInstanceByFieldName`: the instance name of the first
      descriptor with that field name; `None` is the Go panic raised when
      no descriptor has it. */
  function ColumnTypeInstanceByFieldName(ct: ColumnTypeModel, fieldName: string): (r: Option<string>)
    ensures r.None? <==> forall i :: 0 <= i < |ct.defns| ==> ct.defns[i].fieldName != fieldName
    ensures r.Some? ==>
              exists i :: 0 <= i < |ct.defns| && ct.defns[i].fieldName == fieldName && r.value == ct.defns[i].instanceName
                          && forall j :: 0 <= j < i ==> ct.defns[j].fieldName != fieldName
  {
    if exists i :: 0 <= i < |ct.defns| && ct.defns[i].fieldName == fieldName
    then Some(ct.defns[FirstWithFieldName(ct.defns, fieldName)].instanceName)
    else None
  }

  /** The field names of an entity are pairwise different (as a Go struct
      needs them to be). */
  predicate DistinctFieldNames(fields: seq<Field>) {
    forall i, j :: 0 <= i < j < |fields| ==> fields[i].name != fields[j].name
  }

  /** With distinct field names, looking a field up by name finds its own
      descriptor, and the descriptor type names are distinct as well. */
  lemma LookupFindsOwnDescriptor(e: Entity, i: nat)
    requires CanPrivatize(e) && |e.fields| == |e.columns|
    requires DistinctFieldNames(e.fields) && i < |e.fields|
    ensures FirstWithFieldName(NewColumnType(e).defns, e.fields[i].name) == i
    ensures ColumnTypeInstanceByFieldName(NewColumnType(e), e.fields[i].name) == Some(e.pluralName + "." + e.fields[i].name)
    ensures forall j :: 0 <= j < |e.fields| && j != i ==>
              NewColumnType(e).defns[j].typeName != NewColumnType(e).defns[i].typeName
  {
    var ct := NewColumnType(e);
    var p := PrivatizeTypeName(e.singularName) + "Column";
    assert forall j :: 0 <= j < |e.fields| ==> ct.defns[j].fieldName == e.fields[j].name;
    assert ct.defns[i].fieldName == e.fields[i].name;
    forall j | 0 <= j < |e.fields|
      ensures |p| <= |ct.defns[j].typeName| && ct.defns[j].typeName[|p|..] == e.fields[j].name
    {
      assert ct.defns[j].typeName == p + e.fields[j].name;
    }
  }
}
