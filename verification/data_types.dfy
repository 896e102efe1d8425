/** Go field-type descriptors. The generator describes a field's Go type as a
    short list whose elements are reflection kinds or, for struct types, a
    prototype value; here the kinds are a closed enumeration and the only
    prototype is the zero `time.Time`. */
module DataTypes {
  import opened Wrappers
  import opened InformationSchema

  datatype Kind = Ptr | Bool | Int16 | Int32 | Int64 | Uint8 | Float32 | Float64 | String | Struct | Slice

  /** One element of a descriptor: a kind, or the `time.Time{}` prototype. */
  datatype Elem = KindElem(kind: Kind) | TimePrototype

  /** `reflect.Kind.String()`. */
  function KindName(k: Kind): string {
    match k
    case Ptr => "ptr"
    case Bool => "bool"
    case Int16 => "int16"
    case Int32 => "int32"
    case Int64 => "int64"
    case Uint8 => "uint8"
    case Float32 => "float32"
    case Float64 => "float64"
    case String => "string"
    case Struct => "struct"
    case Slice => "slice"
  }

  /** `%T` of a descriptor element. */
  function ElemTypeName(e: Elem): string {
    match e
    case KindElem(_) => "reflect.Kind"
    case TimePrototype => "time.Time"
  }

  /** `%v` of a descriptor element. */
  function ElemText(e: Elem): string {
    match e
    case KindElem(k) => KindName(k)
    case TimePrototype => "0001-01-01 00:00:00 +0000 UTC"
  }

  /** `columnToDataType`: an optional leading `Ptr` for nullable columns, then
      the value shape; `None` (Go's nil) for the types it has no rule for. */
  function ColumnToDataType(dt: SqlDataType, nullable: bool): (r: Option<seq<Elem>>)
    ensures r.None? <==> dt in {SqlSmallInt, SqlReal, SqlUnknown}
    ensures r.Some? ==> |r.value| > 0 && (r.value[0] == KindElem(Ptr) <==> nullable)
  {
    var stub := if nullable then [KindElem(Ptr)] else [];
    match dt
    case SqlInt => Some(stub + [KindElem(Int32)])
    case SqlBigInt => Some(stub + [KindElem(Int64)])
    case SqlNumeric => Some(stub + [KindElem(Int64)])
    case SqlBoolean => Some(stub + [KindElem(Bool)])
    case SqlTimestamp => Some(stub + [KindElem(Struct), TimePrototype])
    case SqlDate => Some(stub + [KindElem(Struct), TimePrototype])
    case SqlVarChar => Some(stub + [KindElem(String)])
    case SqlText => Some(stub + [KindElem(String)])
    case SqlFloat64 => Some(stub + [KindElem(Float64)])
    case SqlByteArray => Some(stub + [KindElem(Slice), KindElem(Uint8)])
    case _ => None
  }

  /** Why a descriptor could not be rendered. `IndexOutOfRange` is the Go
      runtime panic of indexing past the end (a nil descriptor included). */
  datatype DescriptorError = IndexOutOfRange | FirstElementNotKind | NotConvertible(descriptor: seq<Elem>)

  /** The kinds printed by name; `dataTypeToString` also accepts the 16-bit
      integer and 32-bit float kinds, `printDataType` does not. */
  predicate PrintedByName(k: Kind, wide: bool) {
    k in {Int32, Int64, Bool, String, Float64} || (wide && k in {Int16, Float32})
  }

  /** The `switch rk` of both renderers; `i` indexes the element after the kind. */
  function RenderKind(dt: seq<Elem>, rk: Kind, i: nat, wide: bool): Result<string, DescriptorError> {
    if PrintedByName(rk, wide) then Success(KindName(rk))
    else if rk == Struct then (if i < |dt| then Success(ElemTypeName(dt[i])) else Failure(IndexOutOfRange))
    else if rk == Slice then (if i < |dt| then Success("[]" + ElemText(dt[i])) else Failure(IndexOutOfRange))
    else Failure(NotConvertible(dt))
  }

  /** The shared shape of `dataTypeToString` and `printDataType`: a first
      kind, an optional `Ptr` prefix rendered as `*`, then the kind switch. */
  function Render(dt: seq<Elem>, wide: bool): Result<string, DescriptorError> {
    if |dt| == 0 then Failure(IndexOutOfRange)
    else if !dt[0].KindElem? then Failure(FirstElementNotKind)
    else if dt[0].kind == Ptr then
      if |dt| < 2 then Failure(IndexOutOfRange)
      else if !dt[1].KindElem? then Failure(FirstElementNotKind)
      else
        match RenderKind(dt, dt[1].kind, 2, wide)
        case Success(s) => Success("*" + s)
        case Failure(e) => Failure(e)
    else RenderKind(dt, dt[0].kind, 1, wide)
  }

  /** `dataTypeToString` in columnizer.go. */
  function DataTypeToString(dt: seq<Elem>): Result<string, DescriptorError> {
    Render(dt, true)
  }

  /** `panicWriter.printDataType` in model_emitter.go. */
  function PrintDataType(dt: seq<Elem>): Result<string, DescriptorError> {
    Render(dt, false)
  }

  /** Reference: the Go type each supported SQL type is stored in. */
  function GoValueType(dt: SqlDataType): string {
    match dt
    case SqlInt => "int32"
    case SqlBigInt => "int64"
    case SqlNumeric => "int64"
    case SqlBoolean => "bool"
    case SqlTimestamp => "time.Time"
    case SqlDate => "time.Time"
    case SqlVarChar => "string"
    case SqlText => "string"
    case SqlFloat64 => "float64"
    case SqlByteArray => "[]uint8"
    case _ => ""
  }

  /** Every descriptor `columnToDataType` produces renders, under both
      renderers, as the Go value type, behind `*` exactly for nullable columns. */
  lemma DescriptorRendersGoType(dt: SqlDataType, nullable: bool)
    requires ColumnToDataType(dt, nullable).Some?
    ensures DataTypeToString(ColumnToDataType(dt, nullable).value)
            == Success((if nullable then "*" else "") + GoValueType(dt))
    ensures PrintDataType(ColumnToDataType(dt, nullable).value)
            == DataTypeToString(ColumnToDataType(dt, nullable).value)
  {
    var base := ColumnToDataType(dt, false).value;
    ValueShapeRenders(dt, true);
    ValueShapeRenders(dt, false);
    if nullable {
      assert ColumnToDataType(dt, nullable).value == [KindElem(Ptr)] + base;
      PtrRendersStar(base, true);
      PtrRendersStar(base, false);
    } else {
      assert "" + GoValueType(dt) == GoValueType(dt);
    }
  }

  /** The descriptor of a non-nullable column renders as its Go value type. */
  lemma ValueShapeRenders(dt: SqlDataType, wide: bool)
    requires ColumnToDataType(dt, false).Some?
    ensures var base := ColumnToDataType(dt, false).value;
            base[0].KindElem? && base[0].kind != Ptr && Render(base, wide) == Success(GoValueType(dt))
  {
    if dt == SqlByteArray {
      assert ElemText(KindElem(Uint8)) == "uint8";
      assert "[]" + "uint8" == "[]uint8";
    }
  }

  /** A leading `Ptr` renders as `*` in front of what the rest renders as. */
  lemma PtrRendersStar(base: seq<Elem>, wide: bool)
    requires |base| > 0 && base[0].KindElem? && base[0].kind != Ptr
    requires Render(base, wide).Success?
    ensures Render([KindElem(Ptr)] + base, wide) == Success("*" + Render(base, wide).value)
  {
    var d := [KindElem(Ptr)] + base;
    assert d[1] == base[0];
    if 1 < |base| {
      assert d[2] == base[1];
    }
  }

  /** A nil descriptor, which `columnToDataType` returns for SMALLINT and
      REAL, makes `dataTypeToString` index past the end. */
  lemma NilDescriptorPanics(dt: SqlDataType, nullable: bool)
    requires dt in {SqlSmallInt, SqlReal}
    ensures ColumnToDataType(dt, nullable).None?
    ensures DataTypeToString(ColumnToDataType(dt, nullable).GetOr([])) == Failure(IndexOutOfRange)
  {
  }

  /** The two renderers differ exactly on the 16-bit integer and 32-bit float kinds. */
  lemma RenderersDifferOnNarrowKinds(k: Kind)
    requires k in {Int16, Float32}
    ensures DataTypeToString([KindElem(k)]) == Success(KindName(k))
    ensures PrintDataType([KindElem(k)]) == Failure(NotConvertible([KindElem(k)]))
  {
  }
}
