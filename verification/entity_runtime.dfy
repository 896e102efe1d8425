/** The runtime state of one generated model instance and the list
    operations, setters, timestamp touches and identification policy that
    the generated code gives it. A column is named by its position (the
    `Index()` of its column type); a column list is a sequence of positions. */
module EntityRuntime {
  import opened Wrappers
  import opened InformationSchema
  import opened ColumnType

  /** A stored Go value. Timestamps carry an instant and a zone offset;
      `Zero` is the zero value of a fresh instance; other values are opaque. */
  datatype Value = Zero | Instant(unixNanos: int, zoneOffset: int) | Datum(payload: seq<int>)

  /** `time.Time.UTC()`: the same instant in the UTC zone; not a time, unchanged. */
  function Utc(v: Value): (r: Value)
    ensures r.Instant? <==> v.Instant?
    ensures v.Instant? ==> r.unixNanos == v.unixNanos && r.zoneOffset == 0
    ensures !v.Instant? ==> r == v
  {
    match v
    case Instant(t, _) => Instant(t, 0)
    case _ => v
  }

  /** A struct field: a plain value for a NOT NULL column, a pointer (nil
      or to a value) for a nullable one. */
  datatype Slot = Direct(value: Value) | Ref(target: Option<Value>)

  /** A statement argument: `nil` or a value. */
  datatype Arg = NilArg | ArgValue(value: Value)

  /** A column's emitted `ValueOf`: the value of a plain field; for a
      pointer field nil when the pointer is nil, else the pointee. */
  function ValueOf(slot: Slot): (r: Arg)
    ensures r.NilArg? <==> slot == Ref(None)
    ensures slot.Direct? ==> r == ArgValue(slot.value)
    ensures slot.Ref? && slot.target.Some? ==> r == ArgValue(slot.target.value)
  {
    match slot
    case Direct(v) => ArgValue(v)
    case Ref(None) => NilArg
    case Ref(Some(v)) => ArgValue(v)
  }

  /** What the generator bakes into the emitted code for one table: the
      column descriptors, the unique and primary-key columns, the preferred
      unique column and the timestamp columns, all as positions. */
  datatype Schema = Schema(
    tableName: string,
    columns: seq<ColumnTypeDefn>,
    unique: seq<nat>,
    primaryKey: seq<nat>,
    preferredUnique: Option<nat>,
    createdAt: Option<nat>,
    updatedAt: Option<nat>)

  predicate ValidList(s: Schema, cols: seq<nat>) {
    forall k :: 0 <= k < |cols| ==> cols[k] < |s.columns|
  }

  predicate ValidSchema(s: Schema) {
    && (forall i :: 0 <= i < |s.columns| ==> s.columns[i].index == i)
    && ValidList(s, s.unique)
    && ValidList(s, s.primaryKey)
    && (s.preferredUnique.Some? ==> s.preferredUnique.value < |s.columns|)
    && (s.createdAt.Some? ==> s.createdAt.value < |s.columns|)
    && (s.updatedAt.Some? ==> s.updatedAt.value < |s.columns|)
  }

  /** A model instance: the fields and the two flag structs `IsLoaded` and
      `IsSet`, each indexed by column position. */
  datatype Instance = Instance(values: seq<Slot>, loaded: seq<bool>, isSet: seq<bool>)

  predicate SlotFits(d: ColumnTypeDefn, slot: Slot) {
    slot.Ref? <==> d.nullable
  }

  /** The instance has one field and two flags per column, each field of
      the shape its column's nullability gives it. */
  predicate Fits(s: Schema, m: Instance) {
    && |m.values| == |s.columns|
    && |m.loaded| == |s.columns|
    && |m.isSet| == |s.columns|
    && forall i :: 0 <= i < |s.columns| ==> SlotFits(s.columns[i], m.values[i])
  }

  /** `var m Model`: zero values, nil pointers, every flag false. */
  function ZeroInstance(s: Schema): (m: Instance)
    ensures Fits(s, m)
    ensures forall i :: 0 <= i < |s.columns| ==>
              !m.loaded[i] && !m.isSet[i] && (ValueOf(m.values[i]) == NilArg <==> s.columns[i].nullable)
  {
    Instance(
      seq(|s.columns|, i requires 0 <= i < |s.columns| => if s.columns[i].nullable then Ref(None) else Direct(Zero)),
      seq(|s.columns|, _ => false),
      seq(|s.columns|, _ => false))
  }

  /** The emitted `<Plural>Columns` list: every column, in column order. */
  function AllColumns(s: Schema): (r: seq<nat>)
    ensures |r| == |s.columns| && ValidList(s, r)
    ensures forall i :: 0 <= i < |r| ==> r[i] == i
  {
    seq(|s.columns|, i => i)
  }

  /** List `Names`: the column names, same length and order. */
  function Names(s: Schema, cols: seq<nat>): (r: seq<string>)
    requires ValidList(s, cols)
    ensures |r| == |cols|
    ensures forall k :: 0 <= k < |cols| ==> r[k] == s.columns[cols[k]].columnName
  {
    seq(|cols|, k requires 0 <= k < |cols| => s.columns[cols[k]].columnName)
  }

  /** List `ValuesOf`: the arguments of the listed columns, same length and order. */
  function ValuesOf(m: Instance, cols: seq<nat>): (r: seq<Arg>)
    requires forall k :: 0 <= k < |cols| ==> cols[k] < |m.values|
    ensures |r| == |cols|
    ensures forall k :: 0 <= k < |cols| ==> r[k] == ValueOf(m.values[cols[k]])
  {
    seq(|cols|, k requires 0 <= k < |cols| => ValueOf(m.values[cols[k]]))
  }

  lemma ValuesOfAppend(m: Instance, a: seq<nat>, b: seq<nat>)
    requires forall k :: 0 <= k < |a| ==> a[k] < |m.values|
    requires forall k :: 0 <= k < |b| ==> b[k] < |m.values|
    ensures ValuesOf(m, a + b) == ValuesOf(m, a) + ValuesOf(m, b)
  {
  }

  /** List `Contains`: the loop returns true at the first element with the
      same index. */
  function Contains(cols: seq<nat>, c: nat): (r: bool)
    ensures r <==> c in cols
  {
    if |cols| == 0 then false
    else if cols[0] == c then true
    else Contains(cols[1..], c)
  }

  /** The flag loop of list `SetLoaded`/`SetSet`: each listed flag becomes
      `b`, in list order. */
  function {:induction false} SetFlags(flags: seq<bool>, cols: seq<nat>, b: bool): (r: seq<bool>)
    requires forall k :: 0 <= k < |cols| ==> cols[k] < |flags|
    ensures |r| == |flags|
    ensures forall i :: 0 <= i < |flags| ==> r[i] == if i in cols then b else flags[i]
    decreases |cols|
  {
    if |cols| == 0 then flags
    else
      var r := SetFlags(flags[cols[0] := b], cols[1..], b);
      assert forall i :: i in cols <==> i == cols[0] || i in cols[1..];
      r
  }

  /** List `SetLoaded(m, b)`: exactly the listed columns get Loaded = b. */
  function SetLoaded(m: Instance, cols: seq<nat>, b: bool): (r: Instance)
    requires forall k :: 0 <= k < |cols| ==> cols[k] < |m.loaded|
    ensures r.values == m.values && r.isSet == m.isSet
    ensures |r.loaded| == |m.loaded|
    ensures forall i :: 0 <= i < |m.loaded| ==> r.loaded[i] == if i in cols then b else m.loaded[i]
  {
    m.(loaded := SetFlags(m.loaded, cols, b))
  }

  /** List `SetSet(m, b)`: exactly the listed columns get Set = b. */
  function SetSet(m: Instance, cols: seq<nat>, b: bool): (r: Instance)
    requires forall k :: 0 <= k < |cols| ==> cols[k] < |m.isSet|
    ensures r.values == m.values && r.loaded == m.loaded
    ensures |r.isSet| == |m.isSet|
    ensures forall i :: 0 <= i < |m.isSet| ==> r.isSet[i] == if i in cols then b else m.isSet[i]
  {
    m.(isSet := SetFlags(m.isSet, cols, b))
  }

  /** The positions whose flag is true, in increasing order: the columns
      an `AllColumns` loop testing that flag appends. */
  function {:induction false} TrueIndices(flags: seq<bool>): (r: seq<nat>)
    ensures forall k :: 0 <= k < |r| ==> r[k] < |flags|
    ensures forall k, l :: 0 <= k < l < |r| ==> r[k] < r[l]
    ensures forall i :: 0 <= i < |flags| ==> (i in r <==> flags[i])
  {
    if |flags| == 0 then []
    else
      var n := |flags| - 1;
      var r := TrueIndices(flags[..n]);
      assert forall i :: 0 <= i < n ==> flags[..n][i] == flags[i];
      r + (if flags[n] then [n] else [])
  }

  /** The columns a `for _, v := range <Plural>Columns { if v.IsSet(this) … }`
      loop collects: the Set columns, in column order. */
  function SetColumns(s: Schema, m: Instance): (r: seq<nat>)
    requires Fits(s, m)
    ensures ValidList(s, r)
    ensures forall k, l :: 0 <= k < l < |r| ==> r[k] < r[l]
    ensures forall i :: 0 <= i < |s.columns| ==> (i in r <==> m.isSet[i])
  {
    TrueIndices(m.isSet)
  }

  /** The value a setter stores: timestamps are converted to UTC (through
      a fresh pointer for nullable ones); anything else is stored as given. */
  function Normalize(d: ColumnTypeDefn, v: Slot): (r: Slot)
    ensures SlotFits(d, r) <==> SlotFits(d, v)
    ensures ValueOf(r).NilArg? <==> ValueOf(v).NilArg?
    ensures ValueOf(v).ArgValue? ==>
              ValueOf(r).value == if d.dataType == SqlTimestamp then Utc(ValueOf(v).value) else ValueOf(v).value
  {
    if d.dataType != SqlTimestamp then v
    else
      match v
      case Direct(x) => Direct(Utc(x))
      case Ref(None) => Ref(None)
      case Ref(Some(x)) => Ref(Some(Utc(x)))
  }

  /** The emitted setter `Set<Field>(v)`: stores the (normalised) value
      and marks the column Set; nothing else changes. */
  function SetField(s: Schema, m: Instance, i: nat, v: Slot): (r: Instance)
    requires Fits(s, m) && i < |s.columns| && SlotFits(s.columns[i], v)
    ensures Fits(s, r)
    ensures r.loaded == m.loaded
    ensures r.isSet == m.isSet[i := true]
    ensures forall j :: 0 <= j < |s.columns| && j != i ==> r.values[j] == m.values[j]
    ensures ValueOf(r.values[i]).NilArg? <==> ValueOf(v).NilArg?
    ensures ValueOf(v).ArgValue? ==>
              ValueOf(r.values[i]).value
              == if s.columns[i].dataType == SqlTimestamp then Utc(ValueOf(v).value) else ValueOf(v).value
  {
    m.(values := m.values[i := Normalize(s.columns[i], v)], isSet := m.isSet[i := true])
  }

  /** `time.Now()` as the field shape wants it: `now` or `&now`. */
  function NowSlot(d: ColumnTypeDefn, now: Value): (r: Slot)
    ensures SlotFits(d, r) && ValueOf(r) == ArgValue(now)
  {
    if d.nullable then Ref(Some(now)) else Direct(now)
  }

  /** `touchUpdatedAt`: stamps the update timestamp with `now` unless it is
      already Set. A schema without an update timestamp has no touch. */
  function TouchUpdatedAt(s: Schema, m: Instance, now: Value): (r: Instance)
    requires ValidSchema(s) && Fits(s, m)
    ensures Fits(s, r) && r.loaded == m.loaded
    ensures s.updatedAt.None? || m.isSet[s.updatedAt.value] ==> r == m
    ensures s.updatedAt.Some? && !m.isSet[s.updatedAt.value] ==>
              var u := s.updatedAt.value;
              && r.isSet == m.isSet[u := true]
              && ValueOf(r.values[u]) == ArgValue(if s.columns[u].dataType == SqlTimestamp then Utc(now) else now)
              && forall j :: 0 <= j < |s.columns| && j != u ==> r.values[j] == m.values[j]
  {
    match s.updatedAt
    case None => m
    case Some(u) => if m.isSet[u] then m else SetField(s, m, u, NowSlot(s.columns[u], now))
  }

  /** `touchCreatedAt`: stamps the creation timestamp with `now` unless it
      is already Loaded or Set. */
  function TouchCreatedAt(s: Schema, m: Instance, now: Value): (r: Instance)
    requires ValidSchema(s) && Fits(s, m)
    ensures Fits(s, r) && r.loaded == m.loaded
    ensures s.createdAt.None? || m.loaded[s.createdAt.value] || m.isSet[s.createdAt.value] ==> r == m
    ensures s.createdAt.Some? && !m.loaded[s.createdAt.value] && !m.isSet[s.createdAt.value] ==>
              var c := s.createdAt.value;
              && r.isSet == m.isSet[c := true]
              && ValueOf(r.values[c]) == ArgValue(if s.columns[c].dataType == SqlTimestamp then Utc(now) else now)
              && forall j :: 0 <= j < |s.columns| && j != c ==> r.values[j] == m.values[j]
  {
    match s.createdAt
    case None => m
    case Some(c) => if m.loaded[c] || m.isSet[c] then m else SetField(s, m, c, NowSlot(s.columns[c], now))
  }

  /** A driver or database failure, opaque to the generated code. */
  datatype DbError = DbError(message: string)

  /** The errors the generated operations return. The Go error values also
      carry the instance; here they do not. */
  datatype OpError =
    | RowNotUniquelyIdentifiable
    | RowDoesNotExist
    | UnknownColumn(index: nat, name: string)
    | ArgumentCountMismatch(expected: nat, got: nat)
    | ScanConversion(position: nat)
    | Driver(cause: DbError)

  /** A column whose value the instance knows: Loaded or Set. */
  predicate Known(m: Instance, c: nat)
    requires c < |m.loaded| && c < |m.isSet|
  {
    m.loaded[c] || m.isSet[c]
  }

  /** The unique-column checks of `identifyingColumns`, in order: the
      position in `unique` of the first known unique column. */
  function FirstKnown(m: Instance, unique: seq<nat>): (r: Option<nat>)
    requires forall k :: 0 <= k < |unique| ==> unique[k] < |m.loaded| && unique[k] < |m.isSet|
    ensures r.None? <==> forall k :: 0 <= k < |unique| ==> !Known(m, unique[k])
    ensures r.Some? ==> r.value < |unique| && Known(m, unique[r.value])
                        && forall k :: 0 <= k < r.value ==> !Known(m, unique[k])
  {
    if |unique| == 0 then None
    else if Known(m, unique[0]) then Some(0)
    else
      match FirstKnown(m, unique[1..])
      case None => None
      case Some(k) => Some(k + 1)
  }

  /** `identifyingColumns`: the first known unique column on its own; else
      the whole primary key if it is non-empty and every column of it is
      known; else the row cannot be identified. Every column it returns is
      known. */
  function IdentifyingColumns(s: Schema, m: Instance): (r: Result<seq<nat>, OpError>)
    requires ValidSchema(s) && Fits(s, m)
    ensures r.Failure? ==> r.error == RowNotUniquelyIdentifiable
    ensures r.Success? ==> ValidList(s, r.value) && |r.value| > 0
                           && forall k :: 0 <= k < |r.value| ==> Known(m, r.value[k])
    ensures (exists k :: 0 <= k < |s.unique| && Known(m, s.unique[k])) ==>
              exists k :: 0 <= k < |s.unique| && r == Success([s.unique[k]])
                          && forall j :: 0 <= j < k ==> !Known(m, s.unique[j])
    ensures (forall k :: 0 <= k < |s.unique| ==> !Known(m, s.unique[k])) ==>
              (r.Success? <==> |s.primaryKey| > 0 && forall k :: 0 <= k < |s.primaryKey| ==> Known(m, s.primaryKey[k]))
              && (r.Success? ==> r.value == s.primaryKey)
  {
    match FirstKnown(m, s.unique)
    case Some(k) => Success([s.unique[k]])
    case None =>
      if |s.primaryKey| > 0 && forall k :: 0 <= k < |s.primaryKey| ==> Known(m, s.primaryKey[k])
      then Success(s.primaryKey)
      else Failure(RowNotUniquelyIdentifiable)
  }
}
