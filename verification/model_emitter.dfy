/** `ModelEmitter.Emit`: builds the entity and its column type, then runs the
    four code emitters in a fixed order; and the link between what the
    builder computes and the constants the emitted code works with. */
module ModelEmitter {
  import opened Wrappers
  import opened InformationSchema
  import opened Naming
  import opened Columnizer
  import opened ColumnType
  import opened EntityRuntime
  import opened Text
  import opened PanicWriter

  /** Some descriptor carries the field name. */
  predicate HasFieldName(defns: seq<ColumnTypeDefn>, fieldName: string) {
    exists i :: 0 <= i < |defns| && defns[i].fieldName == fieldName
  }

  /** Every picked field's name is the name of some field. */
  predicate NamesPresent(picked: seq<Field>, defns: seq<ColumnTypeDefn>) {
    forall k :: 0 <= k < |picked| ==> HasFieldName(defns, picked[k].name)
  }

  predicate NamePresent(f: Option<Field>, defns: seq<ColumnTypeDefn>) {
    f.Some? ==> HasFieldName(defns, f.value.name)
  }

  /** The column position the emitted code reaches a field by: it names the
      field, and the column instance is looked up by field name. */
  function PositionOf(defns: seq<ColumnTypeDefn>, f: Field): (r: nat)
    requires HasFieldName(defns, f.name)
    ensures r < |defns| && defns[r].fieldName == f.name
  {
    FirstWithFieldName(defns, f.name)
  }

  function Positions(defns: seq<ColumnTypeDefn>, picked: seq<Field>): (r: seq<nat>)
    requires NamesPresent(picked, defns)
    ensures |r| == |picked|
    ensures forall k :: 0 <= k < |r| ==> r[k] < |defns| && defns[r[k]].fieldName == picked[k].name
  {
    seq(|picked|, k requires 0 <= k < |picked| => PositionOf(defns, picked[k]))
  }

  function OptPosition(defns: seq<ColumnTypeDefn>, f: Option<Field>): (r: Option<nat>)
    requires NamePresent(f, defns)
    ensures r.Some? <==> f.Some?
    ensures r.Some? ==> r.value < |defns| && defns[r.value].fieldName == f.value.name
  {
    match f
    case None => None
    case Some(x) => Some(PositionOf(defns, x))
  }

  /** The constants the emitted code for an entity works with: its column
      descriptors, and the unique, primary-key, preferred-unique and
      timestamp columns as positions. */
  function EmittedSchema(e: Entity, ct: ColumnTypeModel): (s: Schema)
    requires NamesPresent(e.unique, ct.defns) && NamesPresent(e.primaryKey, ct.defns)
    requires NamePresent(e.preferredUnique, ct.defns)
    requires NamePresent(e.createdAt, ct.defns) && NamePresent(e.updatedAt, ct.defns)
    ensures s.tableName == e.tableName && s.columns == ct.defns
    ensures |s.unique| == |e.unique| && |s.primaryKey| == |e.primaryKey|
  {
    Schema(
      e.tableName,
      ct.defns,
      Positions(ct.defns, e.unique),
      Positions(ct.defns, e.primaryKey),
      OptPosition(ct.defns, e.preferredUnique),
      OptPosition(ct.defns, e.createdAt),
      OptPosition(ct.defns, e.updatedAt))
  }

  lemma PickedNamesPresent(e: Entity, cols: seq<Column>, names: seq<string>, picked: seq<Field>)
    requires CanPrivatize(e) && |e.fields| == |e.columns|
    requires PicksNamed(picked, e.fields, cols, names) && |cols| == |e.fields|
    ensures NamesPresent(picked, NewColumnType(e).defns)
  {
    var ct := NewColumnType(e);
    var idx := NamedIndices(cols, names);
    forall k | 0 <= k < |picked|
      ensures idx[k] < |ct.defns| && ct.defns[idx[k]].fieldName == picked[k].name
    {
      assert idx[k] < |e.fields| && picked[k] == e.fields[idx[k]];
    }
    assert NamesPresent(picked, ct.defns);
  }

  /** With distinct field names, the positions the emitted code reaches
      the picked fields by are the positions the builder picked them at. */
  lemma PositionsAreNamedIndices(e: Entity, cols: seq<Column>, names: seq<string>, picked: seq<Field>)
    requires CanPrivatize(e) && |e.fields| == |e.columns| && DistinctFieldNames(e.fields)
    requires PicksNamed(picked, e.fields, cols, names) && |cols| == |e.fields|
    ensures NamesPresent(picked, NewColumnType(e).defns)
    ensures Positions(NewColumnType(e).defns, picked) == NamedIndices(cols, names)
  {
    PickedNamesPresent(e, cols, names, picked);
    var ct := NewColumnType(e);
    var idx := NamedIndices(cols, names);
    var ps := Positions(ct.defns, picked);
    forall k | 0 <= k < |picked| ensures ps[k] == idx[k] {
      var i := idx[k];
      assert i < |e.fields| && picked[k] == e.fields[i];
      LookupFindsOwnDescriptor(e, i);
    }
  }

  /** The position of a flagged timestamp field is a flagged column. */
  lemma FlaggedPosition(e: Entity, cols: seq<Column>, f: Option<Field>, flag: Column -> bool)
    requires CanPrivatize(e) && |e.fields| == |e.columns| && DistinctFieldNames(e.fields)
    requires |cols| == |e.fields| && IsLastFlagged(f, e.fields, cols, flag)
    ensures NamePresent(f, NewColumnType(e).defns)
    ensures OptPosition(NewColumnType(e).defns, f).Some? <==> exists i :: 0 <= i < |cols| && flag(cols[i])
    ensures OptPosition(NewColumnType(e).defns, f).Some? ==>
              var p := OptPosition(NewColumnType(e).defns, f).value;
              p < |cols| && flag(cols[p])
  {
    var ct := NewColumnType(e);
    if f.Some? {
      var i :| 0 <= i < |cols| && flag(cols[i]) && f.value == e.fields[i]
               && forall j :: i < j < |cols| ==> !flag(cols[j]);
      assert ct.defns[i].fieldName == f.value.name;
      LookupFindsOwnDescriptor(e, i);
    }
  }

  /** The preferred unique column's position is one of the unique
      positions, and there is one exactly when there are unique columns. */
  lemma PreferredPositionIsUnique(e: Entity, defns: seq<ColumnTypeDefn>)
    requires NamesPresent(e.unique, defns) && NamePresent(e.preferredUnique, defns)
    requires IsPreferredUnique(e.preferredUnique, e.unique)
    ensures OptPosition(defns, e.preferredUnique).Some? <==> |Positions(defns, e.unique)| > 0
    ensures OptPosition(defns, e.preferredUnique).Some? ==>
              OptPosition(defns, e.preferredUnique).value in Positions(defns, e.unique)
  {
    if e.preferredUnique.Some? {
      var k: nat := 0;
      if exists i :: 0 <= i < |e.unique| && e.unique[i].sqlType == SqlInt {
        k :| 0 <= k < |e.unique| && e.unique[k] == e.preferredUnique.value;
      }
      assert e.unique[k] == e.preferredUnique.value;
      assert Positions(defns, e.unique)[k] == OptPosition(defns, e.preferredUnique).value;
    }
  }

  /** What the emitted constants for the timestamps and the preferred
      unique column are, given that the field names are present. */
  lemma EmittedStampsAndPreferred(e: Entity, cols: seq<Column>)
    requires e.columns == cols && |e.fields| == |cols|
    requires CanPrivatize(e) && DistinctFieldNames(e.fields)
    requires IsLastFlagged(e.createdAt, e.fields, cols, IsCreationTimestamp)
    requires IsLastFlagged(e.updatedAt, e.fields, cols, IsUpdateTimestamp)
    requires IsPreferredUnique(e.preferredUnique, e.unique)
    requires NamesPresent(e.unique, NewColumnType(e).defns) && NamesPresent(e.primaryKey, NewColumnType(e).defns)
    ensures NamePresent(e.preferredUnique, NewColumnType(e).defns)
    ensures NamePresent(e.createdAt, NewColumnType(e).defns) && NamePresent(e.updatedAt, NewColumnType(e).defns)
    ensures var s := EmittedSchema(e, NewColumnType(e));
            && (s.preferredUnique.Some? <==> |s.unique| > 0)
            && (s.preferredUnique.Some? ==> s.preferredUnique.value in s.unique)
            && (s.createdAt.Some? <==> exists i :: 0 <= i < |cols| && IsCreationTimestamp(cols[i]))
            && (s.createdAt.Some? ==> s.createdAt.value < |cols| && IsCreationTimestamp(cols[s.createdAt.value]))
            && (s.updatedAt.Some? <==> exists i :: 0 <= i < |cols| && IsUpdateTimestamp(cols[i]))
            && (s.updatedAt.Some? ==> s.updatedAt.value < |cols| && IsUpdateTimestamp(cols[s.updatedAt.value]))
  {
    var ct := NewColumnType(e);
    FlaggedPosition(e, cols, e.createdAt, IsCreationTimestamp);
    FlaggedPosition(e, cols, e.updatedAt, IsUpdateTimestamp);
    if e.preferredUnique.Some? {
      var k: nat := 0;
      if exists i :: 0 <= i < |e.unique| && e.unique[i].sqlType == SqlInt {
        k :| 0 <= k < |e.unique| && e.unique[k] == e.preferredUnique.value;
      }
      assert e.unique[k] == e.preferredUnique.value;
      assert HasFieldName(ct.defns, e.preferredUnique.value.name);
    }
    PreferredPositionIsUnique(e, ct.defns);
  }

  /** For a built entity whose field names are distinct, the emitted
      constants are exactly what the builder selected: the unique and
      primary-key columns are the positions of the named columns in column
      order, the preferred unique column is one of the unique ones, and the
      timestamp columns are the flagged ones. The schema is valid. */
  lemma EmittedSchemaMatchesBuilder(e: Entity, cols: seq<Column>, pk: seq<string>, unique: seq<string>)
    requires BuiltFrom(e, cols, pk, unique)
    requires CanPrivatize(e) && DistinctFieldNames(e.fields)
    ensures NamesPresent(e.unique, NewColumnType(e).defns) && NamesPresent(e.primaryKey, NewColumnType(e).defns)
    ensures NamePresent(e.preferredUnique, NewColumnType(e).defns)
    ensures NamePresent(e.createdAt, NewColumnType(e).defns) && NamePresent(e.updatedAt, NewColumnType(e).defns)
    ensures ValidSchema(EmittedSchema(e, NewColumnType(e)))
    ensures EmittedSchema(e, NewColumnType(e)).unique == NamedIndices(cols, unique)
    ensures EmittedSchema(e, NewColumnType(e)).primaryKey == NamedIndices(cols, pk)
    ensures var s := EmittedSchema(e, NewColumnType(e));
            && (s.preferredUnique.Some? <==> |s.unique| > 0)
            && (s.preferredUnique.Some? ==> s.preferredUnique.value in s.unique)
            && (s.createdAt.Some? <==> exists i :: 0 <= i < |cols| && IsCreationTimestamp(cols[i]))
            && (s.createdAt.Some? ==> s.createdAt.value < |cols| && IsCreationTimestamp(cols[s.createdAt.value]))
            && (s.updatedAt.Some? <==> exists i :: 0 <= i < |cols| && IsUpdateTimestamp(cols[i]))
            && (s.updatedAt.Some? ==> s.updatedAt.value < |cols| && IsUpdateTimestamp(cols[s.updatedAt.value]))
  {
    assert PicksNamed(e.unique, e.fields, cols, unique);
    assert PicksNamed(e.primaryKey, e.fields, cols, pk);
    PositionsAreNamedIndices(e, cols, unique, e.unique);
    PositionsAreNamedIndices(e, cols, pk, e.primaryKey);
    EmittedStampsAndPreferred(e, cols);
  }

  /** The runtime package the emitted code refers to. */
  const RuntimePackage := "github.com/hydrogen18/sillyquill/rt"

  /** The four code emitters of one table. */
  datatype EmitterKind = StructEmitter | ColumnTypeEmitter | LoaderEmitter | SaverEmitter

  /** The order `Emit` collects and runs its emitters in. */
  const EmitterOrder: seq<EmitterKind> := [StructEmitter, ColumnTypeEmitter, LoaderEmitter, SaverEmitter]

  /** Each emitter's `Imports`. */
  function EmitterImports(e: Entity, k: EmitterKind): seq<string> {
    match k
    case StructEmitter => Imports(e.fields)
    case ColumnTypeEmitter => [RuntimePackage]
    case LoaderEmitter => [RuntimePackage, "database/sql", "bytes", "fmt"]
    case SaverEmitter => [RuntimePackage, "database/sql", "bytes", "fmt"]
  }

  /** The keys of the import map after the emitters `kinds` put their
      imports in. */
  function ImportsOf(e: Entity, kinds: seq<EmitterKind>): set<string>
    decreases |kinds|
  {
    if |kinds| == 0 then {} else (set v | v in EmitterImports(e, kinds[0])) + ImportsOf(e, kinds[1..])
  }

  function ImportSet(e: Entity): set<string> {
    ImportsOf(e, EmitterOrder)
  }

  /** The struct emitter's imports as a set: the three standard packages,
      and "time" exactly when some field is a time value. */
  lemma StructImportSet(e: Entity)
    ensures (set v | v in Imports(e.fields)) == {"bytes", "fmt", "database/sql"}
              + (if exists i :: 0 <= i < |e.fields| && IsTimeDescriptor(e.fields[i].descriptor) then {"time"} else {})
  {
    var im := Imports(e.fields);
    assert im[0] == "bytes" && im[1] == "fmt" && im[2] == "database/sql";
    forall v | v in im ensures v in {"bytes", "fmt", "database/sql", "time"} {
      var k :| 0 <= k < |im| && im[k] == v;
      if k >= 3 { assert im[k] == "time"; }
    }
  }

  /** The generated file imports the three standard packages the struct
      needs and the runtime package, and "time" exactly when some field
      is a time value; a repeated import is written once. */
  lemma ImportSetContents(e: Entity)
    ensures ImportSet(e) == {"bytes", "fmt", "database/sql", RuntimePackage}
                            + (if exists i :: 0 <= i < |e.fields| && IsTimeDescriptor(e.fields[i].descriptor)
                               then {"time"} else {})
  {
    var common := {RuntimePackage, "database/sql", "bytes", "fmt"};
    assert (set v | v in EmitterImports(e, SaverEmitter)) == common;
    assert (set v | v in EmitterImports(e, LoaderEmitter)) == common;
    assert (set v | v in EmitterImports(e, ColumnTypeEmitter)) == {RuntimePackage};
    assert ImportsOf(e, [SaverEmitter]) == common by { assert [SaverEmitter][1..] == []; }
    assert ImportsOf(e, [LoaderEmitter, SaverEmitter]) == common by {
      assert [LoaderEmitter, SaverEmitter][1..] == [SaverEmitter];
    }
    assert ImportsOf(e, [ColumnTypeEmitter, LoaderEmitter, SaverEmitter]) == common by {
      assert [ColumnTypeEmitter, LoaderEmitter, SaverEmitter][1..] == [LoaderEmitter, SaverEmitter];
    }
    assert EmitterOrder[1..] == [ColumnTypeEmitter, LoaderEmitter, SaverEmitter];
    StructImportSet(e);
  }

  /** The file header: the package clause, a blank line, one `import` line
      per import in the map's iteration order, a blank line. */
  function Header(pkg: string, imports: seq<string>): (r: seq<Op>)
    ensures forall i :: 0 <= i < |r| ==> r[i].LineOp?
  {
    [LineOp("package " + pkg), LineOp("")]
      + seq(|imports|, i requires 0 <= i < |imports| => ImportLine(imports[i]))
      + [LineOp("")]
  }

  /** `xs` lists the elements of `st`, each exactly once. */
  ghost predicate Enumerates(xs: seq<string>, st: set<string>) {
    && (forall x :: x in xs <==> x in st)
    && forall i, j :: 0 <= i < j < |xs| ==> xs[i] != xs[j]
  }

  /** A `range` over a map visits each key exactly once, in some order. */
  ghost predicate IsMapOrder(order: set<string> -> seq<string>) {
    forall st: set<string> :: Enumerates(order(st), st)
  }

  /** The line importing package `p`. */
  function ImportLine(p: string): Op {
    LineOp("import " + Quote(p))
  }

  /** The header's import lines (all but the first two and the last) name
      every package of `st` and nothing else, each on one line only. */
  ghost predicate ImportsEachOnce(header: seq<Op>, st: set<string>) {
    && |header| >= 3
    && var lines := header[2..|header| - 1];
       && (forall p :: p in st ==> ImportLine(p) in lines)
       && (forall k :: 0 <= k < |lines| ==> exists p :: p in st && lines[k] == ImportLine(p))
       && forall k, l :: 0 <= k < l < |lines| ==> lines[k] != lines[l]
  }

  lemma ImportLineInjective(a: string, b: string)
    requires ImportLine(a) == ImportLine(b)
    ensures a == b
  {
    var x := "import " + Quote(a);
    assert x == "import " + Quote(b);
    assert |a| == |b|;
    assert a == x[8..|x| - 1];
    assert b == x[8..|x| - 1];
  }

  /** Written in an order that enumerates the import map, the header
      imports each package of the map exactly once. */
  lemma HeaderImportsEachOnce(pkg: string, imports: seq<string>, st: set<string>)
    requires Enumerates(imports, st)
    ensures ImportsEachOnce(Header(pkg, imports), st)
  {
    var header := Header(pkg, imports);
    var lines := header[2..|header| - 1];
    assert |lines| == |imports|;
    assert forall k :: 0 <= k < |lines| ==> lines[k] == ImportLine(imports[k]);
    forall p | p in st ensures ImportLine(p) in lines {
      var i :| 0 <= i < |imports| && imports[i] == p;
      assert lines[i] == ImportLine(p);
    }
    forall k, l | 0 <= k < l < |lines| ensures lines[k] != lines[l] {
      if lines[k] == lines[l] {
        ImportLineInjective(imports[k], imports[l]);
      }
    }
  }

  /** Why `Emit` stops: the table-name slice, a failed build, the
      first-letter lookup of an empty singular name, or a panic of the
      writer inside an emitter. */
  datatype EmitError = NamerPanic | Build(cause: BuildError) | PrivatizePanic | WriterPanic(kind: EmitterKind, panic: Panic)

  /** What was written, the emitters that were started, and the error. */
  datatype EmitOutcome = EmitOutcome(out: string, ran: seq<EmitterKind>, err: Option<EmitError>)

  /** All the emitters' actions, one emitter after the other. */
  function Concat(kinds: seq<EmitterKind>, bodies: EmitterKind -> seq<Op>): seq<Op>
    decreases |kinds|
  {
    if |kinds| == 0 then [] else bodies(kinds[0]) + Concat(kinds[1..], bodies)
  }

  /** The emitter loop: each emitter writes through the shared writer, in
      order, and the first panic ends the loop; the emitter that panicked
      is the last one started. */
  function {:induction false} RunEmitters(w: Writer, kinds: seq<EmitterKind>, bodies: EmitterKind -> seq<Op>): (r: EmitOutcome)
    ensures |w.out| <= |r.out| && r.out[..|w.out|] == w.out
    ensures r.err.None? ==> r.ran == kinds
    ensures r.err.Some? ==>
              && 0 < |r.ran| <= |kinds| && r.ran == kinds[..|r.ran|]
              && r.err.value.WriterPanic? && r.err.value.kind == r.ran[|r.ran| - 1]
    decreases |kinds|
  {
    if |kinds| == 0 then EmitOutcome(w.out, [], None)
    else
      var (w', p) := RunUntilPanic(w, bodies(kinds[0]));
      if p.Some? then EmitOutcome(w'.out, [kinds[0]], Some(WriterPanic(kinds[0], p.value)))
      else
        var r := RunEmitters(w', kinds[1..], bodies);
        assert r.out[..|w.out|] == r.out[..|w'.out|][..|w.out|];
        assert r.err.Some? ==> [kinds[0]] + r.ran == kinds[..|r.ran| + 1];
        EmitOutcome(r.out, [kinds[0]] + r.ran, r.err)
  }

  /** Running the emitters one by one is running all their actions in one
      go: it completes exactly when the concatenated run does, with the
      same output. */
  lemma {:induction false} RunEmittersIsConcatenatedRun(w: Writer, kinds: seq<EmitterKind>, bodies: EmitterKind -> seq<Op>)
    ensures RunEmitters(w, kinds, bodies).err.None? <==> Run(w, Concat(kinds, bodies)).Success?
    ensures RunEmitters(w, kinds, bodies).err.None? ==>
              RunEmitters(w, kinds, bodies).out == Run(w, Concat(kinds, bodies)).value.out
    decreases |kinds|
  {
    if |kinds| > 0 {
      RunAppend(w, bodies(kinds[0]), Concat(kinds[1..], bodies));
      var (w', p) := RunUntilPanic(w, bodies(kinds[0]));
      if p.None? {
        RunEmittersIsConcatenatedRun(w', kinds[1..], bodies);
      }
    }
  }

  /** Emitters whose bodies are balanced never make the writer panic. */
  lemma {:induction false} BalancedEmittersNeverPanic(w: Writer, kinds: seq<EmitterKind>, bodies: EmitterKind -> seq<Op>)
    requires forall k :: k in kinds ==> Balanced(bodies(k))
    ensures RunEmitters(w, kinds, bodies).err.None?
    decreases |kinds|
  {
    if |kinds| > 0 {
      var ops := bodies(kinds[0]);
      assert kinds[0] in kinds;
      BalancedEmitterKeepsLevel(w, ops);
      var w' := Run(w, ops).value;
      assert forall k :: k in kinds[1..] ==> k in kinds;
      BalancedEmittersNeverPanic(w', kinds[1..], bodies);
    }
  }

  /** The emitters that ran are the ones `Emit` lists, in its order: all of
      them on success, and up to the one whose writer panicked otherwise. */
  predicate RanInOrder(o: EmitOutcome) {
    && (o.err.None? ==> o.ran == EmitterOrder)
    && (o.err.Some? && o.err.value.WriterPanic? ==>
          && 0 < |o.ran| <= |EmitterOrder| && o.ran == EmitterOrder[..|o.ran|]
          && o.err.value.kind == o.ran[|o.ran| - 1])
  }

  /** What `Emit` does once the entity is built and its column type
      derived: the header, then the four emitters in order. */
  function EmitBuilt(e: Entity, pkg: string, tab: string, order: set<string> -> seq<string>,
                     bodies: EmitterKind -> seq<Op>): (r: EmitOutcome)
    requires IsMapOrder(order)
    ensures r.err.Some? ==> r.err.value.WriterPanic?
    ensures RanInOrder(r)
  {
    var header := Header(pkg, order(ImportSet(e)));
    LineOpsWriteLines(Writer(0, tab, ""), header);
    RunEmitters(Run(Writer(0, tab, ""), header).value, EmitterOrder, bodies)
  }

  /** `ModelEmitter.Emit`: name the table, build the entity (nothing is
      written if that fails), derive its column type (which privatizes the
      singular name once per column), write the header, then run the four
      emitters in order. The iteration order of the import map is the
      parameter `order`; what each emitter writes is the parameter
      `bodies`. */
  function Emit(t: TableSource, pkg: string, tab: string, order: set<string> -> seq<string>,
                bodies: EmitterKind -> seq<Op>): (r: EmitOutcome)
    requires IsMapOrder(order)
    ensures |t.name| == 0 ==> r == EmitOutcome("", [], Some(NamerPanic))
    ensures |t.name| > 0 && NewColumnizedStruct(t).Failure? ==>
              r == EmitOutcome("", [], Some(Build(NewColumnizedStruct(t).error)))
    ensures r.err == Some(PrivatizePanic) <==>
              |t.name| > 0 && NewColumnizedStruct(t).Success? && !CanPrivatize(NewColumnizedStruct(t).value)
    ensures r.err == Some(PrivatizePanic) ==> r.out == "" && r.ran == []
    ensures RanInOrder(r)
  {
    if |t.name| == 0 then EmitOutcome("", [], Some(NamerPanic))
    else
      match NewColumnizedStruct(t)
      case Failure(b) => EmitOutcome("", [], Some(Build(b)))
      case Success(e) =>
        if !CanPrivatize(e) then EmitOutcome("", [], Some(PrivatizePanic))
        else EmitBuilt(e, pkg, tab, order, bodies)
  }

  /** The singular name is empty exactly when the camel-cased table name is
      a single character; `Emit` then panics in `privatizeTypeName` exactly
      when the table has a column. */
  lemma SingularEmptyIffOneLetterName(t: TableSource, pkg: string, tab: string,
                                      order: set<string> -> seq<string>, bodies: EmitterKind -> seq<Op>)
    requires IsMapOrder(order)
    requires |t.name| > 0 && NewColumnizedStruct(t).Success?
    ensures |NewColumnizedStruct(t).value.singularName| == 0 <==> |UnderscoresToCamelCase(t.name)| == 1
    ensures Emit(t, pkg, tab, order, bodies).err == Some(PrivatizePanic) <==>
              |UnderscoresToCamelCase(t.name)| == 1 && |NewColumnizedStruct(t).value.columns| > 0
  {
  }

  /** When the build succeeds and no column's type name needs a privatized
      empty name, the output starts with the header lines at level zero,
      whose import lines name every package of the import map exactly
      once, and it is complete exactly when the emitters' actions run
      without a panic from there. */
  lemma EmitWritesHeaderFirst(t: TableSource, pkg: string, tab: string, order: set<string> -> seq<string>,
                              bodies: EmitterKind -> seq<Op>)
    requires IsMapOrder(order)
    requires |t.name| > 0 && NewColumnizedStruct(t).Success?
    requires CanPrivatize(NewColumnizedStruct(t).value)
    ensures var header := Header(pkg, order(ImportSet(NewColumnizedStruct(t).value)));
            var h := Run(Writer(0, tab, ""), header);
            && h.Success?
            && Lines(h.value.out, tab, AtLevel(0, header))
            && ImportsEachOnce(header, ImportSet(NewColumnizedStruct(t).value))
            && |h.value.out| <= |Emit(t, pkg, tab, order, bodies).out|
            && Emit(t, pkg, tab, order, bodies).out[..|h.value.out|] == h.value.out
            && (Emit(t, pkg, tab, order, bodies).err.None? <==> Run(h.value, Concat(EmitterOrder, bodies)).Success?)
  {
    var imports := ImportSet(NewColumnizedStruct(t).value);
    var header := Header(pkg, order(imports));
    HeaderImportsEachOnce(pkg, order(imports), imports);
    LineOpsWriteLines(Writer(0, tab, ""), header);
    RunEmittersIsConcatenatedRun(Run(Writer(0, tab, ""), header).value, EmitterOrder, bodies);
    assert Run(Writer(0, tab, ""), header).value.out[0..] == Run(Writer(0, tab, ""), header).value.out;
  }
}
