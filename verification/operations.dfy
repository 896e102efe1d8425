/** The generated model operations `Reload`, `Get`, `Save`, `Create` and
    `FindOrCreate`, as transitions of the instance's fields and Loaded/Set
    flags. The database and the runtime helpers whose code is not part of
    this model are oracles; `now` stands for `time.Now()`. */
module Operations {
  import opened Wrappers
  import opened EntityRuntime
  import opened Loader
  import opened Saver
  import opened SqlText

  /** The database and the helpers the generated code calls:
      - `query`: `db.QueryRow` followed by the row scan;
      - `exec`: `db.Exec`;
      - `andClause`: the runtime's `BuildAndEqualClause(start, names)`;
      - `andEqualClauseOf`: the column list's `andEqualClauseOf(start)`, given the list's names;
      - `insert`: `this.insertColumns(db, columnsToLoad, columnsToCreate)`,
        given the lists and the values of the columns to create, as the row
        the statement returns (or the driver error);
      - `findOrCreate`: `this.findOrCreateColumnsWhere(db, idColumns, columnsToSave, columnsToLoad)`,
        given the lists, the identifying values and the values to save,
        likewise as the row found or created.
      The generator emits neither `andEqualClauseOf` nor
      `findOrCreateColumnsWhere`, and its only `insertColumns` takes one list
      and returns no row, so the last three stand for the behaviour the
      callers expect: the returned row is scanned into the load list with
      the emitted `loadWithColumns`, the only scanner the generated code has. */
  datatype Db = Db(
    query: Statement -> ScanResult,
    exec: Statement -> ExecResult,
    andClause: (nat, seq<string>) -> string,
    andEqualClauseOf: (nat, seq<string>) -> string,
    insert: (seq<nat>, seq<nat>, seq<Arg>) -> ScanResult,
    findOrCreate: (seq<nat>, seq<nat>, seq<nat>, seq<Arg>, seq<Arg>) -> ScanResult)

  /** One call an operation makes on the database. */
  datatype DbCall =
    | Query(st: Statement)
    | Exec(st: Statement)
    | InsertCall(load: seq<nat>, create: seq<nat>, createArgs: seq<Arg>)
    | FindOrCreateCall(id: seq<nat>, save: seq<nat>, load: seq<nat>, idArgs: seq<Arg>, saveArgs: seq<Arg>)

  /** The instance after an operation, the error it returned, and the
      database calls it made, in order. */
  datatype OpResult = OpResult(inst: Instance, err: Option<OpError>, calls: seq<DbCall>)

  /** `if len(columns) == 0 { columns = <Plural>Columns }`. */
  function DefaultToAll(s: Schema, cols: seq<nat>): (r: seq<nat>)
    requires ValidList(s, cols)
    ensures ValidList(s, r)
    ensures |cols| == 0 ==> r == AllColumns(s)
    ensures |cols| > 0 ==> r == cols
  {
    if |cols| == 0 then AllColumns(s) else cols
  }

  /** `m'` is `m` with the row `cells` scanned into the listed columns:
      those become Loaded, each keeps the value scanned last for it, and
      every other column keeps its value and flag. */
  ghost predicate ScannedInto(s: Schema, m: Instance, cols: seq<nat>, cells: seq<Cell>, m': Instance)
    requires Fits(s, m) && Fits(s, m') && ValidList(s, cols) && |cells| == |cols|
  {
    && (forall i :: 0 <= i < |s.columns| ==> m'.loaded[i] == (i in cols || m.loaded[i]))
    && ScannedValues(s, m, cols, cells, m')
  }

  /** The values part of `ScannedInto`. */
  ghost predicate ScannedValues(s: Schema, m: Instance, cols: seq<nat>, cells: seq<Cell>, m': Instance)
    requires Fits(s, m) && Fits(s, m') && ValidList(s, cols) && |cells| == |cols|
  {
    && (forall i :: 0 <= i < |s.columns| && i !in cols ==> m'.values[i] == m.values[i])
    && forall k :: 0 <= k < |cols| && LastOccurrence(cols, k) ==>
         Some(m'.values[cols[k]]) == Assign(s.columns[cols[k]], cells[k])
  }

  /** The common tail of `Create` and `FindOrCreate`: the row the helper
      returned is scanned into `toLoad`; on success the columns `done`
      become Loaded and are no longer Set, on failure the flags stay. */
  function LoadBack(s: Schema, m: Instance, toLoad: seq<nat>, row: ScanResult, done: seq<nat>, call: DbCall): (r: OpResult)
    requires ValidSchema(s) && Fits(s, m) && ValidList(s, toLoad) && ValidList(s, done)
    ensures Fits(s, r.inst) && r.calls == [call]
    ensures r.err.None? <==> Scannable(s, toLoad, row)
    ensures row.ScanFailed? ==> r.inst == m && r.err == Some(Driver(row.cause))
    ensures r.err.Some? ==> r.inst.loaded == m.loaded && r.inst.isSet == m.isSet
    ensures r.err.None? ==>
              && row.Row? && |row.cells| == |toLoad|
              && ScannedValues(s, m, toLoad, row.cells, r.inst)
              && forall i :: 0 <= i < |s.columns| ==>
                   && r.inst.loaded[i] == (i in done || i in toLoad || m.loaded[i])
                   && r.inst.isSet[i] == (m.isSet[i] && i !in done)
  {
    var load := LoadWithColumns(s, m, toLoad, row);
    if load.err.Some? then OpResult(load.inst, load.err, [call])
    else OpResult(SetSet(SetLoaded(load.inst, done, true), done, false), None, [call])
  }

  /** The row scans into the listed columns: it is a row of the right
      width and every cell converts. */
  predicate Scannable(s: Schema, cols: seq<nat>, row: ScanResult)
    requires ValidList(s, cols)
  {
    row.Row? && |row.cells| == |cols| && forall k :: 0 <= k < |cols| ==> Converts(s, cols, row.cells, k)
  }

  /** `Reload`: identifies the row, selects the requested columns (all of
      them when none are named) and scans the answer into them. An
      unidentifiable row fails before any query; Set flags never change. */
  function Reload(s: Schema, m: Instance, cols: seq<nat>, db: Db): (r: OpResult)
    requires ValidSchema(s) && Fits(s, m) && ValidList(s, cols)
    ensures Fits(s, r.inst) && r.inst.isSet == m.isSet
    ensures IdentifyingColumns(s, m).Failure? ==> r == OpResult(m, Some(RowNotUniquelyIdentifiable), [])
    ensures IdentifyingColumns(s, m).Success? ==>
              var id := IdentifyingColumns(s, m).value;
              var requested := DefaultToAll(s, cols);
              && |r.calls| == 1 && r.calls[0].Query?
              && r.calls[0].st.text == SelectText(s.tableName, Names(s, requested), db.andClause(1, Names(s, id)))
              && r.calls[0].st.args == ValuesOf(m, id)
              && (r.err.None? <==> Scannable(s, requested, db.query(r.calls[0].st)))
              && (r.err.Some? ==> r.err == LoadWithColumns(s, m, requested, db.query(r.calls[0].st)).err)
              && (r.err.None? ==> ScannedInto(s, m, requested, db.query(r.calls[0].st).cells, r.inst))
    ensures r.err.Some? ==> r.inst.loaded == m.loaded
  {
    var requested := DefaultToAll(s, cols);
    match IdentifyingColumns(s, m)
    case Failure(e) => OpResult(m, Some(e), [])
    case Success(id) =>
      var w := LoadColumnsWhere(s, m, id, requested, db.andClause, db.query);
      if w.load.err.Some? then OpResult(w.load.inst, w.load.err, [Query(w.issued)])
      else OpResult(SetLoaded(w.load.inst, requested, true), None, [Query(w.issued)])
  }

  /** The requested columns that are not Loaded yet, in request order. */
  function Unloaded(m: Instance, cols: seq<nat>): (r: seq<nat>)
    requires forall k :: 0 <= k < |cols| ==> cols[k] < |m.loaded|
    ensures |r| <= |cols|
    ensures forall k :: 0 <= k < |r| ==> r[k] in cols
    ensures forall c :: c in r <==> c in cols && !m.loaded[c]
  {
    if |cols| == 0 then []
    else (if m.loaded[cols[0]] then [] else [cols[0]]) + Unloaded(m, cols[1..])
  }

  /** `Get`: loads those of the requested columns (all of them when none
      are named) that are not Loaded yet; when there are none it succeeds
      without touching the database. Columns already Loaded keep their
      values; columns that were not requested keep their Loaded flag. */
  function Get(s: Schema, m: Instance, cols: seq<nat>, db: Db): (r: OpResult)
    requires ValidSchema(s) && Fits(s, m) && ValidList(s, cols)
    ensures Fits(s, r.inst) && r.inst.isSet == m.isSet
    ensures (forall c :: c in DefaultToAll(s, cols) ==> m.loaded[c]) ==> r == OpResult(m, None, [])
    ensures var u := Unloaded(m, DefaultToAll(s, cols));
            |u| > 0 && IdentifyingColumns(s, m).Success? ==>
              var id := IdentifyingColumns(s, m).value;
              && |r.calls| == 1 && r.calls[0].Query?
              && r.calls[0].st.text == SelectText(s.tableName, Names(s, u), db.andClause(1, Names(s, id)))
              && r.calls[0].st.args == ValuesOf(m, id)
              && (r.err.None? <==> Scannable(s, u, db.query(r.calls[0].st)))
              && (r.err.None? ==> ScannedInto(s, m, u, db.query(r.calls[0].st).cells, r.inst))
              && (r.err.None? ==> forall i :: 0 <= i < |s.columns| && m.loaded[i] ==> r.inst.values[i] == m.values[i])
    ensures |Unloaded(m, DefaultToAll(s, cols))| > 0 && IdentifyingColumns(s, m).Failure? ==>
              r == OpResult(m, Some(RowNotUniquelyIdentifiable), [])
    ensures forall i :: 0 <= i < |s.columns| && i !in DefaultToAll(s, cols) ==> r.inst.loaded[i] == m.loaded[i]
    ensures r.err.None? ==> forall c :: c in DefaultToAll(s, cols) ==> r.inst.loaded[c]
    ensures r.err.Some? ==> r.inst.loaded == m.loaded
  {
    var requested := DefaultToAll(s, cols);
    var unloaded := Unloaded(m, requested);
    assert |unloaded| > 0 ==> unloaded[0] in unloaded;
    if |unloaded| == 0 then OpResult(m, None, [])
    else Reload(s, m, unloaded, db)
  }

  /** `Save`: stamps the update timestamp if it is not Set, identifies the
      row (failing before any statement), then updates exactly the Set
      columns, in column order. On success those columns become Loaded and
      no column stays Set; on failure the flags are as after the stamp. */
  function Save(s: Schema, m: Instance, now: Value, db: Db): (r: OpResult)
    requires ValidSchema(s) && Fits(s, m)
    ensures var m1 := TouchUpdatedAt(s, m, now);
            && Fits(s, r.inst)
            && r.inst.values == m1.values
            && (IdentifyingColumns(s, m1).Failure? ==> r == OpResult(m1, Some(RowNotUniquelyIdentifiable), []))
            && (IdentifyingColumns(s, m1).Success? ==>
                  var id := IdentifyingColumns(s, m1).value;
                  var toSave := SetColumns(s, m1);
                  && |r.calls| == 1 && r.calls[0].Exec?
                  && r.calls[0].st.text == UpdateText(s.tableName, Names(s, toSave),
                                                      db.andEqualClauseOf(|toSave| + 1, Names(s, id)))
                  && r.calls[0].st.args == ValuesOf(m1, toSave) + ValuesOf(m1, id)
                  && r.err == CheckExec(db.exec(r.calls[0].st)))
            && (r.err.Some? ==> r.inst == m1)
            && (r.err.None? ==>
                  forall i :: 0 <= i < |s.columns| ==>
                    && r.inst.loaded[i] == (m1.isSet[i] || m1.loaded[i])
                    && !r.inst.isSet[i])
  {
    var m1 := TouchUpdatedAt(s, m, now);
    match IdentifyingColumns(s, m1)
    case Failure(e) => OpResult(m1, Some(e), [])
    case Success(id) =>
      var toSave := SetColumns(s, m1);
      var u := UpdateColumnsWhere(s, m1, id, toSave, db.andEqualClauseOf, db.exec);
      if u.err.Some? then OpResult(m1, u.err, [Exec(u.issued)])
      else OpResult(SetSet(SetLoaded(m1, toSave, true), toSave, false), None, [Exec(u.issued)])
  }

  /** The stamps `Create` and `FindOrCreate` apply first: the creation
      timestamp, then the update timestamp only when it is NOT NULL. */
  function CreateStamps(s: Schema, m: Instance, now: Value): (r: Instance)
    requires ValidSchema(s) && Fits(s, m)
    ensures Fits(s, r) && r.loaded == m.loaded
    ensures s.updatedAt.None? || s.columns[s.updatedAt.value].nullable ==> r == TouchCreatedAt(s, m, now)
    ensures s.updatedAt.Some? && !s.columns[s.updatedAt.value].nullable ==>
              r == TouchUpdatedAt(s, TouchCreatedAt(s, m, now), now)
    ensures forall i :: 0 <= i < |s.columns| && m.isSet[i] ==> r.isSet[i]
  {
    var m1 := TouchCreatedAt(s, m, now);
    match s.updatedAt
    case Some(u) => if !s.columns[u].nullable then TouchUpdatedAt(s, m1, now) else m1
    case None => m1
  }

  /** `Create`: after the stamps, inserts the Set columns with their values, asking to load
      back the preferred unique column when there is one, so that the
      created row can be identified afterwards. There is no up-front
      rejection: without a preferred unique column the load-back list is
      empty. On success the created and loaded-back columns are Loaded and
      no column stays Set; on failure the flags are as after the stamps. */
  function Create(s: Schema, m: Instance, now: Value, db: Db): (r: OpResult)
    requires ValidSchema(s) && Fits(s, m)
    ensures var m1 := CreateStamps(s, m, now);
            var toCreate := SetColumns(s, m1);
            var toLoad := if s.preferredUnique.Some? then [s.preferredUnique.value] else [];
            var row := db.insert(toLoad, toCreate, ValuesOf(m1, toCreate));
            && Fits(s, r.inst)
            && r.calls == [InsertCall(toLoad, toCreate, ValuesOf(m1, toCreate))]
            && (r.err.None? <==> Scannable(s, toLoad, row))
            && (row.ScanFailed? ==> r.inst == m1 && r.err == Some(Driver(row.cause)))
            && (r.err.Some? ==> r.inst.loaded == m1.loaded && r.inst.isSet == m1.isSet)
            && (r.err.None? ==>
                  && row.Row? && |row.cells| == |toLoad|
                  && (s.preferredUnique.Some? ==>
                        Some(r.inst.values[s.preferredUnique.value])
                          == Assign(s.columns[s.preferredUnique.value], row.cells[0]))
                  && ScannedValues(s, m1, toLoad, row.cells, r.inst)
                  && forall i :: 0 <= i < |s.columns| ==>
                       && r.inst.loaded[i] == (m1.isSet[i] || i in toLoad || m1.loaded[i])
                       && !r.inst.isSet[i])
  {
    var m1 := CreateStamps(s, m, now);
    var toCreate := SetColumns(s, m1);
    // the list starts empty, so the `Contains` guard before the append always passes
    var toLoad := if s.preferredUnique.Some? then [s.preferredUnique.value] else [];
    var args := ValuesOf(m1, toCreate);
    LoadBack(s, m1, toLoad, db.insert(toLoad, toCreate, args), toCreate, InsertCall(toLoad, toCreate, args))
  }

  /** `FindOrCreate`: after the stamps, identifies the row (failing before
      any call), then finds or creates it from the Set columns and loads
      the requested columns followed by the Set ones (all columns when none
      are requested), so that the instance agrees with the row the
      database holds. On success every loaded column is Loaded and not Set,
      and holds the value scanned last for it. */
  function FindOrCreate(s: Schema, m: Instance, now: Value, requested: seq<nat>, db: Db): (r: OpResult)
    requires ValidSchema(s) && Fits(s, m) && ValidList(s, requested)
    ensures var m1 := CreateStamps(s, m, now);
            && Fits(s, r.inst)
            && (IdentifyingColumns(s, m1).Failure? ==> r == OpResult(m1, Some(RowNotUniquelyIdentifiable), []))
            && (r.err.Some? ==> r.inst.loaded == m1.loaded && r.inst.isSet == m1.isSet)
    ensures var m1 := CreateStamps(s, m, now);
            var toSave := SetColumns(s, m1);
            var toLoad := if |requested| == 0 then AllColumns(s) else requested + toSave;
            IdentifyingColumns(s, m1).Success? ==>
              var id := IdentifyingColumns(s, m1).value;
              var row := db.findOrCreate(id, toSave, toLoad, ValuesOf(m1, id), ValuesOf(m1, toSave));
              && r.calls == [FindOrCreateCall(id, toSave, toLoad, ValuesOf(m1, id), ValuesOf(m1, toSave))]
              && (r.err.None? <==> Scannable(s, toLoad, row))
              && (row.ScanFailed? ==> r.inst == m1 && r.err == Some(Driver(row.cause)))
              && (r.err.None? ==>
                    && ScannedInto(s, m1, toLoad, row.cells, r.inst)
                    && forall i :: 0 <= i < |s.columns| ==> !r.inst.isSet[i])
  {
    var m1 := CreateStamps(s, m, now);
    match IdentifyingColumns(s, m1)
    case Failure(e) => OpResult(m1, Some(e), [])
    case Success(id) =>
      var toSave := SetColumns(s, m1);
      var toLoad := if |requested| == 0 then AllColumns(s) else requested + toSave;
      forall i | 0 <= i < |s.columns| && m1.isSet[i] ensures i in toLoad {
        if |requested| == 0 {
          assert AllColumns(s)[i] == i;
        } else {
          var k :| 0 <= k < |toSave| && toSave[k] == i;
          assert toLoad[|requested| + k] == i;
        }
      }
      var idArgs, saveArgs := ValuesOf(m1, id), ValuesOf(m1, toSave);
      LoadBack(s, m1, toLoad, db.findOrCreate(id, toSave, toLoad, idArgs, saveArgs), toLoad,
               FindOrCreateCall(id, toSave, toLoad, idArgs, saveArgs))
  }


  /** With columns requested, every column Set before `FindOrCreate` ends
      up holding the value the database returned for it in the saved part
      of the load list, so the instance agrees with the stored row even
      when a requested column repeats a saved one. */
  lemma FindOrCreateReadsBackSaved(s: Schema, m: Instance, now: Value, requested: seq<nat>, db: Db)
    requires ValidSchema(s) && Fits(s, m) && ValidList(s, requested) && |requested| > 0
    requires FindOrCreate(s, m, now, requested, db).err.None?
    ensures var m1 := CreateStamps(s, m, now);
            var toSave := SetColumns(s, m1);
            && IdentifyingColumns(s, m1).Success?
            && var id := IdentifyingColumns(s, m1).value;
               var row := db.findOrCreate(id, toSave, requested + toSave, ValuesOf(m1, id), ValuesOf(m1, toSave));
               && row.Row? && |row.cells| == |requested| + |toSave|
               && forall k :: 0 <= k < |toSave| ==>
                    Some(FindOrCreate(s, m, now, requested, db).inst.values[toSave[k]])
                      == Assign(s.columns[toSave[k]], row.cells[|requested| + k])
  {
  }
}
