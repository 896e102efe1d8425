# sillyquill generator core in Dafny

sillyquill reads a PostgreSQL table's catalogue (`information_schema`) and
generates a Go file for it. The file holds a model struct with Loaded/Set
flags per column, a column type with one descriptor per column, and
loader and saver helpers. It also holds the operations `Reload`, `Get`,
`Save`, `Create` and `FindOrCreate`. This project models the generator
and the behaviour of the code it emits, and proves what each stage
promises.

Modules, one per part of the program:

- `Wrappers`: `Option` and `Result`.
- `Text`: ASCII case mapping, `strings.Trim(s, " ")`, `%q` of identifiers,
  decimal rendering, and the comma lists the code builds by writing
  `item,` and truncating one byte.
- `InformationSchema`: the current type-name mapper, the timestamp
  predicates and the `Columns` row loop (skip, keep or abort per row).
- `LegacySchema`: the older mapper and row loop of `sillyquill.go`, and
  where the two mappers disagree.
- `Naming`: `UnderscoresToCamelCase` and `tempModelNamer`.
- `DataTypes`: `columnToDataType` descriptors and the two renderers,
  `dataTypeToString` and `printDataType`.
- `PanicWriter`: the indenting writer, whose `deindent` at level zero
  panics, `fprintLn` and `returnIf`. An emitter body is a list of writer
  actions.
- `Columnizer`: `NewColumnizedStruct`. It builds the fields, the unique
  and primary-key fields, the preferred unique field and the timestamp
  fields, and `Imports`.
- `ColumnType`: `NewColumnType`, `privatizeTypeName` and the lookup of a
  column instance by field name.
- `EntityRuntime`: the emitted constants as a `Schema` record and an
  instance with its flags. It covers the emitted column-list helpers
  (`Names`, `ValuesOf`, `Contains`, `SetLoaded`, `SetSet`), the setters,
  the timestamp touches and `identifyingColumns`.
- `SqlText`: the SQL text the emitted code and `rt/query_builder.go`
  build.
- `Loader`, `Saver`: the emitted loader (`loadWithColumns`, the result
  analyzer, `LoadMany`, `loadColumnsWhere`) and the emitted saver
  (`updateColumnsWhere`, `insertColumns`).
- `Operations`: the emitted `Reload`, `Get`, `Save`, `Create` and
  `FindOrCreate` as transitions of the instance and its flags, together
  with the database calls they make.
- `ModelEmitter`: `ModelEmitter.Emit`. It names the table, builds the
  entity and its column type, writes the header and runs the four
  emitters in order. A linking lemma shows that the constants the emitted
  code works with are what the builder selected.

The database, the catalogue reads, the clock and the helpers the
generated code calls without any code for them are parameters (oracles). Go's map iteration
order for the imports is the parameter `order`. The text each emitter
writes is the parameter `bodies`: the model keeps its shape (lines and
indentation) and leaves out the Go text itself.

The emitted `Create` has no up-front rejection: without a preferred
unique column its load-back list is empty (columnizer.go:481-490).

## Model

| member | source | states |
|---|---|---|
| InformationSchema.StringToSqlDataType | information_schema.go:49-92 | The lookup succeeds exactly on the accepted names after upper-casing and trimming spaces, and then returns that name's tag, never the unknown tag. Every error carries the unknown tag. The skip sentinel is returned exactly for TSVECTOR. Any other failure is a no-such-type error with the raw string, the table and the column. |
| InformationSchema.LookupAgreesWithTable | information_schema.go:52-85 | The chain of name comparisons in the switch agrees with the reference table of accepted names, and TSVECTOR is not in that table. |
| InformationSchema.NormalizeIgnoresPaddingAndCase | information_schema.go:50 | Normalising is insensitive to surrounding spaces and to letter case: padding or upper-casing the input leaves its normal form unchanged. |
| InformationSchema.LookupIgnoresPaddingAndCase | information_schema.go:49-92 | Padding or upper-casing the type string gives the same type tag. |
| InformationSchema.NormalFormIsItself | information_schema.go:50 | A name with no lower-case letter and no space at either end is already normalised. |
| InformationSchema.TimeZoneAwareRejected | information_schema.go:75-91 | However it is spelled, TIMESTAMP WITH TIME ZONE is not accepted. It gives the unknown tag and a no-such-type error that carries the raw string. |
| InformationSchema.IsCreationTimestamp | information_schema.go:114-116 | A creation-timestamp column has timestamp type and is never also the update-timestamp column. |
| InformationSchema.IsUpdateTimestamp | information_schema.go:118-120 | An update-timestamp column has timestamp type and is not named created_at. |
| InformationSchema.ParseIsNullable | information_schema.go:249-259 | Only "NO" and "YES" parse, and the column is nullable exactly for "YES". |
| InformationSchema.ConvertRow | information_schema.go:226-262 | A row is skipped exactly when its effective type normalises to TSVECTOR. The effective type is the udt_name for USER-DEFINED types. A row is kept exactly when the type is accepted and is_nullable parses, keeping the column name, a known tag and the nullability. Otherwise the row aborts with the type error when the type is unknown, or with the is_nullable error. |
| InformationSchema.Outcomes | information_schema.go:221-263 | There is one outcome per catalogue row, in row order, each the conversion of that row. |
| InformationSchema.CollectCharacterized | information_schema.go:221-268 | The row loop succeeds exactly when no row aborts. On success the k-th column comes from the k-th surviving row. On failure the error is that of the first aborting row. |
| InformationSchema.KeptIndicesShape | information_schema.go:241-245 | The surviving positions are strictly increasing, in range, and are exactly the rows that are kept. |
| InformationSchema.ColumnsSucceedsUnlessAbort | information_schema.go:202-269 | Columns succeeds exactly when no row aborts. Skipped rows never fail it. |
| InformationSchema.ColumnsFailsAtFirstAbort | information_schema.go:239-258 | A failing Columns returns the error of the first row that aborts. |
| InformationSchema.ColumnsKeepsSurvivorsInOrder | information_schema.go:221-263 | On success the columns are the kept rows in their original order: none is lost, none is reordered. |
| LegacySchema.LegacyStringToSqlDataType | sillyquill.go:32-55 | The exact names from the legacy table map to their tags. Otherwise any normalised name starting with TIMESTAMP maps to timestamp. Anything else gives the unknown tag and an error carrying the raw input. |
| LegacySchema.LegacyLookupAgreesWithTable | sillyquill.go:36-48 | The legacy switch agrees with its reference table of exact names. |
| LegacySchema.LegacyRange | sillyquill.go:16-24 | The legacy mapper only produces the six older type tags. |
| LegacySchema.LegacyAcceptsAnyTimestamp | sillyquill.go:50-52 | Every name starting with TIMESTAMP is a timestamp to the legacy mapper. |
| LegacySchema.MappersDisagreeOnTimeZone | sillyquill.go:50-52 | The two mappers disagree on TIMESTAMP WITH TIME ZONE: the legacy mapper accepts it, the current one rejects it. |
| LegacySchema.LegacyRejectsText | sillyquill.go:32-55 | The legacy mapper rejects TEXT, which the current mapper accepts. |
| LegacySchema.LegacyConvertRow | sillyquill.go:114-142 | A row converts exactly when its type maps and is_nullable parses. It then keeps the column name, the tag and whether is_nullable was "YES". Otherwise the error is the type error or the is_nullable error, in that order. |
| LegacySchema.LegacyOutcomes | sillyquill.go:110-143 | There is one result per row, in row order, each the conversion of that row. |
| LegacySchema.CollectAllCharacterized | sillyquill.go:110-148 | The legacy row loop succeeds exactly when every row converts, giving the rows' columns position by position. Otherwise it returns the first failure. |
| LegacySchema.LegacyColumnsAligned | sillyquill.go:95-149 | The legacy Columns returns one column per row at the same position when no row fails, and otherwise the first failing row's error. |
| Text.TruncatedListIsJoin | rt/query_builder.go:14-20 | Writing item-comma for each item of a non-empty list and truncating once leaves the prefix followed by the comma-joined items. |
| Text.DecimalRoundTrip | rt/query_builder.go:23-25 | Reading back the decimal digits printed for a placeholder number gives the number. |
| Text.DecimalInjective | rt/query_builder.go:23-25 | Different numbers print as different digit strings, so placeholders never collide. |
| Naming.CamelCaseShape | model_emitter.go:28-45 | The camel-cased name is never longer than the input. It is empty only for empty input, and it starts with the upper-cased first input character. |
| Naming.CamelCopiesWord | model_emitter.go:39-41 | Inside a name, every character other than an underscore is copied unchanged. |
| Naming.CamelCaseWithoutUnderscore | model_emitter.go:28-45 | For a name without underscores, only the first character changes (it is upper-cased). |
| Naming.CamelCaseSplitsAtUnderscore | model_emitter.go:33-38 | An underscore ends a word and is dropped. The next character starts a new, capitalised word. |
| Naming.CreatedAtExample | model_emitter.go:28-45 | created_at becomes CreatedAt. |
| Naming.CamelFromDropsUnderscores | model_emitter.go:33-34 | No underscore survives in a name that neither starts with one nor has two in a row. |
| Naming.CamelCaseIdempotent | model_emitter.go:28-45 | Converting twice gives the same result as converting once, for names without leading or doubled underscores. |
| Naming.TempModelNamer | model_emitter.go:126-132 | The plural name starts with the upper-cased first table character. The singular name is the plural without its last character. |
| Naming.TrucksExample | model_emitter.go:126-132 | trucks gives the names Trucks and Truck. |
| PanicWriter.Indent | model_emitter.go:62-64 | Indenting raises the level by one and writes nothing. |
| PanicWriter.Deindent | model_emitter.go:65-70 | Deindenting panics exactly at level zero. Otherwise it lowers the level by one and writes nothing. |
| PanicWriter.FprintLn | model_emitter.go:72-78 | Writing a line keeps the level and the tab and only appends to the output. |
| PanicWriter.FprintLnWritesOneLine | model_emitter.go:72-78 | What fprintLn appends reads back as exactly one line: level copies of the tab, the text, a newline. |
| PanicWriter.ReadsWrittenLine | model_emitter.go:73-77 | A written line can be read back, together with whatever follows it. |
| PanicWriter.ThreeLines | model_emitter.go:80-86 | Three written lines read back as those three lines, in order. |
| PanicWriter.ReturnIf | model_emitter.go:80-86 | returnIf leaves the level and the tab as they were. |
| PanicWriter.ReturnIfAppends | model_emitter.go:80-86 | returnIf only appends to the output. It never panics, because its deindent follows its own indent. |
| PanicWriter.ReturnIfWritesThreeLines | model_emitter.go:80-86 | What returnIf appends is exactly three lines: the if line, the return line one level deeper, and the closing brace. |
| PanicWriter.RunNeverNegative | model_emitter.go:62-70 | A run of writer actions panics exactly when some prefix takes the level below zero. Otherwise it ends at the start level plus the net change. |
| PanicWriter.BalancedEmitterKeepsLevel | model_emitter.go:62-70 | An action list that never goes below the start level and nets to zero completes and leaves the level unchanged. |
| PanicWriter.RunUntilPanic | model_emitter.go:53-70 | The writer reports no panic exactly when the run succeeds, and then agrees with it. The output written before a panic is kept. |
| PanicWriter.LineOpsWriteLines | model_emitter.go:72-78 | A list of plain line writes never panics and keeps the level. It appends exactly its lines, in order, at the current level. |
| PanicWriter.RunAppend | model_emitter.go:183-188 | Running two action lists one after the other is running their concatenation. The first panic stops both. |
| DataTypes.ColumnToDataType | model_emitter.go:195-222 | There is a descriptor exactly for the types with a rule (all but SMALLINT, REAL and unknown). It starts with the pointer kind exactly when the column is nullable. |
| DataTypes.DescriptorRendersGoType | columnizer.go:140-179 | Every descriptor columnToDataType produces renders as the column's Go value type, behind a star exactly for nullable columns. dataTypeToString and printDataType agree on it. |
| DataTypes.ValueShapeRenders | columnizer.go:158-175 | A non-nullable descriptor renders as its Go value type under both renderers. |
| DataTypes.PtrRendersStar | columnizer.go:148-156 | A leading pointer kind renders as a star in front of what the rest renders as. |
| DataTypes.NilDescriptorPanics | columnizer.go:140-145 | For SMALLINT and REAL there is no descriptor, and rendering it indexes past the end. |
| DataTypes.RenderersDifferOnNarrowKinds | model_emitter.go:105-120 | dataTypeToString names the 16-bit integer and 32-bit float kinds, while printDataType refuses them. |
| Columnizer.MakeField | columnizer.go:81-93 | A column gets a field exactly when its type has a descriptor, and otherwise the build panics indexing past the end. The field carries the camel-cased column name, the SQL type and the nullability. Its rendered Go type is the value type, behind a star exactly for nullable columns. |
| Columnizer.MakeFields | columnizer.go:81-118 | The field loop succeeds exactly when every column is supported, and then gives one field per column at the same position. Otherwise it fails with the descriptor panic. |
| Columnizer.NamedIndices | columnizer.go:101-109 | The positions of the columns named in a list are in range and strictly increasing. They are exactly the columns whose name is in the list. |
| Columnizer.SelectNamed | columnizer.go:101-109 | The unique (or primary-key) fields are the fields at the named positions, in column order. |
| Columnizer.LastFlagged | columnizer.go:111-117 | The timestamp field is absent exactly when no column is flagged. Otherwise it is the field of the last flagged column. |
| Columnizer.LastFlaggedBefore | columnizer.go:111-117 | The position found is flagged, and no later column among the first n is. Nothing is found exactly when none of them is flagged. |
| Columnizer.FirstInt | columnizer.go:121-126 | The position found is the first unique field of integer type. Nothing is found exactly when there is none. |
| Columnizer.PickPreferredUnique | columnizer.go:120-135 | The preferred unique field is absent exactly when there are no unique fields. Otherwise it is the first integer-typed unique field, or else the first unique field. |
| Columnizer.MadeFieldsAreFieldsOf | columnizer.go:81-95 | The fields of a successful loop match their columns position by position: name, types, pointer and descriptor. |
| Columnizer.Assemble | columnizer.go:101-135 | A built entity keeps the table name and the namer's names, with the list type named after the singular. It meets every build promise: fields aligned with columns, unique and primary key picked by name in column order, the preferred unique by rule, the last flagged timestamps. |
| Columnizer.NewColumnizedStruct | columnizer.go:43-138 | The catalogue reads are consulted in the order columns, primary key, unique, and the first failure is returned as is. Afterwards the build succeeds exactly when every column type is supported. The failure is the descriptor panic. On success every build promise holds. |
| Columnizer.TimeImports | columnizer.go:187-210 | Each extra import is "time", and there is one exactly when some field has a time descriptor. |
| Columnizer.Imports | columnizer.go:181-213 | The imports are bytes, fmt and database/sql, then only "time" entries. "time" appears exactly when some field has a time descriptor. |
| Columnizer.TimeDescriptorIffTimeType | columnizer.go:199-207 | A produced descriptor is a time descriptor exactly for timestamp and date columns. |
| Columnizer.ImportsTimeIffTimeColumn | columnizer.go:181-213 | A built struct imports "time" exactly when some column is a timestamp or a date. |
| ColumnType.PrivatizeTypeName | column_type.go:26-30 | The private name has the same length, a lower-cased first character and an unchanged rest. |
| ColumnType.PrivatizeUndoesCamelCaseFirst | column_type.go:26-30 | Privatizing the camel-cased form of a table name that starts with a lower-case letter gives that letter back. |
| ColumnType.NewColumnType | column_type.go:36-68 | Defined for every entity whose singular name is non-empty or which has no column, because the private type name is computed once per column. The interface, list and variable names derive from the singular and plural names. There is one descriptor per column, at its position. It carries the column's name, nullability and type, the field name, the private type name and the plural-qualified instance name. |
| ColumnType.FirstWithFieldName | column_type.go:77-81 | The position found is the first descriptor with that field name. |
| ColumnType.ColumnTypeInstanceByFieldName | column_type.go:76-83 | The lookup panics exactly when no descriptor has the field name. Otherwise it returns the instance name of the first descriptor that has it. |
| ColumnType.LookupFindsOwnDescriptor | column_type.go:46-83 | With distinct field names, looking up a field's name finds that field's own descriptor and instance name. No two descriptors share a type name. |
| EntityRuntime.Utc | columnizer.go:359-374 | Converting to UTC keeps the instant and sets the zone offset to zero. Values that are not times are unchanged. |
| EntityRuntime.ValueOf | column_type.go:282-297 | A column's value is nil exactly for a nil pointer field. Otherwise it is the plain value or the pointee. |
| EntityRuntime.ZeroInstance | columnizer.go:217-254 | A fresh instance has one field and two flags per column, all flags false. Its value is nil exactly for nullable columns. |
| EntityRuntime.AllColumns | column_type.go:222-229 | The all-columns list names every column once, in column order. |
| EntityRuntime.Names | column_type.go:109-121 | Names gives the column names of the list, with the same length and order. |
| EntityRuntime.ValuesOf | column_type.go:173-187 | ValuesOf gives each listed column's value, with the same length and order. |
| EntityRuntime.ValuesOfAppend | column_type.go:173-187 | The values of two lists joined are the values of each list, joined. |
| EntityRuntime.Contains | column_type.go:189-202 | Contains is true exactly when the column is in the list. |
| EntityRuntime.SetFlags | column_type.go:146-150 | The flag loop sets exactly the listed flags to the given value and leaves the others alone. |
| EntityRuntime.SetLoaded | column_type.go:139-154 | List SetLoaded changes exactly the Loaded flags of the listed columns. Values and Set flags are untouched. |
| EntityRuntime.SetSet | column_type.go:156-171 | List SetSet changes exactly the Set flags of the listed columns. Values and Loaded flags are untouched. |
| EntityRuntime.TrueIndices | columnizer.go:436-445 | The collected positions are strictly increasing and are exactly the positions whose flag is true. |
| EntityRuntime.SetColumns | columnizer.go:436-445 | The columns to save are exactly the Set columns, in column order. |
| EntityRuntime.Normalize | columnizer.go:359-379 | A setter stores timestamps in UTC and everything else as given. A nil pointer stays nil and the field shape is kept. |
| EntityRuntime.SetField | columnizer.go:350-385 | A setter stores the normalised value and marks only its column Set. The other fields and every Loaded flag are unchanged. |
| EntityRuntime.NowSlot | columnizer.go:393-398 | The current time is stored as a value or through a pointer, as the field's shape requires. |
| EntityRuntime.TouchUpdatedAt | columnizer.go:387-403 | touchUpdatedAt stamps the update timestamp with the current time in UTC unless it is already Set, and changes nothing else. Without an update timestamp there is nothing to change. |
| EntityRuntime.TouchCreatedAt | columnizer.go:405-423 | touchCreatedAt stamps the creation timestamp with the current time in UTC unless it is already Loaded or Set, and changes nothing else. |
| EntityRuntime.FirstKnown | column_type.go:344-355 | The position found is the first unique column that is Loaded or Set. Nothing is found exactly when none is. |
| EntityRuntime.IdentifyingColumns | column_type.go:336-375 | The first known unique column is returned on its own. Otherwise the whole primary key is returned when it is non-empty and fully known. Otherwise the row is not uniquely identifiable. Every column returned is known. |
| Loader.Assign | loader.go:89-90 | A NULL cell cannot be scanned into a plain field, and is nil in a pointer field. Any other cell stores its value with the field's shape. |
| Loader.Store | loader.go:89-90 | Scanning one cell writes only its own field and keeps the instance well formed. |
| Loader.WriteFrom | loader.go:89-95 | The scan stops at the first cell that does not convert, after writing the earlier ones. When every cell converts, unlisted fields are unchanged and a column listed twice keeps the value scanned last. |
| Loader.LoadWithColumns | loader.go:80-99 | A scan error, or a row whose width differs from the list, changes nothing. The load succeeds exactly when every cell converts, and then marks exactly the listed columns Loaded, keeps the Set flags, leaves unlisted values alone and stores each listed column's last-scanned cell. A conversion failure keeps the flags. |
| Loader.MatchColumn | loader.go:55-72 | The analyzer switch matches the first column with that name, and matches nothing exactly when no column has it. |
| Loader.AnalyzeFrom | loader.go:53-75 | Given each name's match, the loop from a position succeeds exactly when every remaining name has a match, and then gives the matches in order. Otherwise it fails at the first name without a match, with its position. |
| Loader.Analyze | loader.go:45-77 | Analysing succeeds exactly when every result column name names a column, and maps each position to a column of that name. Otherwise the error is the first unknown name and its position. |
| Loader.LoadRows | loader.go:117-131 | The row loop succeeds exactly when every row loads, giving one instance per row in row order. Otherwise it stops with the first failing row's error. |
| Loader.LoadMany | loader.go:103-135 | A column-name or analysis error returns before any row is read. On success there is one fresh instance per row, in row order, Loaded in exactly the result columns and Set in none. A failing row closes the row set, and a row-set error after the last row also returns no list. |
| Loader.LoadColumnsWhere | loader.go:137-161 | The SELECT names the listed columns and the quoted table, then the equality clause over the identifying columns. It binds the identifying columns' values in order, and the returned row is loaded into the listed columns. |
| Saver.CheckExec | saver.go:47-60 | Driver errors are returned unchanged. Any affected-row count other than exactly one is reported as a missing row. |
| Saver.UpdateColumnsWhere | saver.go:28-61 | The UPDATE sets the listed columns with placeholders numbered from 1, followed by the where clause numbered from n+1. The arguments are the listed values, then the identifying values. The outcome is the row-count check. |
| Saver.InsertColumns | saver.go:63-100 | The INSERT lists the columns with one placeholder each and binds their values in order. The outcome is the row-count check. |
| Saver.UpdatePlaceholdersMatchArguments | saver.go:34-46 | Read back, the UPDATE's assignment list names each listed column once, with placeholders $1 to $n in order. The argument bound to each placeholder is that column's value. |
| SqlText.Quoted | loader.go:147-151 | Each name is rendered in double quotes, with the same length and order. |
| SqlText.Placeholders | saver.go:77-81 | The placeholders are $from onwards, one per position. |
| SqlText.Assignments | saver.go:36-40 | Each assignment pairs a quoted name with its numbered placeholder. |
| SqlText.PlaceholdersDistinct | saver.go:77-81 | The placeholders of a list are pairwise different. |
| SqlText.SelectText | loader.go:145-155 | With columns, the SELECT lists them comma-joined with no trailing comma. With none, the truncation eats the space after Select. |
| SqlText.UpdateText | saver.go:34-43 | With columns, the UPDATE lists the comma-joined assignments with no trailing comma. With none, the truncation eats the space after SET. |
| SqlText.InsertText | saver.go:68-83 | With columns, the INSERT gives the comma-joined quoted names and the matching comma-joined placeholders. |
| SqlText.InsertTextWithoutColumns | saver.go:68-83 | With no columns, both truncations eat the character before the empty list. |
| SqlText.AppendList | rt/query_builder.go:14-20 | Writing item-comma for each item and truncating once gives the comma-joined items. For an empty list it drops the prefix's last character. |
| SqlText.InsertHead | rt/query_builder.go:10-27 | Up to RETURNING, the INSERT names the save columns comma-joined and gives one placeholder $1 to $n for each. With no save columns, each of the two truncations eats the opening parenthesis before its empty list. |
| SqlText.BuildInsertQuery | rt/query_builder.go:6-37 | The query is the head followed by a space and the comma-joined load columns. With no load columns, the truncation eats that space. |
| SqlText.BuildUpdateQuery | rt/query_builder.go:39-52 | The UPDATE pairs each column with $1 to $n in order, with no trailing comma. An empty list eats the space after SET. |
| SqlText.SplitJoinRoundTrip | rt/query_builder.go:14-20 | Splitting a comma-joined list of comma-free items at the commas gives the items back. |
| SqlText.InsertListsSplitBack | rt/query_builder.go:14-26 | The column list and the VALUES list of an INSERT split back into the quoted names and $1 to $n. |
| Operations.DefaultToAll | columnizer.go:308-312 | An empty column request means every column. Otherwise the request is kept as given. |
| Operations.Reload | columnizer.go:303-321 | An unidentifiable row fails before any query. Otherwise there is one query: it selects the requested columns (all when none are named) from the table, filtered on the identifying columns, and binds their values. It succeeds exactly when the database answers with a row of that width whose every cell converts. On failure the error is the scan's and the Loaded flags are kept. On success the requested columns become Loaded in addition, each holds the value scanned last for it, and every other column keeps its value. Set flags never change. |
| Operations.LoadBack | columnizer.go:492-500 | The row a helper returns is scanned into the load list. A driver error leaves the instance as it was. A failed scan keeps every flag. On success the listed columns are Loaded, the given columns stop being Set, and the values are as scanned. |
| Operations.Unloaded | columnizer.go:335-344 | The columns collected are exactly the requested ones that are not Loaded. |
| Operations.Get | columnizer.go:325-348 | When every requested column is already Loaded, Get succeeds without a database call. Otherwise, for an identifiable row, the one query selects exactly the requested columns that are not Loaded and binds the identifying columns' values. Get succeeds exactly when the answer scans into those columns, and then each holds the value scanned last for it. Columns already Loaded keep their values. An unidentifiable row fails before any query. Unrequested columns keep their flag. On success every requested column is Loaded, and on failure no flag changes. |
| Operations.Save | columnizer.go:427-455 | Save stamps the update timestamp first, then fails before any statement when the row cannot be identified. Otherwise it issues one UPDATE that sets the Set columns, filters on the identifying ones, and binds their values in that order. Its error is exactly what checking the statement's result gives. On success the Set columns become Loaded and no column stays Set. On failure the instance is as after the stamp. |
| Operations.CreateStamps | columnizer.go:460-467 | The creation timestamp is stamped first. The update timestamp is stamped afterwards only when it is NOT NULL. No Set flag is cleared. |
| Operations.Create | columnizer.go:457-501 | After the stamps, Create makes one insert call with the Set columns and their values, in column order, asking to load back the preferred unique column when there is one. It succeeds exactly when the returned row scans into that list. On success the preferred unique column holds the value the database returned and every other column keeps its value. The created and loaded-back columns become Loaded and no column stays Set. A driver error leaves the instance as after the stamps. Any failure keeps the flags as after the stamps. |
| Operations.FindOrCreate | columnizer.go:503-558 | After the stamps, an unidentifiable row fails before any call. Otherwise one call passes the identifying columns with their values and the Set columns with their values, and loads the requested columns followed by the Set ones (all columns when none are requested). It succeeds exactly when the row found or created scans into that list. On success every loaded column holds the value scanned last for it and is Loaded, and no column stays Set. A driver error leaves the instance as after the stamps. Any failure keeps the flags as after the stamps. |
| Operations.FindOrCreateReadsBackSaved | columnizer.go:536-547 | With columns requested, a successful FindOrCreate leaves every column that was Set holding the converted value the database returned for it in the saved part of the load list, even when a requested column repeats it. |
| ModelEmitter.PositionsAreNamedIndices | column_type.go:76-83 | With distinct field names, looking up each picked field's column instance by name gives back exactly the position the builder picked it at. |
| ModelEmitter.FlaggedPosition | columnizer.go:387-423 | The column the timestamp code touches exists exactly when some column carries the flag, and it is a flagged column. |
| ModelEmitter.PreferredPositionIsUnique | columnizer.go:482-490 | The column Create loads back is one of the unique columns, and there is one exactly when the table has unique columns. |
| ModelEmitter.EmittedStampsAndPreferred | columnizer.go:387-423 | The emitted timestamp columns are the flagged ones, and the preferred unique column is among the unique ones. |
| ModelEmitter.EmittedSchemaMatchesBuilder | column_type.go:324-375 | For a built entity with distinct field names, the emitted primary-key and identifying column lists are the named columns in column order, and the emitted schema is valid. The timestamp and preferred unique columns are those the builder chose. |
| ModelEmitter.StructImportSet | columnizer.go:181-213 | The struct's imports are "bytes", "fmt" and "database/sql", plus "time" exactly when some field holds a time value. |
| ModelEmitter.ImportSetContents | model_emitter.go:168-175 | The import map holds the three standard packages and the runtime package, plus "time" exactly when some field is a time value. |
| ModelEmitter.Header | model_emitter.go:166-181 | The header consists only of whole lines written at the current level. |
| ModelEmitter.RunEmitters | model_emitter.go:183-188 | The emitters run in order through one writer, and output is only ever appended. All of them run unless one panics. In that case the emitters started are a prefix of the list, and the one that panicked is the last of them. |
| ModelEmitter.RunEmittersIsConcatenatedRun | model_emitter.go:183-188 | Running the emitters one at a time completes exactly when running all their actions in sequence does, and the output is the same. |
| ModelEmitter.BalancedEmittersNeverPanic | model_emitter.go:183-188 | When every emitter's indents and de-indents balance, no emitter makes the writer panic. |
| ModelEmitter.EmitBuilt | model_emitter.go:166-188 | Once the entity is built, only a writer panic can stop Emit. On success all four emitters ran in the fixed order. |
| ModelEmitter.Emit | model_emitter.go:134-191 | An empty table name panics in the namer before anything is written. When the build fails, nothing is written and the outcome carries the build's failure. That failure is a returned error for a failed catalogue read or a descriptor whose first element is not a kind. It is a Go panic for an unsupported column type: `columnToDataType` gives a nil descriptor and `dataTypeToString` indexes it (columnizer.go:88, columnizer.go:142), which the model carries as `DescriptorFailure(IndexOutOfRange)`. A one-character camel name panics when the type name is privatised, exactly when the table has at least one column. Otherwise the emitters run in order. |
| ModelEmitter.SingularEmptyIffOneLetterName | model_emitter.go:126-132 | The singular name is empty exactly when the camel-cased table name is one character long. Because privatisation runs once per column (column_type.go:46-56), emission panics there exactly when that name is one character long and the table has at least one column. |
| ModelEmitter.EmitWritesHeaderFirst | model_emitter.go:164-188 | After a successful build, the output begins with the header lines at level zero. Its import lines name exactly the packages of the import map, each once. The output is complete exactly when the emitters' actions run from there without a panic. |
| ModelEmitter.HeaderImportsEachOnce | model_emitter.go:168-181 | When the iteration order lists each package of the map exactly once, the header has one import line per package and no other import lines. |

## Left out

- The catalogue queries, `Tables()`, logging and the command-line `main`: they are I/O. Each catalogue read is a parameter of `NewColumnizedStruct` and `Columns`.
- The legacy `Tables` and `main` of `sillyquill.go`: they are I/O.
- `time.Now()`: it is the parameter `now` of the operations and the timestamp touches.
- `%q` escaping: `Quote` only adds double quotes. Column and table names are taken to be plain identifiers.
- Unicode case mapping: `UpperChar` and `LowerChar` cover ASCII only.
- The Go text each emitter writes: it is the parameter `bodies`. What the emitted code does is modelled separately, in `EntityRuntime`, `Loader`, `Saver` and `Operations`.
- Errors that carry the instance (`RowNotUniquelyIdentifiableError`, `RowDoesNotExistError`): the model drops the instance.
- `BuildAndEqualClause`: the runtime function is not part of this model, so it is the oracle `andClause` in `Operations.Db`.
- `andEqualClauseOf` (called at saver.go:43) and `findOrCreateColumnsWhere` (called at columnizer.go:547): none of the emitters generates these methods, so the generated code calls code that does not exist. They are the oracles `andEqualClauseOf` and `findOrCreate` in `Operations.Db`.
- `insertColumns(db, columnsToLoad, columnsToCreate)` (columnizer.go:492): the only insert the generator emits is `Saver.InsertColumns` (saver.go:63-100). It takes one list, issues no RETURNING and gives back no row, so this two-list call matches no emitted method. The oracle `insert` receives the Set columns' values, as `Saver.InsertColumns` binds them (saver.go:85), and follows the intended behaviour: the created row comes back and is scanned into the load list, so that after `Create` the preferred unique column is Loaded (gen_test/crud_test.go:56-58). `findOrCreate` likewise returns the row found or created, scanned with `loadWithColumns`.
- Go's map iteration order: it is the parameter `order`, constrained only to list each key of the map exactly once.
- Pointer aliasing between instances: values are immutable in the model.
- Write errors of the underlying `io.Writer`: the writer is an in-memory string.
- The `*` that `printDataType` writes before it fails on a pointer-to-unsupported descriptor: only the error is modelled.
- The bounds check `Imports` needs on descriptors shorter than two elements: no descriptor `columnToDataType` produces is that short.
- `columnToDataType` returns nil for SMALLINT and REAL, and the builder then indexes that nil descriptor. This is modelled as written: the build fails with `IndexOutOfRange`.
- PanicWriter.FprintLn: the contract states only the level, the tab and that output is appended. What the line reads back as is `FprintLnWritesOneLine`.
- PanicWriter.ReturnIf: the contract states only the level and the tab. The lines written are in `ReturnIfAppends` and `ReturnIfWritesThreeLines`.
- ModelEmitter.RunEmitters: "no error implies every emitter ran" is stated in one direction only. The converse needs the emitter bodies, and `RunEmittersIsConcatenatedRun` gives it in terms of the concatenated run.
- ModelEmitter.EmitBuilt: the same one-direction statement as `RunEmitters`.
- ModelEmitter.Emit: the same one-direction statement as `RunEmitters`. The header and completeness are in `EmitWritesHeaderFirst`.
- Naming.TempModelNamer: requires a non-empty table name. The slice panic on an empty name is modelled in `ModelEmitter.Emit` as `NamerPanic`.
- ColumnType.PrivatizeTypeName: requires a non-empty name. The index panic on an empty singular name is modelled in `ModelEmitter.Emit` as `PrivatizePanic`.
