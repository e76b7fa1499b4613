/**
 * pipeline/load.py against an in-memory store: foreign keys are resolved
 * by exact-match lookups in the botanist, species and country tables, and
 * one recording row is inserted and committed per table row.
 */
module Load {
  import opened Wrappers
  import opened Api
  import opened Timestamps
  import opened Extract

  /** A row of a reference table: its surrogate key (the first column) and its other columns by name; a NULL column is absent. */
  datatype Row = Row(key: int, columns: map<string, string>)

  datatype TableName = BotanistTable | SpeciesTable | CountryTable

  /** The reference tables the lookups read. */
  datatype Tables = Tables(botanist: seq<Row>, species: seq<Row>, country: seq<Row>)

  function RowsOf(tables: Tables, name: TableName): seq<Row> {
    match name
    case BotanistTable => tables.botanist
    case SpeciesTable => tables.species
    case CountryTable => tables.country
  }

  /** A query parameter as the driver binds it. */
  datatype SqlValue = SqlNull | SqlText(text: string) | SqlTextList(items: seq<string>)

  /** `column = %s` in a WHERE clause: NULL equals nothing, and a list equals no text column. */
  predicate Matches(row: Row, column: string, value: SqlValue) {
    value.SqlText? && column in row.columns && row.columns[column] == value.text
  }

  /** The position of the first row matching `column = value`, or `|rows|` when none does. */
  function FirstMatch(rows: seq<Row>, column: string, value: SqlValue): (i: nat)
    ensures i <= |rows|
  {
    if rows == [] || Matches(rows[0], column, value) then 0
    else 1 + FirstMatch(rows[1..], column, value)
  }

  /** No row before the first match matches, and the first match (if any) does. */
  lemma {:induction false} FirstMatchSpec(rows: seq<Row>, column: string, value: SqlValue)
    ensures var i := FirstMatch(rows, column, value);
      && (forall j :: 0 <= j < i ==> !Matches(rows[j], column, value))
      && (i < |rows| ==> Matches(rows[i], column, value))
  {
    if rows != [] && !Matches(rows[0], column, value) {
      FirstMatchSpec(rows[1..], column, value);
    }
  }

  /** What `SELECT * ... WHERE column = %s` followed by `fetchone()` yields: the first matching row's key, if any. */
  function FirstKey(rows: seq<Row>, column: string, value: SqlValue): Option<int> {
    var i := FirstMatch(rows, column, value);
    if i < |rows| then Some(rows[i].key) else None
  }

  /** One `get_foreign_key(cursor, table_name, column_name, value)` call. */
  datatype Lookup = Lookup(table: TableName, column: string, value: SqlValue)

  function Resolve(tables: Tables, q: Lookup): Option<int> {
    FirstKey(RowsOf(tables, q.table), q.column, q.value)
  }

  /** Binding of an optional string: None is sent as NULL. */
  function Param(v: Option<string>): SqlValue {
    if v.Some? then SqlText(v.value) else SqlNull
  }

  function PlantNameParam(v: Option<PlantName>): SqlValue {
    match v
    case None => SqlNull
    case Some(Name(s)) => SqlText(s)
    case Some(ScientificNames(names)) => SqlTextList(names)
  }

  function BotanistLookup(rec: PlantRecord): Lookup {
    Lookup(BotanistTable, "botanist_email", Param(rec.botanistEmail))
  }

  function SpeciesLookup(rec: PlantRecord): Lookup {
    Lookup(SpeciesTable, "plant_name", PlantNameParam(rec.plantName))
  }

  function CountryLookup(rec: PlantRecord): Lookup {
    Lookup(CountryTable, "country_code", Param(rec.countryCode))
  }

  /** (botanist_id, species_id, country_id). */
  type KeyTriple = (int, int, int)

  /** The try block for one row: the three keys, or None when a lookup raises. */
  function RowKeys(tables: Tables, rec: PlantRecord): Option<KeyTriple> {
    var botanistId := Resolve(tables, BotanistLookup(rec));
    if botanistId.None? then None
    else
      var speciesId := Resolve(tables, SpeciesLookup(rec));
      if speciesId.None? then None
      else
        var countryId := Resolve(tables, CountryLookup(rec));
        if countryId.None? then None
        else Some((botanistId.value, speciesId.value, countryId.value))
  }

  /** The lookups the try block issues for one row: in order, stopping after the first that raises. */
  function RowLookups(tables: Tables, rec: PlantRecord): seq<Lookup> {
    if Resolve(tables, BotanistLookup(rec)).None? then [BotanistLookup(rec)]
    else if Resolve(tables, SpeciesLookup(rec)).None? then [BotanistLookup(rec), SpeciesLookup(rec)]
    else [BotanistLookup(rec), SpeciesLookup(rec), CountryLookup(rec)]
  }

  /** A row gets its triple exactly when all three lookups find a row, and the triple is their three keys. */
  lemma RowKeysSpec(tables: Tables, rec: PlantRecord)
    ensures var keys := RowKeys(tables, rec);
      && (keys.Some? <==>
            Resolve(tables, BotanistLookup(rec)).Some? && Resolve(tables, SpeciesLookup(rec)).Some?
            && Resolve(tables, CountryLookup(rec)).Some?)
      && (keys.Some? ==> keys.value == (Resolve(tables, BotanistLookup(rec)).value,
                                        Resolve(tables, SpeciesLookup(rec)).value,
                                        Resolve(tables, CountryLookup(rec)).value))
  {
  }

  /**
   * The botanist lookup is always issued; the species lookup exactly when the
   * botanist was found; the country lookup exactly when both were; a row whose
   * lookups all succeed issues exactly three.
   */
  lemma RowLookupsSpec(tables: Tables, rec: PlantRecord)
    ensures var issued := RowLookups(tables, rec);
      && 1 <= |issued| <= 3 && issued[0] == BotanistLookup(rec)
      && (|issued| >= 2 <==> Resolve(tables, BotanistLookup(rec)).Some?)
      && (|issued| >= 2 ==> issued[1] == SpeciesLookup(rec))
      && (|issued| == 3 <==> Resolve(tables, BotanistLookup(rec)).Some? && Resolve(tables, SpeciesLookup(rec)).Some?)
      && (|issued| == 3 ==> issued[2] == CountryLookup(rec))
      && (RowKeys(tables, rec).Some? ==> |issued| == 3)
  {
  }

  /** Each row's outcome, in row order. */
  function AllKeys(tables: Tables, rows: seq<PlantRecord>): (outcomes: seq<Option<KeyTriple>>)
    ensures |outcomes| == |rows|
    ensures forall i :: 0 <= i < |rows| ==> outcomes[i] == RowKeys(tables, rows[i])
  {
    seq(|rows|, i requires 0 <= i < |rows| => RowKeys(tables, rows[i]))
  }

  /** Every lookup issued over the rows, in order. */
  function AllLookups(tables: Tables, rows: seq<PlantRecord>): seq<Lookup> {
    if rows == [] then []
    else AllLookups(tables, rows[..|rows| - 1]) + RowLookups(tables, rows[|rows| - 1])
  }

  /** One more row extends the outcomes by its own and the lookups by its own. */
  lemma PrefixStep(tables: Tables, rows: seq<PlantRecord>, i: nat)
    requires i < |rows|
    ensures AllKeys(tables, rows[..i + 1]) == AllKeys(tables, rows[..i]) + [RowKeys(tables, rows[i])]
    ensures AllLookups(tables, rows[..i + 1]) == AllLookups(tables, rows[..i]) + RowLookups(tables, rows[i])
  {
    assert rows[..i + 1][..i] == rows[..i];
  }

  /** One pass of the foreign-key loop keeps the invariant on the collected keys. */
  lemma KeysStep(tables: Tables, rows: seq<PlantRecord>, i: nat, keys: seq<KeyTriple>, outcome: Option<KeyTriple>)
    requires i < |rows|
    requires keys == Somes(AllKeys(tables, rows[..i])) && outcome == RowKeys(tables, rows[i])
    ensures (if outcome.Some? then keys + [outcome.value] else keys) == Somes(AllKeys(tables, rows[..i + 1]))
  {
    PrefixStep(tables, rows, i);
    SomesSnoc(AllKeys(tables, rows[..i]), outcome);
  }

  /** One pass of the foreign-key loop keeps the invariant on the lookup log. */
  lemma LookupsStep(tables: Tables, rows: seq<PlantRecord>, i: nat, start: seq<Lookup>, before: seq<Lookup>)
    requires i < |rows|
    requires before == start + AllLookups(tables, rows[..i])
    ensures before + RowLookups(tables, rows[i]) == start + AllLookups(tables, rows[..i + 1])
  {
    PrefixStep(tables, rows, i);
    var done, row := AllLookups(tables, rows[..i]), RowLookups(tables, rows[i]);
    assert (start + done) + row == start + (done + row);
  }

  /**
   * The collected keys: at most one triple per row; triple k belongs to the
   * k-th row (in row order) whose three lookups all succeed, and every such
   * row contributes one.
   */
  lemma ForeignKeysSpec(tables: Tables, rows: seq<PlantRecord>)
    ensures var keys, at := Somes(AllKeys(tables, rows)), SomeIndices(AllKeys(tables, rows));
      && |keys| <= |rows|
      && |at| == |keys|
      && (forall k :: 0 <= k < |at| ==> at[k] < |rows| && RowKeys(tables, rows[at[k]]) == Some(keys[k]))
      && (forall k, l :: 0 <= k < l < |at| ==> at[k] < at[l])
      && (forall i :: 0 <= i < |rows| && RowKeys(tables, rows[i]).Some? ==> i in at)
  {
    SomesSpec(AllKeys(tables, rows));
  }

  /** A row that fails its lookups changes nothing for the rows after it: the keys of `a + b` are those of `a`, then those of `b`. */
  lemma ForeignKeysIsolated(tables: Tables, a: seq<PlantRecord>, b: seq<PlantRecord>)
    ensures Somes(AllKeys(tables, a + b)) == Somes(AllKeys(tables, a)) + Somes(AllKeys(tables, b))
  {
    assert AllKeys(tables, a + b) == AllKeys(tables, a) + AllKeys(tables, b);
    SomesAppend(AllKeys(tables, a), AllKeys(tables, b));
  }

  /** Between one and three lookups per row, and exactly three per row when every row resolves all three keys. */
  lemma {:induction false} LookupCount(tables: Tables, rows: seq<PlantRecord>)
    ensures |rows| <= |AllLookups(tables, rows)| <= 3 * |rows|
    ensures (forall i :: 0 <= i < |rows| ==> RowKeys(tables, rows[i]).Some?) ==> |AllLookups(tables, rows)| == 3 * |rows|
  {
    if rows != [] {
      var init := rows[..|rows| - 1];
      LookupCount(tables, init);
      forall i | 0 <= i < |init| ensures init[i] == rows[i] { }
    }
  }

  /**
   * The two-row case of the loader's tests, for any distinct emails, names and
   * country codes: six lookups and the keys (1, 10, 100), (2, 20, 200).
   */
  lemma ForeignKeysExample(e1: string, e2: string, n1: string, n2: string, c1: string, c2: string)
    requires e1 != e2 && n1 != n2 && c1 != c2
    ensures var tables := ExampleTables(e1, e2, n1, n2, c1, c2);
      var rows := [ExampleRow(e1, n1, c1), ExampleRow(e2, n2, c2)];
      Somes(AllKeys(tables, rows)) == [(1, 10, 100), (2, 20, 200)] && |AllLookups(tables, rows)| == 6
  {
    var tables := ExampleTables(e1, e2, n1, n2, c1, c2);
    var rows := [ExampleRow(e1, n1, c1), ExampleRow(e2, n2, c2)];
    assert RowKeys(tables, rows[0]) == Some((1, 10, 100));
    SecondRowKey(tables.botanist, "botanist_email", SqlText(e2));
    SecondRowKey(tables.species, "plant_name", SqlText(n2));
    SecondRowKey(tables.country, "country_code", SqlText(c2));
    assert RowKeys(tables, rows[1]) == Some((2, 20, 200));
    SomesAllPresent(AllKeys(tables, rows));
    LookupCount(tables, rows);
  }

  /** In a two-row table whose first row does not match, the lookup finds the second. */
  lemma SecondRowKey(rows: seq<Row>, column: string, value: SqlValue)
    requires |rows| == 2 && !Matches(rows[0], column, value) && Matches(rows[1], column, value)
    ensures FirstKey(rows, column, value) == Some(rows[1].key)
  {
    assert FirstMatch(rows[1..], column, value) == 0;
  }

  /** The reference tables of the loader's tests: botanists 1 and 2, species 10 and 20, countries 100 and 200. */
  function ExampleTables(e1: string, e2: string, n1: string, n2: string, c1: string, c2: string): Tables {
    Tables(
      [Row(1, map["botanist_email" := e1]), Row(2, map["botanist_email" := e2])],
      [Row(10, map["plant_name" := n1]), Row(20, map["plant_name" := n2])],
      [Row(100, map["country_code" := c1]), Row(200, map["country_code" := c2])])
  }

  /** A row carrying only the three columns the lookups read. */
  function ExampleRow(email: string, name: string, country: string): PlantRecord {
    PlantRecord(None, None, Some(email), None, Some(Name(name)), Text(None), Text(None), None, None, Some(country), None)
  }

  /** One row of the recording table. */
  datatype RecordingRow = RecordingRow(
    plantId: Option<int>,
    recordingTaken: Moment,
    lastWatered: Moment,
    soilMoisture: Option<Float>,
    temperature: Option<Float>)

  function RecordingOf(rec: PlantRecord): RecordingRow {
    RecordingRow(rec.plantId, rec.recordingTaken, rec.lastWatered, rec.soilMoisture, rec.temperature)
  }

  function RecordingsOf(rows: seq<PlantRecord>): (r: seq<RecordingRow>)
    ensures |r| == |rows|
    ensures forall i :: 0 <= i < |rows| ==> r[i] == RecordingOf(rows[i])
  {
    seq(|rows|, i requires 0 <= i < |rows| => RecordingOf(rows[i]))
  }

  datatype LookupError = ValueError(message: string)

  /**
   * The database behind the cursor. `recording` is the recording table in
   * insertion order; its first `committed` rows are durable. `lookups` is the
   * sequence of `get_foreign_key` SELECTs sent through the cursor, in order.
   * `accepts` is the database's own verdict on an INSERT (its constraints are
   * not modelled).
   */
  class Store {
    var tables: Tables
    var recording: seq<RecordingRow>
    var committed: nat
    var commits: nat
    var lookups: seq<Lookup>
    const accepts: RecordingRow -> bool

    /**
     * `get_connection` and `get_cursor`: a connection to the existing database,
     * whose recording table already holds the committed rows of earlier runs.
     */
    constructor (tables: Tables, existing: seq<RecordingRow>, accepts: RecordingRow -> bool)
      ensures this.tables == tables && this.accepts == accepts
      ensures recording == existing && committed == |existing|
      ensures commits == 0 && lookups == []
    {
      this.tables := tables;
      this.accepts := accepts;
      recording := existing;
      committed := |existing|;
      commits := 0;
      lookups := [];
    }

    /**
     * `get_foreign_key`: one SELECT through the cursor; the key of the first row
     * whose `column` equals `value`, or `ValueError('Invalid Data!')`.
     */
    method GetForeignKey(table: TableName, column: string, value: SqlValue) returns (key: Result<int, LookupError>)
      modifies this`lookups
      ensures lookups == old(lookups) + [Lookup(table, column, value)]
      ensures Resolve(tables, Lookup(table, column, value)) == if key.Ok? then Some(key.value) else None
      ensures key.Err? <==> forall i :: 0 <= i < |RowsOf(tables, table)| ==> !Matches(RowsOf(tables, table)[i], column, value)
      ensures key.Err? ==> key.error == ValueError("Invalid Data!")
      ensures key.Ok? ==> exists i :: (0 <= i < |RowsOf(tables, table)| && Matches(RowsOf(tables, table)[i], column, value)
        && RowsOf(tables, table)[i].key == key.value
        && forall j :: 0 <= j < i ==> !Matches(RowsOf(tables, table)[j], column, value))
    {
      lookups := lookups + [Lookup(table, column, value)];
      FirstMatchSpec(RowsOf(tables, table), column, value);
      var result := FirstKey(RowsOf(tables, table), column, value);
      if result.Some? {
        key := Ok(result.value);
      } else {
        key := Err(ValueError("Invalid Data!"));
      }
    }

    /** The try block for one row: the three lookups in turn, stopping at the first ValueError. */
    method RowForeignKeys(row: PlantRecord) returns (outcome: Option<KeyTriple>)
      modifies this`lookups
      ensures outcome == RowKeys(tables, row)
      ensures lookups == old(lookups) + RowLookups(tables, row)
    {
      outcome := None;
      var botanist, species, country := BotanistLookup(row), SpeciesLookup(row), CountryLookup(row);
      var botanistId := GetForeignKey(botanist.table, botanist.column, botanist.value);
      if botanistId.Ok? {
        var speciesId := GetForeignKey(species.table, species.column, species.value);
        if speciesId.Ok? {
          var countryId := GetForeignKey(country.table, country.column, country.value);
          if countryId.Ok? {
            outcome := Some((botanistId.value, speciesId.value, countryId.value));
          }
        }
      }
    }

    /**
     * `get_all_plant_foreign_keys`: for each row, botanist by email, then
     * species by name, then country by code; a row whose lookup raises adds no
     * triple and issues no further lookup.
     */
    method GetAllPlantForeignKeys(rows: seq<PlantRecord>) returns (keys: seq<KeyTriple>)
      modifies this`lookups
      ensures keys == Somes(AllKeys(tables, rows))
      ensures lookups == old(lookups) + AllLookups(tables, rows)
    {
      keys := [];
      ghost var start, t := lookups, tables;
      for i := 0 to |rows|
        invariant keys == Somes(AllKeys(t, rows[..i]))
        invariant lookups == start + AllLookups(t, rows[..i])
      {
        ghost var before := lookups;
        var outcome := RowForeignKeys(rows[i]);
        LookupsStep(t, rows, i, start, before);
        KeysStep(t, rows, i, keys, outcome);
        if outcome.Some? {
          keys := keys + [outcome.value];
        }
      }
      assert rows[..|rows|] == rows;
    }

    /** `cursor.execute(INSERT INTO recording ...)`: appends the row, or raises when the database refuses it. */
    method ExecuteInsert(row: RecordingRow) returns (ok: bool)
      modifies this`recording
      ensures ok == accepts(row)
      ensures recording == if ok then old(recording) + [row] else old(recording)
    {
      ok := accepts(row);
      if ok {
        recording := recording + [row];
      }
    }

    /** `connection.commit()`: everything inserted so far becomes durable. */
    method Commit()
      modifies this`committed, this`commits
      ensures committed == |recording| && commits == old(commits) + 1
    {
      committed := |recording|;
      commits := commits + 1;
    }

    /**
     * `insert_into_recording_table`: one insert and one commit per row, in row
     * order. When the database refuses row `inserted`, the method stops there
     * (the source's exception); the rows before it stay, committed.
     */
    method InsertIntoRecordingTable(rows: seq<PlantRecord>) returns (inserted: nat, ok: bool)
      modifies this`recording, this`committed, this`commits
      ensures inserted <= |rows| && (ok <==> inserted == |rows|)
      ensures forall j :: 0 <= j < inserted ==> accepts(RecordingOf(rows[j]))
      ensures !ok ==> !accepts(RecordingOf(rows[inserted]))
      ensures recording == old(recording) + RecordingsOf(rows[..inserted])
      ensures commits == old(commits) + inserted
      ensures committed == if inserted == 0 then old(committed) else |recording|
    {
      inserted := 0;
      while inserted < |rows|
        invariant inserted <= |rows|
        invariant forall j :: 0 <= j < inserted ==> accepts(RecordingOf(rows[j]))
        invariant recording == old(recording) + RecordingsOf(rows[..inserted])
        invariant commits == old(commits) + inserted
        invariant committed == if inserted == 0 then old(committed) else |recording|
      {
        var row := RecordingOf(rows[inserted]);
        ok := ExecuteInsert(row);
        if !ok {
          return;
        }
        Commit();
        assert RecordingsOf(rows[..inserted + 1]) == RecordingsOf(rows[..inserted]) + [row];
        inserted := inserted + 1;
      }
      ok := true;
    }
  }
}
