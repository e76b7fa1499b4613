/**
 * pipeline/transform.py: plant names are normalised by `clean_name`, and
 * the two timestamp columns are parsed and brought to UTC. Both steps
 * overwrite columns of the table they are given, which `PlantFrame` models.
 */
module Transform {
  import opened Wrappers
  import opened PyText
  import opened Timestamps
  import opened Extract

  // ----- clean_name -----

  /** The characters `re.sub(r'[^a-zA-Z\s]', '', name)` keeps. */
  predicate IsKept(c: char) {
    IsAsciiLetter(c) || IsSpace(c)
  }

  /** `clean_name` on a string: `' '.join(re.sub(r'[^a-zA-Z\s]', '', name).split()).lower()`. */
  function CleanName(name: string): string {
    Lower(Join(Split(Filter(name, IsKept))))
  }

  /** `clean_name` on any cell: strings are cleaned, anything else (None, a list) is returned as it is. */
  function CleanNameValue(v: Option<PlantName>): Option<PlantName> {
    match v
    case Some(Name(s)) => Some(Name(CleanName(s)))
    case _ => v
  }

  /** Lower-case ASCII letters and single spaces, with no space at either end. */
  predicate IsCleanName(o: string) {
    && (forall i :: 0 <= i < |o| ==> IsLowerLetter(o[i]) || o[i] == ' ')
    && (|o| > 0 ==> o[0] != ' ' && o[|o| - 1] != ' ')
    && (forall i :: 0 <= i < |o| - 1 ==> o[i] != ' ' || o[i + 1] != ' ')
  }

  predicate IsLowerWord(w: string) {
    |w| > 0 && forall i :: 0 <= i < |w| ==> IsLowerLetter(w[i])
  }

  /** Joining lower-case words with single spaces gives a clean name. */
  lemma {:induction false} JoinClean(words: seq<string>)
    requires forall k :: 0 <= k < |words| ==> IsLowerWord(words[k])
    ensures IsCleanName(Join(words))
    ensures |words| > 0 ==> |Join(words)| > 0
  {
    if |words| > 1 {
      JoinClean(words[1..]);
      var w, rest := words[0], Join(words[1..]);
      var o := w + " " + rest;
      assert Join(words) == o;
      forall i | 0 <= i < |o| ensures IsLowerLetter(o[i]) || o[i] == ' ' {
        if i < |w| {
          assert o[i] == w[i];
        } else if i > |w| {
          assert o[i] == rest[i - |w| - 1];
        }
      }
      forall i | 0 <= i < |o| - 1 ensures o[i] != ' ' || o[i + 1] != ' ' {
        if i < |w| {
          assert o[i] == w[i];
        } else if i == |w| {
          assert o[i + 1] == rest[0];
        } else {
          assert o[i] == rest[i - |w| - 1];
        }
      }
      assert o[0] == w[0];
      assert o[|o| - 1] == rest[|rest| - 1];
    }
  }

  /** A cleaned name is the lowered tokens of the kept characters, joined by single spaces. */
  lemma CleanNameWords(name: string)
    ensures var words := LowerAll(Split(Filter(name, IsKept)));
      && (forall k :: 0 <= k < |words| ==> IsLowerWord(words[k]))
      && CleanName(name) == Join(words)
  {
    var kept := Filter(name, IsKept);
    var tokens := Split(kept);
    SplitChars(kept, IsKept);
    forall k | 0 <= k < |tokens| ensures IsLowerWord(Lower(tokens[k])) {
      assert IsWord(tokens[k]);
    }
    LowerJoin(tokens);
  }

  /** The output holds only lower-case ASCII letters and single spaces, and is trimmed. */
  lemma CleanNameShape(name: string)
    ensures IsCleanName(CleanName(name))
  {
    CleanNameWords(name);
    JoinClean(LowerAll(Split(Filter(name, IsKept))));
  }

  /** Taking the spaces out of the output leaves the input's ASCII letters, lowered, in their order. */
  lemma CleanNameLetters(name: string)
    ensures Filter(CleanName(name), c => c != ' ') == Lower(Filter(name, IsAsciiLetter))
  {
    var kept := Filter(name, IsKept);
    var tokens := Split(kept);
    var o := CleanName(name);
    CleanNameShape(name);
    FilterCongruent(o, c => c != ' ', NotSpace);
    FilterLower(Join(tokens));
    JoinConcat(tokens);
    SplitConcat(kept);
    FilterFilter(name, IsKept, NotSpace, IsAsciiLetter);
  }

  /** The output is empty exactly when the input has no ASCII letter (`""` and `"123!@#"` among them). */
  lemma CleanNameEmpty(name: string)
    ensures CleanName(name) == "" <==> Filter(name, IsAsciiLetter) == ""
  {
    var o := CleanName(name);
    CleanNameLetters(name);
    CleanNameShape(name);
    FilterEmpty(o, c => c != ' ');
  }

  /** Cleaning a cleaned name changes nothing. */
  lemma CleanNameIdempotent(name: string)
    ensures CleanName(CleanName(name)) == CleanName(name)
  {
    var words := LowerAll(Split(Filter(name, IsKept)));
    var o := CleanName(name);
    CleanNameWords(name);
    CleanNameShape(name);
    FilterKeepsAll(o, IsKept);
    forall k | 0 <= k < |words| ensures IsWord(words[k]) {
      assert IsLowerWord(words[k]);
    }
    SplitJoin(words);
    assert Lower(o) == o;
  }

  /** Only string cells change; a cleaned cell stays as it is when cleaned again. */
  lemma CleanNameValueSpec(v: Option<PlantName>)
    ensures (v.None? || v.value.ScientificNames?) ==> CleanNameValue(v) == v
    ensures v.Some? && v.value.Name? ==>
      CleanNameValue(v).Some? && CleanNameValue(v).value.Name? && IsCleanName(CleanNameValue(v).value.text)
    ensures CleanNameValue(CleanNameValue(v)) == CleanNameValue(v)
  {
    if v.Some? && v.value.Name? {
      CleanNameShape(v.value.text);
      CleanNameIdempotent(v.value.text);
    }
  }

  // ----- convert_columns_to_datetime -----

  /** `pd.to_datetime(..., errors='coerce')` on one cell, with the library's parser as the oracle `parse`: what it cannot parse, and None, become NaT (None). */
  function ToDatetime(parse: string -> Option<Timestamp>, m: Moment): Option<Timestamp> {
    match m
    case Text(None) => None
    case Text(Some(s)) => parse(s)
    case Stamp(t) => t
  }

  function ParseColumn(parse: string -> Option<Timestamp>, column: seq<Moment>): (parsed: seq<Option<Timestamp>>)
    ensures |parsed| == |column|
    ensures forall i :: 0 <= i < |column| ==> parsed[i] == ToDatetime(parse, column[i])
  {
    seq(|column|, i requires 0 <= i < |column| => ToDatetime(parse, column[i]))
  }

  predicate SameDtype(a: Timestamp, b: Timestamp) {
    (a.Naive? && b.Naive?) || (a.Aware? && b.Aware? && a.zone == b.zone)
  }

  /** A datetime column has one dtype: every value naive, or every value aware in one zone. */
  predicate UniformZones(parsed: seq<Option<Timestamp>>) {
    forall i, j :: 0 <= i < |parsed| && 0 <= j < |parsed| && parsed[i].Some? && parsed[j].Some? ==>
      SameDtype(parsed[i].value, parsed[j].value)
  }

  /** `column.dt.tz is None`. */
  predicate IsNaiveColumn(parsed: seq<Option<Timestamp>>) {
    forall i :: 0 <= i < |parsed| && parsed[i].Some? ==> parsed[i].value.Naive?
  }

  predicate IsAwareColumn(parsed: seq<Option<Timestamp>>) {
    forall i :: 0 <= i < |parsed| && parsed[i].Some? ==> parsed[i].value.Aware?
  }

  lemma UniformNotNaive(parsed: seq<Option<Timestamp>>)
    requires UniformZones(parsed) && !IsNaiveColumn(parsed)
    ensures IsAwareColumn(parsed)
  {
  }

  /** `.dt.tz_localize('UTC')`: the wall-clock reading becomes a UTC instant. */
  function LocalizeUtc(parsed: seq<Option<Timestamp>>): seq<Option<Timestamp>>
    requires IsNaiveColumn(parsed)
  {
    seq(|parsed|, i requires 0 <= i < |parsed| =>
      if parsed[i].Some? then Some(Aware(parsed[i].value.wall, Utc)) else None)
  }

  /** `.dt.tz_convert('UTC')`: the instant is kept and shown in UTC. */
  function ConvertUtc(parsed: seq<Option<Timestamp>>): seq<Option<Timestamp>>
    requires IsAwareColumn(parsed)
  {
    seq(|parsed|, i requires 0 <= i < |parsed| =>
      if parsed[i].Some? then Some(Aware(parsed[i].value.instant, Utc)) else None)
  }

  /**
   * One column of `convert_columns_to_datetime`: parse, then localize a naive
   * column to UTC or convert an aware one to UTC.
   */
  function NormalizeColumn(parse: string -> Option<Timestamp>, column: seq<Moment>): (out: seq<Option<Timestamp>>)
    requires UniformZones(ParseColumn(parse, column))
    ensures |out| == |column|
    ensures forall i :: 0 <= i < |column| ==> (out[i].None? <==> ToDatetime(parse, column[i]).None?)
    ensures forall i :: 0 <= i < |column| && out[i].Some? ==> out[i].value.Aware? && out[i].value.zone == Utc
    ensures IsNaiveColumn(ParseColumn(parse, column)) ==>
      forall i :: 0 <= i < |column| && out[i].Some? ==>
        WallClock(out[i].value) == WallClock(ToDatetime(parse, column[i]).value)
    ensures !IsNaiveColumn(ParseColumn(parse, column)) ==>
      forall i :: 0 <= i < |column| && out[i].Some? ==>
        ToDatetime(parse, column[i]).value.Aware? && out[i].value.instant == ToDatetime(parse, column[i]).value.instant
  {
    var parsed := ParseColumn(parse, column);
    if IsNaiveColumn(parsed) then LocalizeUtc(parsed)
    else
      UniformNotNaive(parsed);
      ConvertUtc(parsed)
  }

  function RecordingTakenColumn(rows: seq<PlantRecord>): (column: seq<Moment>)
    ensures |column| == |rows|
    ensures forall i :: 0 <= i < |rows| ==> column[i] == rows[i].recordingTaken
  {
    seq(|rows|, i requires 0 <= i < |rows| => rows[i].recordingTaken)
  }

  function LastWateredColumn(rows: seq<PlantRecord>): (column: seq<Moment>)
    ensures |column| == |rows|
    ensures forall i :: 0 <= i < |rows| ==> column[i] == rows[i].lastWatered
  {
    seq(|rows|, i requires 0 <= i < |rows| => rows[i].lastWatered)
  }

  /** `dataframe['recording_taken'] = column`. */
  function WithRecordingTaken(rows: seq<PlantRecord>, column: seq<Option<Timestamp>>): (r: seq<PlantRecord>)
    requires |column| == |rows|
    ensures |r| == |rows|
    ensures forall i :: 0 <= i < |rows| ==> r[i] == rows[i].(recordingTaken := Stamp(column[i]))
  {
    seq(|rows|, i requires 0 <= i < |rows| => rows[i].(recordingTaken := Stamp(column[i])))
  }

  /** `dataframe['last_watered'] = column`. */
  function WithLastWatered(rows: seq<PlantRecord>, column: seq<Option<Timestamp>>): (r: seq<PlantRecord>)
    requires |column| == |rows|
    ensures |r| == |rows|
    ensures forall i :: 0 <= i < |rows| ==> r[i] == rows[i].(lastWatered := Stamp(column[i]))
  {
    seq(|rows|, i requires 0 <= i < |rows| => rows[i].(lastWatered := Stamp(column[i])))
  }

  /** `dataframe["plant_name"] = dataframe['plant_name'].apply(clean_name)`. */
  function CleanPlantNamesOf(rows: seq<PlantRecord>): (r: seq<PlantRecord>)
    ensures |r| == |rows|
    ensures forall i :: 0 <= i < |rows| ==>
      r[i].plantName == CleanNameValue(rows[i].plantName) && r[i].(plantName := rows[i].plantName) == rows[i]
  {
    seq(|rows|, i requires 0 <= i < |rows| => rows[i].(plantName := CleanNameValue(rows[i].plantName)))
  }

  /** Cleaning the plant names of a table twice is cleaning them once. */
  lemma CleanPlantNamesIdempotent(rows: seq<PlantRecord>)
    ensures CleanPlantNamesOf(CleanPlantNamesOf(rows)) == CleanPlantNamesOf(rows)
  {
    var once := CleanPlantNamesOf(rows);
    forall i | 0 <= i < |rows| ensures CleanPlantNamesOf(once)[i] == once[i] {
      CleanNameValueSpec(rows[i].plantName);
    }
  }

  /** The DataFrame the transform functions overwrite columns of. */
  class PlantFrame {
    var rows: seq<PlantRecord>

    constructor (rows: seq<PlantRecord>)
      ensures this.rows == rows
    {
      this.rows := rows;
    }

    /**
     * `convert_columns_to_datetime`: each of the two columns is normalised on
     * its own; afterwards every timestamp cell is NaT or a UTC instant, and
     * every other column is as it was.
     */
    method ConvertColumnsToDatetime(parse: string -> Option<Timestamp>)
      requires UniformZones(ParseColumn(parse, RecordingTakenColumn(rows)))
      requires UniformZones(ParseColumn(parse, LastWateredColumn(rows)))
      modifies this
      ensures |rows| == |old(rows)|
      ensures forall i :: 0 <= i < |rows| ==>
        rows[i] == old(rows[i]).(recordingTaken := Stamp(NormalizeColumn(parse, RecordingTakenColumn(old(rows)))[i]),
                                 lastWatered := Stamp(NormalizeColumn(parse, LastWateredColumn(old(rows)))[i]))
      ensures forall i :: 0 <= i < |rows| ==> IsUtcCell(rows[i].recordingTaken) && IsUtcCell(rows[i].lastWatered)
    {
      var recordingTaken := NormalizeColumn(parse, RecordingTakenColumn(rows));
      rows := WithRecordingTaken(rows, recordingTaken);
      assert LastWateredColumn(rows) == LastWateredColumn(old(rows));
      var lastWatered := NormalizeColumn(parse, LastWateredColumn(rows));
      rows := WithLastWatered(rows, lastWatered);
    }

    /** `clean_plant_names`: every `plant_name` cell is passed through `clean_name`; nothing else changes. */
    method CleanPlantNames()
      modifies this
      ensures rows == CleanPlantNamesOf(old(rows))
    {
      rows := CleanPlantNamesOf(rows);
    }
  }

  /** A converted timestamp cell: NaT, or an aware value in UTC; never naive. */
  predicate IsUtcCell(m: Moment) {
    m.Stamp? && (m.time.Some? ==> m.time.value.Aware? && m.time.value.zone == Utc)
  }
}
