/**
 * extract.py, the older extractor: the scientific name has its own field
 * (the first list entry), `plant_name` is the `name` key with no fallback,
 * there is no `plant_id`, and the per-id fetches run on a worker pool
 * whose `map` keeps id order.
 */
module LegacyExtract {
  import opened Wrappers
  import opened Api
  import opened Timestamps
  import Extract

  /** One row: the eleven keys of the older `extract_plant_data`, with no `plant_id`. */
  datatype LegacyRecord = LegacyRecord(
    botanistFirstName: Option<string>,
    botanistLastName: Option<string>,
    botanistEmail: Option<string>,
    botanistPhoneNumber: Option<string>,
    plantName: Option<string>,
    plantScientificName: Option<string>,
    recordingTaken: Option<string>,
    lastWatered: Option<string>,
    soilMoisture: Option<Float>,
    temperature: Option<Float>,
    countryCode: Option<string>)

  /**
   * The replies the older `extract_plant_data` handles without raising: those
   * of the newer one, and `response.get("scientific_name", [None])[0]` must not
   * raise, as it does on null (TypeError) and on an empty list (IndexError).
   */
  predicate Extractable(r: Response) {
    Extract.Extractable(r) && !r.scientificName.Null?
    && (r.scientificName.Present? ==> |r.scientificName.value| > 0)
  }

  /** `response.get("scientific_name", [None])[0]`. */
  function ScientificNameOf(r: Response): (s: Option<string>)
    requires Extractable(r)
    ensures s.None? <==> r.scientificName.Absent?
    ensures s.Some? ==> s.value == r.scientificName.value[0]
  {
    if r.scientificName.Present? then Some(r.scientificName.value[0]) else None
  }

  /** The older `extract_plant_data`. */
  function ExtractPlantData(r: Response): (rec: LegacyRecord)
    requires Extractable(r)
  {
    LegacyRecord(
      BotanistFirstName(r),
      BotanistLastName(r),
      BotanistEmail(r),
      BotanistPhone(r),
      r.name,
      ScientificNameOf(r),
      r.recordingTaken,
      r.lastWatered,
      r.soilMoisture,
      r.temperature,
      CountryCode(r))
  }

  /**
   * The two extractors agree on every field they share except the plant name:
   * the older one copies `name` as it is (an empty string stays), the newer one
   * falls back to the scientific-name list; they agree when `name` is a
   * non-empty string.
   */
  lemma AgreesWithPipeline(r: Response)
    requires Extractable(r)
    ensures var older, newer := ExtractPlantData(r), Extract.ExtractPlantData(r);
      && older.botanistFirstName == newer.botanistFirstName
      && older.botanistLastName == newer.botanistLastName
      && older.botanistEmail == newer.botanistEmail
      && older.botanistPhoneNumber == newer.botanistPhoneNumber
      && Text(older.recordingTaken) == newer.recordingTaken
      && Text(older.lastWatered) == newer.lastWatered
      && older.soilMoisture == newer.soilMoisture
      && older.temperature == newer.temperature
      && older.countryCode == newer.countryCode
      && older.plantName == r.name
      && (r.name.Some? && r.name.value != "" ==> newer.plantName == Some(Extract.Name(r.name.value)))
      && (r.name.Some? && r.name.value == "" && r.scientificName.Present? ==>
            older.plantName == Some("") && newer.plantName == Some(Extract.ScientificNames(r.scientificName.value)))
  {
  }

  /** A response without `botanist` gives four None botanist fields; the scientific name is the first list entry. */
  lemma ExtractFields(r: Response)
    requires Extractable(r)
    ensures var rec := ExtractPlantData(r);
      && (r.botanist.Absent? ==>
            rec.botanistFirstName.None? && rec.botanistLastName.None?
            && rec.botanistEmail.None? && rec.botanistPhoneNumber.None?)
      && (r.scientificName.Present? ==> rec.plantScientificName == Some(r.scientificName.value[0]))
      && (r.scientificName.Absent? ==> rec.plantScientificName.None?)
      && rec.plantName == r.name
  {
    if r.botanist.Absent? {
      MissingBotanist(r);
    }
  }

  predicate Fetchable(plantId: nat, fetch: nat -> Reply) {
    var response := GetPlantData(plantId, fetch(plantId));
    HasError(response) || Extractable(response)
  }

  /** The older `fetch_and_extract_plant_data`. */
  function FetchAndExtractPlantData(plantId: nat, fetch: nat -> Reply): (rec: Option<LegacyRecord>)
    requires Fetchable(plantId, fetch)
    ensures rec.None? <==> HasError(GetPlantData(plantId, fetch(plantId)))
    ensures fetch(plantId).status != 200 ==> rec.None?
  {
    var response := GetPlantData(plantId, fetch(plantId));
    if HasError(response) then None else Some(ExtractPlantData(response))
  }

  predicate AllFetchable(fetch: nat -> Reply) {
    forall plantId: nat :: plantId <= TOTAL_NUMBER_OF_PLANTS ==> Fetchable(plantId, fetch)
  }

  /** `pool.map(fetch_and_extract_plant_data, range(TOTAL_NUMBER_OF_PLANTS + 1))`: the outcomes in id order. */
  function Results(fetch: nat -> Reply): (results: seq<Option<LegacyRecord>>)
    requires AllFetchable(fetch)
    ensures |results| == TOTAL_NUMBER_OF_PLANTS + 1
    ensures forall plantId :: 0 <= plantId < |results| ==> results[plantId] == FetchAndExtractPlantData(plantId, fetch)
  {
    seq(TOTAL_NUMBER_OF_PLANTS + 1, plantId requires 0 <= plantId <= TOTAL_NUMBER_OF_PLANTS =>
      FetchAndExtractPlantData(plantId, fetch))
  }

  /** The older `load_into_dataframe`: map over all ids, then append every result that is a record, in order. */
  method LoadIntoDataframe(fetch: nat -> Reply) returns (frame: seq<LegacyRecord>)
    requires AllFetchable(fetch)
    ensures frame == Somes(Results(fetch))
  {
    var results := Results(fetch);
    frame := [];
    for i := 0 to |results|
      invariant frame == Somes(results[..i])
    {
      var plantData := results[i];
      assert results[..i + 1] == results[..i] + [plantData];
      SomesSnoc(results[..i], plantData);
      if plantData.Some? {
        frame := frame + [plantData.value];
      }
    }
    assert results[..|results|] == results;
  }

  /**
   * The table has one row per id whose response is not an error, in id order,
   * and no other row.
   */
  lemma CollectedRows(fetch: nat -> Reply)
    requires AllFetchable(fetch)
    ensures var rows, ids := Somes(Results(fetch)), SomeIndices(Results(fetch));
      && |rows| <= TOTAL_NUMBER_OF_PLANTS + 1
      && |ids| == |rows|
      && (forall k :: 0 <= k < |ids| ==>
            ids[k] <= TOTAL_NUMBER_OF_PLANTS && Fetchable(ids[k], fetch)
            && !HasError(GetPlantData(ids[k], fetch(ids[k])))
            && rows[k] == ExtractPlantData(GetPlantData(ids[k], fetch(ids[k]))))
      && (forall k, l :: 0 <= k < l < |ids| ==> ids[k] < ids[l])
      && (forall plantId: nat :: plantId <= TOTAL_NUMBER_OF_PLANTS && !HasError(GetPlantData(plantId, fetch(plantId))) ==>
            plantId in ids)
  {
    var results := Results(fetch);
    SomesSpec(results);
    forall plantId: nat | plantId <= TOTAL_NUMBER_OF_PLANTS && !HasError(GetPlantData(plantId, fetch(plantId)))
      ensures plantId in SomeIndices(results)
    {
      assert results[plantId].Some?;
    }
  }
}
