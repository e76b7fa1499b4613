/**
 * pipeline/extract.py: one API response becomes one flat `PlantRecord`;
 * the collector fetches ids 0..TOTAL_NUMBER_OF_PLANTS in order and keeps
 * the records of the responses that are not errors.
 */
module Extract {
  import opened Wrappers
  import opened PyText
  import opened Api
  import opened Timestamps

  /** What `plant_name` can hold: the display name, or the whole `scientific_name` list it falls back to. */
  datatype PlantName = Name(text: string) | ScientificNames(names: seq<string>)

  /** One row of the plant table: the eleven columns of `initialise_dataframe`, in its order. */
  datatype PlantRecord = PlantRecord(
    botanistFirstName: Option<string>,
    botanistLastName: Option<string>,
    botanistEmail: Option<string>,
    botanistPhoneNumber: Option<string>,
    plantName: Option<PlantName>,
    recordingTaken: Moment,
    lastWatered: Moment,
    soilMoisture: Option<Float>,
    temperature: Option<Float>,
    countryCode: Option<string>,
    plantId: Option<int>)

  /** `response.get("name") or response.get("scientific_name") or None`, with Python truthiness. */
  function PlantNameOf(r: Response): (p: Option<PlantName>)
    ensures p.Some? && p.value.Name? <==> r.name.Some? && r.name.value != ""
    ensures p.Some? && p.value.Name? ==> r.name == Some(p.value.text)
    ensures p.Some? && p.value.ScientificNames? <==>
      (r.name.None? || r.name.value == "") && r.scientificName.Present? && r.scientificName.value != []
    ensures p.Some? && p.value.ScientificNames? ==> r.scientificName == Present(p.value.names)
    ensures p.None? <==>
      (r.name.None? || r.name.value == "") && (!r.scientificName.Present? || r.scientificName.value == [])
  {
    if r.name.Some? && r.name.value != "" then Some(Name(r.name.value))
    else if r.scientificName.Present? && r.scientificName.value != [] then Some(ScientificNames(r.scientificName.value))
    else None
  }

  /** The replies `extract_plant_data` handles without raising: see `BotanistOk` and `OriginLocationOk`. */
  predicate Extractable(r: Response) {
    BotanistOk(r) && OriginLocationOk(r)
  }

  /** `extract_plant_data`. */
  function ExtractPlantData(r: Response): (rec: PlantRecord)
    requires Extractable(r)
  {
    PlantRecord(
      BotanistFirstName(r),
      BotanistLastName(r),
      BotanistEmail(r),
      BotanistPhone(r),
      PlantNameOf(r),
      Text(r.recordingTaken),
      Text(r.lastWatered),
      r.soilMoisture,
      r.temperature,
      CountryCode(r),
      r.plantId)
  }

  /**
   * Every field of the record is the response's value or None: the botanist
   * fields come from the nested object, the plant name by the fallback, the
   * country code is the fourth origin-location entry, the rest are copied.
   */
  lemma ExtractFields(r: Response)
    requires Extractable(r)
    ensures var rec := ExtractPlantData(r);
      && (r.botanist.Absent? ==>
            rec.botanistFirstName.None? && rec.botanistLastName.None?
            && rec.botanistEmail.None? && rec.botanistPhoneNumber.None?)
      && (r.botanist.Present? ==>
            rec.botanistEmail == r.botanist.value.email && rec.botanistPhoneNumber == r.botanist.value.phone)
      && (r.originLocation.Absent? <==> rec.countryCode.None?)
      && (r.originLocation.Present? ==> rec.countryCode == Some(r.originLocation.value[3]))
      && rec.recordingTaken == Text(r.recordingTaken) && rec.lastWatered == Text(r.lastWatered)
      && rec.soilMoisture == r.soilMoisture && rec.temperature == r.temperature
      && rec.plantId == r.plantId
      && rec.botanistFirstName == BotanistFirstName(r) && rec.botanistLastName == BotanistLastName(r)
      && rec.plantName == PlantNameOf(r)
  {
    if r.botanist.Absent? {
      MissingBotanist(r);
    }
  }

  /** The record of the test response with a full botanist, name, scientific name and origin. */
  lemma ExtractExample(moisture: Float, temperature: Float)
    ensures var r := Response(
      Absent, None, Some("Epipremnum Aureum"), Present(["Epipremnum aureum"]),
      Present(Botanist(Present("Carl Linnaeus"), Some("carl.linnaeus@lnhm.co.uk"), Some("(146)994-1635x35992"))),
      Some("2024-11-25 14:19:28"), Some("Mon, 25 Nov 2024 14:03:04 GMT"),
      Some(moisture), Some(temperature), Present(["-19.32556", "-41.25528", "Resplendor", "BR"]), None);
    ExtractPlantData(r) == PlantRecord(
      Some("Carl"), Some("Linnaeus"), Some("carl.linnaeus@lnhm.co.uk"), Some("(146)994-1635x35992"),
      Some(Name("Epipremnum Aureum")), Text(Some("2024-11-25 14:19:28")),
      Text(Some("Mon, 25 Nov 2024 14:03:04 GMT")), Some(moisture), Some(temperature), Some("BR"), None)
  {
    var r := Response(
      Absent, None, Some("Epipremnum Aureum"), Present(["Epipremnum aureum"]),
      Present(Botanist(Present("Carl Linnaeus"), Some("carl.linnaeus@lnhm.co.uk"), Some("(146)994-1635x35992"))),
      Some("2024-11-25 14:19:28"), Some("Mon, 25 Nov 2024 14:03:04 GMT"),
      Some(moisture), Some(temperature), Present(["-19.32556", "-41.25528", "Resplendor", "BR"]), None);
    var words := ["Carl", "Linnaeus"];
    assert Join(words) == "Carl Linnaeus";
    assert IsWord("Carl") && IsWord("Linnaeus");
    BotanistNameSplit(r, words);
  }

  /** What `fetch_and_extract_plant_data` needs of the response for `plantId`: an error object, or one it can extract without raising. */
  predicate Fetchable(plantId: nat, fetch: nat -> Reply) {
    var response := GetPlantData(plantId, fetch(plantId));
    HasError(response) || Extractable(response)
  }

  /** `fetch_and_extract_plant_data`, with the network as the oracle `fetch`. */
  function FetchAndExtractPlantData(plantId: nat, fetch: nat -> Reply): (rec: Option<PlantRecord>)
    requires Fetchable(plantId, fetch)
    ensures rec.None? <==> HasError(GetPlantData(plantId, fetch(plantId)))
  {
    var response := GetPlantData(plantId, fetch(plantId));
    if HasError(response) then None else Some(ExtractPlantData(response))
  }

  /**
   * A non-200 status never yields a record, nor does a 200 body whose `error`
   * key holds null; a 200 body with no `error` key yields the body's record.
   */
  lemma FetchOutcome(plantId: nat, fetch: nat -> Reply)
    requires Fetchable(plantId, fetch)
    ensures fetch(plantId).status != 200 ==> FetchAndExtractPlantData(plantId, fetch).None?
    ensures fetch(plantId).status == 200 && fetch(plantId).body.error.Null? ==>
      FetchAndExtractPlantData(plantId, fetch).None?
    ensures fetch(plantId).status == 200 && !HasError(fetch(plantId).body) ==>
      FetchAndExtractPlantData(plantId, fetch) == Some(ExtractPlantData(fetch(plantId).body))
  {
  }

  predicate AllFetchable(fetch: nat -> Reply) {
    forall plantId: nat :: plantId <= TOTAL_NUMBER_OF_PLANTS ==> Fetchable(plantId, fetch)
  }

  /** The per-id outcomes, indexed by id 0..TOTAL_NUMBER_OF_PLANTS. */
  function Results(fetch: nat -> Reply): (results: seq<Option<PlantRecord>>)
    requires AllFetchable(fetch)
    ensures |results| == TOTAL_NUMBER_OF_PLANTS + 1
    ensures forall plantId :: 0 <= plantId < |results| ==> results[plantId] == FetchAndExtractPlantData(plantId, fetch)
  {
    seq(TOTAL_NUMBER_OF_PLANTS + 1, plantId requires 0 <= plantId <= TOTAL_NUMBER_OF_PLANTS =>
      FetchAndExtractPlantData(plantId, fetch))
  }

  /** `initialise_dataframe`: the empty table; its columns are the fields of `PlantRecord`. */
  function InitialiseDataframe(): (frame: seq<PlantRecord>)
    ensures |frame| == 0
  {
    []
  }

  /** `load_into_dataframe` (the sequential version): fetch each id in turn and append the records that come back. */
  method LoadIntoDataframe(fetch: nat -> Reply) returns (frame: seq<PlantRecord>)
    requires AllFetchable(fetch)
    ensures frame == Somes(Results(fetch))
  {
    frame := InitialiseDataframe();
    ghost var results := Results(fetch);
    for plantId := 0 to TOTAL_NUMBER_OF_PLANTS + 1
      invariant frame == Somes(results[..plantId])
    {
      var plantData := FetchAndExtractPlantData(plantId, fetch);
      assert results[..plantId + 1] == results[..plantId] + [plantData];
      SomesSnoc(results[..plantId], plantData);
      if plantData.Some? {
        frame := frame + [plantData.value];
      }
    }
    assert results[..TOTAL_NUMBER_OF_PLANTS + 1] == results;
  }

  /**
   * The collected table: at most TOTAL_NUMBER_OF_PLANTS + 1 rows; row k is the
   * record of the k-th id (in ascending order) whose response is not an error,
   * and every such id has its row.
   */
  lemma CollectedRows(fetch: nat -> Reply)
    requires AllFetchable(fetch)
    ensures var rows, ids := Somes(Results(fetch)), SomeIndices(Results(fetch));
      && |rows| <= TOTAL_NUMBER_OF_PLANTS + 1
      && |ids| == |rows|
      && (forall k :: 0 <= k < |ids| ==>
            ids[k] <= TOTAL_NUMBER_OF_PLANTS && Fetchable(ids[k], fetch)
            && !HasError(GetPlantData(ids[k], fetch(ids[k])))
            && rows[k] == ExtractPlantData(GetPlantData(ids[k], fetch(ids[k]))))
      && (forall k, l :: 0 <= k < l < |ids| ==> ids[k] < ids[l])
      && (forall plantId: nat :: plantId <= TOTAL_NUMBER_OF_PLANTS && !HasError(GetPlantData(plantId, fetch(plantId))) ==>
            plantId in ids)
  {
    var results := Results(fetch);
    SomesSpec(results);
    forall plantId: nat | plantId <= TOTAL_NUMBER_OF_PLANTS && !HasError(GetPlantData(plantId, fetch(plantId)))
      ensures plantId in SomeIndices(results)
    {
      assert results[plantId].Some?;
    }
  }

  /** When only `plantId` answers 200 with a body and every other id fails, the table has exactly that one row. */
  lemma CollectedSingleSuccess(fetch: nat -> Reply, plantId: nat)
    requires plantId <= TOTAL_NUMBER_OF_PLANTS
    requires fetch(plantId).status == 200 && !HasError(fetch(plantId).body) && Extractable(fetch(plantId).body)
    requires forall other: nat :: other != plantId ==> fetch(other).status != 200
    ensures AllFetchable(fetch)
    ensures Somes(Results(fetch)) == [ExtractPlantData(fetch(plantId).body)]
  {
    var results := Results(fetch);
    forall other | 0 <= other < |results| && other != plantId ensures results[other].None? {
      assert fetch(other).status != 200;
    }
    SomesSingle(results, plantId);
  }
}
