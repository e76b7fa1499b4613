/**
 * What the plants API hands the extractor: one decoded JSON object per
 * plant id, or the error object `get_plant_data` builds for a non-200
 * status. Shared by both extractor variants (pipeline/extract.py and the
 * older extract.py), whose `get_plant_data` and botanist handling are the
 * same code.
 */
module Api {
  import opened Wrappers
  import opened PyText

  /** Ids 0..TOTAL_NUMBER_OF_PLANTS inclusive are fetched. */
  const TOTAL_NUMBER_OF_PLANTS: nat := 50

  /** A float the pipeline only carries, never computes with: its IEEE-754 bit pattern. */
  datatype Float = Float(bits: bv64)

  /**
   * A key of a JSON object where the source tells a missing key from JSON
   * null: `key in d`, or `d.get(key, default)` with a default that is not None.
   */
  datatype Field<+T> = Absent | Null | Present(value: T)

  /** The nested `botanist` object. `name` is read with the default `""`, so its null is kept apart. */
  datatype Botanist = Botanist(name: Field<string>, email: Option<string>, phone: Option<string>)

  /**
   * A decoded JSON object: the API's body, or the error object. Each field is
   * one key. An `Option` field is read only by `d.get(key)`, for which a
   * missing key and JSON null are both None; a `Field` is read by `in` or by
   * `.get` with a default, which tell them apart.
   */
  datatype Response = Response(
    error: Field<int>,
    message: Option<string>,
    name: Option<string>,
    scientificName: Field<seq<string>>,
    botanist: Field<Botanist>,
    recordingTaken: Option<string>,
    lastWatered: Option<string>,
    soilMoisture: Option<Float>,
    temperature: Option<Float>,
    originLocation: Field<seq<string>>,
    plantId: Option<int>)

  /** The answer of the network to `GET <URL><id>`: its status code and decoded body. */
  datatype Reply = Reply(status: int, body: Response)

  /** `"error" in response`: true for an `error` key holding null as well. */
  predicate HasError(r: Response) {
    !r.error.Absent?
  }

  /** `str(n)` for a natural number. */
  function Decimal(n: nat): (s: string)
    ensures |s| > 0
    ensures forall i :: 0 <= i < |s| ==> '0' <= s[i] <= '9'
    ensures n > 0 ==> s[0] != '0'
    ensures |s| > 1 ==> s[0] != '0'
  {
    var digit := ((n % 10) + '0' as int) as char;
    if n < 10 then [digit] else Decimal(n / 10) + [digit]
  }

  /** The number a string of decimal digits denotes. */
  function DigitsValue(s: string): nat
    requires forall i :: 0 <= i < |s| ==> '0' <= s[i] <= '9'
  {
    if s == [] then 0 else 10 * DigitsValue(s[..|s| - 1]) + (s[|s| - 1] as int - '0' as int)
  }

  /** The id in the error message reads back as the id that failed. */
  lemma {:induction false} DecimalValue(n: nat)
    ensures DigitsValue(Decimal(n)) == n
  {
    var s := Decimal(n);
    if n >= 10 {
      DecimalValue(n / 10);
      assert s[..|s| - 1] == Decimal(n / 10);
    }
  }

  function FailureMessage(plantId: nat): string {
    "Failed to retrieve data for plant ID " + Decimal(plantId) + "."
  }

  /**
   * `get_plant_data`: the body on status 200; otherwise an object holding only
   * `error` (the status code) and `message`.
   */
  function GetPlantData(plantId: nat, reply: Reply): (r: Response)
    ensures reply.status == 200 ==> r == reply.body
    ensures reply.status != 200 ==> HasError(r) && r.error == Present(reply.status)
    ensures reply.status != 200 ==> r.message == Some(FailureMessage(plantId))
    ensures reply.status != 200 ==>
      r.name.None? && r.scientificName.Absent? && r.botanist.Absent? && r.recordingTaken.None?
      && r.lastWatered.None? && r.soilMoisture.None? && r.temperature.None?
      && r.originLocation.Absent? && r.plantId.None?
  {
    if reply.status == 200 then reply.body
    else Response(Present(reply.status), Some(FailureMessage(plantId)),
                  None, Absent, Absent, None, None, None, None, Absent, None)
  }

  /**
   * `response.get("botanist", {})` and its `.get("name", "").split()` do not
   * raise: a null `botanist` has no `.get` (AttributeError), and a null name
   * has no `.split` (AttributeError).
   */
  predicate BotanistOk(r: Response) {
    !r.botanist.Null? && (r.botanist.Present? ==> !r.botanist.value.name.Null?)
  }

  /**
   * `response.get("origin_location", [None, None, None, None])[3]` does not
   * raise: a null value cannot be indexed (TypeError), and a list shorter
   * than four entries raises IndexError.
   */
  predicate OriginLocationOk(r: Response) {
    !r.originLocation.Null? && (r.originLocation.Present? ==> |r.originLocation.value| >= 4)
  }

  /** `response.get("botanist", {}).get("name", "").split()`. */
  function BotanistNameTokens(r: Response): seq<string>
    requires BotanistOk(r)
  {
    Split(BotanistName(r))
  }

  /** `response.get("botanist", {}).get("name", "")`: the default `""` for a missing botanist or a missing name. */
  function BotanistName(r: Response): string
    requires BotanistOk(r)
  {
    if r.botanist.Present? && r.botanist.value.name.Present? then r.botanist.value.name.value else ""
  }

  /** `botanist_name[0] if len(botanist_name) > 0 else None`. */
  function BotanistFirstName(r: Response): Option<string>
    requires BotanistOk(r)
  {
    var tokens := BotanistNameTokens(r);
    if |tokens| > 0 then Some(tokens[0]) else None
  }

  /** `botanist_name[1] if len(botanist_name) > 1 else None`. */
  function BotanistLastName(r: Response): Option<string>
    requires BotanistOk(r)
  {
    var tokens := BotanistNameTokens(r);
    if |tokens| > 1 then Some(tokens[1]) else None
  }

  /** `response.get("botanist", {}).get("email")`. */
  function BotanistEmail(r: Response): Option<string>
    requires BotanistOk(r)
  {
    if r.botanist.Present? then r.botanist.value.email else None
  }

  /** `response.get("botanist", {}).get("phone")`. */
  function BotanistPhone(r: Response): Option<string>
    requires BotanistOk(r)
  {
    if r.botanist.Present? then r.botanist.value.phone else None
  }

  /** `response.get("origin_location", [None, None, None, None])[3]`. */
  function CountryCode(r: Response): Option<string>
    requires OriginLocationOk(r)
  {
    if r.originLocation.Present? then Some(r.originLocation.value[3]) else None
  }

  /** Without a `botanist` key all four botanist fields are None. */
  lemma MissingBotanist(r: Response)
    requires r.botanist.Absent?
    ensures BotanistOk(r)
    ensures BotanistFirstName(r).None? && BotanistLastName(r).None?
    ensures BotanistEmail(r).None? && BotanistPhone(r).None?
  {
    assert Split("") == [];
  }

  /**
   * For a name made of whitespace-separated tokens `words`: the first token is
   * the first name, the second is the last name, further tokens are dropped,
   * and a missing position is None.
   */
  lemma BotanistNameSplit(r: Response, words: seq<string>)
    requires r.botanist.Present? && r.botanist.value.name == Present(Join(words))
    requires forall k :: 0 <= k < |words| ==> IsWord(words[k])
    ensures BotanistFirstName(r) == (if |words| > 0 then Some(words[0]) else None)
    ensures BotanistLastName(r) == (if |words| > 1 then Some(words[1]) else None)
  {
    SplitJoin(words);
  }

  /**
   * Any name made of whitespace, a token, at least one whitespace character,
   * a second token and a tail that is empty or starts with whitespace: the
   * tokens are the first and last names, however the blanks around them run.
   */
  lemma BotanistNameTokensOf(r: Response, lead: string, first: string, gap: string, last: string, tail: string)
    requires r.botanist.Present? && r.botanist.value.name == Present(lead + first + gap + last + tail)
    requires forall i :: 0 <= i < |lead| ==> IsSpace(lead[i])
    requires IsWord(first) && IsWord(last)
    requires |gap| > 0 && forall i :: 0 <= i < |gap| ==> IsSpace(gap[i])
    requires tail == [] || IsSpace(tail[0])
    ensures BotanistOk(r)
    ensures BotanistFirstName(r) == Some(first) && BotanistLastName(r) == Some(last)
  {
    var rest := gap + (last + tail);
    assert lead + first + gap + last + tail == lead + (first + rest);
    assert rest[0] == gap[0];
    SplitSpaces(lead, first + rest);
    SplitWordThen(first, rest);
    SplitSpaces(gap, last + tail);
    SplitWordThen(last, tail);
  }

  /** A name that is one token with blanks around it gives that token as the first name and no last name. */
  lemma BotanistNameSingleToken(r: Response, lead: string, first: string, tail: string)
    requires r.botanist.Present? && r.botanist.value.name == Present(lead + first + tail)
    requires forall i :: 0 <= i < |lead| ==> IsSpace(lead[i])
    requires IsWord(first)
    requires forall i :: 0 <= i < |tail| ==> IsSpace(tail[i])
    ensures BotanistOk(r)
    ensures BotanistFirstName(r) == Some(first) && BotanistLastName(r).None?
  {
    assert lead + first + tail == lead + (first + tail);
    SplitSpaces(lead, first + tail);
    SplitWordThen(first, tail);
    SplitSpaces(tail, "");
    assert tail + "" == tail;
  }

  /** There is no first name exactly when the name is absent or only whitespace; then there is no last name either. */
  lemma BotanistNameBlank(r: Response)
    requires BotanistOk(r)
    ensures BotanistFirstName(r).None? <==>
      forall i :: 0 <= i < |BotanistName(r)| ==> IsSpace(BotanistName(r)[i])
    ensures BotanistFirstName(r).None? ==> BotanistLastName(r).None?
  {
    SplitEmpty(BotanistName(r));
  }

  /** The names that come out are single whitespace-free tokens of the botanist's name. */
  lemma BotanistNamesAreTokens(r: Response)
    requires BotanistOk(r)
    ensures BotanistFirstName(r).Some? ==> IsWord(BotanistFirstName(r).value)
    ensures BotanistLastName(r).Some? ==> IsWord(BotanistLastName(r).value)
  {
  }
}
