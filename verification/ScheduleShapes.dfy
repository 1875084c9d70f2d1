/** The JSON of a schedule list, member by member: the names of members and of enumeration values and
    the limits are written out, apart from the converters.
 */
module ScheduleShapes {
  import opened CJson
  import opened Schedules
  import opened Wrappers

  // ---------- Shapes ----------

  predicate HasMembers(json: Json, names: set<string>) {
    json.JObject? && json.members.Keys == names
  }

  predicate HasNumber(json: Json, name: string, n: int) {
    json.JObject? && name in json.members && json.members[name] == JNumber(n as real)
  }

  /** A member that is there exactly if there is a value for it. */
  predicate HasOptional(json: Json, name: string, n: Option<int>) {
    json.JObject? && if n.Some? then HasNumber(json, name, n.value) else name !in json.members
  }

  /** A string is short and, if it holds NUL, given as raw text. */
  predicate HasOptionalText(json: Json, name: string, text: Option<string>) {
    json.JObject? &&
    if text.None? then name !in json.members
    else name in json.members && |text.value| < 66
         && json.members[name] == if '\0' in text.value then JRaw(text.value) else JString(text.value)
  }

  function UnitName(unit: int): Option<string> {
    match unit
    case 0 => Some("h") case 1 => Some("m") case 2 => Some("s") case 3 => Some("A")
    case 4 => Some("V") case 5 => Some("W") case 6 => Some("Wh") case _ => None
  }

  function CostKindName(kind: int): Option<string> {
    match kind
    case 0 => Some("relativePricePercentage") case 1 => Some("RenewableGenerationPercentage")
    case 2 => Some("CarbonDioxideEmission") case _ => None
  }

  predicate IsPhysicalValue(json: Json, pv: PhysicalValue) {
    && HasMembers(json, {"Multiplier", "Unit", "Value"})
    && HasNumber(json, "Multiplier", pv.multiplier) && HasNumber(json, "Value", pv.value)
    && UnitName(pv.unit).Some? && json.members["Unit"] == JString(UnitName(pv.unit).value)
  }

  predicate IsInterval(json: Json, interval: Option<Interval>) {
    && interval.Some? && json.JObject? && json.members.Keys <= {"start", "duration"}
    && HasNumber(json, "start", interval.value.start) && HasOptional(json, "duration", interval.value.duration)
  }

  predicate IsCost(json: Json, cost: Cost) {
    && json.JObject? && json.members.Keys <= {"costKind", "amount", "amountMultiplier"}
    && CostKindName(cost.costKind).Some?
    && "costKind" in json.members && json.members["costKind"] == JString(CostKindName(cost.costKind).value)
    && HasNumber(json, "amount", cost.amount) && HasOptional(json, "amountMultiplier", cost.amountMultiplier)
  }

  predicate AreCosts(json: Json, costs: seq<Cost>) {
    && json.JArray? && |json.items| == |costs|
    && forall i :: 0 <= i < |costs| ==> IsCost(json.items[i], costs[i])
  }

  predicate IsConsumptionCost(json: Json, consumption: ConsumptionCost) {
    && HasMembers(json, {"startValue", "Cost"})
    && IsPhysicalValue(json.members["startValue"], consumption.startValue)
    && AreCosts(json.members["Cost"], consumption.costs)
  }

  predicate AreConsumptionCosts(json: Json, costs: seq<ConsumptionCost>) {
    && json.JArray? && |json.items| == |costs|
    && forall i :: 0 <= i < |costs| ==> IsConsumptionCost(json.items[i], costs[i])
  }

  /** No consumption costs are given by no member. */
  predicate IsTariffEntry(json: Json, entry: TariffEntry) {
    && json.JObject? && json.members.Keys <= {"RelativeTimeInterval", "EPriceLevel", "ConsumptionCost"}
    && "RelativeTimeInterval" in json.members && IsInterval(json.members["RelativeTimeInterval"], entry.interval)
    && HasOptional(json, "EPriceLevel", entry.ePriceLevel)
    && ("ConsumptionCost" in json.members <==> entry.consumptionCosts != [])
    && (entry.consumptionCosts != [] ==> AreConsumptionCosts(json.members["ConsumptionCost"], entry.consumptionCosts))
  }

  predicate AreTariffEntries(json: Json, entries: seq<TariffEntry>) {
    && json.JArray? && |json.items| == |entries|
    && forall i :: 0 <= i < |entries| ==> IsTariffEntry(json.items[i], entries[i])
  }

  predicate IsSalesTariff(json: Json, tariff: SalesTariff) {
    && json.JObject?
    && json.members.Keys <= {"Id", "SalesTariffID", "SalesTariffDescription", "NumEPriceLevels", "SalesTariffEntry"}
    && HasOptionalText(json, "Id", tariff.id) && HasNumber(json, "SalesTariffID", tariff.salesTariffID)
    && HasOptionalText(json, "SalesTariffDescription", tariff.description)
    && HasOptional(json, "NumEPriceLevels", tariff.numEPriceLevels)
    && "SalesTariffEntry" in json.members && AreTariffEntries(json.members["SalesTariffEntry"], tariff.entries)
  }

  predicate IsPMaxEntry(json: Json, entry: PMaxEntry) {
    && HasMembers(json, {"RelativeTimeInterval", "PMax"})
    && IsInterval(json.members["RelativeTimeInterval"], entry.interval) && IsPhysicalValue(json.members["PMax"], entry.pMax)
  }

  predicate ArePMaxEntries(json: Json, entries: seq<PMaxEntry>) {
    && json.JArray? && |json.items| == |entries|
    && forall i :: 0 <= i < |entries| ==> IsPMaxEntry(json.items[i], entries[i])
  }

  predicate IsTuple(json: Json, tuple: ScheduleTuple) {
    && json.JObject? && json.members.Keys <= {"SAScheduleTupleID", "PMaxSchedule", "SalesTariff"}
    && HasNumber(json, "SAScheduleTupleID", tuple.id)
    && "PMaxSchedule" in json.members && HasMembers(json.members["PMaxSchedule"], {"PMaxScheduleEntry"})
    && ArePMaxEntries(json.members["PMaxSchedule"].members["PMaxScheduleEntry"], tuple.pMaxEntries)
    && ("SalesTariff" in json.members <==> tuple.tariff.Some?)
    && (tuple.tariff.Some? ==> IsSalesTariff(json.members["SalesTariff"], tuple.tariff.value))
  }

  predicate AreTuples(json: Json, tuples: seq<ScheduleTuple>) {
    && json.JArray? && |json.items| == |tuples|
    && forall i :: 0 <= i < |tuples| ==> IsTuple(json.items[i], tuples[i])
  }

  predicate IsScheduleList(json: Json, list: ScheduleList) {
    && HasMembers(json, {"SAScheduleList"}) && HasMembers(json.members["SAScheduleList"], {"SAScheduleTuple"})
    && AreTuples(json.members["SAScheduleList"].members["SAScheduleTuple"], list.tuples)
  }

  // ---------- What is written has the shape ----------

  lemma {:induction false} WriteAllEntries<T>(xs: seq<T>, write: T -> Result<Json>)
    requires WriteAll(xs, write).Ok?
    ensures |WriteAll(xs, write).value| == |xs|
    ensures forall i :: 0 <= i < |xs| ==> write(xs[i]) == Ok(WriteAll(xs, write).value[i])
  {
    if xs != [] {
      WriteAllEntries(xs[1..], write);
    }
  }

  lemma {:induction false} EnumIsNamed(table: seq<(int, string)>, value: int)
    ensures EnumToName(table, value).Ok? ==>
              exists i :: 0 <= i < |table| && table[i] == (value, EnumToName(table, value).value)
  {
    if table != [] && table[0].0 != value {
      EnumIsNamed(table[1..], value);
      if EnumToName(table, value).Ok? {
        var i :| 0 <= i < |table[1..]| && table[1..][i] == (value, EnumToName(table[1..], value).value);
        assert table[i + 1] == table[1..][i];
      }
    }
  }

  lemma {:induction false} UnitIsNamed(unit: int)
    ensures EnumToName(UNIT_SYMBOLS, unit).Ok? <==> UnitName(unit).Some?
    ensures UnitName(unit).Some? ==> EnumToName(UNIT_SYMBOLS, unit) == Ok(UnitName(unit).value)
  {
    EnumIsNamed(UNIT_SYMBOLS, unit);
    UnitSurvives(unit);
    assert UNIT_SYMBOLS[0].0 == 0 && UNIT_SYMBOLS[1].0 == 1 && UNIT_SYMBOLS[2].0 == 2 && UNIT_SYMBOLS[3].0 == 3;
    assert UNIT_SYMBOLS[4].0 == 4 && UNIT_SYMBOLS[5].0 == 5 && UNIT_SYMBOLS[6].0 == 6;
  }

  lemma {:induction false} CostKindIsNamed(kind: int)
    ensures EnumToName(COST_KINDS, kind).Ok? <==> CostKindName(kind).Some?
    ensures CostKindName(kind).Some? ==> EnumToName(COST_KINDS, kind) == Ok(CostKindName(kind).value)
  {
    EnumIsNamed(COST_KINDS, kind);
    CostKindSurvives(kind);
    assert COST_KINDS[0].0 == 0 && COST_KINDS[1].0 == 1 && COST_KINDS[2].0 == 2;
  }

  lemma PhysicalValueShape(pv: PhysicalValue)
    ensures AddPhysicalValue(pv).Ok? ==> IsPhysicalValue(AddPhysicalValue(pv).value, pv)
  {
    UnitIsNamed(pv.unit);
    assert |"Multiplier"| == 10 && |"Unit"| == 4 && |"Value"| == 5;
  }

  lemma IntervalShape(interval: Option<Interval>)
    ensures AddInterval(interval).Ok? ==> IsInterval(AddInterval(interval).value, interval)
  {
    assert |"start"| == 5 && |"duration"| == 8;
  }

  lemma CostShape(cost: Cost)
    ensures AddCost(cost).Ok? ==> IsCost(AddCost(cost).value, cost)
  {
    CostKindIsNamed(cost.costKind);
    assert |"costKind"| == 8 && |"amount"| == 6 && |"amountMultiplier"| == 16;
  }

  lemma {:induction false} CostsShape(costs: seq<Cost>)
    requires WriteAll(costs, AddCost).Ok?
    ensures AreCosts(JArray(WriteAll(costs, AddCost).value), costs)
  {
    WriteAllEntries(costs, AddCost);
    forall i | 0 <= i < |costs|
      ensures IsCost(WriteAll(costs, AddCost).value[i], costs[i])
    {
      CostShape(costs[i]);
    }
  }

  lemma ConsumptionCostShape(consumption: ConsumptionCost)
    ensures AddConsumptionCost(consumption).Ok? ==> IsConsumptionCost(AddConsumptionCost(consumption).value, consumption)
  {
    if AddConsumptionCost(consumption).Ok? {
      PhysicalValueShape(consumption.startValue);
      CostsShape(consumption.costs);
      assert |"startValue"| == 10 && |"Cost"| == 4;
    }
  }

  lemma {:induction false} ConsumptionCostsShape(costs: seq<ConsumptionCost>)
    requires WriteAll(costs, AddConsumptionCost).Ok?
    ensures AreConsumptionCosts(JArray(WriteAll(costs, AddConsumptionCost).value), costs)
  {
    WriteAllEntries(costs, AddConsumptionCost);
    forall i | 0 <= i < |costs|
      ensures IsConsumptionCost(WriteAll(costs, AddConsumptionCost).value[i], costs[i])
    {
      ConsumptionCostShape(costs[i]);
    }
  }

  lemma TariffEntryShape(entry: TariffEntry)
    ensures AddTariffEntry(entry).Ok? ==> IsTariffEntry(AddTariffEntry(entry).value, entry)
  {
    if AddTariffEntry(entry).Ok? {
      IntervalShape(entry.interval);
      ConsumptionCostsShape(entry.consumptionCosts);
      assert |"RelativeTimeInterval"| == 20 && |"EPriceLevel"| == 11 && |"ConsumptionCost"| == 15;
    }
  }

  lemma {:induction false} TariffEntriesShape(entries: seq<TariffEntry>)
    requires WriteAll(entries, AddTariffEntry).Ok?
    ensures AreTariffEntries(JArray(WriteAll(entries, AddTariffEntry).value), entries)
  {
    WriteAllEntries(entries, AddTariffEntry);
    forall i | 0 <= i < |entries|
      ensures IsTariffEntry(WriteAll(entries, AddTariffEntry).value[i], entries[i])
    {
      TariffEntryShape(entries[i]);
    }
  }

  lemma SalesTariffShape(tariff: SalesTariff)
    ensures AddSalesTariff(tariff).Ok? ==> IsSalesTariff(AddSalesTariff(tariff).value, tariff)
  {
    if AddSalesTariff(tariff).Ok? {
      var items := WriteAll(tariff.entries, AddTariffEntry).value;
      TariffEntriesShape(tariff.entries);
      TariffMembers(AddOptionalString(tariff.id).value, AddOptionalString(tariff.description).value,
                    OptionalNumber(tariff.numEPriceLevels), Number(tariff.salesTariffID), JArray(items));
    }
  }

  /** What is in the object of a tariff. */
  lemma TariffMembers(id: Option<Json>, description: Option<Json>, levels: Option<Json>, salesTariffID: Json, entries: Json)
    ensures var members := map["SalesTariffID" := salesTariffID, "SalesTariffEntry" := entries]
                           + Member("Id", id) + Member("SalesTariffDescription", description) + Member("NumEPriceLevels", levels);
            && members.Keys <= {"Id", "SalesTariffID", "SalesTariffDescription", "NumEPriceLevels", "SalesTariffEntry"}
            && "SalesTariffID" in members && members["SalesTariffID"] == salesTariffID
            && "SalesTariffEntry" in members && members["SalesTariffEntry"] == entries
            && ("Id" in members <==> id.Some?) && (id.Some? ==> members["Id"] == id.value)
            && ("SalesTariffDescription" in members <==> description.Some?)
            && (description.Some? ==> members["SalesTariffDescription"] == description.value)
            && ("NumEPriceLevels" in members <==> levels.Some?) && (levels.Some? ==> members["NumEPriceLevels"] == levels.value)
  {
    assert |"Id"| == 2 && |"SalesTariffDescription"| == 22 && |"NumEPriceLevels"| == 15;
    assert |"SalesTariffID"| == 13 && |"SalesTariffEntry"| == 16;
  }

  lemma PMaxEntryShape(entry: PMaxEntry)
    ensures AddPMaxEntry(entry).Ok? ==> IsPMaxEntry(AddPMaxEntry(entry).value, entry)
  {
    if AddPMaxEntry(entry).Ok? {
      IntervalShape(entry.interval);
      PhysicalValueShape(entry.pMax);
      assert |"RelativeTimeInterval"| == 20 && |"PMax"| == 4;
    }
  }

  lemma {:induction false} PMaxEntriesShape(entries: seq<PMaxEntry>)
    requires WriteAll(entries, AddPMaxEntry).Ok?
    ensures ArePMaxEntries(JArray(WriteAll(entries, AddPMaxEntry).value), entries)
  {
    WriteAllEntries(entries, AddPMaxEntry);
    forall i | 0 <= i < |entries|
      ensures IsPMaxEntry(WriteAll(entries, AddPMaxEntry).value[i], entries[i])
    {
      PMaxEntryShape(entries[i]);
    }
  }

  /** What is in the object of a tuple. */
  lemma TupleObject(id: Json, schedule: Json, tariff: Option<Json>)
    ensures var members := map["SAScheduleTupleID" := id, "PMaxSchedule" := schedule] + Member("SalesTariff", tariff);
            && members.Keys <= {"SAScheduleTupleID", "PMaxSchedule", "SalesTariff"}
            && "SAScheduleTupleID" in members && members["SAScheduleTupleID"] == id
            && "PMaxSchedule" in members && members["PMaxSchedule"] == schedule
            && ("SalesTariff" in members <==> tariff.Some?) && (tariff.Some? ==> members["SalesTariff"] == tariff.value)
  {
    assert |"SAScheduleTupleID"| == 17 && |"PMaxSchedule"| == 12 && |"SalesTariff"| == 11;
  }

  lemma TupleShape(tuple: ScheduleTuple)
    ensures AddTuple(tuple).Ok? ==> IsTuple(AddTuple(tuple).value, tuple)
  {
    if AddTuple(tuple).Ok? {
      var entries := JArray(WriteAll(tuple.pMaxEntries, AddPMaxEntry).value);
      PMaxEntriesShape(tuple.pMaxEntries);
      TupleObject(Number(tuple.id), JObject(map["PMaxScheduleEntry" := entries]), AddOptionalTariff(tuple.tariff).value);
      if tuple.tariff.Some? {
        SalesTariffShape(tuple.tariff.value);
      }
    }
  }

  lemma {:induction false} TuplesShape(tuples: seq<ScheduleTuple>)
    requires WriteAll(tuples, AddTuple).Ok?
    ensures AreTuples(JArray(WriteAll(tuples, AddTuple).value), tuples)
  {
    WriteAllEntries(tuples, AddTuple);
    forall i | 0 <= i < |tuples|
      ensures IsTuple(WriteAll(tuples, AddTuple).value[i], tuples[i])
    {
      TupleShape(tuples[i]);
    }
  }

  /** A schedule list that is written has the members of ISO 15118-2 on all levels, with its values. */
  lemma ScheduleListShape(list: ScheduleList)
    ensures AddSaScheduleList(list).Ok? ==> IsScheduleList(AddSaScheduleList(list).value, list)
  {
    if AddSaScheduleList(list).Ok? {
      TuplesShape(list.tuples);
    }
  }

  // ---------- Limits ----------

  /** The limits of the scalars. */
  lemma ScalarLimits(pv: PhysicalValue, interval: Option<Interval>, cost: Cost)
    ensures ValidPhysicalValue(pv) <==> -3 <= pv.multiplier <= 4 && 0 <= pv.unit <= 6 && -32768 <= pv.value <= 32767
    ensures ValidInterval(interval) <==>
            && interval.Some? && 0 <= interval.value.start <= 4294967295
            && (interval.value.duration.Some? ==> 0 <= interval.value.duration.value <= 4294967295)
    ensures ValidCost(cost) <==>
            && 0 <= cost.costKind <= 2 && 0 <= cost.amount <= 4294967295
            && (cost.amountMultiplier.Some? ==> -3 <= cost.amountMultiplier.value <= 4)
  {
    UnitIsNamed(pv.unit);
    UnitSurvives(pv.unit);
    CostKindIsNamed(cost.costKind);
    CostKindSurvives(cost.costKind);
  }

  /** The limits of the lists, of the identifiers and of the strings. */
  lemma ListLimits(consumption: ConsumptionCost, entry: TariffEntry, tariff: SalesTariff, tuple: ScheduleTuple, list: ScheduleList)
    ensures ValidConsumptionCost(consumption) <==>
            && ValidPhysicalValue(consumption.startValue) && 1 <= |consumption.costs| <= 3
            && forall c :: c in consumption.costs ==> ValidCost(c)
    ensures ValidTariffEntry(entry) <==>
            && ValidInterval(entry.interval) && (entry.ePriceLevel.Some? ==> 0 <= entry.ePriceLevel.value <= 255)
            && |entry.consumptionCosts| <= 3 && forall c :: c in entry.consumptionCosts ==> ValidConsumptionCost(c)
    ensures ValidSalesTariff(tariff) <==>
            && (tariff.id.Some? ==> |tariff.id.value| <= 64 && '\0' !in tariff.id.value)
            && 0 <= tariff.salesTariffID <= 255
            && (tariff.description.Some? ==> |tariff.description.value| <= 32 && '\0' !in tariff.description.value)
            && (tariff.numEPriceLevels.Some? ==> 0 <= tariff.numEPriceLevels.value <= 255)
            && 1 <= |tariff.entries| <= 12 && forall e :: e in tariff.entries ==> ValidTariffEntry(e)
    ensures ValidTuple(tuple) <==>
            && 0 <= tuple.id <= 255 && 1 <= |tuple.pMaxEntries| <= 12
            && (forall e :: e in tuple.pMaxEntries ==> ValidInterval(e.interval) && ValidPhysicalValue(e.pMax))
            && (tuple.tariff.Some? ==> ValidSalesTariff(tuple.tariff.value))
    ensures ValidScheduleList(list) <==> 1 <= |list.tuples| <= 3 && forall t :: t in list.tuples ==> ValidTuple(t)
  {
  }

  /** A member that is null counts as missing. */
  lemma NullIsMissing(members: map<string, Json>, name: string, min: int, max: int)
    ensures ReadOptionalInteger(JObject(members[name := JNull]), name, min, max) == Ok(None)
    ensures ReadInteger(JObject(members[name := JNull]), name, min, max).Err?
  {
  }
}
