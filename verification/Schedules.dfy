/** The converters between SAScheduleList structures and JSON: schedule tuples, their power
    schedules, and the sales tariffs with entries, consumption costs and costs.

    A structure survives the trip to JSON and back exactly when it is valid, and reading delivers
    valid structures only.
 */
module Schedules {
  import opened CJson
  import opened Slices
  import opened Wrappers

  // ---------- Structures ----------

  datatype PhysicalValue = PhysicalValue(multiplier: int, unit: int, value: int)
  datatype Interval = Interval(start: int, duration: Option<int>)
  datatype Cost = Cost(costKind: int, amount: int, amountMultiplier: Option<int>)
  datatype ConsumptionCost = ConsumptionCost(startValue: PhysicalValue, costs: seq<Cost>)
  datatype TariffEntry =
    TariffEntry(interval: Option<Interval>, ePriceLevel: Option<int>, consumptionCosts: seq<ConsumptionCost>)
  datatype SalesTariff =
    SalesTariff(id: Option<string>, salesTariffID: int, description: Option<string>, numEPriceLevels: Option<int>,
                entries: seq<TariffEntry>)
  datatype PMaxEntry = PMaxEntry(interval: Option<Interval>, pMax: PhysicalValue)
  datatype ScheduleTuple = ScheduleTuple(id: int, pMaxEntries: seq<PMaxEntry>, tariff: Option<SalesTariff>)
  datatype ScheduleList = ScheduleList(tuples: seq<ScheduleTuple>)

  const MULTIPLIER_MIN: int := -3
  const MULTIPLIER_MAX: int := 4
  const INT16_MIN: int := -0x8000
  const INT16_MAX: int := 0x7fff
  const UINT8_MAX: int := 0xff
  const UINT32_MAX: int := 0xffff_ffff
  const COST_ARRAY_SIZE: nat := 3
  const CONSUMPTION_COST_ARRAY_SIZE: nat := 3
  const TARIFF_ENTRY_ARRAY_SIZE: nat := 12
  const PMAX_ENTRY_ARRAY_SIZE: nat := 12
  const TUPLE_ARRAY_SIZE: nat := 3
  const ID_CHARACTER_SIZE: nat := 65
  const DESCRIPTION_CHARACTER_SIZE: nat := 33
  /** The stack buffer in which a string is terminated before it is handed to cJSON. */
  const STRING_BUFFER_SIZE: nat := 66

  const UNIT_SYMBOLS: seq<(int, string)> :=
    [(0, "h"), (1, "m"), (2, "s"), (3, "A"), (4, "V"), (5, "W"), (6, "Wh")]
  const COST_KINDS: seq<(int, string)> :=
    [(0, "relativePricePercentage"), (1, "RenewableGenerationPercentage"), (2, "CarbonDioxideEmission")]

  // ---------- Validity ----------

  predicate Within(n: int, min: int, max: int) {
    min <= n <= max
  }

  predicate OptionalWithin(n: Option<int>, min: int, max: int) {
    n.Some? ==> Within(n.value, min, max)
  }

  predicate Listed(table: seq<(int, string)>, value: int) {
    exists i :: 0 <= i < |table| && table[i].0 == value
  }

  predicate FitsString(s: string, capacity: nat) {
    |s| < capacity && '\0' !in s
  }

  predicate OptionalFits(s: Option<string>, capacity: nat) {
    s.Some? ==> FitsString(s.value, capacity)
  }

  predicate ValidPhysicalValue(pv: PhysicalValue) {
    && Within(pv.multiplier, MULTIPLIER_MIN, MULTIPLIER_MAX)
    && Listed(UNIT_SYMBOLS, pv.unit)
    && Within(pv.value, INT16_MIN, INT16_MAX)
  }

  predicate ValidInterval(interval: Option<Interval>) {
    && interval.Some?
    && Within(interval.value.start, 0, UINT32_MAX)
    && OptionalWithin(interval.value.duration, 0, UINT32_MAX)
  }

  predicate ValidCost(cost: Cost) {
    && Listed(COST_KINDS, cost.costKind)
    && Within(cost.amount, 0, UINT32_MAX)
    && OptionalWithin(cost.amountMultiplier, MULTIPLIER_MIN, MULTIPLIER_MAX)
  }

  predicate ValidConsumptionCost(consumption: ConsumptionCost) {
    && ValidPhysicalValue(consumption.startValue)
    && 1 <= |consumption.costs| <= COST_ARRAY_SIZE
    && forall cost :: cost in consumption.costs ==> ValidCost(cost)
  }

  predicate ValidTariffEntry(entry: TariffEntry) {
    && ValidInterval(entry.interval)
    && OptionalWithin(entry.ePriceLevel, 0, UINT8_MAX)
    && |entry.consumptionCosts| <= CONSUMPTION_COST_ARRAY_SIZE
    && forall c :: c in entry.consumptionCosts ==> ValidConsumptionCost(c)
  }

  predicate ValidSalesTariff(tariff: SalesTariff) {
    && OptionalFits(tariff.id, ID_CHARACTER_SIZE)
    && Within(tariff.salesTariffID, 0, UINT8_MAX)
    && OptionalFits(tariff.description, DESCRIPTION_CHARACTER_SIZE)
    && OptionalWithin(tariff.numEPriceLevels, 0, UINT8_MAX)
    && 1 <= |tariff.entries| <= TARIFF_ENTRY_ARRAY_SIZE
    && forall e :: e in tariff.entries ==> ValidTariffEntry(e)
  }

  predicate ValidPMaxEntry(entry: PMaxEntry) {
    ValidInterval(entry.interval) && ValidPhysicalValue(entry.pMax)
  }

  predicate ValidTuple(tuple: ScheduleTuple) {
    && Within(tuple.id, 0, UINT8_MAX)
    && 1 <= |tuple.pMaxEntries| <= PMAX_ENTRY_ARRAY_SIZE
    && (forall e :: e in tuple.pMaxEntries ==> ValidPMaxEntry(e))
    && (tuple.tariff.Some? ==> ValidSalesTariff(tuple.tariff.value))
  }

  predicate ValidScheduleList(list: ScheduleList) {
    1 <= |list.tuples| <= TUPLE_ARRAY_SIZE && forall t :: t in list.tuples ==> ValidTuple(t)
  }

  // ---------- Scalars ----------

  function Number(n: int): Json {
    JNumber(n as real)
  }

  function EnumToName(table: seq<(int, string)>, value: int): Result<string> {
    if table == [] then Err(JsonGenerate)
    else if table[0].0 == value then Ok(table[0].1)
    else EnumToName(table[1..], value)
  }

  function NameToEnum(table: seq<(int, string)>, item: Json): Result<int> {
    if table == [] then Err(JsonParse)
    else if item == JString(table[0].1) then Ok(table[0].0)
    else NameToEnum(table[1..], item)
  }

  function ReadEnum(parent: Json, key: string, table: seq<(int, string)>): Result<int> {
    var item :- GetItem(parent, key);
    NameToEnum(table, item)
  }

  function ReadOptionalInteger(parent: Json, key: string, min: int, max: int): Result<Option<int>> {
    if !HasItem(parent, key) then Ok(None)
    else
      var n :- ReadInteger(parent, key, min, max);
      Ok(Some(n))
  }

  /** A string that holds NUL is written as escaped raw text. */
  function AddString(s: string): Result<Json> {
    if |s| >= STRING_BUFFER_SIZE then Err(JsonGenerate)
    else if '\0' in s then Ok(JRaw(s))
    else Ok(JString(s))
  }

  /** The characters before the terminator. */
  function CString(s: string): string {
    if s == [] || s[0] == '\0' then [] else [s[0]] + CString(s[1..])
  }

  lemma {:induction false} CStringEndsAtNul(s: string)
    ensures '\0' !in CString(s)
    ensures '\0' !in s ==> CString(s) == s
  {
    if s != [] && s[0] != '\0' {
      CStringEndsAtNul(s[1..]);
      assert s == [s[0]] + s[1..];
    }
  }

  function ReadOptionalString(parent: Json, key: string, capacity: nat): Result<Option<string>> {
    if !HasItem(parent, key) then Ok(None)
    else
      var item :- GetItem(parent, key);
      if item.JString? && |CString(item.text)| < capacity then Ok(Some(CString(item.text))) else Err(JsonParse)
  }

  /** An optional member. */
  function Member(key: string, item: Option<Json>): map<string, Json> {
    if item.Some? then map[key := item.value] else map[]
  }

  function OptionalNumber(n: Option<int>): Option<Json> {
    if n.Some? then Some(Number(n.value)) else None
  }

  function AddOptionalString(s: Option<string>): Result<Option<Json>> {
    if s.None? then Ok(None)
    else
      var item :- AddString(s.value);
      Ok(Some(item))
  }

  // ---------- Lists ----------

  function ReadAll<T>(items: seq<Json>, read: Json -> Result<T>): Result<seq<T>> {
    if items == [] then Ok([])
    else
      var head :- read(items[0]);
      var tail :- ReadAll(items[1..], read);
      Ok([head] + tail)
  }

  function WriteAll<T>(xs: seq<T>, write: T -> Result<Json>): Result<seq<Json>> {
    if xs == [] then Ok([])
    else
      var head :- write(xs[0]);
      var tail :- WriteAll(xs[1..], write);
      Ok([head] + tail)
  }

  /** The first that cannot be read fails the list. */
  lemma {:induction false} ReadAllFails<T>(items: seq<Json>, k: nat, read: Json -> Result<T>)
    requires k < |items| && read(items[k]).Err? && forall j :: 0 <= j < k ==> read(items[j]).Ok?
    ensures ReadAll(items, read) == Err(read(items[k]).error)
  {
    if k > 0 {
      ReadAllFails(items[1..], k - 1, read);
    }
  }

  lemma {:induction false} ReadAllSucceeds<T>(items: seq<Json>, read: Json -> Result<T>, xs: seq<T>)
    requires |xs| == |items| && forall j :: 0 <= j < |items| ==> read(items[j]) == Ok(xs[j])
    ensures ReadAll(items, read) == Ok(xs)
  {
    if items != [] {
      ReadAllSucceeds(items[1..], read, xs[1..]);
      assert xs == [xs[0]] + xs[1..];
    }
  }

  /** The entries of an array and their number are those of a list that was read. */
  predicate Filled<T(==)>(entries: seq<T>, count: Result<nat>, list: Result<seq<T>>) {
    match list
    case Ok(xs) => count == Ok(|xs|) && xs <= entries
    case Err(error) => count == Err(error)
  }

  /** The loop over the entries of a list, which fills an array and stops at the first entry that
      cannot be read. */
  method ReadEach<T>(items: seq<Json>, read: Json -> Result<T>, out: array<T>) returns (count: Result<nat>)
    requires |items| <= out.Length
    modifies out
    ensures count == (if ReadAll(items, read).Ok? then Ok(|items|) else Err(ReadAll(items, read).error))
    ensures count.Ok? ==> ReadAll(items, read) == Ok(out[..|items|])
    ensures out[|items|..] == old(out[|items|..])
  {
    var i := 0;
    while i < |items|
      invariant 0 <= i <= |items|
      invariant forall j :: 0 <= j < i ==> read(items[j]) == Ok(out[j])
      invariant out[|items|..] == old(out[|items|..])
    {
      var entry := read(items[i]);
      if entry.Err? {
        ReadAllFails(items, i, read);
        return Err(entry.error);
      }
      out[i] := entry.value;
      i := i + 1;
    }
    ReadAllSucceeds(items, read, out[..|items|]);
    return Ok(i);
  }

  // ---------- Writers ----------

  function AddPhysicalValue(pv: PhysicalValue): Result<Json> {
    var unit :- EnumToName(UNIT_SYMBOLS, pv.unit);
    Ok(JObject(map["Multiplier" := Number(pv.multiplier), "Unit" := JString(unit), "Value" := Number(pv.value)]))
  }

  function AddInterval(interval: Option<Interval>): Result<Json> {
    if interval.None? then Err(JsonGenerate)
    else Ok(JObject(map["start" := Number(interval.value.start)] + Member("duration", OptionalNumber(interval.value.duration))))
  }

  function AddCost(cost: Cost): Result<Json> {
    var kind :- EnumToName(COST_KINDS, cost.costKind);
    Ok(JObject(map["costKind" := JString(kind), "amount" := Number(cost.amount)]
               + Member("amountMultiplier", OptionalNumber(cost.amountMultiplier))))
  }

  function AddConsumptionCost(consumption: ConsumptionCost): Result<Json> {
    var startValue :- AddPhysicalValue(consumption.startValue);
    var costs :- WriteAll(consumption.costs, AddCost);
    Ok(JObject(map["startValue" := startValue, "Cost" := JArray(costs)]))
  }

  function AddTariffEntry(entry: TariffEntry): Result<Json> {
    var interval :- AddInterval(entry.interval);
    var costs :- WriteAll(entry.consumptionCosts, AddConsumptionCost);
    Ok(JObject(map["RelativeTimeInterval" := interval]
               + Member("EPriceLevel", OptionalNumber(entry.ePriceLevel))
               + Member("ConsumptionCost", if entry.consumptionCosts == [] then None else Some(JArray(costs)))))
  }

  function AddSalesTariff(tariff: SalesTariff): Result<Json> {
    var id :- AddOptionalString(tariff.id);
    var description :- AddOptionalString(tariff.description);
    var entries :- WriteAll(tariff.entries, AddTariffEntry);
    Ok(JObject(map["SalesTariffID" := Number(tariff.salesTariffID), "SalesTariffEntry" := JArray(entries)]
               + Member("Id", id)
               + Member("SalesTariffDescription", description)
               + Member("NumEPriceLevels", OptionalNumber(tariff.numEPriceLevels))))
  }

  function AddPMaxEntry(entry: PMaxEntry): Result<Json> {
    var interval :- AddInterval(entry.interval);
    var pMax :- AddPhysicalValue(entry.pMax);
    Ok(JObject(map["RelativeTimeInterval" := interval, "PMax" := pMax]))
  }

  function AddOptionalTariff(tariff: Option<SalesTariff>): Result<Option<Json>> {
    if tariff.None? then Ok(None)
    else
      var item :- AddSalesTariff(tariff.value);
      Ok(Some(item))
  }

  function AddTuple(tuple: ScheduleTuple): Result<Json> {
    var entries :- WriteAll(tuple.pMaxEntries, AddPMaxEntry);
    var tariff :- AddOptionalTariff(tuple.tariff);
    Ok(JObject(map["SAScheduleTupleID" := Number(tuple.id),
                   "PMaxSchedule" := JObject(map["PMaxScheduleEntry" := JArray(entries)])]
               + Member("SalesTariff", tariff)))
  }

  function AddSaScheduleList(list: ScheduleList): Result<Json> {
    var tuples :- WriteAll(list.tuples, AddTuple);
    Ok(JObject(map["SAScheduleList" := JObject(map["SAScheduleTuple" := JArray(tuples)])]))
  }

  // ---------- Readers ----------

  function ReadPhysicalValue(parent: Json, key: string): Result<PhysicalValue> {
    var json :- GetObject(parent, key);
    var multiplier :- ReadInteger(json, "Multiplier", MULTIPLIER_MIN, MULTIPLIER_MAX);
    var unit :- ReadEnum(json, "Unit", UNIT_SYMBOLS);
    var value :- ReadInteger(json, "Value", INT16_MIN, INT16_MAX);
    Ok(PhysicalValue(multiplier, unit, value))
  }

  function ReadInterval(parent: Json): Result<Option<Interval>> {
    var json :- GetObject(parent, "RelativeTimeInterval");
    var start :- ReadInteger(json, "start", 0, UINT32_MAX);
    var duration :- ReadOptionalInteger(json, "duration", 0, UINT32_MAX);
    Ok(Some(Interval(start, duration)))
  }

  function ReadCost(json: Json): Result<Cost> {
    if !json.JObject? then Err(JsonParse)
    else
      var kind :- ReadEnum(json, "costKind", COST_KINDS);
      var amount :- ReadInteger(json, "amount", 0, UINT32_MAX);
      var multiplier :- ReadOptionalInteger(json, "amountMultiplier", MULTIPLIER_MIN, MULTIPLIER_MAX);
      Ok(Cost(kind, amount, multiplier))
  }

  function ReadConsumptionCost(json: Json): Result<ConsumptionCost> {
    if !json.JObject? then Err(JsonParse)
    else
      var startValue :- ReadPhysicalValue(json, "startValue");
      var items :- GetList(json, "Cost", 1, COST_ARRAY_SIZE);
      var costs :- ReadAll(items, ReadCost);
      Ok(ConsumptionCost(startValue, costs))
  }

  function ReadConsumptionCosts(json: Json): Result<seq<ConsumptionCost>> {
    if !HasItem(json, "ConsumptionCost") then Ok([])
    else
      var items :- GetList(json, "ConsumptionCost", 1, CONSUMPTION_COST_ARRAY_SIZE);
      ReadAll(items, ReadConsumptionCost)
  }

  function ReadTariffEntry(json: Json): Result<TariffEntry> {
    if !json.JObject? then Err(JsonParse)
    else
      var interval :- ReadInterval(json);
      var ePriceLevel :- ReadOptionalInteger(json, "EPriceLevel", 0, UINT8_MAX);
      var costs :- ReadConsumptionCosts(json);
      Ok(TariffEntry(interval, ePriceLevel, costs))
  }

  function ReadSalesTariff(json: Json): Result<SalesTariff> {
    var id :- ReadOptionalString(json, "Id", ID_CHARACTER_SIZE);
    var salesTariffID :- ReadInteger(json, "SalesTariffID", 0, UINT8_MAX);
    var description :- ReadOptionalString(json, "SalesTariffDescription", DESCRIPTION_CHARACTER_SIZE);
    var numEPriceLevels :- ReadOptionalInteger(json, "NumEPriceLevels", 0, UINT8_MAX);
    var items :- GetList(json, "SalesTariffEntry", 1, TARIFF_ENTRY_ARRAY_SIZE);
    var entries :- ReadAll(items, ReadTariffEntry);
    Ok(SalesTariff(id, salesTariffID, description, numEPriceLevels, entries))
  }

  function ReadPMaxEntry(json: Json): Result<PMaxEntry> {
    if !json.JObject? then Err(JsonParse)
    else
      var interval :- ReadInterval(json);
      var pMax :- ReadPhysicalValue(json, "PMax");
      Ok(PMaxEntry(interval, pMax))
  }

  function ReadPMaxEntries(schedule: Json): Result<seq<PMaxEntry>> {
    var items :- GetList(schedule, "PMaxScheduleEntry", 1, PMAX_ENTRY_ARRAY_SIZE);
    ReadAll(items, ReadPMaxEntry)
  }

  function ReadOptionalTariff(json: Json): Result<Option<SalesTariff>> {
    if !HasItem(json, "SalesTariff") then Ok(None)
    else
      var item :- GetObject(json, "SalesTariff");
      var tariff :- ReadSalesTariff(item);
      Ok(Some(tariff))
  }

  function ReadTuple(json: Json): Result<ScheduleTuple> {
    if !json.JObject? then Err(JsonParse)
    else
      var id :- ReadInteger(json, "SAScheduleTupleID", 0, UINT8_MAX);
      var schedule :- GetObject(json, "PMaxSchedule");
      var entries :- ReadPMaxEntries(schedule);
      var tariff :- ReadOptionalTariff(json);
      Ok(ScheduleTuple(id, entries, tariff))
  }

  function ReadSaScheduleList(parent: Json): Result<ScheduleList> {
    var json :- GetObject(parent, "SAScheduleList");
    var items :- GetList(json, "SAScheduleTuple", 1, TUPLE_ARRAY_SIZE);
    var tuples :- ReadAll(items, ReadTuple);
    Ok(ScheduleList(tuples))
  }

  // ---------- Round trips, level by level ----------

  /** Writing `x` and reading the result gives `x` back. */
  predicate Survives<T(==)>(x: T, write: T -> Result<Json>, read: Json -> Result<T>) {
    var item := write(x);
    item.Ok? && read(item.value) == Ok(x)
  }

  predicate ListSurvives<T(==)>(xs: seq<T>, write: T -> Result<Json>, read: Json -> Result<T>) {
    var items := WriteAll(xs, write);
    items.Ok? && ReadAll(items.value, read) == Ok(xs)
  }

  lemma ListSurvivesStep<T>(xs: seq<T>, write: T -> Result<Json>, read: Json -> Result<T>)
    requires xs != []
    ensures ListSurvives(xs, write, read) <==> Survives(xs[0], write, read) && ListSurvives(xs[1..], write, read)
  {
    assert xs == [xs[0]] + xs[1..];
    if write(xs[0]).Ok? && WriteAll(xs[1..], write).Ok? {
      var items := WriteAll(xs, write).value;
      assert items[1..] == WriteAll(xs[1..], write).value;
      var head, tail := read(items[0]), ReadAll(items[1..], read);
      if head.Ok? && tail.Ok? {
        assert ReadAll(items, read) == Ok([head.value] + tail.value);
        Halves([head.value], tail.value);
      }
    }
  }

  /** A list survives exactly when all its entries do. */
  lemma {:induction false} ListSurvivesIff<T>(xs: seq<T>, write: T -> Result<Json>, read: Json -> Result<T>)
    ensures ListSurvives(xs, write, read) <==> forall x :: x in xs ==> Survives(x, write, read)
    ensures WriteAll(xs, write).Ok? ==> |WriteAll(xs, write).value| == |xs|
  {
    if xs != [] {
      ListSurvivesStep(xs, write, read);
      ListSurvivesIff(xs[1..], write, read);
      assert xs == [xs[0]] + xs[1..];
    }
  }

  lemma NumberReads(n: int, min: int, max: int)
    ensures ItemToInteger(Number(n), min, max) == if Within(n, min, max) then Ok(n) else Err(JsonParse)
  {
    assert IsInteger(Number(n), n);
  }

  /** Distinct values and distinct names. */
  predicate OneToOne(table: seq<(int, string)>) {
    forall i, j :: 0 <= i < j < |table| ==> table[i].0 != table[j].0 && table[i].1 != table[j].1
  }

  lemma {:induction false} EnumSurvives(table: seq<(int, string)>, value: int)
    requires OneToOne(table)
    ensures EnumToName(table, value).Ok? <==> Listed(table, value)
    ensures EnumToName(table, value).Ok? ==> NameToEnum(table, JString(EnumToName(table, value).value)) == Ok(value)
    ensures EnumToName(table, value).Ok? ==> exists i :: 0 <= i < |table| && table[i].1 == EnumToName(table, value).value
  {
    if table != [] {
      EnumSurvives(table[1..], value);
      assert table == [table[0]] + table[1..];
    }
  }

  lemma TablesAreOneToOne()
    ensures OneToOne(UNIT_SYMBOLS) && OneToOne(COST_KINDS)
  {
  }

  lemma {:induction false} UnitSurvives(unit: int)
    ensures EnumToName(UNIT_SYMBOLS, unit).Ok? <==> Listed(UNIT_SYMBOLS, unit)
    ensures EnumToName(UNIT_SYMBOLS, unit).Ok? ==>
              NameToEnum(UNIT_SYMBOLS, JString(EnumToName(UNIT_SYMBOLS, unit).value)) == Ok(unit)
  {
    TablesAreOneToOne();
    EnumSurvives(UNIT_SYMBOLS, unit);
  }

  lemma {:induction false} CostKindSurvives(kind: int)
    ensures EnumToName(COST_KINDS, kind).Ok? <==> Listed(COST_KINDS, kind)
    ensures EnumToName(COST_KINDS, kind).Ok? ==>
              NameToEnum(COST_KINDS, JString(EnumToName(COST_KINDS, kind).value)) == Ok(kind)
  {
    TablesAreOneToOne();
    EnumSurvives(COST_KINDS, kind);
  }

  lemma PhysicalValueWrites(pv: PhysicalValue)
    ensures ValidPhysicalValue(pv) ==> AddPhysicalValue(pv).Ok?
  {
    UnitSurvives(pv.unit);
  }

  lemma PhysicalValueMembers(multiplier: Json, unit: Json, value: Json)
    requires !multiplier.JNull? && !unit.JNull? && !value.JNull?
    ensures var json := JObject(map["Multiplier" := multiplier, "Unit" := unit, "Value" := value]);
            GetItem(json, "Multiplier") == Ok(multiplier) && GetItem(json, "Unit") == Ok(unit) && GetItem(json, "Value") == Ok(value)
  {
    assert |"Multiplier"| == 10 && |"Unit"| == 4 && |"Value"| == 5;
  }

  lemma PhysicalValueSurvives(pv: PhysicalValue, parent: Json, key: string)
    requires AddPhysicalValue(pv).Ok? && GetItem(parent, key) == Ok(AddPhysicalValue(pv).value)
    ensures ReadPhysicalValue(parent, key) == Ok(pv) <==> ValidPhysicalValue(pv)
  {
    UnitSurvives(pv.unit);
    PhysicalValueMembers(Number(pv.multiplier), JString(EnumToName(UNIT_SYMBOLS, pv.unit).value), Number(pv.value));
    NumberReads(pv.multiplier, MULTIPLIER_MIN, MULTIPLIER_MAX);
    NumberReads(pv.value, INT16_MIN, INT16_MAX);
  }

  lemma OptionalSurvives(n: Option<int>, parent: Json, key: string, min: int, max: int)
    requires if n.Some? then GetItem(parent, key) == Ok(Number(n.value)) else !HasItem(parent, key)
    ensures ReadOptionalInteger(parent, key, min, max) == Ok(n) <==> OptionalWithin(n, min, max)
  {
    if n.Some? {
      NumberReads(n.value, min, max);
    }
  }

  lemma OptionalStringSurvives(s: Option<string>, parent: Json, key: string, capacity: nat)
    requires capacity <= STRING_BUFFER_SIZE && AddOptionalString(s).Ok?
    requires if s.Some? then GetItem(parent, key) == Ok(AddOptionalString(s).value.value) else !HasItem(parent, key)
    ensures ReadOptionalString(parent, key, capacity) == Ok(s) <==> OptionalFits(s, capacity)
  {
    if s.Some? {
      CStringEndsAtNul(s.value);
    }
  }

  lemma IntervalSurvives(interval: Option<Interval>, parent: Json)
    requires AddInterval(interval).Ok? && GetItem(parent, "RelativeTimeInterval") == Ok(AddInterval(interval).value)
    ensures ReadInterval(parent) == Ok(interval) <==> ValidInterval(interval)
  {
    var json := AddInterval(interval).value;
    NumberReads(interval.value.start, 0, UINT32_MAX);
    OptionalSurvives(interval.value.duration, json, "duration", 0, UINT32_MAX);
  }

  lemma CostSurvives(cost: Cost)
    ensures Survives(cost, AddCost, ReadCost) <==> ValidCost(cost)
  {
    CostKindSurvives(cost.costKind);
    if AddCost(cost).Ok? {
      var json := AddCost(cost).value;
      NumberReads(cost.amount, 0, UINT32_MAX);
      OptionalSurvives(cost.amountMultiplier, json, "amountMultiplier", MULTIPLIER_MIN, MULTIPLIER_MAX);
    }
  }

  lemma {:induction false} CostsSurvive(costs: seq<Cost>)
    ensures ListSurvives(costs, AddCost, ReadCost) <==> forall c :: c in costs ==> ValidCost(c)
    ensures WriteAll(costs, AddCost).Ok? ==> |WriteAll(costs, AddCost).value| == |costs|
  {
    ListSurvivesIff(costs, AddCost, ReadCost);
    forall c
      ensures Survives(c, AddCost, ReadCost) <==> ValidCost(c)
    {
      CostSurvives(c);
    }
  }

  lemma ConsumptionCostSurvives(consumption: ConsumptionCost)
    ensures Survives(consumption, AddConsumptionCost, ReadConsumptionCost) <==> ValidConsumptionCost(consumption)
  {
    CostsSurvive(consumption.costs);
    PhysicalValueWrites(consumption.startValue);
    if AddConsumptionCost(consumption).Ok? {
      PhysicalValueSurvives(consumption.startValue, AddConsumptionCost(consumption).value, "startValue");
    }
  }

  lemma {:induction false} ConsumptionCostsSurvive(costs: seq<ConsumptionCost>)
    ensures ListSurvives(costs, AddConsumptionCost, ReadConsumptionCost)
            <==> forall c :: c in costs ==> ValidConsumptionCost(c)
    ensures WriteAll(costs, AddConsumptionCost).Ok? ==> |WriteAll(costs, AddConsumptionCost).value| == |costs|
  {
    ListSurvivesIff(costs, AddConsumptionCost, ReadConsumptionCost);
    forall c
      ensures Survives(c, AddConsumptionCost, ReadConsumptionCost) <==> ValidConsumptionCost(c)
    {
      ConsumptionCostSurvives(c);
    }
  }

  lemma {:induction false} ConsumptionCostsRead(items: seq<Json>, json: Json)
    requires items != [] && GetItem(json, "ConsumptionCost") == Ok(JArray(items))
    ensures |items| <= CONSUMPTION_COST_ARRAY_SIZE ==> ReadConsumptionCosts(json) == ReadAll(items, ReadConsumptionCost)
    ensures |items| > CONSUMPTION_COST_ARRAY_SIZE ==> ReadConsumptionCosts(json) == Err(JsonParse)
  {
  }

  /** An empty list of consumption costs is not written, and a missing one is read as empty. */
  lemma {:induction false} ConsumptionCostListReads(costs: seq<ConsumptionCost>, json: Json)
    requires WriteAll(costs, AddConsumptionCost).Ok?
    requires costs == [] ==> !HasItem(json, "ConsumptionCost")
    requires costs != [] ==> GetItem(json, "ConsumptionCost") == Ok(JArray(WriteAll(costs, AddConsumptionCost).value))
    ensures ReadConsumptionCosts(json) == Ok(costs) <==>
            |costs| <= CONSUMPTION_COST_ARRAY_SIZE && ListSurvives(costs, AddConsumptionCost, ReadConsumptionCost)
  {
    var items := WriteAll(costs, AddConsumptionCost).value;
    ListSurvivesIff(costs, AddConsumptionCost, ReadConsumptionCost);
    if costs != [] {
      ConsumptionCostsRead(items, json);
    }
  }

  lemma TariffEntrySurvives(entry: TariffEntry)
    ensures Survives(entry, AddTariffEntry, ReadTariffEntry) <==> ValidTariffEntry(entry)
  {
    ConsumptionCostsSurvive(entry.consumptionCosts);
    if AddTariffEntry(entry).Ok? {
      var json := AddTariffEntry(entry).value;
      IntervalSurvives(entry.interval, json);
      OptionalSurvives(entry.ePriceLevel, json, "EPriceLevel", 0, UINT8_MAX);
      ConsumptionCostListReads(entry.consumptionCosts, json);
    }
  }

  lemma {:induction false} TariffEntriesSurvive(entries: seq<TariffEntry>)
    ensures ListSurvives(entries, AddTariffEntry, ReadTariffEntry) <==> forall e :: e in entries ==> ValidTariffEntry(e)
    ensures WriteAll(entries, AddTariffEntry).Ok? ==> |WriteAll(entries, AddTariffEntry).value| == |entries|
  {
    ListSurvivesIff(entries, AddTariffEntry, ReadTariffEntry);
    forall e
      ensures Survives(e, AddTariffEntry, ReadTariffEntry) <==> ValidTariffEntry(e)
    {
      TariffEntrySurvives(e);
    }
  }

  /** The member `key` of `json` is `item`, or missing. */
  predicate MemberIs(json: Json, key: string, item: Option<Json>) {
    if item.Some? then GetItem(json, key) == Ok(item.value) else !HasItem(json, key)
  }

  predicate NotNull(item: Option<Json>) {
    item.Some? ==> !item.value.JNull?
  }

  /** Looking up the members of an object with three optional ones. */
  lemma OptionalMembers(base: map<string, Json>, a: string, x: Option<Json>,
                        b: string, y: Option<Json>, c: string, z: Option<Json>)
    requires a != b && a != c && b != c && a !in base && b !in base && c !in base
    requires NotNull(x) && NotNull(y) && NotNull(z)
    ensures var json := JObject(base + Member(a, x) + Member(b, y) + Member(c, z));
            MemberIs(json, a, x) && MemberIs(json, b, y) && MemberIs(json, c, z)
  {
  }

  lemma RequiredMember(base: map<string, Json>, a: string, x: Option<Json>,
                       b: string, y: Option<Json>, c: string, z: Option<Json>, key: string)
    requires key != a && key != b && key != c && key in base && !base[key].JNull?
    ensures GetItem(JObject(base + Member(a, x) + Member(b, y) + Member(c, z)), key) == Ok(base[key])
  {
  }

  lemma SalesTariffMembers(id: Option<Json>, description: Option<Json>, levels: Option<Json>,
                           salesTariffID: Json, entries: Json)
    requires NotNull(id) && NotNull(description) && NotNull(levels) && !salesTariffID.JNull? && !entries.JNull?
    ensures var json := JObject(map["SalesTariffID" := salesTariffID, "SalesTariffEntry" := entries]
                                + Member("Id", id) + Member("SalesTariffDescription", description)
                                + Member("NumEPriceLevels", levels));
            && MemberIs(json, "Id", id)
            && MemberIs(json, "SalesTariffDescription", description)
            && MemberIs(json, "NumEPriceLevels", levels)
            && GetItem(json, "SalesTariffID") == Ok(salesTariffID)
            && GetItem(json, "SalesTariffEntry") == Ok(entries)
  {
    var base := map["SalesTariffID" := salesTariffID, "SalesTariffEntry" := entries];
    var i, d, n := "Id", "SalesTariffDescription", "NumEPriceLevels";
    assert |i| == 2 && |d| == 22 && |n| == 15 && |"SalesTariffID"| == 13 && |"SalesTariffEntry"| == 16;
    OptionalMembers(base, i, id, d, description, n, levels);
    RequiredMember(base, i, id, d, description, n, levels, "SalesTariffID");
    RequiredMember(base, i, id, d, description, n, levels, "SalesTariffEntry");
  }

  lemma {:induction false} SalesTariffReads(tariff: SalesTariff, json: Json, items: seq<Json>)
    requires AddOptionalString(tariff.id).Ok? && MemberIs(json, "Id", AddOptionalString(tariff.id).value)
    requires AddOptionalString(tariff.description).Ok?
             && MemberIs(json, "SalesTariffDescription", AddOptionalString(tariff.description).value)
    requires MemberIs(json, "NumEPriceLevels", OptionalNumber(tariff.numEPriceLevels))
    requires GetItem(json, "SalesTariffID") == Ok(Number(tariff.salesTariffID))
    requires GetItem(json, "SalesTariffEntry") == Ok(JArray(items))
    ensures ReadSalesTariff(json) == Ok(tariff) <==>
            && OptionalFits(tariff.id, ID_CHARACTER_SIZE)
            && Within(tariff.salesTariffID, 0, UINT8_MAX)
            && OptionalFits(tariff.description, DESCRIPTION_CHARACTER_SIZE)
            && OptionalWithin(tariff.numEPriceLevels, 0, UINT8_MAX)
            && 1 <= |items| <= TARIFF_ENTRY_ARRAY_SIZE
            && ReadAll(items, ReadTariffEntry) == Ok(tariff.entries)
  {
    OptionalStringSurvives(tariff.id, json, "Id", ID_CHARACTER_SIZE);
    NumberReads(tariff.salesTariffID, 0, UINT8_MAX);
    OptionalStringSurvives(tariff.description, json, "SalesTariffDescription", DESCRIPTION_CHARACTER_SIZE);
    OptionalSurvives(tariff.numEPriceLevels, json, "NumEPriceLevels", 0, UINT8_MAX);
  }

  /** A sales tariff, which is also an EXI fragment of its own. */
  lemma SalesTariffSurvives(tariff: SalesTariff)
    ensures Survives(tariff, AddSalesTariff, ReadSalesTariff) <==> ValidSalesTariff(tariff)
  {
    TariffEntriesSurvive(tariff.entries);
    if AddSalesTariff(tariff).Ok? {
      var items := WriteAll(tariff.entries, AddTariffEntry).value;
      SalesTariffMembers(AddOptionalString(tariff.id).value, AddOptionalString(tariff.description).value,
                         OptionalNumber(tariff.numEPriceLevels), Number(tariff.salesTariffID), JArray(items));
      SalesTariffReads(tariff, AddSalesTariff(tariff).value, items);
    }
  }

  lemma PMaxEntrySurvives(entry: PMaxEntry)
    ensures Survives(entry, AddPMaxEntry, ReadPMaxEntry) <==> ValidPMaxEntry(entry)
  {
    PhysicalValueWrites(entry.pMax);
    if AddPMaxEntry(entry).Ok? {
      var json := AddPMaxEntry(entry).value;
      IntervalSurvives(entry.interval, json);
      PhysicalValueSurvives(entry.pMax, json, "PMax");
    }
  }

  lemma {:induction false} PMaxEntriesSurvive(entries: seq<PMaxEntry>)
    ensures ListSurvives(entries, AddPMaxEntry, ReadPMaxEntry) <==> forall e :: e in entries ==> ValidPMaxEntry(e)
    ensures WriteAll(entries, AddPMaxEntry).Ok? ==> |WriteAll(entries, AddPMaxEntry).value| == |entries|
  {
    ListSurvivesIff(entries, AddPMaxEntry, ReadPMaxEntry);
    forall e
      ensures Survives(e, AddPMaxEntry, ReadPMaxEntry) <==> ValidPMaxEntry(e)
    {
      PMaxEntrySurvives(e);
    }
  }

  lemma {:induction false} PMaxScheduleReads(entries: seq<PMaxEntry>, json: Json)
    requires WriteAll(entries, AddPMaxEntry).Ok?
    requires json == JObject(map["PMaxScheduleEntry" := JArray(WriteAll(entries, AddPMaxEntry).value)])
    ensures ReadPMaxEntries(json) == Ok(entries) <==>
            1 <= |entries| <= PMAX_ENTRY_ARRAY_SIZE && ListSurvives(entries, AddPMaxEntry, ReadPMaxEntry)
  {
    ListSurvivesIff(entries, AddPMaxEntry, ReadPMaxEntry);
    assert GetItem(json, "PMaxScheduleEntry") == Ok(JArray(WriteAll(entries, AddPMaxEntry).value));
  }

  lemma OptionalTariffReads(tariff: Option<SalesTariff>, json: Json)
    requires AddOptionalTariff(tariff).Ok?
    requires tariff.None? ==> !HasItem(json, "SalesTariff")
    requires tariff.Some? ==> GetItem(json, "SalesTariff") == Ok(AddOptionalTariff(tariff).value.value)
    ensures ReadOptionalTariff(json) == Ok(tariff) <==> (tariff.Some? ==> ValidSalesTariff(tariff.value))
  {
    if tariff.Some? {
      SalesTariffSurvives(tariff.value);
      assert AddSalesTariff(tariff.value).value.JObject?;
    }
  }

  lemma {:induction false} TupleMembers(tuple: ScheduleTuple)
    requires AddTuple(tuple).Ok?
    ensures var json := AddTuple(tuple).value;
            && json.JObject?
            && GetItem(json, "SAScheduleTupleID") == Ok(Number(tuple.id))
            && GetItem(json, "PMaxSchedule") ==
               Ok(JObject(map["PMaxScheduleEntry" := JArray(WriteAll(tuple.pMaxEntries, AddPMaxEntry).value)]))
            && (tuple.tariff.None? ==> !HasItem(json, "SalesTariff"))
            && (tuple.tariff.Some? ==> GetItem(json, "SalesTariff") == Ok(AddOptionalTariff(tuple.tariff).value.value))
  {
    if tuple.tariff.Some? {
      assert AddSalesTariff(tuple.tariff.value).value.JObject?;
    }
  }

  lemma TupleReads(tuple: ScheduleTuple, json: Json, schedule: Json)
    requires json.JObject? && schedule.JObject?
    requires GetItem(json, "SAScheduleTupleID") == Ok(Number(tuple.id))
    requires GetItem(json, "PMaxSchedule") == Ok(schedule)
    ensures ReadTuple(json) == Ok(tuple) <==>
            && Within(tuple.id, 0, UINT8_MAX)
            && ReadPMaxEntries(schedule) == Ok(tuple.pMaxEntries)
            && ReadOptionalTariff(json) == Ok(tuple.tariff)
  {
    NumberReads(tuple.id, 0, UINT8_MAX);
  }

  lemma TupleWrites(tuple: ScheduleTuple)
    requires ListSurvives(tuple.pMaxEntries, AddPMaxEntry, ReadPMaxEntry)
    requires tuple.tariff.Some? ==> ValidSalesTariff(tuple.tariff.value)
    ensures AddTuple(tuple).Ok?
  {
    if tuple.tariff.Some? {
      SalesTariffSurvives(tuple.tariff.value);
    }
  }

  lemma TupleSurvives(tuple: ScheduleTuple)
    ensures Survives(tuple, AddTuple, ReadTuple) <==> ValidTuple(tuple)
  {
    PMaxEntriesSurvive(tuple.pMaxEntries);
    if AddTuple(tuple).Ok? {
      var json := AddTuple(tuple).value;
      var schedule := JObject(map["PMaxScheduleEntry" := JArray(WriteAll(tuple.pMaxEntries, AddPMaxEntry).value)]);
      TupleMembers(tuple);
      TupleReads(tuple, json, schedule);
      PMaxScheduleReads(tuple.pMaxEntries, schedule);
      OptionalTariffReads(tuple.tariff, json);
    } else if ValidTuple(tuple) {
      TupleWrites(tuple);
      assert false;
    }
  }

  lemma {:induction false} TuplesSurvive(tuples: seq<ScheduleTuple>)
    ensures ListSurvives(tuples, AddTuple, ReadTuple) <==> forall t :: t in tuples ==> ValidTuple(t)
    ensures WriteAll(tuples, AddTuple).Ok? ==> |WriteAll(tuples, AddTuple).value| == |tuples|
  {
    ListSurvivesIff(tuples, AddTuple, ReadTuple);
    forall t
      ensures Survives(t, AddTuple, ReadTuple) <==> ValidTuple(t)
    {
      TupleSurvives(t);
    }
  }

  /** A schedule list is read back unchanged exactly when every scalar of it is in range, every
      enumeration value is listed, every string fits and every list has an allowed length. */
  lemma ScheduleListSurvives(list: ScheduleList)
    ensures Survives(list, AddSaScheduleList, ReadSaScheduleList) <==> ValidScheduleList(list)
  {
    TuplesSurvive(list.tuples);
  }

  // ---------- Readers deliver valid structures ----------

  lemma {:induction false} ReadAllEntries<T>(items: seq<Json>, read: Json -> Result<T>)
    requires ReadAll(items, read).Ok?
    ensures |ReadAll(items, read).value| == |items|
    ensures forall i :: 0 <= i < |items| ==> read(items[i]) == Ok(ReadAll(items, read).value[i])
  {
    if items != [] {
      ReadAllEntries(items[1..], read);
    }
  }

  lemma {:induction false} NameIsListed(table: seq<(int, string)>, item: Json)
    ensures NameToEnum(table, item).Ok? ==> Listed(table, NameToEnum(table, item).value)
  {
    if table != [] {
      NameIsListed(table[1..], item);
      assert table == [table[0]] + table[1..];
    }
  }

  lemma ReadPhysicalValueIsValid(parent: Json, key: string)
    ensures ReadPhysicalValue(parent, key).Ok? ==> ValidPhysicalValue(ReadPhysicalValue(parent, key).value)
  {
    var json := GetObject(parent, key);
    if json.Ok? && GetItem(json.value, "Unit").Ok? {
      NameIsListed(UNIT_SYMBOLS, GetItem(json.value, "Unit").value);
    }
  }

  lemma ReadCostIsValid(json: Json)
    ensures ReadCost(json).Ok? ==> ValidCost(ReadCost(json).value)
  {
    if GetItem(json, "costKind").Ok? {
      NameIsListed(COST_KINDS, GetItem(json, "costKind").value);
    }
  }

  lemma ReadConsumptionCostIsValid(json: Json)
    ensures ReadConsumptionCost(json).Ok? ==> ValidConsumptionCost(ReadConsumptionCost(json).value)
  {
    if ReadConsumptionCost(json).Ok? {
      ReadPhysicalValueIsValid(json, "startValue");
      var items := GetList(json, "Cost", 1, COST_ARRAY_SIZE).value;
      ReadAllEntries(items, ReadCost);
      forall i | 0 <= i < |items|
        ensures ValidCost(ReadAll(items, ReadCost).value[i])
      {
        ReadCostIsValid(items[i]);
      }
    }
  }

  lemma ReadTariffEntryIsValid(json: Json)
    ensures ReadTariffEntry(json).Ok? ==> ValidTariffEntry(ReadTariffEntry(json).value)
  {
    if ReadTariffEntry(json).Ok? && HasItem(json, "ConsumptionCost") {
      var items := GetList(json, "ConsumptionCost", 1, CONSUMPTION_COST_ARRAY_SIZE).value;
      ReadAllEntries(items, ReadConsumptionCost);
      forall i | 0 <= i < |items|
        ensures ValidConsumptionCost(ReadAll(items, ReadConsumptionCost).value[i])
      {
        ReadConsumptionCostIsValid(items[i]);
      }
    }
  }

  lemma ReadOptionalStringFits(parent: Json, key: string, capacity: nat)
    ensures ReadOptionalString(parent, key, capacity).Ok? ==> OptionalFits(ReadOptionalString(parent, key, capacity).value, capacity)
  {
    if ReadOptionalString(parent, key, capacity).Ok? && HasItem(parent, key) {
      CStringEndsAtNul(GetItem(parent, key).value.text);
    }
  }

  lemma ReadSalesTariffIsValid(json: Json)
    ensures ReadSalesTariff(json).Ok? ==> ValidSalesTariff(ReadSalesTariff(json).value)
  {
    if ReadSalesTariff(json).Ok? {
      ReadOptionalStringFits(json, "Id", ID_CHARACTER_SIZE);
      ReadOptionalStringFits(json, "SalesTariffDescription", DESCRIPTION_CHARACTER_SIZE);
      var items := GetList(json, "SalesTariffEntry", 1, TARIFF_ENTRY_ARRAY_SIZE).value;
      ReadAllEntries(items, ReadTariffEntry);
      forall i | 0 <= i < |items|
        ensures ValidTariffEntry(ReadAll(items, ReadTariffEntry).value[i])
      {
        ReadTariffEntryIsValid(items[i]);
      }
    }
  }

  lemma ReadPMaxEntriesAreValid(schedule: Json)
    ensures ReadPMaxEntries(schedule).Ok? ==>
            && 1 <= |ReadPMaxEntries(schedule).value| <= PMAX_ENTRY_ARRAY_SIZE
            && forall e :: e in ReadPMaxEntries(schedule).value ==> ValidPMaxEntry(e)
  {
    if ReadPMaxEntries(schedule).Ok? {
      var items := GetList(schedule, "PMaxScheduleEntry", 1, PMAX_ENTRY_ARRAY_SIZE).value;
      ReadAllEntries(items, ReadPMaxEntry);
      forall i | 0 <= i < |items|
        ensures ValidPMaxEntry(ReadAll(items, ReadPMaxEntry).value[i])
      {
        ReadPhysicalValueIsValid(items[i], "PMax");
      }
    }
  }

  lemma ReadTupleIsValid(json: Json)
    ensures ReadTuple(json).Ok? ==> ValidTuple(ReadTuple(json).value)
  {
    if ReadTuple(json).Ok? {
      ReadPMaxEntriesAreValid(GetObject(json, "PMaxSchedule").value);
      if HasItem(json, "SalesTariff") {
        ReadSalesTariffIsValid(GetObject(json, "SalesTariff").value);
      }
    }
  }

  /** Whatever JSON it is given, the reader delivers a valid schedule list or an error, so what was
      read once is written and read again without a change. */
  lemma ReadScheduleListIsStable(parent: Json)
    ensures ReadSaScheduleList(parent).Ok? ==>
            var list := ReadSaScheduleList(parent).value;
            ValidScheduleList(list) && Survives(list, AddSaScheduleList, ReadSaScheduleList)
  {
    if ReadSaScheduleList(parent).Ok? {
      var items := GetList(GetObject(parent, "SAScheduleList").value, "SAScheduleTuple", 1, TUPLE_ARRAY_SIZE).value;
      ReadAllEntries(items, ReadTuple);
      forall i | 0 <= i < |items|
        ensures ValidTuple(ReadAll(items, ReadTuple).value[i])
      {
        ReadTupleIsValid(items[i]);
      }
      ScheduleListSurvives(ReadSaScheduleList(parent).value);
    }
  }

  // ---------- Readers that fill an array ----------

  /** The number of entries is checked before the first is stored, so that the array is never left. */
  method ReadPMaxSchedule(schedule: Json, out: array<PMaxEntry>) returns (count: Result<nat>)
    requires out.Length == PMAX_ENTRY_ARRAY_SIZE
    modifies out
    ensures Filled(out[..], count, ReadPMaxEntries(schedule))
    ensures count.Ok? ==> 1 <= count.value && forall i :: 0 <= i < count.value ==> ValidPMaxEntry(out[i])
  {
    ReadPMaxEntriesAreValid(schedule);
    var items :- GetList(schedule, "PMaxScheduleEntry", 1, PMAX_ENTRY_ARRAY_SIZE);
    count := ReadEach(items, ReadPMaxEntry, out);
    if count.Ok? {
      ReadAllEntries(items, ReadPMaxEntry);
    }
  }

  method ReadScheduleTuples(parent: Json, out: array<ScheduleTuple>) returns (count: Result<nat>)
    requires out.Length == TUPLE_ARRAY_SIZE
    modifies out
    ensures match ReadSaScheduleList(parent)
            case Ok(list) => Filled(out[..], count, Ok(list.tuples)) && ValidScheduleList(list)
            case Err(error) => count == Err(error)
  {
    ReadScheduleListIsStable(parent);
    var json :- GetObject(parent, "SAScheduleList");
    var items :- GetList(json, "SAScheduleTuple", 1, TUPLE_ARRAY_SIZE);
    count := ReadEach(items, ReadTuple, out);
    if count.Ok? {
      ReadAllEntries(items, ReadTuple);
    }
  }
}
