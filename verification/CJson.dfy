/** The part of a cJSON tree that the ISO 15118-2 converters look at, and the input helpers that
    every reader goes through. Numbers are doubles in cJSON; here they are reals.
 */
module CJson {

  datatype ErrorCode = JsonParse | JsonGenerate

  datatype Result<+T> = Ok(value: T) | Err(error: ErrorCode) {
    predicate IsFailure() {
      Err?
    }

    function PropagateFailure<U>(): Result<U>
      requires Err?
    {
      Err(error)
    }

    function Extract(): T
      requires Ok?
    {
      value
    }
  }

  /** Strings stand for their characters up to the terminator. `JRaw` is text that is printed
      verbatim; cJSON does not treat such a node as a string or a number. An object maps a name to
      the first member of that name, which is the one that a lookup finds. */
  datatype Json =
    | JNull
    | JBool(flag: bool)
    | JNumber(number: real)
    | JString(text: string)
    | JRaw(text: string)
    | JArray(items: seq<Json>)
    | JObject(members: map<string, Json>)

  /** The member `key` of `parent`; a null member counts as missing. */
  function GetItem(parent: Json, key: string): Result<Json> {
    if parent.JObject? && key in parent.members && !parent.members[key].JNull? then Ok(parent.members[key])
    else Err(JsonParse)
  }

  predicate HasItem(parent: Json, key: string) {
    GetItem(parent, key).Ok?
  }

  function GetObject(parent: Json, key: string): Result<Json> {
    var item :- GetItem(parent, key);
    if item.JObject? then Ok(item) else Err(JsonParse)
  }

  /** A repeated element is an array of `min` to `max` entries. */
  function GetList(parent: Json, key: string, min: nat, max: nat): Result<seq<Json>> {
    var item :- GetItem(parent, key);
    if item.JArray? && min <= |item.items| <= max then Ok(item.items) else Err(JsonParse)
  }

  /** C's conversion of a double to an integer drops the fraction. */
  function Truncate(value: real): int {
    if value >= 0.0 then value.Floor else -(-value).Floor
  }

  /** `item` is the number `n`. */
  predicate IsInteger(item: Json, n: int) {
    item == JNumber(n as real)
  }

  /** A number is read exactly when it is an integer between `min` and `max`. */
  function ItemToInteger(item: Json, min: int, max: int): (r: Result<int>)
    ensures r.Ok? ==> IsInteger(item, r.value) && min <= r.value <= max
    ensures r.Err? ==> forall n: int :: IsInteger(item, n) ==> !(min <= n <= max)
  {
    if !item.JNumber? then Err(JsonParse)
    else if !(min as real <= item.number <= max as real) then Err(JsonParse)
    else if Truncate(item.number) as real != item.number then Err(JsonParse)
    else Ok(Truncate(item.number))
  }

  function ReadInteger(parent: Json, key: string, min: int, max: int): (r: Result<int>)
    ensures r.Ok? ==> min <= r.value <= max
  {
    var item :- GetItem(parent, key);
    ItemToInteger(item, min, max)
  }
}
