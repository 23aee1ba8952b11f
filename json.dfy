// A JSON value and the json11 accessors the result handler uses.  Parsing
// JSON text is the library's business and is not modelled: the handler is
// given the value the library produced.  Numbers are reals; `int_value`
// truncates toward zero like the C++ cast it performs.

module Json {
  datatype Json =
    | JNull
    | JBool(b: bool)
    | JNumber(n: real)
    | JString(s: string)
    | JArray(items: seq<Json>)
    | JObject(fields: map<string, Json>)

  /** `operator[](key)`: the member, or null when the value is not an object
      or has no such key. */
  function Field(j: Json, key: string): Json {
    if j.JObject? && key in j.fields then j.fields[key] else JNull
  }

  /** `array_items`: the elements, or none when the value is not an array. */
  function ArrayItems(j: Json): seq<Json> {
    if j.JArray? then j.items else []
  }

  /** `string_value`: the text, or "" when the value is not a string. */
  function StringValue(j: Json): string {
    if j.JString? then j.s else []
  }

  /** `bool_value`: the flag, or false when the value is not a boolean. */
  function BoolValue(j: Json): bool {
    j.JBool? && j.b
  }

  /** `number_value`: the number, or 0 when the value is not a number. */
  function NumberValue(j: Json): real {
    if j.JNumber? then j.n else 0.0
  }

  /** json11's typed accessors on a value of another type give that type's
      empty value, so a non-empty answer tells the type of the value and
      every other accessor answers empty. */
  lemma AccessorsTyped(j: Json)
    ensures StringValue(j) != [] ==> j.JString? && !BoolValue(j) && NumberValue(j) == 0.0 && ArrayItems(j) == []
    ensures BoolValue(j) ==> j.JBool? && StringValue(j) == [] && NumberValue(j) == 0.0 && ArrayItems(j) == []
    ensures NumberValue(j) != 0.0 ==> j.JNumber? && StringValue(j) == [] && !BoolValue(j) && ArrayItems(j) == []
    ensures ArrayItems(j) != [] ==> j.JArray? && StringValue(j) == [] && !BoolValue(j) && NumberValue(j) == 0.0
    ensures j.JString? ==> JString(StringValue(j)) == j
    ensures j.JNumber? ==> JNumber(NumberValue(j)) == j
    ensures j.JArray? ==> JArray(ArrayItems(j)) == j
  {
  }

  /** A member that is missing (or asked of a value that is no object)
      reads as null, and every accessor on it gives its empty value: an
      absent `score` reads as 0, an absent `text` as "", an absent array
      as no elements, and so on down any path of keys. */
  lemma MissingFieldDefaults(j: Json, key: string, next: string)
    requires !(j.JObject? && key in j.fields)
    ensures StringValue(Field(j, key)) == [] && !BoolValue(Field(j, key))
    ensures NumberValue(Field(j, key)) == 0.0 && IntValue(Field(j, key)) == 0
    ensures ArrayItems(Field(j, key)) == [] && Field(Field(j, key), next) == JNull
  {
  }

  /** `int_value`: the number truncated toward zero, or 0 when the value is
      not a number. */
  function IntValue(j: Json): (r: int)
    ensures !j.JNumber? ==> r == 0
    ensures j.JNumber? && j.n >= 0.0 ==> r as real <= j.n < r as real + 1.0
    ensures j.JNumber? && j.n < 0.0 ==> r as real - 1.0 < j.n <= r as real
  {
    if !j.JNumber? then 0
    else if j.n >= 0.0 then j.n.Floor
    else -((-j.n).Floor)
  }
}
