/**
 * A value model of the JSON tokens the event codec reads and writes. An object
 * is a map from property name to token: property order carries no meaning for
 * the codec, which only looks properties up by name.
 */
module Json {

  datatype JToken =
    | JNull
    | JBool(b: bool)
    | JInteger(n: int)
    | JString(s: string)
    | JArray(items: seq<JToken>)
    | JObject(properties: map<string, JToken>)

  type Properties = map<string, JToken>

  /**
   * `JObject.AddFirst` of a new property. A JObject refuses a second property
   * with a name it already holds, so the name must be new.
   */
  function AddFirst(o: Properties, name: string, value: JToken): (r: Properties)
    requires name !in o
  {
    o[name := value]
  }
}
