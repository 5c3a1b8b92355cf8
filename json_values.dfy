/** The values `json.loads` can return, and a mutable dictionary for the
    in-place updates the Python code makes to a decoded object. */
module JsonValues {

  datatype Json =
    | JNull
    | JBool(b: bool)
    | JNumber(n: real)
    | JString(s: string)
    | JArray(items: seq<Json>)
    | JObject(fields: map<string, Json>)

  /** A Python `dict` decoded from JSON, updated by item assignment. */
  class JsonDict {
    var entries: map<string, Json>

    constructor (fields: map<string, Json>)
      ensures entries == fields
    {
      entries := fields;
    }

    /** `d[key] = value`: adds the key or replaces its value, keeping every other entry. */
    method SetItem(key: string, value: Json)
      modifies this
      ensures entries == old(entries)[key := value]
    {
      entries := entries[key := value];
    }
  }
}
