/**
 * A parsed JSON value, as `JSON.parse` and `QJsonDocument::fromJson` produce it.
 * Numbers are integers; object members are keyed by name.
 */
module JsonValue {

  datatype Json =
    | Null
    | Bool(b: bool)
    | Number(n: int)
    | Str(s: string)
    | Array(items: seq<Json>)
    | Object(fields: map<string, Json>)
}
