/**
 * Already-decoded JSON values, as the Gson library hands them to the SDK:
 * strings, numbers, booleans, null, lists and string-keyed objects.
 * Numbers are modelled as integers.
 */
module JsonValues {

  datatype Value =
    | Null
    | Bool(b: bool)
    | Num(n: int)
    | Str(s: string)
    | Arr(items: seq<Value>)
    | Obj(fields: map<string, Value>)

  /** A decoded JSON object: the `Map<String, Object>` the SDK passes around. */
  type Object = map<string, Value>
}
