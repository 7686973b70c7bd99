/** Decoded JSON values. A number keeps its text. */
module Json {
  datatype JSON =
    | Null
    | Bool(b: bool)
    | Num(text: string)
    | Str(s: string)
    | Arr(items: seq<JSON>)
    | Obj(fields: map<string, JSON>)
}
