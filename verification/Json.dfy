/** JSON values as the repository stores and exchanges them. */
module Json {
  datatype Json =
    | Null
    | Bool(truth: bool)
    | Number(value: int)
    | Text(text: string)
    | List(items: seq<Json>)
    | Object(fields: map<string, Json>)
}
