/** Decoded JSON values, as the Python `json` decoder hands them to the scripts.
    Booleans and floats are not distinguished: for the record extractor they behave
    like integers (neither has `.get`, neither can be subscripted). */
module Json {
  datatype JValue =
    | JNull
    | JInt(n: int)
    | JStr(s: string)
    | JList(items: seq<JValue>)
    | JObj(fields: map<string, JValue>)
}
