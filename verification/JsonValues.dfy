/** JSON values, as the schema compiler sees them. A Python dict is a map: its order carries no meaning here. */
module JsonValues {
  datatype Value =
    | Null
    | Bool(b: bool)
    | Num(n: int)
    | Str(s: string)
    | Arr(items: seq<Value>)
    | Obj(members: map<string, Value>)
}
