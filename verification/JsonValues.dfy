/** JSON values and the paths into them. */
module JsonValues {
  import opened Prelude

  /** A JSON value; an object is its entries in order. */
  datatype Json =
    | Null
    | Bool(b: bool)
    | Num(n: int)
    | Str(s: string)
    | Arr(items: seq<Json>)
    | Obj(entries: seq<Entry>)

  datatype Entry = Entry(key: string, value: Json)

  datatype Key = Field(name: string) | Index(at: nat)

  /** The first entry of that name. */
  function Lookup(entries: seq<Entry>, name: string): Option<Json> {
    if entries == [] then None
    else if entries[0].key == name then Some(entries[0].value)
    else Lookup(entries[1..], name)
  }

  function Child(j: Json, key: Key): Option<Json> {
    match key
    case Field(name) => if j.Obj? then Lookup(j.entries, name) else None
    case Index(at) => if j.Arr? && at < |j.items| then Some(j.items[at]) else None
  }

  /** What a path into a config leads to. */
  function ValueAt(j: Json, path: seq<Key>): Option<Json>
    decreases |path|
  {
    if path == [] then Some(j)
    else if Child(j, path[0]).None? then None
    else ValueAt(Child(j, path[0]).value, path[1..])
  }
}
