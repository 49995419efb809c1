/** JSON values as Python holds them: dictionaries keep the order of their keys. */
module JsonTree {

  datatype Json =
    | Null
    | Bool(b: bool)
    | Number(literal: string)
    | Text(s: string)
    | List(items: Items)
    | Dict(entries: Entries)

  datatype Items = NoItem | Item(head: Json, tail: Items)

  datatype Entries = NoEntry | Entry(key: string, value: Json, others: Entries)

  /** How many characters the strings and keys of a value have. */
  function TextSize(v: Json): nat {
    match v
    case Text(s) => |s|
    case List(items) => ItemsTextSize(items)
    case Dict(entries) => EntriesTextSize(entries)
    case _ => 0
  }

  function ItemsTextSize(items: Items): nat {
    match items
    case NoItem => 0
    case Item(head, tail) => TextSize(head) + ItemsTextSize(tail)
  }

  function EntriesTextSize(entries: Entries): nat {
    match entries
    case NoEntry => 0
    case Entry(key, value, others) => |key| + TextSize(value) + EntriesTextSize(others)
  }
}
