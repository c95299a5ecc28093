/**
 * JSON values as the bot keeps them in memory and on disk, the abstract
 * encoder/decoder pair that stands for `orjson.dumps`/`orjson.loads`, the
 * storage directory (a map from path to file contents) and the live Python
 * dictionary that the JSON cache hands out by reference.
 */
module Json {
  import opened Wrappers

  datatype Json =
    | JNull
    | JBool(b: bool)
    | JInt(i: int)
    | JStr(s: string)
    | JArr(items: seq<Json>)
    | JObj(fields: map<string, Json>)

  /** Python truthiness of a JSON value (`if not value: ...`). */
  predicate Truthy(v: Json) {
    match v
    case JNull => false
    case JBool(b) => b
    case JInt(i) => i != 0
    case JStr(s) => s != ""
    case JArr(items) => items != []
    case JObj(fields) => fields != map[]
  }

  /** `dict.get(key)` on a JSON object. */
  function Get(fields: map<string, Json>, key: string): Option<Json> {
    if key in fields then Some(fields[key]) else None
  }

  /**
   * The contents of a file: nothing at all, the bytes `orjson.dumps` wrote
   * for some value, or bytes that `orjson.loads` rejects.
   */
  datatype Blob = Empty | Encoded(value: Json) | Unparsable

  /** `orjson.loads`: `None` stands for the exception it raises. */
  function Loads(b: Blob): (r: Option<Json>)
    ensures r.Some? <==> b.Encoded?
  {
    match b
    case Encoded(v) => Some(v)
    case _ => None
  }

  /** `orjson.dumps`: whatever it writes, `orjson.loads` reads back. */
  function Dumps(v: Json): (b: Blob)
    ensures Loads(b) == Some(v)
    ensures b != Empty
  {
    Encoded(v)
  }

  /**
   * Reading a JSON object from `path`, with a missing file read as `b"{}"`;
   * `None` when the file does not hold a JSON object.
   */
  function LoadObject(files: map<string, Blob>, path: string): (r: Option<map<string, Json>>)
    ensures path !in files ==> r == Some(map[])
    ensures path in files ==> (r.Some? <==> Loads(files[path]).Some? && Loads(files[path]).value.JObj?)
  {
    if path !in files then Some(map[])
    else match Loads(files[path])
      case Some(JObj(fields)) => Some(fields)
      case _ => None
  }

  /** Writing a mapping with `orjson.dumps` and reading it back gives the same mapping. */
  lemma ReloadAfterWrite(files: map<string, Blob>, path: string, m: map<string, Json>)
    ensures LoadObject(files[path := Dumps(JObj(m))], path) == Some(m)
  {
  }

  /** The directory the bot reads and writes, file by file. */
  class Disk {
    var files: map<string, Blob>

    constructor (files: map<string, Blob>)
      ensures this.files == files
    {
      this.files := files;
    }
  }

  /** A live Python `dict[str, Any]`: every holder of the reference sees each update. */
  class Mapping {
    var entries: map<string, Json>

    constructor (entries: map<string, Json>)
      ensures this.entries == entries
    {
      this.entries := entries;
    }
  }
}
