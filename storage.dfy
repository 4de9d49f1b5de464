/**
 * The browser's `localStorage` and the task list kept in it (src/storage.ts).
 * JSON text is produced and read by functions given as parameters.
 */
module Storage {
  import opened Wrappers
  import Types

  /** `window.localStorage`: a map from key to stored string; a missing key reads as `null`. */
  class LocalStorage {
    var items: map<string, string>

    constructor (initial: map<string, string>)
      ensures items == initial
    {
      items := initial;
    }

    /** `setItem(key, value)`: the one entry is replaced, every other one is kept. */
    method SetItem(key: string, value: string)
      modifies this
      ensures items == old(items)[key := value]
    {
      items := items[key := value];
    }
  }

  /** `getItem(key)`. */
  function GetItem(items: map<string, string>, key: string): (r: Option<string>)
    ensures r.Some? <==> key in items
    ensures r.Some? ==> r.value == items[key]
  {
    if key in items then Some(items[key]) else None
  }

  /** The one key the task list is kept under. */
  const Key: string := "wlb_tasks_v1"

  /**
   * What `JSON.parse` makes of a text, as far as `loadTasks` looks: it throws, or
   * yields a value that is not an array, or yields an array of elements.
   */
  datatype Parsed<V> = ParseFailure | NotAnArray | AnArray(elements: seq<V>)

  /**
   * `loadTasks()`: the elements of the array stored under `Key`, taken as they are.
   * A missing key, an empty string, text that does not parse and a value that is
   * not an array all give the empty list; nothing escapes as an exception.
   */
  function LoadTasks<V>(items: map<string, string>, parse: string -> Parsed<V>): (r: seq<V>)
    ensures Key !in items || items[Key] == "" ==> r == []
    ensures Key in items && items[Key] != "" && !parse(items[Key]).AnArray? ==> r == []
    ensures Key in items && items[Key] != "" && parse(items[Key]).AnArray? ==>
              r == parse(items[Key]).elements
  {
    match GetItem(items, Key)
    case None => []
    case Some(raw) =>
      if raw == "" then []
      else
        match parse(raw)
        case AnArray(elements) => elements
        case _ => []
  }

  /** `saveTasks(tasks)`: the serialised list is written under `Key` and nowhere else. */
  method SaveTasks(storage: LocalStorage, tasks: seq<Types.Task>, stringify: seq<Types.Task> -> string)
    modifies storage
    ensures storage.items == old(storage.items)[Key := stringify(tasks)]
    ensures forall k :: k != Key ==> GetItem(storage.items, k) == GetItem(old(storage.items), k)
  {
    storage.SetItem(Key, stringify(tasks));
  }

  /**
   * Saving and then loading gives back the saved list, provided the JSON text
   * is not empty and parses back to the same array.
   */
  lemma SaveThenLoad(
    items: map<string, string>, tasks: seq<Types.Task>,
    stringify: seq<Types.Task> -> string, parse: string -> Parsed<Types.Task>)
    requires stringify(tasks) != ""
    requires parse(stringify(tasks)) == AnArray(tasks)
    ensures LoadTasks(items[Key := stringify(tasks)], parse) == tasks
  {
  }
}
