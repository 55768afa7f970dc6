/**
  The device key-value store behind the task store (expo-secure-store).
  Values are kept already decoded: JSON.stringify followed by JSON.parse is
  taken to give back the same task list. Whether the device completes a call
  or rejects it is not decided here, so each call receives that as `deviceOk`.
 */
module Storage {
  import opened Tasks

  /** The one key the task store reads and writes. */
  const TasksKey: string := "tasks"

  datatype Option<T> = None | Some(value: T)

  /** How an asynchronous call settles: resolved with a value, or rejected (thrown). */
  datatype Reply<T> = Resolved(value: T) | Rejected

  class SecureStore {
    var items: map<string, seq<Task>>

    constructor (initial: map<string, seq<Task>>)
      ensures items == initial
    {
      items := initial;
    }

    /** setItemAsync: stores `value` under `key` unless the device rejects the write. */
    method SetItem(key: string, value: seq<Task>, deviceOk: bool) returns (r: Reply<()>)
      modifies this
      ensures r.Resolved? == deviceOk
      ensures items == if deviceOk then old(items)[key := value] else old(items)
    {
      if deviceOk {
        items := items[key := value];
        r := Resolved(());
      } else {
        r := Rejected;
      }
    }

    /** getItemAsync: what is stored under `key` (None when nothing is), unless the read or its parse fails. */
    method GetItem(key: string, deviceOk: bool) returns (r: Reply<Option<seq<Task>>>)
      ensures r.Resolved? == deviceOk
      ensures r.Resolved? ==> (r.value.Some? <==> key in items)
      ensures r.Resolved? && r.value.Some? ==> r.value.value == items[key]
    {
      if !deviceOk {
        r := Rejected;
      } else if key in items {
        r := Resolved(Some(items[key]));
      } else {
        r := Resolved(None);
      }
    }

    /** deleteItemAsync: removes `key` (absent or not) unless the device rejects the call. */
    method DeleteItem(key: string, deviceOk: bool) returns (r: Reply<()>)
      modifies this
      ensures r.Resolved? == deviceOk
      ensures items == if deviceOk then old(items) - {key} else old(items)
    {
      if deviceOk {
        items := items - {key};
        r := Resolved(());
      } else {
        r := Rejected;
      }
    }
  }
}
