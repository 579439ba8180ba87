/**
 * The browser environment the pages act on: `localStorage` as a
 * string-to-string map and the router's current location, changed by
 * `navigate(to)`.
 */
module Browser {
  import opened Wrappers

  type Storage = map<string, string>

  /** `localStorage.getItem(key)`: `null` when the key is absent. */
  function Get(storage: Storage, key: string): (v: Option<string>)
    ensures v.Some? <==> key in storage
    ensures v.Some? ==> v.value == storage[key]
  {
    if key in storage then Some(storage[key]) else None
  }

  /** `localStorage.setItem(key, value)`. */
  function Put(storage: Storage, key: string, value: string): (after: Storage)
    ensures Get(after, key) == Some(value)
    ensures forall k :: k != key ==> Get(after, k) == Get(storage, k)
  {
    storage[key := value]
  }

  /** `localStorage.removeItem(key)`; removing an absent key changes nothing. */
  function Delete(storage: Storage, key: string): (after: Storage)
    ensures Get(after, key) == None
    ensures forall k :: k != key ==> Get(after, k) == Get(storage, k)
    ensures key !in storage ==> after == storage
  {
    storage - {key}
  }

  /** JavaScript truthiness of a `getItem` result: present and not the empty string. */
  function Truthy(v: Option<string>): (truthy: bool)
    ensures truthy <==> v != None && v != Some("")
  {
    v.Some? && v.value != ""
  }

  /** What the pages can observe and change: storage and location. */
  datatype Snapshot = Snapshot(storage: Storage, location: string)

  class Window {
    var storage: Storage
    var location: string

    constructor (storage: Storage, location: string)
      ensures this.storage == storage && this.location == location
    {
      this.storage := storage;
      this.location := location;
    }

    function State(): Snapshot
      reads this
    {
      Snapshot(storage, location)
    }

    method SetItem(key: string, value: string)
      modifies this
      ensures State() == Snapshot(Put(old(storage), key, value), old(location))
    {
      storage := Put(storage, key, value);
    }

    method RemoveItem(key: string)
      modifies this
      ensures State() == Snapshot(Delete(old(storage), key), old(location))
    {
      storage := Delete(storage, key);
    }

    /** `navigate(to)`: the router moves to `to`; storage is untouched. */
    method Navigate(to: string)
      modifies this
      ensures State() == Snapshot(old(storage), to)
    {
      location := to;
    }
  }
}
