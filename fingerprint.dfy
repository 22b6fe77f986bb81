/** The visitor id cache of `chillsync/client/src/utils/fingerprint.js`: an id is looked up in
    local storage, and only when none is there is one computed (by the fingerprinting library, or
    at random when that fails) and stored. The library's answer and the random fallback are
    inputs. */
module Fingerprint {
  import opened JsText

  /** The local-storage key of the visitor id. */
  const StorageKey := "chillsync_visitor_id"

  /** What the fingerprinting library yields: an id, or a failure (the `catch` branch). */
  datatype Fingerprinted = Fingerprinted(visitorId: string) | Failed

  /** The id a fresh computation produces. */
  function Computed(oracle: Fingerprinted, fallback: string): string
  {
    if oracle.Fingerprinted? then oracle.visitorId else fallback
  }

  /** `getShortVisitorId`'s `substring(0, 6)`: the first six characters, or all of a shorter id. */
  function ShortId(id: string): (r: string)
    ensures |r| == if |id| < 6 then |id| else 6
    ensures r == id[..|r|]
  {
    Substring(id, 0, 6)
  }

  class VisitorIds {
    /** Local storage, of which only `StorageKey` is used here. */
    var storage: map<string, string>

    constructor (storage: map<string, string>)
      ensures this.storage == storage
    {
      this.storage := storage;
    }

    /** A truthy id is stored. */
    predicate HasId()
      reads this
    {
      StorageKey in storage && storage[StorageKey] != ""
    }

    /** `getVisitorId`: a stored id is returned as it is and nothing is computed; otherwise the
        computed id is stored before it is returned, and storage changes in that key alone. */
    method GetVisitorId(oracle: Fingerprinted, fallback: string) returns (id: string, computed: bool)
      modifies this
      ensures old(HasId()) ==> !computed && id == old(storage)[StorageKey] && storage == old(storage)
      ensures !old(HasId()) ==> computed && id == Computed(oracle, fallback)
                                && storage == old(storage)[StorageKey := id]
      ensures id != "" ==> HasId() && storage[StorageKey] == id
    {
      if StorageKey in storage && storage[StorageKey] != "" {
        return storage[StorageKey], false;
      }
      id := Computed(oracle, fallback);
      storage := storage[StorageKey := id];
      computed := true;
    }

    /** `getShortVisitorId`. */
    method GetShortVisitorId(oracle: Fingerprinted, fallback: string) returns (short: string)
      modifies this
      ensures old(HasId()) ==> short == ShortId(old(storage)[StorageKey]) && storage == old(storage)
      ensures !old(HasId()) ==> short == ShortId(Computed(oracle, fallback))
                                && storage == old(storage)[StorageKey := Computed(oracle, fallback)]
    {
      var id, _ := GetVisitorId(oracle, fallback);
      short := ShortId(id);
    }
  }

  /** Once an id is handed out, every later call hands out the same one without computing,
      whatever the library would now answer: the cache is sticky, the failure fallback included. */
  method SecondCallAgrees(storage: map<string, string>, first: Fingerprinted, fallback1: string,
                          second: Fingerprinted, fallback2: string)
    returns (a: string, b: string, recomputed: bool)
    ensures a != "" ==> b == a && !recomputed
    ensures StorageKey !in storage && first.Failed? ==> a == fallback1
  {
    var ids := new VisitorIds(storage);
    var computedFirst;
    a, computedFirst := ids.GetVisitorId(first, fallback1);
    b, recomputed := ids.GetVisitorId(second, fallback2);
  }
}
