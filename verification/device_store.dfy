/** The device's persistent key-value store (AsyncStorage): string keys,
    string values. Whether a call reaches the disk is a parameter. */
module DeviceStorage {
  import opened Common

  /** A read or write the platform rejected. */
  datatype StorageError = StorageUnavailable

  class Store {
    var entries: map<string, string>

    constructor ()
      ensures entries == map[]
    {
      entries := map[];
    }

    /** `getItem`: the stored value, `null` when the key is missing. */
    method GetItem(key: string, fail: bool) returns (r: Result<Option<string>, StorageError>)
      ensures fail ==> r == Err(StorageUnavailable)
      ensures !fail && key in entries ==> r == Ok(Some(entries[key]))
      ensures !fail && key !in entries ==> r == Ok(None)
    {
      if fail {
        return Err(StorageUnavailable);
      }
      r := Ok(if key in entries then Some(entries[key]) else None);
    }

    /** `setItem`: stores `value` under `key`, replacing what was there. */
    method SetItem(key: string, value: string, fail: bool) returns (r: Outcome<StorageError>)
      modifies this
      ensures fail ==> r == Fail(StorageUnavailable) && entries == old(entries)
      ensures !fail ==> r == Pass && entries == old(entries)[key := value]
    {
      if fail {
        return Fail(StorageUnavailable);
      }
      entries := entries[key := value];
      r := Pass;
    }

    /** `removeItem`: the key is gone afterwards, whether or not it was there. */
    method RemoveItem(key: string, fail: bool) returns (r: Outcome<StorageError>)
      modifies this
      ensures fail ==> r == Fail(StorageUnavailable) && entries == old(entries)
      ensures !fail ==> r == Pass && entries == old(entries) - {key}
    {
      if fail {
        return Fail(StorageUnavailable);
      }
      entries := entries - {key};
      r := Pass;
    }
  }
}
