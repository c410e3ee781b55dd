/**
 * The in-memory key/value store used in place of a persistent storage unit:
 * a map from keys to values, updated in place. Epochs are accepted and
 * ignored; the lookups the store does not support always fail.
 */
module Storer {
  import opened Wrappers
  import opened GoInts

  type Bytes = seq<byte>

  datatype StoreError =
    | NotFound(key: Bytes)   // Get on a key that is not stored
    | NotImplemented         // Has, HasInEpoch and SearchFirst

  class StorerMock {
    var data: map<Bytes, Bytes>

    /** A new store is empty. */
    constructor ()
      ensures data == map[]
    {
      data := map[];
    }

    /** Stores `value` under `key`, replacing any previous value; never fails. */
    method Put(key: Bytes, value: Bytes) returns (err: Option<StoreError>)
      modifies this
      ensures err.None?
      ensures data == old(data)[key := value]
    {
      data := data[key := value];
      err := None;
    }

    /** The value stored under `key`, or a not-found error when there is none. */
    method Get(key: Bytes) returns (r: Result<Bytes, StoreError>)
      ensures key in data ==> r == Ok(data[key])
      ensures key !in data ==> r == Err(NotFound(key))
    {
      if key !in data {
        return Err(NotFound(key));
      }
      r := Ok(data[key]);
    }

    /** `Get`, whatever the epoch. */
    method GetFromEpoch(key: Bytes, epoch: U32) returns (r: Result<Bytes, StoreError>)
      ensures key in data ==> r == Ok(data[key])
      ensures key !in data ==> r == Err(NotFound(key))
    {
      r := Get(key);
    }

    /**
     * Looks every key up and returns the ones that are stored, each with its
     * value; keys that are not stored are left out. Never fails.
     */
    method GetBulkFromEpoch(keys: seq<Bytes>, epoch: U32) returns (r: Result<map<Bytes, Bytes>, StoreError>)
      ensures r.Ok?
      ensures forall k :: k in r.value <==> k in keys && k in data
      ensures forall k :: k in r.value ==> r.value[k] == data[k]
    {
      var retValue: map<Bytes, Bytes> := map[];
      for i := 0 to |keys|
        invariant forall k :: k in retValue <==> k in keys[..i] && k in data
        invariant forall k :: k in retValue ==> retValue[k] == data[k]
      {
        assert keys[..i + 1] == keys[..i] + [keys[i]];
        var value := Get(keys[i]);
        if value.Err? {
          continue;
        }
        retValue := retValue[keys[i] := value.value];
      }
      assert keys[..|keys|] == keys;
      r := Ok(retValue);
    }

    /** Not supported: always an error. */
    method HasInEpoch(key: Bytes, epoch: U32) returns (err: Option<StoreError>)
      ensures err == Some(NotImplemented)
    {
      err := Some(NotImplemented);
    }

    /** Not supported: always an error. */
    method SearchFirst(key: Bytes) returns (r: Result<Bytes, StoreError>)
      ensures r == Err(NotImplemented)
    {
      r := Err(NotImplemented);
    }

    /** Not supported: always an error. */
    method Has(key: Bytes) returns (err: Option<StoreError>)
      ensures err == Some(NotImplemented)
    {
      err := Some(NotImplemented);
    }

    /** Deletes `key`; deleting a key that is not stored is not an error. */
    method Remove(key: Bytes) returns (err: Option<StoreError>)
      modifies this
      ensures err.None?
      ensures data == old(data) - {key}
    {
      data := data - {key};
      err := None;
    }
  }

  /**
   * What a caller observes through the store's operations: a value put is
   * read back, other keys keep their values, a removed key is not found, and
   * removing it again changes nothing.
   */
  method StoreRoundTrip(k: Bytes, other: Bytes, v: Bytes, w: Bytes)
    returns (initial: Result<Bytes, StoreError>, afterPut: Result<Bytes, StoreError>,
             untouched: Result<Bytes, StoreError>, afterRemove: Result<Bytes, StoreError>,
             afterSecondRemove: Result<Bytes, StoreError>)
    requires k != other
    ensures initial == Err(NotFound(k))
    ensures afterPut == Ok(v)
    ensures untouched == Ok(w)
    ensures afterRemove == Err(NotFound(k)) && afterSecondRemove == Err(NotFound(k))
  {
    var store := new StorerMock();
    initial := store.Get(k);
    var _ := store.Put(other, w);
    var _ := store.Put(k, v);
    afterPut := store.Get(k);
    untouched := store.GetFromEpoch(other, 7);
    var _ := store.Remove(k);
    afterRemove := store.Get(k);
    var _ := store.Remove(k);
    afterSecondRemove := store.Get(k);
  }
}
