/** The methods of the circular store (circular_blob_access.go). */
module CircularBlobAccess {
  import opened Wrappers
  import opened Cursors
  import opened DataStore
  import opened OffsetStore
  import opened OffsetTable
  import opened StateStore
  import opened CircularCalls
  import CS = CircularSystem

  class CircularBlobAccess {
    const dataStore: FileDataStore
    const offsetStore: CachingOffsetStore
    const stateStore: PositiveSizedBlobStateStore

    ghost function Repr(): set<object> {
      {dataStore} + offsetStore.Repr() + stateStore.Repr()
    }

    ghost function Cfg(): CS.Config {
      CS.Config(stateStore.Config(), offsetStore.AllHashes())
    }

    ghost predicate Valid()
      reads Repr()
    {
      stateStore.Valid() && offsetStore.Valid() && dataStore.size == Cfg().Size()
    }

    ghost function Value(): Contents
      requires offsetStore.Valid()
      reads Repr()
    {
      Contents(stateStore.Value(), offsetStore.Value(), dataStore.file)
    }

    constructor (offsetStore: CachingOffsetStore, dataStore: FileDataStore, stateStore: PositiveSizedBlobStateStore)
      requires stateStore.Valid() && offsetStore.Valid() && dataStore.size == stateStore.Config().dataSize
      ensures Valid()
      ensures this.offsetStore == offsetStore && this.dataStore == dataStore && this.stateStore == stateStore
    {
      this.offsetStore, this.dataStore, this.stateStore := offsetStore, dataStore, stateStore;
    }

    method Get(key: Key) returns (length: int64, r: Option<FileDataStoreReader>)
      requires Valid()
      modifies offsetStore.table
      ensures Valid() && Value() == AfterLocate(Cfg(), old(Value()), key)
      ensures var found := LocateBlob(Cfg(), old(Value()), key);
              if found.None? then r.None?
              else length == found.value.length && r.Some? && fresh(r.value) && r.value.ds == dataStore &&
                   r.value.Value() == Reader(found.value.offset, Wrap(length))
    {
      var cursors := stateStore.GetCursors();
      var found := offsetStore.Get(key, cursors);
      length, r := 0, None;
      if found.Some? {
        length := found.value.length;
        var reader := dataStore.Get(found.value.offset, length);
        r := Some(reader);
      }
    }

    method Put(key: Key, size: int64, r: Source, fault: Option<Fault>) returns (status: PutStatus)
      requires Valid()
      modifies Repr()
      ensures Valid() && PutOutcome(Value(), status) == PutBlob(Cfg(), old(Value()), key, size, Reaching(r, fault))
    {
      var offset := stateStore.Allocate(size);
      var ok := dataStore.Put(r, offset, fault);
      if !ok {
        return TransferError;
      }
      var cursors := stateStore.GetCursors();
      if !cursors.Contains(offset, size) {
        return Stale;
      }
      offsetStore.Put(key, Location(offset, size), cursors);
      return Done;
    }

    method Delete(key: Key)
      requires Valid()
      modifies Repr()
      ensures offsetStore.Valid()
      ensures Value() == DeleteBlob(Cfg(), old(Value()), key)
      ensures var found := LocateBlob(Cfg(), old(Value()), key);
              found.None? || Inside(old(Value()).state.cursors, found.value.offset, found.value.length) ==> Valid()
    {
      var cursors := stateStore.GetCursors();
      var found := offsetStore.Get(key, cursors);
      if found.Some? {
        stateStore.Invalidate(found.value.offset, found.value.length);
      }
    }

    method FindMissing(keys: seq<Key>) returns (missing: seq<Key>)
      requires Valid()
      modifies offsetStore.table
      ensures Valid() && Missing(Value(), missing) == FindMissingBlobs(Cfg(), old(Value()), keys)
    {
      hide FindMissingBlobs, MissingFrom;
      missing := [];
      var cursors := stateStore.GetCursors();
      var i := 0;
      assert MissingFrom(Cfg(), Value(), keys, 0, []) == FindMissingBlobs(Cfg(), Value(), keys) by {
        MissingFromStart(Cfg(), Value(), keys);
      }
      while i < |keys|
        invariant i <= |keys| && Valid() && cursors == stateStore.Value().cursors
        invariant MissingFrom(Cfg(), Value(), keys, i, missing) == FindMissingBlobs(Cfg(), old(Value()), keys)
      {
        MissingStep(Cfg(), Value(), keys, i, missing);
        var found := offsetStore.Get(keys[i], cursors);
        if found.None? {
          missing := missing + [keys[i]];
        }
        i := i + 1;
      }
      MissingFromEnd(Cfg(), Value(), keys, missing);
    }
  }
}
