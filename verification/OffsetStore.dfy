/**
 * The index of the circular store as it is configured: the displacing table in the offset file
 * (file_offset_store.go) below a direct-mapped cache of locations (caching_offset_store.go).
 */
module OffsetStore {
  import opened Wrappers
  import opened Cursors
  import opened OffsetTable

  datatype CachedRecord = CachedRecord(key: Key, at: Location)

  /** What a cache slot holds that was never assigned. */
  const NO_RECORD: CachedRecord := CachedRecord(BLANK.key, Location(0, 0))

  type Cache = s: seq<CachedRecord> | 0 < |s| witness [NO_RECORD]

  /** The slot hashes of both layers, each an arbitrary function. */
  datatype Hashes = Hashes(table: SlotHash, cache: Key -> nat)

  datatype Layers = Layers(table: Table, cache: Cache)

  function CacheSlot(h: Hashes, x: Layers, key: Key): (p: nat)
    ensures p < |x.cache|
  {
    h.cache(key) % |x.cache|
  }

  /** Get through the cache. */
  function Find(h: Hashes, x: Layers, c: Cursors, key: Key): Option<Location> {
    var r := x.cache[CacheSlot(h, x, key)];
    if r.key == key && c.Contains(r.at.offset, r.at.length) then Some(r.at)
    else Lookup(h.table, x.table, c, key)
  }

  /** What Get leaves in the cache. */
  function AfterFind(h: Hashes, x: Layers, c: Cursors, key: Key): Layers {
    var found := Find(h, x, c, key);
    if found.None? then x else x.(cache := x.cache[CacheSlot(h, x, key) := CachedRecord(key, found.value)])
  }

  function Remember(h: Hashes, x: Layers, c: Cursors, key: Key, at: Location): Layers {
    Layers(Insert(h.table, x.table, c, key, at), x.cache[CacheSlot(h, x, key) := CachedRecord(key, at)])
  }

  /** Both layers only hold locations that were stored, or what blank slots read as. */
  predicate Sound(x: Layers, stored: History) {
    Recorded(x.table, stored) && forall p | 0 <= p < |x.cache| :: Known(stored, x.cache[p].key, x.cache[p].at)
  }

  lemma FindIsSound(h: Hashes, x: Layers, c: Cursors, key: Key, stored: History)
    requires Sound(x, stored)
    ensures Sound(AfterFind(h, x, c, key), stored)
    ensures var found := Find(h, x, c, key);
            found.Some? ==> Known(stored, key, found.value) && c.Contains(found.value.offset, found.value.length)
  {
    if Lookup(h.table, x.table, c, key).Some? {
      ProbeIsSound(h.table, x.table, c, key, 0, stored);
    }
  }

  lemma StoreIsSound(h: Hashes, x: Layers, c: Cursors, key: Key, at: Location, stored: History)
    requires Sound(x, stored)
    ensures Sound(Remember(h, x, c, key, at), stored + {(key, at)})
  {
    InsertKeepsRecorded(h.table, x.table, c, key, at, stored);
  }

  /** A lookup does not change what later lookups of the key find while it stays between the cursors. */
  lemma FindAgain(h: Hashes, x: Layers, c: Cursors, key: Key, c': Cursors)
    requires var found := Find(h, x, c, key);
             found.Some? && c'.Contains(found.value.offset, found.value.length)
    ensures Find(h, AfterFind(h, x, c, key), c', key) == Find(h, x, c, key)
  {
  }

  /** The key stored last is found where it was stored, even if the table dropped it. */
  lemma FindAfterStore(h: Hashes, x: Layers, c: Cursors, key: Key, at: Location, c': Cursors)
    requires c'.Contains(at.offset, at.length)
    ensures Find(h, Remember(h, x, c, key, at), c', key) == Some(at)
  {
  }

  // ---------------------------------------------------------------------------------------------
  // The stores
  // ---------------------------------------------------------------------------------------------

  /** The table in the offset file, one array element per slot. */
  class FileOffsetStore {
    const hash: SlotHash
    const slots: array<Record>

    constructor (hash: SlotHash, slots: array<Record>)
      requires 0 < slots.Length
      ensures this.hash == hash && this.slots == slots
    {
      this.hash, this.slots := hash, slots;
    }

    method Get(key: Key, c: Cursors) returns (found: Option<Location>)
      requires 0 < slots.Length
      ensures found == Lookup(hash, slots[..], c, key)
    {
      var iteration := 1;
      while iteration < MAXIMUM_ITERATIONS
        invariant 1 <= iteration <= MAXIMUM_ITERATIONS
        invariant Lookup(hash, slots[..], c, key) == Probe(hash, slots[..], c, key, iteration - 1)
      {
        var position := Position(hash, slots.Length, key, iteration - 1);
        var stored := slots[position];
        if !c.Contains(stored.offset, stored.length) {
          return None;
        }
        if stored.key == key && stored.attempt == iteration - 1 {
          return Some(Location(stored.offset, stored.length));
        }
        if Position(hash, slots.Length, stored.key, stored.attempt) != position {
          return None;
        }
        iteration := iteration + 1;
      }
      return None;
    }

    method PutRecord(r: Record, c: Cursors) returns (carried: Option<Record>)
      requires 0 < slots.Length
      modifies slots
      ensures Step(slots[..], carried) == OffsetTable.PutRecord(hash, old(slots[..]), c, r)
    {
      var position := Position(hash, slots.Length, r.key, r.attempt);
      var previous := slots[position];
      if !c.Contains(previous.offset, previous.length)
        || previous.attempt >= MAXIMUM_ITERATIONS - 1
        || Position(hash, slots.Length, previous.key, previous.attempt) != position
      {
        slots[position] := r;
        return None;
      }
      if previous.offset <= r.offset {
        slots[position] := r;
        return Some(previous.(attempt := previous.attempt + 1));
      }
      if r.attempt >= MAXIMUM_ITERATIONS - 1 {
        return None;
      }
      return Some(r.(attempt := r.attempt + 1));
    }

    method Put(key: Key, at: Location, c: Cursors)
      requires 0 < slots.Length
      modifies slots
      ensures slots[..] == Insert(hash, old(slots[..]), c, key, at)
    {
      var record := Record(key, 0, at.offset, at.length);
      var iteration := 1;
      while iteration <= MAXIMUM_ITERATIONS
        invariant 1 <= iteration <= MAXIMUM_ITERATIONS + 1
        invariant PutChain(hash, slots[..], c, record, MAXIMUM_ITERATIONS + 1 - iteration)
               == Insert(hash, old(slots[..]), c, key, at)
      {
        var next := PutRecord(record, c);
        if next.None? {
          return;
        }
        record := next.value;
        iteration := iteration + 1;
      }
    }
  }

  /** The cache above it. */
  class CachingOffsetStore {
    const backend: FileOffsetStore
    const hash: Key -> nat
    const table: array<CachedRecord>

    ghost predicate Valid() {
      0 < backend.slots.Length && 0 < table.Length && table as object != backend.slots
    }

    ghost function Repr(): set<object> {
      {table, backend.slots}
    }

    ghost function AllHashes(): Hashes {
      Hashes(backend.hash, hash)
    }

    ghost function Value(): Layers
      requires Valid()
      reads table, backend.slots
    {
      Layers(backend.slots[..], table[..])
    }

    constructor (backend: FileOffsetStore, hash: Key -> nat, size: nat)
      requires 0 < size && 0 < backend.slots.Length
      ensures Valid() && fresh(table) && this.backend == backend && this.hash == hash
      ensures table.Length == size && forall p | 0 <= p < size :: table[p] == NO_RECORD
    {
      this.backend, this.hash := backend, hash;
      table := new CachedRecord[size](_ => NO_RECORD);
    }

    method Get(key: Key, c: Cursors) returns (found: Option<Location>)
      requires Valid()
      modifies table
      ensures found == Find(AllHashes(), old(Value()), c, key)
      ensures Value() == AfterFind(AllHashes(), old(Value()), c, key)
    {
      var slot := hash(key) % table.Length;
      var record := table[slot];
      if record.key == key && c.Contains(record.at.offset, record.at.length) {
        return Some(record.at);
      }
      found := backend.Get(key, c);
      if found.Some? {
        table[slot] := CachedRecord(key, found.value);
      }
    }

    method Put(key: Key, at: Location, c: Cursors)
      requires Valid()
      modifies Repr()
      ensures Value() == Remember(AllHashes(), old(Value()), c, key, at)
    {
      backend.Put(key, at, c);
      table[hash(key) % table.Length] := CachedRecord(key, at);
    }
  }
}
