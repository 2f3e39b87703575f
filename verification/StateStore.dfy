/**
 * The state stores: the cursor pair kept in the state file (file_state_store.go), the
 * sub-allocator above it (bulk_allocating_state_store.go) and the adapter that makes every blob
 * occupy at least one byte (positive_sized_blob_state_store.go).
 */
module StateStore {
  import opened Wrappers
  import opened Cursors
  import opened Allocation

  /** What is made of the state file. One that is too short or holds Read > Write counts as empty. */
  function Loaded(file: Option<Cursors>): Cursors {
    if file.Some? && file.value.read <= file.value.write then file.value else Cursors(0, 0)
  }

  /** What was saved is loaded again, also when the store is empty. */
  lemma RestartKeepsCursors(c: Cursors, dataSize: uint64)
    requires c.InWindow(dataSize)
    ensures Loaded(Some(c)) == c
  {
  }

  /** Exactly when the window that everything else relies on holds after that. */
  lemma LoadedInWindowIff(file: Option<Cursors>, dataSize: uint64)
    ensures Loaded(file).InWindow(dataSize)
       <==> (file.Some? && file.value.read <= file.value.write ==> file.value.write - file.value.read <= dataSize)
  {
  }

  /** A state file for which it does not: two live blobs share a byte of a data file of four. */
  lemma StateFileIsNotChecked()
    ensures var c := Loaded(Some(Cursors(0, 5)));
            !c.InWindow(4) && Inside(c, 0, 1) && Inside(c, 4, 1) &&
            0 in Positions(4, 0, 1) && 0 in Positions(4, 4, 1)
  {
    assert 0 % 4 == 0 && 4 % 4 == 0;
  }

  /** The cursor pair in memory and in the state file. */
  class FileStateStore {
    const dataSize: uint64
    var file: Option<Cursors>
    var cursors: Cursors

    /** A restart finds the cursors that are in memory, and the window that allocation relies on holds. */
    ghost predicate Valid()
      reads this
    {
      0 < dataSize <= TWO_63 && cursors.InWindow(dataSize) && cursors == Loaded(file)
    }

    constructor (file: Option<Cursors>, dataSize: uint64)
      ensures this.dataSize == dataSize && this.file == file
      ensures cursors == Loaded(file)
      ensures Valid() <==> 0 < dataSize <= TWO_63 && cursors.InWindow(dataSize)
    {
      this.file, this.dataSize := file, dataSize;
      cursors := if file.Some? && file.value.read <= file.value.write then file.value else Cursors(0, 0);
    }

    /** The program stops when Read > Write; no caller in this class gets there. */
    method Put(c: Cursors)
      requires c.read <= c.write
      modifies this
      ensures cursors == c && file == Some(c)
    {
      file := Some(c);
      cursors := c;
    }

    method Allocate(size: int64) returns (offset: uint64)
      requires Valid() && -TWO_63 <= size
      modifies this
      ensures Valid()
      ensures offset == old(cursors.write) && cursors == Allocated(old(cursors), dataSize, size)
    {
      var c := cursors;
      offset := c.write;
      c := c.(write := Wrap(c.write + size));
      if c.read > c.write {
        c := c.(read := c.write);
      } else if Wrap(c.read + dataSize) < c.write {
        c := c.(read := Wrap(c.write - dataSize));
      }
      Put(c);
    }

    method Invalidate(offset: uint64, size: int64)
      modifies this
      ensures cursors == Invalidated(old(cursors), offset, size) && file == Some(cursors)
      ensures old(Valid()) && Inside(old(cursors), offset, size) && 1 <= size ==> Valid()
    {
      var c := cursors.(read := Wrap(offset + size));
      if c.write < c.read {
        c := c.(write := c.read);
      }
      Put(c);
    }
  }

  /** Sub-allocation from chunks. */
  class BulkAllocatingStateStore {
    const backend: FileStateStore
    const chunkSize: uint64
    var writeCursor: uint64

    ghost predicate Valid()
      reads this, backend
    {
      0 < chunkSize && backend.Valid()
    }

    ghost function Config(): Geometry {
      Geometry(backend.dataSize, chunkSize)
    }

    ghost function Value(): State
      reads this, backend
    {
      State(backend.cursors, writeCursor)
    }

    constructor (backend: FileStateStore, chunkSize: uint64)
      ensures this.backend == backend && this.chunkSize == chunkSize && writeCursor == TWO_64 - 1
    {
      this.backend, this.chunkSize, writeCursor := backend, chunkSize, TWO_64 - 1;
    }

    method Allocate(size: int64) returns (offset: uint64)
      requires Valid()
      modifies this, backend
      ensures Valid()
      ensures var a := BulkAllocate(Config(), old(Value()), size); Value() == a.state && offset == a.offset
    {
      hide ChunksFor, Allocated;
      var cursors := backend.cursors;
      if writeCursor < cursors.read {
        writeCursor := cursors.read;
      }
      if writeCursor > cursors.write {
        writeCursor := cursors.write;
      }
      var spaceLeft := Wrap(cursors.write - writeCursor);
      if Wrap(size) > spaceLeft {
        var allocationSize := ChunksFor(Geometry(backend.dataSize, chunkSize), Wrap(size) - spaceLeft);
        var _ := backend.Allocate(ToSigned(allocationSize));
      }
      offset := writeCursor;
      writeCursor := Wrap(writeCursor + size);
    }

    method Invalidate(offset: uint64, size: int64)
      modifies backend
      ensures old(Valid()) && Inside(old(Value()).cursors, offset, size) && 1 <= size ==> Valid()
      ensures Value() == old(Value()).(cursors := Invalidated(old(Value()).cursors, offset, size))
    {
      backend.Invalidate(offset, size);
    }
  }

  /** Blobs occupy at least one byte, so no two of them start at the same offset. */
  class PositiveSizedBlobStateStore {
    const backend: BulkAllocatingStateStore

    ghost predicate Valid()
      reads backend, backend.backend
    {
      backend.Valid()
    }

    ghost function Repr(): set<object> {
      {backend, backend.backend}
    }

    ghost function Config(): Geometry {
      backend.Config()
    }

    ghost function Value(): State
      reads Repr()
    {
      backend.Value()
    }

    constructor (backend: BulkAllocatingStateStore)
      ensures this.backend == backend
    {
      this.backend := backend;
    }

    method GetCursors() returns (c: Cursors)
      ensures c == Value().cursors
    {
      c := backend.backend.cursors;
    }

    method Allocate(size: int64) returns (offset: uint64)
      requires Valid()
      modifies Repr()
      ensures Valid()
      ensures var a := Allocation.Allocate(Config(), old(Value()), size); Value() == a.state && offset == a.offset
    {
      var n := size;
      if n < 1 {
        n := 1;
      }
      offset := backend.Allocate(n);
    }

    method Invalidate(offset: uint64, size: int64)
      requires Valid()
      modifies Repr()
      ensures Value() == Allocation.Invalidate(old(Value()), offset, size)
      ensures Inside(old(Value()).cursors, offset, size) ==> Valid()
    {
      var n := size;
      if n < 1 {
        n := 1;
      }
      backend.Invalidate(offset, n);
    }
  }
}
