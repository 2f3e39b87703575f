/**
 * The data file of the circular store (file_data_store.go): blobs are written at their linear
 * offset modulo the configured size, and read back the same way.
 */
module DataStore {
  import opened Arithmetic
  import opened Cursors
  import opened Wrappers

  type byte = x: int | 0 <= x < 256
  type Bytes = seq<byte>

  /** What Put() reads from its source at once. */
  const BUFFER_SIZE: nat := 65536

  // ---------------------------------------------------------------------------------------------
  // Files
  // ---------------------------------------------------------------------------------------------

  /** A positioned write. The file grows when the write ends past its end. */
  function WriteAt(f: Bytes, position: nat, b: Bytes): Bytes {
    if b == [] then f
    else seq(Max(|f|, position + |b|), i requires 0 <= i =>
               if position <= i < position + |b| then b[i - position] else if i < |f| then f[i] else 0)
  }

  /** A write replaces what is there, makes the file longer if it has to, and fills a gap with zeros. */
  lemma WriteAtReplaces(f: Bytes, position: nat, b: Bytes)
    requires b != []
    ensures var end := position + |b|;
            WriteAt(f, position, b) ==
            (if |f| < position then f + seq(position - |f|, _ => 0) else f[..position]) + b +
            (if end < |f| then f[end..] else [])
  {
    assert position <= |f| ==> |f[..position]| == position;
  }

  /** The byte at linear address a of a data file of the given size. */
  predicate Stored(f: Bytes, size: nat, a: nat, b: byte)
    requires 0 < size
  {
    a % size < |f| && f[a % size] == b
  }

  /** The linear addresses from `offset` on hold these bytes. */
  predicate Holds(f: Bytes, size: nat, offset: nat, data: Bytes)
    requires 0 < size
  {
    forall i | 0 <= i < |data| :: Stored(f, size, offset + i, data[i])
  }

  lemma HoldsFirst(f: Bytes, size: nat, offset: nat, data: Bytes)
    requires 0 < size && data != []
    ensures Holds(f, size, offset, data) ==> Stored(f, size, offset, data[0])
  {
    if Holds(f, size, offset, data) {
      var i: nat :| i < 1;
      assert Stored(f, size, offset + i, data[i]);
    }
  }

  /** A write of n bytes would run past the end of the storage area. */
  predicate Crosses(size: nat, offset: nat, n: nat)
    requires 0 < size
  {
    offset % size + n > size
  }

  /** The limit that Put() computes for its next read, and then does not pass on. */
  function CopyLength(size: nat, offset: nat): nat
    requires 0 < size
  {
    var left := size - offset % size;
    if BUFFER_SIZE > left then left else BUFFER_SIZE
  }

  /** Reads limited like that are exactly the ones that do not cross the end. */
  lemma CopyLengthIffNotCrossing(size: nat, offset: nat, n: nat)
    requires 0 < size
    ensures n <= CopyLength(size, offset) <==> n <= BUFFER_SIZE && !Crosses(size, offset, n)
  {
  }

  lemma AddMod(a: nat, i: nat, n: nat)
    requires 0 < n && a % n + i < n
    ensures (a + i) % n == a % n + i
  {
    DivMod(a, n);
    DivModUnique(a + i, a / n, a % n + i, n);
  }

  lemma SameSlot(a: nat, b: nat, size: nat)
    requires 0 < size && a < b + size && b < a + size && a % size == b % size
    ensures a == b
  {
    if a <= b {
      ModInjective(a, b, size);
    } else {
      ModInjective(b, a, size);
    }
  }

  /** A write of n bytes at address b reaches the file position of address a. */
  predicate Hits(size: nat, b: nat, n: nat, a: nat)
    requires 0 < size
  {
    b % size <= a % size < b % size + n
  }

  /** Within one round an address is only hit by writes to itself. */
  lemma HitIsInRange(size: nat, b: nat, n: nat, a: nat)
    requires 0 < size && Hits(size, b, n, a) && a < b + size && b + n <= a + size
    ensures b <= a < b + n
  {
    var i := a % size - b % size;
    AddMod(b, i, size);
    SameSlot(a, b + i, size);
  }

  lemma WritePuts(f: Bytes, size: nat, b: nat, chunk: Bytes)
    requires 0 < size && !Crosses(size, b, |chunk|)
    ensures Holds(WriteAt(f, b % size, chunk), size, b, chunk)
  {
    forall i | 0 <= i < |chunk| ensures Stored(WriteAt(f, b % size, chunk), size, b + i, chunk[i]) {
      AddMod(b, i, size);
    }
  }

  lemma WriteSpares(f: Bytes, size: nat, b: nat, chunk: Bytes, a: nat, y: byte)
    requires 0 < size && !Hits(size, b, |chunk|, a) && Stored(f, size, a, y)
    ensures Stored(WriteAt(f, b % size, chunk), size, a, y)
  {
  }

  /** Among the chunks that hit an address, some leave another byte there. */
  lemma HitDamages(f: Bytes, size: nat, b: nat, n: nat, a: nat, y: byte) returns (chunk: Bytes)
    requires 0 < size && Hits(size, b, n, a)
    ensures |chunk| == n && !Stored(WriteAt(f, b % size, chunk), size, a, y)
  {
    chunk := seq(n, _ => if y == 0 then 1 else 0);
  }

  /** Among the chunks that cross the end, some lose their last byte. */
  lemma CrossingLoses(f: Bytes, size: nat, b: nat, n: nat) returns (chunk: Bytes)
    requires 0 < size && Crosses(size, b, n)
    ensures |chunk| == n && 0 < n && !Stored(WriteAt(f, b % size, chunk), size, b + n - 1, chunk[n - 1])
  {
    var zeros: Bytes := seq(n, _ => 0);
    var at := (b + n - 1) % size;
    DivMod(b + n - 1, size);
    var kept := WriteAt(f, b % size, zeros)[at];
    chunk := zeros[n - 1 := if kept == 0 then 1 else 0];
    assert WriteAt(f, b % size, chunk)[at] == kept;
  }

  /** Exactly when all of a chunk can be read back, whatever its bytes are. */
  lemma ChunkIsStoredIff(f: Bytes, size: nat, b: nat, n: nat)
    requires 0 < size
    ensures (forall chunk: Bytes | |chunk| == n :: Holds(WriteAt(f, b % size, chunk), size, b, chunk))
       <==> !Crosses(size, b, n)
  {
    hide WriteAt, Stored, Crosses;
    if Crosses(size, b, n) {
      var chunk := CrossingLoses(f, size, b, n);
      assert !Stored(WriteAt(f, b % size, chunk), size, b + (n - 1), chunk[n - 1]);
    } else {
      forall chunk: Bytes | |chunk| == n ensures Holds(WriteAt(f, b % size, chunk), size, b, chunk) {
        WritePuts(f, size, b, chunk);
      }
    }
  }

  /**
   * Writing one chunk puts its bytes at its own addresses and leaves every other address alone
   * that lies less than one file size away from the chunk.
   */
  lemma ChunkWrite(f: Bytes, size: nat, offset: nat, chunk: Bytes, from: nat)
    requires 0 < size && !Crosses(size, offset, |chunk|)
    requires from <= offset && offset + |chunk| <= from + size
    ensures Holds(WriteAt(f, offset % size, chunk), size, offset, chunk)
    ensures forall a: nat, b: byte | from <= a < from + size && !(offset <= a < offset + |chunk|) &&
              Stored(f, size, a, b) :: Stored(WriteAt(f, offset % size, chunk), size, a, b)
  {
    hide WriteAt, Stored, Hits;
    WritePuts(f, size, offset, chunk);
    forall a: nat, b: byte | from <= a < from + size && !(offset <= a < offset + |chunk|) && Stored(f, size, a, b)
      ensures Stored(WriteAt(f, offset % size, chunk), size, a, b)
    {
      if Hits(size, offset, |chunk|, a) {
        HitIsInRange(size, offset, |chunk|, a);
      }
      WriteSpares(f, size, offset, chunk, a, b);
    }
  }

  // ---------------------------------------------------------------------------------------------
  // Writing a blob
  // ---------------------------------------------------------------------------------------------

  function Concat(chunks: seq<Bytes>): Bytes {
    if chunks == [] then [] else chunks[0] + Concat(chunks[1..])
  }

  /** The file after the chunks were written one after the other. */
  function WriteChunks(f: Bytes, size: nat, offset: uint64, chunks: seq<Bytes>): Bytes
    requires 0 < size
    decreases |chunks|
  {
    if chunks == [] then f
    else WriteChunks(WriteAt(f, offset % size, chunks[0]), size, Wrap(offset + |chunks[0]|), chunks[1..])
  }

  /** No chunk runs past the end of the storage area. */
  predicate NoneCrosses(size: nat, offset: nat, chunks: seq<Bytes>)
    requires 0 < size
    decreases |chunks|
  {
    chunks == [] || (!Crosses(size, offset, |chunks[0]|) && NoneCrosses(size, offset + |chunks[0]|, chunks[1..]))
  }

  lemma HoldsConcat(f: Bytes, size: nat, offset: nat, a: Bytes, b: Bytes)
    requires 0 < size && Holds(f, size, offset, a) && Holds(f, size, offset + |a|, b)
    ensures Holds(f, size, offset, a + b)
  {
    forall i | 0 <= i < |a + b| ensures Stored(f, size, offset + i, (a + b)[i]) {
      if |a| <= i {
        assert Stored(f, size, offset + |a| + (i - |a|), b[i - |a|]);
      }
    }
  }

  /** A chunk written right after `done` extends it. */
  lemma ChunkWriteExtends(f: Bytes, size: nat, start: nat, done: Bytes, chunk: Bytes)
    requires 0 < size && !Crosses(size, start + |done|, |chunk|) && |done| + |chunk| <= size
    requires Holds(f, size, start, done)
    ensures Holds(WriteAt(f, (start + |done|) % size, chunk), size, start, done + chunk)
  {
    var f' := WriteAt(f, (start + |done|) % size, chunk);
    ChunkWrite(f, size, start + |done|, chunk, start);
    forall i | 0 <= i < |done| ensures Stored(f', size, start + i, done[i]) {
      assert Stored(f, size, start + i, done[i]);
    }
    HoldsConcat(f', size, start, done, chunk);
  }

  lemma WriteChunksStep(f: Bytes, size: nat, offset: uint64, chunks: seq<Bytes>)
    requires 0 < size && chunks != [] && offset + |Concat(chunks)| < TWO_64
    ensures offset + |chunks[0]| < TWO_64
    ensures WriteChunks(f, size, offset, chunks)
         == WriteChunks(WriteAt(f, offset % size, chunks[0]), size, offset + |chunks[0]|, chunks[1..])
  {
    hide WriteAt, Wrap;
    assert |Concat(chunks)| == |chunks[0]| + |Concat(chunks[1..])|;
    WrapIsIdentity(offset + |chunks[0]|);
  }

  lemma {:induction false} WriteChunksHolds(f: Bytes, size: nat, start: nat, done: Bytes, chunks: seq<Bytes>)
    requires 0 < size && NoneCrosses(size, start + |done|, chunks)
    requires |done| + |Concat(chunks)| <= size && start + |done| + |Concat(chunks)| < TWO_64
    requires Holds(f, size, start, done)
    ensures Holds(WriteChunks(f, size, start + |done|, chunks), size, start, done + Concat(chunks))
    decreases |chunks|
  {
    hide WriteAt, Stored, Wrap;
    if chunks == [] {
      assert done + Concat(chunks) == done;
    } else {
      var c, rest := chunks[0], chunks[1..];
      ChunkWriteExtends(f, size, start, done, c);
      WriteChunksStep(f, size, start + |done|, chunks);
      WriteChunksHolds(WriteAt(f, (start + |done|) % size, c), size, start, done + c, rest);
      assert done + Concat(chunks) == (done + c) + Concat(rest);
    }
  }

  // ---------------------------------------------------------------------------------------------
  // A chunk that crosses the end
  // ---------------------------------------------------------------------------------------------

  /** Some chunk that is not empty starts at address t. */
  predicate StartsAt(offset: nat, chunks: seq<Bytes>, t: nat)
    decreases |chunks|
  {
    chunks != [] && ((chunks[0] != [] && offset == t) || StartsAt(offset + |chunks[0]|, chunks[1..], t))
  }

  lemma {:induction false} StartsLater(offset: nat, chunks: seq<Bytes>, t: nat)
    requires t < offset
    ensures !StartsAt(offset, chunks, t)
    decreases |chunks|
  {
    if chunks != [] {
      StartsLater(offset + |chunks[0]|, chunks[1..], t);
    }
  }

  lemma FirstByteKept(f: Bytes, size: nat, offset: nat, c: Bytes)
    requires 0 < size && 0 < |f| && (c == [] || offset % size != 0)
    ensures var f' := WriteAt(f, offset % size, c); 0 < |f'| && f'[0] == f[0]
  {
  }

  /** The first byte of the file only changes when a chunk starts there. */
  lemma {:induction false} FirstByteUntouched(f: Bytes, size: nat, from: nat, offset: uint64, chunks: seq<Bytes>,
                                              t: nat)
    requires 0 < size && 0 < |f| && t % size == 0 && !StartsAt(offset, chunks, t)
    requires from <= offset && offset + |Concat(chunks)| <= from + size && from <= t < from + size
    requires offset + |Concat(chunks)| < TWO_64
    ensures var f' := WriteChunks(f, size, offset, chunks); 0 < |f'| && f'[0] == f[0]
    decreases |chunks|
  {
    hide WriteAt, Wrap;
    if chunks != [] {
      var c := chunks[0];
      if c != [] && offset % size == 0 {
        SameSlot(offset, t, size);
      }
      FirstByteKept(f, size, offset, c);
      WriteChunksStep(f, size, offset, chunks);
      FirstByteUntouched(WriteAt(f, offset % size, c), size, from, offset + |c|, chunks[1..], t);
    }
  }

  /** If a chunk crosses the end then the byte that belongs at the start of the file is inside it. */
  lemma {:induction false} CrossingByte(size: nat, offset: nat, chunks: seq<Bytes>) returns (t: nat)
    requires 0 < size && |Concat(chunks)| <= size && !NoneCrosses(size, offset, chunks)
    ensures offset <= t < offset + |Concat(chunks)| && t % size == 0 && !StartsAt(offset, chunks, t)
    decreases |chunks|
  {
    var c, rest := chunks[0], chunks[1..];
    assert |Concat(chunks)| == |c| + |Concat(rest)|;
    if Crosses(size, offset, |c|) {
      t := offset + (size - offset % size);
      DivMod(offset, size);
      assert (offset / size + 1) * size == offset / size * size + size;
      DivModUnique(t, offset / size + 1, 0, size);
      StartsLater(offset + |c|, rest, t);
    } else {
      t := CrossingByte(size, offset + |c|, rest);
    }
  }

  /**
   * A blob that fits the file can be read back after Put(), whatever the file held before, if and
   * only if none of the chunks its source delivered runs past the end of the file.
   */
  lemma ReadsBackIff(size: nat, offset: uint64, chunks: seq<Bytes>)
    requires 0 < size && |Concat(chunks)| <= size && offset + |Concat(chunks)| < TWO_64
    ensures (forall f: Bytes :: Holds(WriteChunks(f, size, offset, chunks), size, offset, Concat(chunks)))
       <==> NoneCrosses(size, offset, chunks)
  {
    if NoneCrosses(size, offset, chunks) {
      forall f: Bytes ensures Holds(WriteChunks(f, size, offset, chunks), size, offset, Concat(chunks)) {
        WriteChunksHolds(f, size, offset, [], chunks);
        assert [] + Concat(chunks) == Concat(chunks);
      }
    } else {
      var t := CrossingByte(size, offset, chunks);
      var b := Concat(chunks)[t - offset];
      var f: Bytes := [if b == 0 then 1 else 0];
      FirstByteUntouched(f, size, offset, offset, chunks, t);
      assert !Stored(WriteChunks(f, size, offset, chunks), size, offset + (t - offset), b);
    }
  }

  // ---------------------------------------------------------------------------------------------
  // Reading a blob
  // ---------------------------------------------------------------------------------------------

  /** The rest of a blob that still has to be read. */
  datatype Reader = Reader(offset: uint64, size: uint64)

  datatype ReadResult = Data(bytes: Bytes) | Eof | Failed

  function ReadLength(size: nat, r: Reader, buffer: nat): nat
    requires 0 < size
  {
    var n := if r.size > buffer then buffer else r.size;
    var left := size - r.offset % size;
    if n > left then left else n
  }

  /** A read past the end of the file reports io.EOF, like one at the end of the blob. */
  function ReadChunk(f: Bytes, size: nat, r: Reader, buffer: nat): (result: ReadResult)
    requires 0 < size
    ensures !result.Failed?
  {
    var p, n := r.offset % size, ReadLength(size, r, buffer);
    if r.size == 0 then Eof else if n == 0 then Data([]) else if p + n > |f| then Eof else Data(f[p..p + n])
  }

  function Advance(r: Reader, n: nat): Reader
    requires n <= r.size
  {
    Reader(Wrap(r.offset + n), r.size - n)
  }

  lemma HoldsPart(f: Bytes, size: nat, offset: nat, data: Bytes, from: nat, to: nat)
    requires 0 < size && Holds(f, size, offset, data) && from <= to <= |data|
    ensures Holds(f, size, offset + from, data[from..to])
  {
    forall i | 0 <= i < to - from ensures Stored(f, size, offset + from + i, data[from..to][i]) {
      assert Stored(f, size, offset + (from + i), data[from + i]);
    }
  }

  lemma HoldsIsSlice(f: Bytes, size: nat, offset: nat, data: Bytes)
    requires 0 < size && data != [] && !Crosses(size, offset, |data|) && Holds(f, size, offset, data)
    ensures var p := offset % size; p + |data| <= |f| && f[p..p + |data|] == data
  {
    var p, last := offset % size, |data| - 1;
    AddMod(offset, last, size);
    assert Stored(f, size, offset + last, data[last]);
    forall i | 0 <= i < |data| ensures f[p + i] == data[i] {
      AddMod(offset, i, size);
      assert Stored(f, size, offset + i, data[i]);
    }
  }

  lemma ReadHasLength(f: Bytes, size: nat, r: Reader, buffer: nat)
    requires 0 < size
    ensures var b := ReadChunk(f, size, r, buffer);
            b.Data? ==> |b.bytes| == ReadLength(size, r, buffer)
  {
  }

  /** A read returns these bytes exactly if the file holds them at the addresses that it reads. */
  lemma ReadIsDataIff(f: Bytes, size: nat, r: Reader, buffer: nat, data: Bytes)
    requires 0 < size && |data| == ReadLength(size, r, buffer) && data != []
    ensures ReadChunk(f, size, r, buffer) == Data(data) <==> Holds(f, size, r.offset, data)
  {
    var p := r.offset % size;
    if Holds(f, size, r.offset, data) {
      HoldsIsSlice(f, size, r.offset, data);
    } else if p + |data| <= |f| {
      var i :| 0 <= i < |data| && !Stored(f, size, r.offset + i, data[i]);
      AddMod(r.offset, i, size);
      assert f[p..p + |data|][i] != data[i];
    }
  }

  /** A read is only shorter than the buffer at the end of the blob, or at the end of the storage area. */
  lemma ReadFillsBuffer(f: Bytes, size: nat, r: Reader, buffer: nat)
    requires 0 < size && ReadChunk(f, size, r, buffer).Data?
    ensures var n := |ReadChunk(f, size, r, buffer).bytes|;
            n <= buffer && n <= r.size && !Crosses(size, r.offset, n) &&
            (n == buffer || n == r.size || (r.offset + n) % size == 0)
  {
    var n := ReadLength(size, r, buffer);
    ReadHasLength(f, size, r, buffer);
    if r.offset % size + n == size {
      DivMod(r.offset, size);
      DivModUnique(r.offset + n, r.offset / size + 1, 0, size);
    }
  }

  /** A read of a blob that is in place delivers its next bytes, at least one unless it is at its end. */
  lemma ReadDelivers(f: Bytes, size: nat, r: Reader, buffer: nat, data: Bytes)
    requires 0 < size && |data| == r.size && r.offset + r.size < TWO_64 && 0 < buffer
    requires Holds(f, size, r.offset, data)
    ensures var n := ReadLength(size, r, buffer);
            if data == [] then ReadChunk(f, size, r, buffer) == Eof
            else 0 < n <= |data| && ReadChunk(f, size, r, buffer) == Data(data[..n]) &&
                 Advance(r, n).offset == r.offset + n
  {
    var n := ReadLength(size, r, buffer);
    if data != [] {
      HoldsPart(f, size, r.offset, data, 0, n);
      HoldsIsSlice(f, size, r.offset, data[0..n]);
      WrapIsIdentity(r.offset + n);
    }
  }

  /** All bytes that reads with the given buffer sizes deliver before the first Eof. */
  function Drain(f: Bytes, size: nat, r: Reader, buffers: seq<nat>): Bytes
    requires 0 < size
    decreases |buffers|
  {
    if buffers == [] then []
    else
      var b := ReadChunk(f, size, r, buffers[0]);
      if !b.Data? || |b.bytes| > r.size then [] else b.bytes + Drain(f, size, Advance(r, |b.bytes|), buffers[1..])
  }

  /** Whatever the buffer sizes, a prefix of the blob is delivered; as many buffers as bytes suffice. */
  lemma {:induction false} DrainDelivers(f: Bytes, size: nat, r: Reader, buffers: seq<nat>, data: Bytes)
    requires 0 < size && |data| == r.size && r.offset + r.size < TWO_64 && Holds(f, size, r.offset, data)
    requires forall i | 0 <= i < |buffers| :: 0 < buffers[i]
    ensures Drain(f, size, r, buffers) <= data
    ensures |data| <= |buffers| ==> Drain(f, size, r, buffers) == data
    decreases |buffers|
  {
    hide Holds, ReadChunk, ReadLength, Wrap;
    if buffers != [] {
      var n := ReadLength(size, r, buffers[0]);
      ReadDelivers(f, size, r, buffers[0], data);
      if data != [] {
        HoldsPart(f, size, r.offset, data, n, |data|);
        assert data[n..|data|] == data[n..];
        DrainDelivers(f, size, Advance(r, n), buffers[1..], data[n..]);
        assert data == data[..n] + data[n..];
      }
    }
  }

  // ---------------------------------------------------------------------------------------------
  // The store
  // ---------------------------------------------------------------------------------------------

  /** What the reads of a source deliver before they report the end, or an error. */
  datatype Source = Source(chunks: seq<Bytes>, failed: bool)

  /** The write that fails, and how many of its bytes reach the file all the same. */
  datatype Fault = Fault(chunk: nat, written: nat)

  predicate Breaks(r: Source, fault: Option<Fault>) {
    fault.Some? && fault.value.chunk < |r.chunks|
  }

  function Cut(b: Bytes, n: nat): Bytes {
    if n < |b| then b[..n] else b
  }

  /** The part of a source that reaches the file. A failed write looks like a failed source. */
  function Reaching(r: Source, fault: Option<Fault>): Source {
    if Breaks(r, fault) then
      var k := fault.value.chunk;
      Source(r.chunks[..k] + [Cut(r.chunks[k], fault.value.written)], true)
    else r
  }

  lemma {:induction false} ConcatJoins(a: seq<Bytes>, b: seq<Bytes>)
    ensures Concat(a + b) == Concat(a) + Concat(b)
    decreases |a|
  {
    if a == [] {
      assert a + b == b;
    } else {
      assert (a + b)[1..] == a[1..] + b;
      ConcatJoins(a[1..], b);
    }
  }

  /** A transfer goes well exactly if the source ends well and no write fails, and then all of it reaches the file. */
  lemma ReachingSucceedsIff(r: Source, fault: Option<Fault>)
    ensures !Reaching(r, fault).failed <==> !r.failed && (fault.Some? ==> |r.chunks| <= fault.value.chunk)
    ensures (fault.Some? ==> |r.chunks| <= fault.value.chunk) ==> Reaching(r, fault) == r
  {
  }

  /** What reaches the file when a write fails: everything before it, and that much of its own chunk. */
  lemma ReachingUntilFault(r: Source, fault: Fault)
    requires fault.chunk < |r.chunks|
    ensures var c := r.chunks[fault.chunk];
            Concat(Reaching(r, Some(fault)).chunks) ==
            Concat(r.chunks[..fault.chunk]) + (if fault.written < |c| then c[..fault.written] else c)
  {
    var k := fault.chunk;
    var cut := Cut(r.chunks[k], fault.written);
    ConcatJoins(r.chunks[..k], [cut]);
    assert Concat([cut]) == cut + Concat([]);
  }

  /** Either way it is a prefix. */
  lemma ReachingIsPrefix(r: Source, fault: Option<Fault>)
    ensures Concat(Reaching(r, fault).chunks) <= Concat(r.chunks)
  {
    if Breaks(r, fault) {
      var k := fault.value.chunk;
      ReachingUntilFault(r, fault.value);
      ConcatJoins(r.chunks[..k], r.chunks[k..]);
      assert r.chunks[..k] + r.chunks[k..] == r.chunks;
    }
  }

  class FileDataStore {
    const size: uint64
    var file: Bytes

    constructor (file: Bytes, size: uint64)
      requires 0 < size
      ensures this.file == file && this.size == size
    {
      this.file, this.size := file, size;
    }

    method Put(r: Source, offset: uint64, fault: Option<Fault>) returns (ok: bool)
      requires 0 < size
      modifies this
      ensures file == WriteChunks(old(file), size, offset, Reaching(r, fault).chunks)
      ensures ok == !Reaching(r, fault).failed
    {
      hide WriteAt;
      ghost var reaching := Reaching(r, fault).chunks;
      var at: uint64, i := offset, 0;
      while i < |r.chunks|
        invariant i <= |r.chunks| && (Breaks(r, fault) ==> i <= fault.value.chunk)
        invariant WriteChunks(file, size, at, reaching[i..]) == WriteChunks(old(file), size, offset, reaching)
      {
        var writeOffset := at % size;
        var b := r.chunks[i];
        assert reaching[i..][1..] == reaching[i + 1..];
        if fault.Some? && fault.value.chunk == i {
          file := WriteAt(file, writeOffset, Cut(b, fault.value.written));
          return false;
        }
        file := WriteAt(file, writeOffset, b);
        at := Wrap(at + |b|);
        i := i + 1;
      }
      ok := !r.failed;
    }

    method Get(offset: uint64, size: int64) returns (r: FileDataStoreReader)
      ensures fresh(r) && r.ds == this && r.Value() == Reader(offset, Wrap(size))
    {
      r := new FileDataStoreReader(this, offset, Wrap(size));
    }
  }

  class FileDataStoreReader {
    const ds: FileDataStore
    var offset: uint64
    var size: uint64

    ghost function Value(): Reader
      reads this
    {
      Reader(offset, size)
    }

    constructor (ds: FileDataStore, offset: uint64, size: uint64)
      ensures this.ds == ds && Value() == Reader(offset, size)
    {
      this.ds, this.offset, this.size := ds, offset, size;
    }

    method Read(buffer: nat) returns (result: ReadResult)
      requires 0 < ds.size
      modifies this
      ensures result == ReadChunk(ds.file, ds.size, old(Value()), buffer)
      ensures Value() == if result.Data? then Advance(old(Value()), |result.bytes|) else old(Value())
    {
      if size == 0 {
        return Eof;
      }
      var readOffset := offset % ds.size;
      var readLength := size;
      if readLength > buffer {
        readLength := buffer;
      }
      if readLength > ds.size - readOffset {
        readLength := ds.size - readOffset;
      }
      if readLength == 0 {
        result := Data([]);
      } else if readOffset + readLength > |ds.file| {
        return Eof;
      } else {
        result := Data(ds.file[readOffset..readOffset + readLength]);
      }
      offset := Wrap(offset + readLength);
      size := size - readLength;
    }
  }
}
