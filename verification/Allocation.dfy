/** What the state stores compute: cursor arithmetic, file positions and chunked allocation. */
module Allocation {
  import opened Arithmetic
  import opened Cursors

  // ---------------------------------------------------------------------------------------------
  // Cursor arithmetic
  // ---------------------------------------------------------------------------------------------

  /** The conversion int64(x) of an unsigned value. */
  function ToSigned(x: uint64): int64 {
    if x < TWO_63 then x else x - TWO_64
  }

  /** The cursors after `size` more bytes were allocated in a data file of `dataSize` bytes. */
  function Allocated(c: Cursors, dataSize: uint64, size: int64): Cursors {
    var write := Wrap(c.write + size);
    if c.read > write then Cursors(write, write)
    else if Wrap(c.read + dataSize) < write then Cursors(Wrap(write - dataSize), write)
    else Cursors(c.read, write)
  }

  /** The cursors after everything up to the end of the given blob was discarded. */
  function Invalidated(c: Cursors, offset: uint64, size: int64): Cursors {
    var read := Wrap(offset + size);
    Cursors(read, if c.write < read then read else c.write)
  }

  /** Exactly when put() would stop the program because of Read > Write. */
  lemma AllocateIsFatalIff(c: Cursors, dataSize: uint64, size: int64)
    requires c.InWindow(dataSize) && 0 <= size
    ensures var c' := Allocated(c, dataSize, size);
            c'.read > c'.write <==>
            c.read + dataSize >= TWO_64 && c.read <= Wrap(c.write + size) < dataSize
  {
  }

  /** One byte from a data file of 2^64 - 1 does it. */
  lemma AllocateIsFatal()
    ensures var c, dataSize := Cursors(1, 1), TWO_64 - 1;
            c.InWindow(dataSize) && Allocated(c, dataSize, 1) == Cursors(3, 2)
  {
  }

  /** For data files of up to 2^63 bytes that never happens, and the window stays bounded. */
  lemma AllocateKeepsWindow(c: Cursors, dataSize: uint64, size: int64)
    requires c.InWindow(dataSize) && dataSize <= TWO_63 && 0 <= size
    ensures Allocated(c, dataSize, size).InWindow(dataSize)
  {
  }

  /** The read cursor does not move back exactly as long as neither 64-bit sum wraps. */
  lemma AllocateFollowsIff(c: Cursors, dataSize: uint64, size: int64)
    requires c.InWindow(dataSize) && dataSize <= TWO_63 && 0 <= size
    ensures Allocated(c, dataSize, size).Follows(c)
       <==> c.write + size < TWO_64 && c.read + dataSize < TWO_64
  {
  }

  /** The last linear address: both cursors start again at 0. */
  lemma AllocateMovesBack()
    ensures var c := Cursors(TWO_64 - 1, TWO_64 - 1);
            c.InWindow(1) && Allocated(c, 1, 1) == Cursors(0, 0) && !Allocated(c, 1, 1).Follows(c)
  {
  }

  /** Going through a signed value makes no difference to a 64-bit sum. */
  lemma WrapOfSigned(x: uint64, size: uint64)
    ensures Wrap(x + ToSigned(size)) == Wrap(x + size)
  {
  }

  /** Without wrapping, allocation does nothing but advance Write and drop what it overwrites. */
  lemma AllocateWithoutWrap(c: Cursors, dataSize: uint64, size: uint64)
    requires c.InWindow(dataSize) && 0 <= size
    requires c.write + size < TWO_64 && c.read + dataSize < TWO_64
    ensures Allocated(c, dataSize, ToSigned(size)) == Cursors(Max(c.read, c.write + size - dataSize), c.write + size)
  {
    WrapOfSigned(c.write, size);
    hide Wrap, ToSigned;
    WrapIsIdentity(c.write + size);
    WrapIsIdentity(c.read + dataSize);
    if c.read + dataSize < c.write + size {
      WrapIsIdentity(c.write + size - dataSize);
    }
  }

  lemma InvalidateInside(c: Cursors, dataSize: uint64, offset: uint64, size: int64)
    requires c.InWindow(dataSize) && Inside(c, offset, size) && 1 <= size
    ensures Invalidated(c, offset, size) == Cursors(offset + size, c.write)
    ensures Invalidated(c, offset, size).InWindow(dataSize) && Invalidated(c, offset, size).Follows(c)
  {
  }

  /** A blob that ends past Write takes both cursors with it. */
  lemma InvalidatePastWrite(c: Cursors, offset: uint64, size: int64)
    requires c.write < offset + size < TWO_64
    ensures Invalidated(c, offset, size) == Cursors(offset + size, offset + size)
  {
  }

  // ---------------------------------------------------------------------------------------------
  // File positions
  // ---------------------------------------------------------------------------------------------

  /** The positions in the data file that a range of linear addresses is kept at. */
  function Positions(dataSize: nat, offset: nat, size: nat): set<nat>
    requires 0 < dataSize
  {
    set a: nat | offset <= a < offset + size :: a % dataSize
  }

  /** Disjoint ranges between the cursors never share a byte of the data file. */
  lemma NoPhysicalAliasing(c: Cursors, dataSize: nat, o1: nat, n1: nat, o2: nat, n2: nat)
    requires 0 < dataSize && c.InWindow(dataSize)
    requires c.read <= o1 && o1 + n1 <= o2 && o2 + n2 <= c.write
    ensures Positions(dataSize, o1, n1) !! Positions(dataSize, o2, n2)
  {
    forall a: nat, b: nat | o1 <= a < o1 + n1 && o2 <= b < o2 + n2
      ensures a % dataSize != b % dataSize
    {
      if a % dataSize == b % dataSize {
        ModInjective(a, b, dataSize);
      }
    }
  }

  // ---------------------------------------------------------------------------------------------
  // Bulk allocation
  // ---------------------------------------------------------------------------------------------

  datatype Geometry = Geometry(dataSize: uint64, chunkSize: uint64) {
    /** The data file exists and its size fits the signed offsets of file operations. */
    predicate Valid() {
      0 < dataSize <= TWO_63 && 0 < chunkSize
    }
  }

  /** The persistent cursors, and up to where the chunk at their end has been handed out. */
  datatype State = State(cursors: Cursors, sub: uint64)

  /** The internal write cursor, moved back in range. */
  function Clamped(c: Cursors, sub: uint64): uint64 {
    var s := if sub < c.read then c.read else sub;
    if s > c.write then c.write else s
  }

  /** The least number of whole chunks that provides the missing space. */
  function ChunksFor(g: Geometry, missing: uint64): uint64
    requires g.Valid()
  {
    var n := Wrap(missing + g.chunkSize - 1);
    RoundDown(n, g.chunkSize);
    n / g.chunkSize * g.chunkSize
  }

  datatype Grant = Grant(state: State, offset: uint64)

  /** bulkAllocatingStateStore.Allocate. */
  function BulkAllocate(g: Geometry, st: State, size: int64): Grant
    requires g.Valid()
  {
    var sub := Clamped(st.cursors, st.sub);
    var spaceLeft := Wrap(st.cursors.write - sub);
    var cursors := if Wrap(size) <= spaceLeft then st.cursors
                   else Allocated(st.cursors, g.dataSize, ToSigned(ChunksFor(g, Wrap(size) - spaceLeft)));
    Grant(State(cursors, Wrap(sub + size)), sub)
  }

  function PositiveSize(size: int64): int64 {
    if size < 1 then 1 else size
  }

  /** The whole stack, as it is configured. */
  function Allocate(g: Geometry, st: State, size: int64): Grant
    requires g.Valid()
  {
    BulkAllocate(g, st, PositiveSize(size))
  }

  function Invalidate(st: State, offset: uint64, size: int64): State {
    st.(cursors := Invalidated(st.cursors, offset, PositiveSize(size)))
  }

  predicate Sane(g: Geometry, st: State) {
    g.Valid() && st.cursors.InWindow(g.dataSize)
  }

  /** No 64-bit sum of this allocation wraps. */
  predicate Fits(g: Geometry, st: State, size: int64) {
    st.cursors.write + PositiveSize(size) + g.chunkSize < TWO_64 - g.dataSize
  }

  lemma ChunksAreLeast(g: Geometry, missing: uint64)
    requires g.Valid() && 0 < missing && missing + g.chunkSize < TWO_64
    ensures var request := ChunksFor(g, missing);
            0 < request && request % g.chunkSize == 0 && request - g.chunkSize < missing <= request
  {
    RoundDown(missing + g.chunkSize - 1, g.chunkSize);
  }

  lemma BulkAllocateUnfolds(g: Geometry, st: State, size: int64)
    requires Sane(g, st) && Fits(g, st, size)
    ensures var n, c, sub := PositiveSize(size), st.cursors, Clamped(st.cursors, st.sub);
            sub <= c.write &&
            Allocate(g, st, size) ==
            Grant(State(if n <= c.write - sub then c
                             else Allocated(c, g.dataSize, ToSigned(ChunksFor(g, n - (c.write - sub)))), sub + n), sub)
  {
    var n, c, sub := PositiveSize(size), st.cursors, Clamped(st.cursors, st.sub);
    WrapIsIdentity(n);
    WrapIsIdentity(c.write - sub);
    WrapIsIdentity(sub + n);
  }

  /**
   * What one allocation does: a range from the internal cursor on, for which the cursors below
   * grow by the least number of chunks that makes it end at or before Write.
   */
  lemma AllocateIsLeast(g: Geometry, st: State, size: int64)
    requires Sane(g, st) && Fits(g, st, size)
    ensures var a := Allocate(g, st, size);
            var n, c, c' := PositiveSize(size), st.cursors, a.state.cursors;
            c'.Follows(c) && Sane(g, a.state) &&
            a.offset == Clamped(c, st.sub) &&
            a.state.sub == a.offset + n <= c'.write &&
            (c'.write - c.write) % g.chunkSize == 0 &&
            (c'.write == c.write || c'.write - g.chunkSize < a.offset + n) &&
            c'.read == Max(c.read, c'.write - g.dataSize)
  {
    BulkAllocateUnfolds(g, st, size);
    var n, c := PositiveSize(size), st.cursors;
    var left := c.write - Clamped(c, st.sub);
    if left < n {
      ChunksAreLeast(g, n - left);
      AllocateWithoutWrap(c, g.dataSize, ChunksFor(g, n - left));
    } else {
      MultipleMod(0, g.chunkSize);
    }
  }

  /** Exactly when a new range is still between the cursors on return. */
  lemma AllocationIsInsideIff(g: Geometry, st: State, size: int64)
    requires Sane(g, st) && Fits(g, st, size)
    ensures var a := Allocate(g, st, size);
            var n, left := PositiveSize(size), st.cursors.write - Clamped(st.cursors, st.sub);
            (Inside(a.state.cursors, a.offset, size) <==> n <= left || left + ChunksFor(g, n - left) <= g.dataSize)
  {
    BulkAllocateUnfolds(g, st, size);
    var n, left := PositiveSize(size), st.cursors.write - Clamped(st.cursors, st.sub);
    if left < n {
      ChunksAreLeast(g, n - left);
      AllocateWithoutWrap(st.cursors, g.dataSize, ChunksFor(g, n - left));
    }
  }

  /** Whatever the state, it is for every blob that leaves room for one byte less than a chunk. */
  lemma AllocationIsInside(g: Geometry, st: State, size: int64)
    requires Sane(g, st) && Fits(g, st, size)
    requires PositiveSize(size) + g.chunkSize - 1 <= g.dataSize
    ensures var a := Allocate(g, st, size); Inside(a.state.cursors, a.offset, size)
  {
    AllocationIsInsideIff(g, st, size);
    var n, left := PositiveSize(size), st.cursors.write - Clamped(st.cursors, st.sub);
    if left < n {
      ChunksAreLeast(g, n - left);
    }
  }

  // ---------------------------------------------------------------------------------------------
  // Runs
  // ---------------------------------------------------------------------------------------------

  datatype Op = Alloc(size: int64) | Drop(offset: uint64, size: int64)

  function Apply(g: Geometry, st: State, op: Op): State
    requires g.Valid()
  {
    match op
    case Alloc(size) => Allocate(g, st, size).state
    case Drop(offset, size) => Invalidate(st, offset, size)
  }

  /** Allocations stay clear of 2^64, and only blobs between the cursors are discarded. */
  predicate Allowed(g: Geometry, st: State, op: Op) {
    match op
    case Alloc(size) => Fits(g, st, size)
    case Drop(offset, size) => Inside(st.cursors, offset, size)
  }

  predicate AllowedRun(g: Geometry, st: State, ops: seq<Op>)
    requires g.Valid()
    decreases |ops|
  {
    ops == [] || (Allowed(g, st, ops[0]) && AllowedRun(g, Apply(g, st, ops[0]), ops[1..]))
  }

  function Run(g: Geometry, st: State, ops: seq<Op>): State
    requires g.Valid()
    decreases |ops|
  {
    if ops == [] then st else Run(g, Apply(g, st, ops[0]), ops[1..])
  }

  datatype Range = Range(offset: int, size: int)

  /** The ranges that the allocations of a run return, in order. */
  function Ranges(g: Geometry, st: State, ops: seq<Op>): seq<Range>
    requires g.Valid()
    decreases |ops|
  {
    if ops == [] then []
    else
      var rest := Ranges(g, Apply(g, st, ops[0]), ops[1..]);
      if ops[0].Drop? then rest
      else [Range(Allocate(g, st, ops[0].size).offset, PositiveSize(ops[0].size))] + rest
  }

  /** Where the next range will start. */
  function Next(st: State): int {
    Clamped(st.cursors, st.sub)
  }

  lemma StepKeepsSane(g: Geometry, st: State, op: Op)
    requires Sane(g, st) && Allowed(g, st, op)
    ensures Sane(g, Apply(g, st, op)) && Apply(g, st, op).cursors.Follows(st.cursors)
    ensures Next(st) + (if op.Alloc? then PositiveSize(op.size) else 0) <= Next(Apply(g, st, op))
  {
    match op {
      case Alloc(size) => AllocateIsLeast(g, st, size);
      case Drop(offset, size) => InvalidateInside(st.cursors, g.dataSize, offset, PositiveSize(size));
    }
  }

  /** In every run the cursors stay in the window and never move back. */
  lemma {:induction false} RunKeepsSane(g: Geometry, st: State, ops: seq<Op>)
    requires Sane(g, st) && AllowedRun(g, st, ops)
    ensures Sane(g, Run(g, st, ops)) && Run(g, st, ops).cursors.Follows(st.cursors)
    decreases |ops|
  {
    if ops != [] {
      StepKeepsSane(g, st, ops[0]);
      RunKeepsSane(g, Apply(g, st, ops[0]), ops[1..]);
    }
  }

  /** The ranges lie at or above `from`, in increasing order and without overlap. */
  predicate Increasing(rs: seq<Range>, from: int) {
    (forall i | 0 <= i < |rs| :: from <= rs[i].offset && 1 <= rs[i].size) &&
    (forall i, j | 0 <= i < j < |rs| :: rs[i].offset + rs[i].size <= rs[j].offset)
  }

  lemma IncreasingFromLess(rs: seq<Range>, from: int, less: int)
    requires Increasing(rs, from) && less <= from
    ensures Increasing(rs, less)
  {
  }

  lemma IncreasingCons(r: Range, rs: seq<Range>)
    requires Increasing(rs, r.offset + r.size) && 1 <= r.size
    ensures Increasing([r] + rs, r.offset)
  {
  }

  /** In every run the ranges handed out are increasing, hence pairwise disjoint. */
  lemma {:induction false} RangesIncrease(g: Geometry, st: State, ops: seq<Op>)
    requires Sane(g, st) && AllowedRun(g, st, ops)
    ensures Increasing(Ranges(g, st, ops), Next(st))
    decreases |ops|
  {
    if ops != [] {
      var st' := Apply(g, st, ops[0]);
      StepKeepsSane(g, st, ops[0]);
      RangesIncrease(g, st', ops[1..]);
      var rest := Ranges(g, st', ops[1..]);
      match ops[0] {
        case Alloc(size) =>
          var r := Range(Next(st), PositiveSize(size));
          IncreasingFromLess(rest, Next(st'), r.offset + r.size);
          IncreasingCons(r, rest);
          assert Ranges(g, st, ops) == [r] + rest by { AllocateIsLeast(g, st, size); }
        case Drop(_, _) =>
          IncreasingFromLess(rest, Next(st'), Next(st));
      }
    }
  }
}
