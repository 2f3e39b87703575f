/**
 * The circular store under one caller at a time: what each call does to the whole store, and what
 * the calls guarantee together over every sequence of them.
 */
module CircularCalls {
  import opened Arithmetic
  import opened Wrappers
  import opened Cursors
  import opened DataStore
  import opened OffsetStore
  import opened CircularIntegrity
  import opened CircularSystem
  import opened Merkle
  import A = Allocation
  import T = OffsetTable

  /** The parts of the store, without the calls that are going on. */
  datatype Contents = Contents(state: A.State, index: Layers, file: Bytes)

  function Core(s: System): Contents {
    Contents(s.state, s.index, s.file)
  }

  datatype PutStatus = Done | TransferError | Stale

  datatype PutOutcome = PutOutcome(store: Contents, status: PutStatus)

  /** Allocate, write what reaches the data file of the source, and add the blob to the index if it is live. */
  function PutBlob(cfg: Config, st: Contents, key: T.Key, size: int64, r: Source): PutOutcome
    requires cfg.geometry.Valid()
  {
    var a := A.Allocate(cfg.geometry, st.state, size);
    var st' := st.(state := a.state, file := WriteChunks(st.file, cfg.Size(), a.offset, r.chunks));
    if r.failed then PutOutcome(st', TransferError)
    else if !a.state.cursors.Contains(a.offset, size) then PutOutcome(st', Stale)
    else
      var index := Remember(cfg.hashes, st.index, a.state.cursors, key, T.Location(a.offset, size));
      PutOutcome(st'.(index := index), Done)
  }

  function LocateBlob(cfg: Config, st: Contents, key: T.Key): Option<T.Location> {
    Find(cfg.hashes, st.index, st.state.cursors, key)
  }

  function AfterLocate(cfg: Config, st: Contents, key: T.Key): Contents {
    st.(index := AfterFind(cfg.hashes, st.index, st.state.cursors, key))
  }

  function DeleteBlob(cfg: Config, st: Contents, key: T.Key): Contents {
    var found := LocateBlob(cfg, st, key);
    var st' := AfterLocate(cfg, st, key);
    if found.None? then st' else st'.(state := A.Invalidate(st.state, found.value.offset, found.value.length))
  }

  datatype Missing = Missing(store: Contents, keys: seq<T.Key>)

  function FindMissingBlobs(cfg: Config, st: Contents, keys: seq<T.Key>): Missing
    decreases |keys|
  {
    if keys == [] then Missing(st, [])
    else
      var found := LocateBlob(cfg, st, keys[0]);
      var rest := FindMissingBlobs(cfg, AfterLocate(cfg, st, keys[0]), keys[1..]);
      Missing(rest.store, (if found.None? then [keys[0]] else []) + rest.keys)
  }

  /** What FindMissing returns when the keys from i on are still to be looked up. */
  function MissingFrom(cfg: Config, st: Contents, keys: seq<T.Key>, i: nat, sofar: seq<T.Key>): Missing
    requires i <= |keys|
  {
    var rest := FindMissingBlobs(cfg, st, keys[i..]);
    Missing(rest.store, sofar + rest.keys)
  }

  lemma MissingStep(cfg: Config, st: Contents, keys: seq<T.Key>, i: nat, sofar: seq<T.Key>)
    requires i < |keys|
    ensures var sofar' := if LocateBlob(cfg, st, keys[i]).None? then sofar + [keys[i]] else sofar;
            MissingFrom(cfg, st, keys, i, sofar) == MissingFrom(cfg, AfterLocate(cfg, st, keys[i]), keys, i + 1, sofar')
  {
    hide LocateBlob, AfterLocate;
    assert keys[i..][1..] == keys[i + 1..];
  }

  lemma MissingFromStart(cfg: Config, st: Contents, keys: seq<T.Key>)
    ensures MissingFrom(cfg, st, keys, 0, []) == FindMissingBlobs(cfg, st, keys)
  {
    assert keys[0..] == keys;
    assert [] + FindMissingBlobs(cfg, st, keys).keys == FindMissingBlobs(cfg, st, keys).keys;
  }

  lemma MissingFromEnd(cfg: Config, st: Contents, keys: seq<T.Key>, sofar: seq<T.Key>)
    ensures MissingFrom(cfg, st, keys, |keys|, sofar) == Missing(st, sofar)
  {
    assert sofar + [] == sofar;
  }

  predicate InTable(cfg: Config, st: Contents, key: T.Key) {
    T.Lookup(cfg.hashes.table, st.index.table, st.state.cursors, key).Some?
  }

  /** A lookup of the other key takes the cache slot of this one. */
  predicate Evicts(cfg: Config, st: Contents, other: T.Key, key: T.Key) {
    other != key && CacheSlot(cfg.hashes, st.index, other) == CacheSlot(cfg.hashes, st.index, key) &&
    InTable(cfg, st, other)
  }

  /**
   * The table misses the key, and so does the cache: from the start, or because an earlier key of the
   * request has taken its slot.
   */
  predicate IsReported(cfg: Config, st: Contents, keys: seq<T.Key>, i: nat)
    requires i < |keys|
  {
    !InTable(cfg, st, keys[i]) &&
    (LocateBlob(cfg, st, keys[i]).None? || exists j | 0 <= j < i :: Evicts(cfg, st, keys[j], keys[i]))
  }

  /** Those of the first n keys, in order. */
  function Reported(cfg: Config, st: Contents, keys: seq<T.Key>, n: nat): seq<T.Key>
    requires n <= |keys|
  {
    if n == 0 then []
    else Reported(cfg, st, keys, n - 1) + (if IsReported(cfg, st, keys, n - 1) then [keys[n - 1]] else [])
  }

  /** What one lookup means for another. */
  lemma MissingAfterOne(cfg: Config, st: Contents, other: T.Key, key: T.Key)
    ensures var st' := AfterLocate(cfg, st, other);
            (LocateBlob(cfg, st', key).None? <==>
              !InTable(cfg, st, key) && (LocateBlob(cfg, st, key).None? || Evicts(cfg, st, other, key))) &&
            (forall k :: InTable(cfg, st', k) <==> InTable(cfg, st, k)) &&
            (forall k :: CacheSlot(cfg.hashes, st'.index, k) == CacheSlot(cfg.hashes, st.index, k))
  {
    hide T.Lookup;
  }

  /** What many lookups mean for another. */
  lemma {:induction false} MissingAfter(cfg: Config, st: Contents, before: seq<T.Key>, key: T.Key)
    ensures LocateBlob(cfg, FindMissingBlobs(cfg, st, before).store, key).None? <==>
            !InTable(cfg, st, key) &&
            (LocateBlob(cfg, st, key).None? || exists j | 0 <= j < |before| :: Evicts(cfg, st, before[j], key))
    decreases |before|
  {
    if before == [] {
      FoundInTable(cfg, st, key);
    } else {
      hide LocateBlob, AfterLocate, InTable, CacheSlot;
      var st', rest := AfterLocate(cfg, st, before[0]), before[1..];
      MissingAfterOne(cfg, st, before[0], key);
      MissingAfter(cfg, st', rest, key);
      if j :| 0 <= j < |before| && Evicts(cfg, st, before[j], key) {
        assert j == 0 || Evicts(cfg, st', rest[j - 1], key);
      }
      if j :| 0 <= j < |rest| && Evicts(cfg, st', rest[j], key) {
        assert Evicts(cfg, st, before[j + 1], key);
      }
    }
  }

  lemma IsInTable(cfg: Config, st: Contents, key: T.Key)
    requires T.Lookup(cfg.hashes.table, st.index.table, st.state.cursors, key).Some?
    ensures InTable(cfg, st, key) && LocateBlob(cfg, st, key).Some?
  {
  }

  lemma FoundInTable(cfg: Config, st: Contents, key: T.Key)
    ensures InTable(cfg, st, key) ==> LocateBlob(cfg, st, key).Some?
  {
  }

  lemma {:induction false} FindMissingAppend(cfg: Config, st: Contents, keys: seq<T.Key>, key: T.Key)
    ensures var m := FindMissingBlobs(cfg, st, keys);
            FindMissingBlobs(cfg, st, keys + [key]) ==
            Missing(AfterLocate(cfg, m.store, key),
                    m.keys + (if LocateBlob(cfg, m.store, key).None? then [key] else []))
    decreases |keys|
  {
    hide LocateBlob, AfterLocate;
    if keys == [] {
      assert keys + [key] == [key] && [key][1..] == [];
    } else {
      assert (keys + [key])[1..] == keys[1..] + [key];
      FindMissingAppend(cfg, AfterLocate(cfg, st, keys[0]), keys[1..], key);
    }
  }

  /**
   * Exactly what FindMissing reports: the keys that the table misses, and that the cache misses from the
   * start or has dropped for an earlier key of the same request.
   */
  lemma FindMissingIff(cfg: Config, st: Contents, keys: seq<T.Key>)
    ensures FindMissingBlobs(cfg, st, keys).keys == Reported(cfg, st, keys, |keys|)
  {
    FindMissingPrefix(cfg, st, keys, |keys|);
    assert keys[..|keys|] == keys;
  }

  lemma {:induction false} FindMissingPrefix(cfg: Config, st: Contents, keys: seq<T.Key>, n: nat)
    requires n <= |keys|
    ensures FindMissingBlobs(cfg, st, keys[..n]).keys == Reported(cfg, st, keys, n)
    decreases n
  {
    if n > 0 {
      hide LocateBlob, AfterLocate, FindMissingBlobs, IsReported;
      var before, key := keys[..n - 1], keys[n - 1];
      FindMissingPrefix(cfg, st, keys, n - 1);
      assert keys[..n] == before + [key];
      FindMissingAppend(cfg, st, before, key);
      MissingIsReported(cfg, st, keys, n - 1);
    } else {
      assert keys[..n] == [];
    }
  }

  lemma MissingIsReported(cfg: Config, st: Contents, keys: seq<T.Key>, i: nat)
    requires i < |keys|
    ensures LocateBlob(cfg, FindMissingBlobs(cfg, st, keys[..i]).store, keys[i]).None? <==> IsReported(cfg, st, keys, i)
  {
    hide LocateBlob, FindMissingBlobs, Evicts, InTable;
    var before := keys[..i];
    MissingAfter(cfg, st, before, keys[i]);
    if j :| 0 <= j < i && Evicts(cfg, st, keys[j], keys[i]) {
      assert Evicts(cfg, st, before[j], keys[i]);
    }
    if j :| 0 <= j < i && Evicts(cfg, st, before[j], keys[i]) {
      assert Evicts(cfg, st, keys[j], keys[i]);
    }
  }

  // ---------------------------------------------------------------------------------------------
  // A Put on its own
  // ---------------------------------------------------------------------------------------------

  /** The range that is allocated for the blob is still between the cursors on return. */
  predicate FitsFile(cfg: Config, st: Contents, size: int64)
    requires A.Sane(cfg.geometry, st.state) && A.Fits(cfg.geometry, st.state, size)
  {
    var n, left := A.PositiveSize(size), st.state.cursors.write - A.Clamped(st.state.cursors, st.state.sub);
    n <= left || left + A.ChunksFor(cfg.geometry, n - left) <= cfg.Size()
  }

  /**
   * A Put whose source ends well becomes stale if and only if its range does not fit the file; otherwise
   * the next lookup of its key finds it.
   */
  lemma PutIsStaleIff(cfg: Config, st: Contents, key: T.Key, size: int64, r: Source)
    requires A.Sane(cfg.geometry, st.state) && A.Fits(cfg.geometry, st.state, size) && !r.failed
    ensures var p := PutBlob(cfg, st, key, size, r);
            var at := T.Location(A.Allocate(cfg.geometry, st.state, size).offset, size);
            if FitsFile(cfg, st, size) then p.status == Done && LocateBlob(cfg, p.store, key) == Some(at)
            else p.status == Stale && p.store.index == st.index
  {
    hide A.Allocate, A.ChunksFor, A.Clamped, Remember, Find, WriteChunks;
    A.AllocationIsInsideIff(cfg.geometry, st.state, size);
    A.AllocateIsLeast(cfg.geometry, st.state, size);
    var a := A.Allocate(cfg.geometry, st.state, size);
    ContainsIsInside(a.state.cursors, a.offset, size);
    if FitsFile(cfg, st, size) {
      FindAfterStore(cfg.hashes, st.index, a.state.cursors, key, T.Location(a.offset, size), a.state.cursors);
    }
  }

  /**
   * It is then also in the table, at the first slot of its key, whatever the displacement chain did to
   * others. Only at offset 0 a slot that was never written may take precedence.
   */
  lemma PutIsInTable(cfg: Config, s: System, key: T.Key, size: int64, r: Source)
    requires IndexInv(cfg, s) && A.Fits(cfg.geometry, s.state, size) && !r.failed
    requires PutBlob(cfg, Core(s), key, size, r).status == Done
    requires 0 < A.Allocate(cfg.geometry, s.state, size).offset
    ensures var st := PutBlob(cfg, Core(s), key, size, r).store;
            T.Lookup(cfg.hashes.table, st.index.table, st.state.cursors, key) ==
            Some(T.Location(A.Allocate(cfg.geometry, s.state, size).offset, size))
  {
    hide A.Allocate, T.Insert, T.Lookup, WriteChunks;
    A.AllocateIsLeast(cfg.geometry, s.state, size);
    var a, t := A.Allocate(cfg.geometry, s.state, size), s.index.table;
    forall p | 0 <= p < |t| && T.Live(a.state.cursors, t[p]) ensures t[p].offset < a.offset {
      RecordIsOlder(cfg, s, p);
    }
    T.NewestWins(cfg.hashes.table, t, a.state.cursors, key, T.Location(a.offset, size), a.state.cursors);
  }

  lemma RecordIsOlder(cfg: Config, s: System, p: nat)
    requires IndexInv(cfg, s) && p < |s.index.table|
    ensures s.index.table[p].offset == 0 || s.index.table[p].offset < s.state.sub <= s.state.cursors.write
  {
    var r := s.index.table[p];
    if (r.key, T.Location(r.offset, r.length)) in Completed(s.uploads) {
      var up :| up in s.uploads && up.phase == Indexed && (r.key, T.Location(r.offset, r.length)) == (up.key, up.At());
      var u :| 0 <= u < |s.uploads| && s.uploads[u] == up;
      assert IsWithin(s.state, s.uploads[u]);
    }
  }

  // ---------------------------------------------------------------------------------------------
  // A Delete on its own
  // ---------------------------------------------------------------------------------------------

  /** A Delete that finds nothing changes nothing at all. */
  lemma DeleteOfMissing(cfg: Config, st: Contents, key: T.Key)
    requires LocateBlob(cfg, st, key).None?
    ensures DeleteBlob(cfg, st, key) == st
  {
    hide T.Lookup;
  }

  /** One that finds a blob moves the read cursor to its end. Write cursors, table and data file stay. */
  lemma DeleteOfFound(cfg: Config, s: System, key: T.Key)
    requires IndexInv(cfg, s) && LocateBlob(cfg, Core(s), key).Some?
    ensures var at := LocateBlob(cfg, Core(s), key).value;
            var st := DeleteBlob(cfg, Core(s), key);
            at.offset + Max(1, at.length) <= s.state.cursors.write &&
            st.state == A.State(Cursors(at.offset + Max(1, at.length), s.state.cursors.write), s.state.sub) &&
            st.index.table == s.index.table && st.file == s.file
  {
    hide Find, Sound, RangesOk, T.Lookup;
    LookupIsInside(cfg, s, key);
    var at := Lookup(cfg, s, key).value;
    A.InvalidateInside(s.state.cursors, cfg.geometry.dataSize, at.offset, A.PositiveSize(at.length));
  }

  /** The system's Delete step does just that, and leaves transfers alone. */
  lemma DeleteStepIsCall(cfg: Config, s: System, key: T.Key)
    requires cfg.geometry.Valid()
    ensures var s' := Step(cfg, s, Event.Delete(key));
            Core(s') == DeleteBlob(cfg, Core(s), key) && s'.uploads == s.uploads && s'.downloads == s.downloads
    ensures Lookup(cfg, s, key).None? ==> Step(cfg, s, Event.Delete(key)) == s
  {
    if Lookup(cfg, s, key).None? {
      DeleteOfMissing(cfg, Core(s), key);
    }
  }

  /** The system's Get step looks the key up, and opens a download of what it finds. */
  lemma GetStepIsCall(cfg: Config, s: System, key: T.Key)
    requires cfg.geometry.Valid()
    ensures var s' := Step(cfg, s, BeginGet(key));
            var found := LocateBlob(cfg, Core(s), key);
            Core(s') == AfterLocate(cfg, Core(s), key) && s'.uploads == s.uploads &&
            s'.downloads == s.downloads + (if found.None? then [] else [Download(key, found.value, [])])
  {
  }

  /**
   * In every interleaving, a Put that finishes becomes stale if and only if the read cursor has passed its
   * start; otherwise the next lookup of its key finds it.
   */
  lemma FinishIsStaleIff(cfg: Config, s: System, u: nat)
    requires IndexInv(cfg, s) && Possible(cfg, s, FinishPut(u))
    ensures var s', up := Step(cfg, s, FinishPut(u)), s.uploads[u];
            if s.state.cursors.read <= up.offset then
              s'.uploads == s.uploads[u := up.(phase := Indexed)] && Lookup(cfg, s', up.key) == Some(up.At())
            else s' == s.(uploads := s.uploads[u := up.(phase := Abandoned)])
  {
    hide Remember, Find, Sound;
    var up := s.uploads[u];
    assert IsWithin(s.state, up);
    ContainsIsInside(s.state.cursors, up.offset, up.size);
    if s.state.cursors.read <= up.offset {
      FindAfterStore(cfg.hashes, s.index, s.state.cursors, up.key, up.At(), s.state.cursors);
    }
  }

  /**
   * What the table holds for other keys at or above the deleted end is still found: every record of an
   * ordered table, in its own slot at an attempt that lookups try.
   */
  lemma DeleteKeepsNewer(cfg: Config, s: System, key: T.Key, p: nat)
    requires IndexInv(cfg, s) && LocateBlob(cfg, Core(s), key).Some? && p < |s.index.table|
    requires T.Ordered(cfg.hashes.table, s.index.table, s.state.cursors)
    requires var at, x := LocateBlob(cfg, Core(s), key).value, s.index.table[p];
             T.Live(s.state.cursors, x) && T.InPlace(cfg.hashes.table, s.index.table, p) &&
             x.attempt <= T.MAXIMUM_ITERATIONS - 2 && at.offset + Max(1, at.length) <= x.offset
    ensures var st, x := DeleteBlob(cfg, Core(s), key), s.index.table[p];
            LocateBlob(cfg, st, x.key).Some? && InTable(cfg, st, x.key)
  {
    hide T.Lookup, T.InPlace, T.Ordered, InTable, DeleteBlob, Find, Sound, RangesOk;
    var st := DeleteBlob(cfg, Core(s), key);
    DeleteOfFound(cfg, s, key);
    LookupIsInside(cfg, s, key);
    T.AdvanceKeepsOrder(cfg.hashes.table, s.index.table, s.state.cursors, st.state.cursors);
    T.NoFalseMiss(cfg.hashes.table, s.index.table, st.state.cursors, p);
    IsInTable(cfg, st, s.index.table[p].key);
  }

  /** So is what the cache holds for them, in slots other than that of the deleted key. */
  lemma DeleteKeepsCached(cfg: Config, s: System, key: T.Key, other: T.Key)
    requires IndexInv(cfg, s) && LocateBlob(cfg, Core(s), key).Some? && LocateBlob(cfg, Core(s), other).Some?
    requires CacheSlot(cfg.hashes, s.index, other) != CacheSlot(cfg.hashes, s.index, key)
    requires var o := LocateBlob(cfg, Core(s), other).value;
             s.index.cache[CacheSlot(cfg.hashes, s.index, other)] == CachedRecord(other, o)
    requires var at, o := LocateBlob(cfg, Core(s), key).value, LocateBlob(cfg, Core(s), other).value;
             at.offset + Max(1, at.length) <= o.offset
    ensures LocateBlob(cfg, DeleteBlob(cfg, Core(s), key), other) == LocateBlob(cfg, Core(s), other)
  {
    DeleteOfFound(cfg, s, key);
    LookupIsInside(cfg, s, other);
    var o := LocateBlob(cfg, Core(s), other).value;
    ContainsIsInside(s.state.cursors, o.offset, o.length);
    ContainsIsInside(DeleteBlob(cfg, Core(s), key).state.cursors, o.offset, o.length);
  }

  // ---------------------------------------------------------------------------------------------
  // Calls are runs of the concurrent system
  // ---------------------------------------------------------------------------------------------

  datatype Call =
    | Put(key: T.Key, size: int64, r: Source)
    | Get(key: T.Key)
    | Delete(key: T.Key)

  /** The same call in the system that remembers uploads. */
  function After(cfg: Config, s: System, call: Call): System
    requires cfg.geometry.Valid()
  {
    match call
    case Put(key, size, r) =>
      var p := PutBlob(cfg, Core(s), key, size, r);
      var offset := A.Allocate(cfg.geometry, s.state, size).offset;
      var up := Upload(key, size, offset, Concat(r.chunks), if p.status == Done then Indexed else Abandoned,
                       !NoneCrosses(cfg.Size(), offset, r.chunks));
      System(p.store.state, p.store.index, p.store.file, s.uploads + [up], s.downloads)
    case Get(key) => Queried(cfg, s, key)
    case Delete(key) => Step(cfg, s, Event.Delete(key))
  }

  /**
   * A Put within the model: it stays clear of 2^64, and its source delivers as announced, as the validating
   * reader does. Blobs too large for the file, and chunks that run past its end, are among them.
   */
  predicate Serves(cfg: Config, st: Contents, call: Call)
    requires cfg.geometry.Valid()
  {
    match call
    case Put(_, size, r) =>
      0 <= size && A.Fits(cfg.geometry, st.state, size) &&
      |Concat(r.chunks)| <= size && (!r.failed ==> |Concat(r.chunks)| == size)
    case _ => true
  }

  /** The calls do to the store what the methods do to their fields. */
  function ContentsAfter(cfg: Config, st: Contents, call: Call): Contents
    requires cfg.geometry.Valid()
  {
    match call
    case Put(key, size, r) => PutBlob(cfg, st, key, size, r).store
    case Get(key) => AfterLocate(cfg, st, key)
    case Delete(key) => DeleteBlob(cfg, st, key)
  }

  lemma AfterIsCore(cfg: Config, s: System, call: Call)
    requires cfg.geometry.Valid()
    ensures Core(After(cfg, s, call)) == ContentsAfter(cfg, Core(s), call)
  {
  }

  /** The last upload, still being written, gets these chunks. */
  function Written(cfg: Config, s: System, chunks: seq<Bytes>): System
    requires 0 < cfg.Size() && s.uploads != []
    requires var up := s.uploads[|s.uploads| - 1]; up.offset + |up.received| < TWO_64
  {
    var u := |s.uploads| - 1;
    var up := s.uploads[u];
    var b := up.offset + |up.received|;
    var crossed := up.crossed || !NoneCrosses(cfg.Size(), b, chunks);
    s.(file := WriteChunks(s.file, cfg.Size(), b, chunks),
       uploads := s.uploads[u := up.(received := up.received + Concat(chunks), crossed := crossed)])
  }

  predicate CanWrite(cfg: Config, s: System, chunks: seq<Bytes>)
    requires 0 < cfg.Size()
  {
    s.uploads != [] &&
    var up := s.uploads[|s.uploads| - 1];
    up.phase == Writing && |up.received| + |Concat(chunks)| <= up.size && up.offset + up.size < TWO_64
  }

  /** The last upload can write its next chunk, and then the others. */
  lemma NextWriteIsOrderly(cfg: Config, s: System, chunks: seq<Bytes>)
    requires Inv(cfg, s) && CanWrite(cfg, s, chunks) && chunks != []
    ensures s.uploads != []
    ensures var e := WriteChunk(|s.uploads| - 1, chunks[0]);
            Possible(cfg, s, e) && Orderly(cfg, s, e) && CanWrite(cfg, Step(cfg, s, e), chunks[1..])
  {
    hide WriteAt, Wrap, Harmless, Crosses, BytesOk, Sound;
    assert |Concat(chunks)| == |chunks[0]| + |Concat(chunks[1..])|;
    YoungestIsHarmless(cfg, s, |chunks[0]|);
  }

  /** The file, and what has crossed its end, after the first of several chunks. */
  lemma FirstOfChunks(cfg: Config, f: Bytes, b: nat, chunks: seq<Bytes>)
    requires 0 < cfg.Size() && chunks != [] && b + |Concat(chunks)| < TWO_64
    ensures Concat(chunks) == chunks[0] + Concat(chunks[1..])
    ensures WriteChunks(f, cfg.Size(), b, chunks)
         == WriteChunks(WriteAt(f, b % cfg.Size(), chunks[0]), cfg.Size(), b + |chunks[0]|, chunks[1..])
    ensures NoneCrosses(cfg.Size(), b, chunks)
       <==> !Crosses(cfg.Size(), b, |chunks[0]|) && NoneCrosses(cfg.Size(), b + |chunks[0]|, chunks[1..])
  {
    hide WriteAt, Wrap, Crosses, WriteChunks;
    WriteChunksStep(f, cfg.Size(), b, chunks);
  }

  lemma NextWriteIsFirst(cfg: Config, s: System, s': System, chunks: seq<Bytes>)
    requires 0 < cfg.Size() && CanWrite(cfg, s, chunks) && chunks != []
    requires Writes(cfg, s, |s.uploads| - 1, chunks[0], s') && CanWrite(cfg, s', chunks[1..])
    ensures Written(cfg, s', chunks[1..]) == Written(cfg, s, chunks)
  {
    hide WriteAt, Wrap, Crosses, NoneCrosses, WriteChunks, Concat;
    var u := |s.uploads| - 1;
    var up := s.uploads[u];
    FirstOfChunks(cfg, s.file, up.offset + |up.received|, chunks);
    assert up.received + chunks[0] + Concat(chunks[1..]) == up.received + Concat(chunks);
    var up', whole := s'.uploads[u], Written(cfg, s, chunks).uploads[u];
    assert up'.offset + |up'.received| == up.offset + |up.received| + |chunks[0]|;
    assert Written(cfg, s', chunks[1..]).uploads[u] == whole;
    assert s'.uploads[u := whole] == s.uploads[u := whole];
  }

  lemma {:induction false} WriteRun(cfg: Config, s: System, events: seq<Event>, chunks: seq<Bytes>)
    returns (events': seq<Event>)
    requires GoodRun(cfg, s, events) && Inv(cfg, Run(cfg, s, events)) && CanWrite(cfg, Run(cfg, s, events), chunks)
    ensures GoodRun(cfg, s, events') && Run(cfg, s, events') == Written(cfg, Run(cfg, s, events), chunks)
    decreases |chunks|
  {
    hide Step, Possible, Orderly, Written, Writes, CanWrite, BytesOk, Sound, RangesOk;
    var y := Run(cfg, s, events);
    if chunks == [] {
      WrittenNothing(cfg, y);
      events' := events;
    } else {
      NextWriteIsOrderly(cfg, y, chunks);
      var e := WriteChunk(|y.uploads| - 1, chunks[0]);
      WriteIsAt(cfg, y, e.u, e.chunk);
      NextWriteIsFirst(cfg, y, Step(cfg, y, e), chunks);
      StepKeepsInv(cfg, y, e);
      RunThen(cfg, s, events, e);
      events' := WriteRun(cfg, s, events + [e], chunks[1..]);
    }
  }

  lemma WrittenNothing(cfg: Config, s: System)
    requires 0 < cfg.Size() && CanWrite(cfg, s, [])
    ensures Written(cfg, s, []) == s
  {
    var up := s.uploads[|s.uploads| - 1];
    assert up.received + Concat([]) == up.received;
  }

  /** After its allocation a call can write all its chunks. */
  lemma PutBegins(cfg: Config, s: System, call: Call)
    requires Inv(cfg, s) && call.Put? && Serves(cfg, Core(s), call)
    ensures var e := BeginPut(call.key, call.size);
            Possible(cfg, s, e) && Orderly(cfg, s, e) &&
            Inv(cfg, Step(cfg, s, e)) && CanWrite(cfg, Step(cfg, s, e), call.r.chunks)
  {
    hide A.Allocate, BytesOk, Sound, RangesOk, NoneCrosses;
    BeginPutKeepsInv(cfg, s, call.key, call.size);
    A.AllocateIsLeast(cfg.geometry, s.state, call.size);
    var a := A.Allocate(cfg.geometry, s.state, call.size);
    var s1 := Step(cfg, s, BeginPut(call.key, call.size));
    assert s1.uploads[|s.uploads|] == Upload(call.key, call.size, a.offset, [], Writing, false);
  }

  /** Once the bytes are written, the call ends, and leaves the store as PutBlob says. */
  lemma PutEnds(cfg: Config, s: System, call: Call)
    requires cfg.geometry.Valid() && call.Put? && Serves(cfg, Core(s), call)
    requires CanWrite(cfg, Step(cfg, s, BeginPut(call.key, call.size)), call.r.chunks)
    ensures var s2 := Written(cfg, Step(cfg, s, BeginPut(call.key, call.size)), call.r.chunks);
            var e := if call.r.failed then AbortPut(|s.uploads|) else FinishPut(|s.uploads|);
            Possible(cfg, s2, e) && Orderly(cfg, s2, e) && Step(cfg, s2, e) == After(cfg, s, call)
  {
    hide A.Allocate, Remember, WriteChunks, NoneCrosses, Wrap;
    var a := A.Allocate(cfg.geometry, s.state, call.size);
    var s1 := Step(cfg, s, BeginPut(call.key, call.size));
    assert s1.uploads[|s.uploads|] == Upload(call.key, call.size, a.offset, [], Writing, false);
    assert [] + Concat(call.r.chunks) == Concat(call.r.chunks);
  }

  /** Every call is a run of orderly steps of the concurrent system, with no other call in between. */
  lemma CallIsRun(cfg: Config, s: System, events: seq<Event>, call: Call) returns (events': seq<Event>)
    requires GoodRun(cfg, s, events) && Inv(cfg, Run(cfg, s, events))
    requires Serves(cfg, Core(Run(cfg, s, events)), call)
    ensures GoodRun(cfg, s, events') && Run(cfg, s, events') == After(cfg, Run(cfg, s, events), call)
  {
    hide BytesOk, Sound, RangesOk, Written, CanWrite;
    var y := Run(cfg, s, events);
    match call
    case Put(key, size, r) =>
      PutBegins(cfg, y, call);
      PutEnds(cfg, y, call);
      var e1 := BeginPut(key, size);
      RunThen(cfg, s, events, e1);
      var written := WriteRun(cfg, s, events + [e1], r.chunks);
      var e2 := if r.failed then AbortPut(|y.uploads|) else FinishPut(|y.uploads|);
      RunThen(cfg, s, written, e2);
      events' := written + [e2];
    case Get(key) =>
      RunThen(cfg, s, events, Query(key));
      events' := events + [Query(key)];
    case Delete(key) =>
      RunThen(cfg, s, events, Event.Delete(key));
      events' := events + [Event.Delete(key)];
  }

  // ---------------------------------------------------------------------------------------------
  // Sequences of calls
  // ---------------------------------------------------------------------------------------------

  predicate ServesAll(cfg: Config, st: Contents, calls: seq<Call>)
    requires cfg.geometry.Valid()
    decreases |calls|
  {
    calls == [] || (Serves(cfg, st, calls[0]) && ServesAll(cfg, ContentsAfter(cfg, st, calls[0]), calls[1..]))
  }

  function ContentsAfterAll(cfg: Config, st: Contents, calls: seq<Call>): Contents
    requires cfg.geometry.Valid()
    decreases |calls|
  {
    if calls == [] then st else ContentsAfterAll(cfg, ContentsAfter(cfg, st, calls[0]), calls[1..])
  }

  function AfterAll(cfg: Config, s: System, calls: seq<Call>): System
    requires cfg.geometry.Valid()
    decreases |calls|
  {
    if calls == [] then s else AfterAll(cfg, After(cfg, s, calls[0]), calls[1..])
  }

  lemma {:induction false} AfterAllIsCore(cfg: Config, s: System, calls: seq<Call>)
    requires cfg.geometry.Valid()
    ensures Core(AfterAll(cfg, s, calls)) == ContentsAfterAll(cfg, Core(s), calls)
    decreases |calls|
  {
    hide After, ContentsAfter, Core;
    if calls != [] {
      AfterIsCore(cfg, s, calls[0]);
      AfterAllIsCore(cfg, After(cfg, s, calls[0]), calls[1..]);
    }
  }

  lemma {:induction false} CallsAreRun(cfg: Config, s: System, events: seq<Event>, calls: seq<Call>)
    returns (events': seq<Event>)
    requires Inv(cfg, s) && GoodRun(cfg, s, events) && ServesAll(cfg, Core(Run(cfg, s, events)), calls)
    ensures GoodRun(cfg, s, events') && Run(cfg, s, events') == AfterAll(cfg, Run(cfg, s, events), calls)
    decreases |calls|
  {
    hide BytesOk, Sound, RangesOk, Serves, After, ContentsAfter;
    events' := events;
    if calls != [] {
      RunKeepsInv(cfg, s, events);
      AfterIsCore(cfg, Run(cfg, s, events), calls[0]);
      var next := CallIsRun(cfg, s, events, calls[0]);
      events' := CallsAreRun(cfg, s, next, calls[1..]);
    }
  }

  /** This call put a blob of this key and size, and these were the bytes. */
  predicate Provides(call: Call, key: T.Key, size: int, data: Bytes) {
    call.Put? && call.key == key && call.size == size && !call.r.failed && Concat(call.r.chunks) == data
  }

  /** This call made this upload. */
  predicate Makes(cfg: Config, call: Call, up: Upload)
    requires 0 < cfg.Size()
  {
    Provides(call, up.key, up.size, up.received) &&
    (up.crossed <==> !NoneCrosses(cfg.Size(), up.offset, call.r.chunks))
  }

  predicate FromCalls(cfg: Config, uploads: seq<Upload>, calls: seq<Call>)
    requires 0 < cfg.Size()
  {
    forall up | up in uploads && up.phase == Indexed :: exists call :: call in calls && Makes(cfg, call, up)
  }

  lemma CallProvides(cfg: Config, s: System, done: seq<Call>, call: Call)
    requires cfg.geometry.Valid() && FromCalls(cfg, s.uploads, done)
    ensures FromCalls(cfg, After(cfg, s, call).uploads, done + [call])
  {
    hide PutBlob;
    var s' := After(cfg, s, call);
    forall up | up in s'.uploads && up.phase == Indexed
      ensures exists c :: c in done + [call] && Makes(cfg, c, up)
    {
      if up in s.uploads {
        var c :| c in done && Makes(cfg, c, up);
        assert c in done + [call];
      } else {
        PutIsDone(cfg, s, call);
        assert call in done + [call] && Makes(cfg, call, up);
      }
    }
  }

  lemma PutIsDone(cfg: Config, s: System, call: Call)
    requires cfg.geometry.Valid() && call.Put?
    ensures PutBlob(cfg, Core(s), call.key, call.size, call.r).status == Done ==> !call.r.failed
  {
  }

  lemma {:induction false} CallsProvide(cfg: Config, s: System, done: seq<Call>, calls: seq<Call>)
    requires cfg.geometry.Valid() && FromCalls(cfg, s.uploads, done)
    ensures FromCalls(cfg, AfterAll(cfg, s, calls).uploads, done + calls)
    decreases |calls|
  {
    hide After, FromCalls;
    if calls == [] {
      assert done + [] == done;
    } else {
      CallProvides(cfg, s, done, calls[0]);
      CallsProvide(cfg, After(cfg, s, calls[0]), done + [calls[0]], calls[1..]);
      assert done + [calls[0]] + calls[1..] == done + calls;
    }
  }

  /** What is read from a location with these buffers. */
  function ReadBack(cfg: Config, st: Contents, at: T.Location, buffers: seq<nat>): Bytes
    requires 0 < cfg.Size()
  {
    Drain(st.file, cfg.Size(), Reader(at.offset, Wrap(at.length)), buffers)
  }

  /** A store without blobs, with no calls going on. */
  function Initial(st: Contents): System {
    System(st.state, st.index, st.file, [], [])
  }

  /** The state after any sequence of calls, seen as that of the concurrent system. */
  lemma AfterAllIsFine(cfg: Config, st: Contents, calls: seq<Call>)
    requires Fresh(cfg, Initial(st)) && ServesAll(cfg, st, calls)
    ensures var y := AfterAll(cfg, Initial(st), calls);
            Inv(cfg, y) && FromCalls(cfg, y.uploads, calls) && Core(y) == ContentsAfterAll(cfg, st, calls)
  {
    hide After, Serves;
    var s := Initial(st);
    assert Core(s) == st;
    FreshIsGood(cfg, s);
    var events := CallsAreRun(cfg, s, [], calls);
    RunKeepsInv(cfg, s, events);
    CallsProvide(cfg, s, [], calls);
    AfterAllIsCore(cfg, s, calls);
    assert [] + calls == calls;
  }

  /** A location that is found in a good state reads back as one of its completed uploads. */
  lemma HitReadsBack(cfg: Config, s: System, key: T.Key, buffers: seq<nat>)
    requires Inv(cfg, s) && Lookup(cfg, s, key).Some? && !IsBlank(key, Lookup(cfg, s, key).value)
    requires forall i | 0 <= i < |buffers| :: 0 < buffers[i]
    ensures var at := Lookup(cfg, s, key).value;
            0 <= at.length &&
            exists up :: up in s.uploads && GoodUpload(cfg, s, up, key, at) &&
              (!up.crossed ==>
                 ReadBack(cfg, Core(s), at, buffers) <= up.received &&
                 (at.length <= |buffers| ==> ReadBack(cfg, Core(s), at, buffers) == up.received))
  {
    hide Lookup, BytesOk, Sound, RangesOk, Stored, Drain, Wrap;
    HitIsInPlace(cfg, s, key);
    var at := Lookup(cfg, s, key).value;
    var up :| up in s.uploads && GoodUpload(cfg, s, up, key, at);
    LookupIsInside(cfg, s, key);
    WrapIsIdentity(at.length);
    if !up.crossed {
      DrainDelivers(s.file, cfg.Size(), Reader(at.offset, at.length), buffers, up.received);
    }
  }

  /** The call put the blob that was found, and reading it with these buffers delivers exactly its bytes. */
  predicate ReadsBack(cfg: Config, st: Contents, call: Call, key: T.Key, at: T.Location, buffers: seq<nat>)
    requires 0 < cfg.Size()
  {
    call.Put? && Provides(call, key, at.length, Concat(call.r.chunks)) &&
    (NoneCrosses(cfg.Size(), at.offset, call.r.chunks) && at.length <= |buffers| ==>
      ReadBack(cfg, st, at, buffers) == Concat(call.r.chunks))
  }

  /**
   * Read-back: after any sequence of calls on a fresh store, a key that is found was put by one of
   * them, and reading it, with buffers of any size, delivers exactly the bytes of that call, unless one
   * of its own chunks ran past the end of the file. Only the zero key can find the empty blob of a
   * blank slot.
   */
  lemma SequentialReadBack(cfg: Config, st: Contents, calls: seq<Call>, key: T.Key, buffers: seq<nat>)
    requires Fresh(cfg, Initial(st)) && ServesAll(cfg, st, calls)
    requires forall i | 0 <= i < |buffers| :: 0 < buffers[i]
    ensures var y := ContentsAfterAll(cfg, st, calls);
            var found := LocateBlob(cfg, y, key);
            found.None? || IsBlank(key, found.value) ||
            (0 <= found.value.length &&
             exists call :: call in calls && ReadsBack(cfg, y, call, key, found.value, buffers))
  {
    hide AfterAll, ContentsAfterAll, ServesAll, Drain, BytesOk, Sound, RangesOk;
    AfterAllIsFine(cfg, st, calls);
    var y := AfterAll(cfg, Initial(st), calls);
    var found := LocateBlob(cfg, Core(y), key);
    if found.Some? && !IsBlank(key, found.value) {
      HitReadsBack(cfg, y, key, buffers);
      var at := found.value;
      var up :| up in y.uploads && GoodUpload(cfg, y, up, key, at) &&
                (!up.crossed && at.length <= |buffers| ==> ReadBack(cfg, Core(y), at, buffers) == up.received);
      var call :| call in calls && Makes(cfg, call, up);
      assert ReadsBack(cfg, Core(y), call, key, at, buffers);
    }
  }

  // ---------------------------------------------------------------------------------------------
  // With validation of checksums
  // ---------------------------------------------------------------------------------------------

  /** merkleBlobAccess.Put: the size has to agree, and the source is read through the validator. */
  function MerklePut(h: HashFunction, keyOf: Digest -> T.Key, want: Digest, size: int64, r: Source,
                     fault: Option<Fault>): Option<Call>
  {
    if want.size != size then None
    else Some(Put(keyOf(want), size, Reaching(Validate(h, want, Start(want), r).source, fault)))
  }

  /** Through the validator every source delivers as Serves demands, whatever client and disk do. */
  lemma MerklePutDelivers(h: HashFunction, keyOf: Digest -> T.Key, want: Digest, size: int64, r: Source,
                          fault: Option<Fault>)
    requires MerklePut(h, keyOf, want, size, r, fault).Some?
    ensures var call := MerklePut(h, keyOf, want, size, r, fault).value;
            0 <= call.size && |Concat(call.r.chunks)| <= call.size &&
            (!call.r.failed ==> |Concat(call.r.chunks)| == call.size && Matches(h, want, Concat(call.r.chunks)))
  {
    hide Reaching, Validate;
    ValidateIsExact(h, want, r);
    ReachingIsPrefix(Validate(h, want, Start(want), r).source, fault);
    ReachingSucceedsIff(Validate(h, want, Start(want), r).source, fault);
  }

  /**
   * A validated Put transfers its blob exactly if the announced size is that of the digest, the client's
   * source ends well, its bytes match, and no write fails; and then everything was passed on as it came.
   */
  lemma MerklePutSucceedsIff(h: HashFunction, keyOf: Digest -> T.Key, want: Digest, size: int64, r: Source,
                             fault: Option<Fault>)
    ensures var call := MerklePut(h, keyOf, want, size, r, fault);
            (call.Some? <==> want.size == size) &&
            (call.Some? ==>
              (!call.value.r.failed <==>
                !r.failed && Matches(h, want, Concat(r.chunks)) && (fault.Some? ==> |r.chunks| <= fault.value.chunk)) &&
              (!call.value.r.failed ==> call.value == Put(keyOf(want), size, r)))
  {
    hide Reaching, Validate, Matches;
    ValidateIsExact(h, want, r);
    var v := Validate(h, want, Start(want), r).source;
    ReachingSucceedsIff(v, fault);
  }

  /**
   * From the client to the index: a validated Put of the announced size is Done exactly if the client's
   * source ends well, its bytes match, no write fails, and the blob fits the file; and then the next lookup
   * of the digest finds it.
   */
  lemma MerklePutIsDoneIff(h: HashFunction, keyOf: Digest -> T.Key, want: Digest, cfg: Config, st: Contents,
                           size: int64, r: Source, fault: Option<Fault>)
    requires A.Sane(cfg.geometry, st.state) && A.Fits(cfg.geometry, st.state, size) && want.size == size
    ensures var call := MerklePut(h, keyOf, want, size, r, fault).value;
            var p := PutBlob(cfg, st, call.key, call.size, call.r);
            (p.status == Done <==>
              !r.failed && Matches(h, want, Concat(r.chunks)) && (fault.Some? ==> |r.chunks| <= fault.value.chunk) &&
              FitsFile(cfg, st, size)) &&
            (p.status == Done ==>
              LocateBlob(cfg, p.store, keyOf(want)) ==
              Some(T.Location(A.Allocate(cfg.geometry, st.state, size).offset, size)))
  {
    hide Reaching, Validate, Matches, MerklePut, FitsFile, LocateBlob, A.Allocate, Remember, WriteChunks;
    MerklePutSucceedsIff(h, keyOf, want, size, r, fault);
    var call := MerklePut(h, keyOf, want, size, r, fault).value;
    MerklePutIsFor(h, keyOf, want, size, r, fault);
    if call.r.failed {
      PutIsDone(cfg, Initial(st), call);
    } else {
      PutIsStaleIff(cfg, st, call.key, size, call.r);
    }
  }

  lemma MerklePutIsFor(h: HashFunction, keyOf: Digest -> T.Key, want: Digest, size: int64, r: Source,
                       fault: Option<Fault>)
    requires MerklePut(h, keyOf, want, size, r, fault).Some?
    ensures MerklePut(h, keyOf, want, size, r, fault).value.Put?
    ensures MerklePut(h, keyOf, want, size, r, fault).value.key == keyOf(want)
    ensures MerklePut(h, keyOf, want, size, r, fault).value.size == want.size
  {
  }

  ghost predicate IsMerklePut(h: HashFunction, keyOf: Digest -> T.Key, call: Call) {
    exists want: Digest, size: int64, r: Source, fault: Option<Fault> ::
      MerklePut(h, keyOf, want, size, r, fault) == Some(call)
  }

  /** All Put calls come through the validator. */
  ghost predicate AllMerkle(h: HashFunction, keyOf: Digest -> T.Key, calls: seq<Call>) {
    forall call | call in calls && call.Put? :: IsMerklePut(h, keyOf, call)
  }

  /**
   * Content addressing: if all blobs were put through the validator, then whatever a digest's key
   * finds was put by one of the calls, and unless its chunks ran past the end of the file it reads back
   * as bytes that match a digest with that key, of the size found.
   */
  lemma OnlyMatchingBlobs(h: HashFunction, keyOf: Digest -> T.Key, cfg: Config, st: Contents, calls: seq<Call>,
                          key: T.Key, buffers: seq<nat>)
    requires Fresh(cfg, Initial(st)) && ServesAll(cfg, st, calls) && AllMerkle(h, keyOf, calls)
    requires forall i | 0 <= i < |buffers| :: 0 < buffers[i]
    ensures var y := ContentsAfterAll(cfg, st, calls);
            var found := LocateBlob(cfg, y, key);
            found.None? || IsBlank(key, found.value) ||
            (0 <= found.value.length &&
             exists call :: call in calls && ReadsBack(cfg, y, call, key, found.value, buffers) &&
               (NoneCrosses(cfg.Size(), found.value.offset, call.r.chunks) && found.value.length <= |buffers| ==>
                  exists want: Digest :: keyOf(want) == key && want.size == found.value.length &&
                    Matches(h, want, ReadBack(cfg, y, found.value, buffers))))
  {
    hide ContentsAfterAll, ServesAll, LocateBlob, ReadBack, NoneCrosses, MerklePut;
    SequentialReadBack(cfg, st, calls, key, buffers);
    var y := ContentsAfterAll(cfg, st, calls);
    var found := LocateBlob(cfg, y, key);
    if found.Some? && !IsBlank(key, found.value) {
      var call :| call in calls && ReadsBack(cfg, y, call, key, found.value, buffers);
      var want, size, r, fault :| MerklePut(h, keyOf, want, size, r, fault) == Some(call);
      MerklePutDelivers(h, keyOf, want, size, r, fault);
      MerklePutIsFor(h, keyOf, want, size, r, fault);
    }
  }
}
