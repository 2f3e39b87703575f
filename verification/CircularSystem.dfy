/**
 * The circular store as a system of concurrent calls (circular_blob_access.go). Allocation, index
 * access and discarding happen under the lock, each in one step. The chunks of an upload are
 * written, and those of a download read, between such steps and without the lock.
 *
 * This module is about cursors and index, over every run the program can have: slow transfers,
 * sources that deliver too much or too little, and data files that are damaged.
 */
module CircularSystem {
  import opened Arithmetic
  import opened Wrappers
  import opened Cursors
  import opened DataStore
  import opened OffsetStore
  import opened OffsetTable
  import A = Allocation

  datatype Config = Config(geometry: A.Geometry, hashes: Hashes) {
    function Size(): nat {
      geometry.dataSize
    }
  }

  datatype Phase = Writing | Indexed | Abandoned

  /**
   * A Put call: the range it was given, what it has written so far, how it ended, and whether one of
   * its chunks has run past the end of the storage area.
   */
  datatype Upload = Upload(key: Key, size: int64, offset: uint64, received: Bytes, phase: Phase, crossed: bool) {
    function At(): Location {
      Location(offset, size)
    }

    function End(): int {
      offset + A.PositiveSize(size)
    }
  }

  /** A Get call that found its blob, and what its reader has delivered so far. */
  datatype Download = Download(key: Key, at: Location, got: Bytes)

  /** Uploads and downloads are never removed: they are also the history of the system. */
  datatype System = System(
    state: A.State, index: Layers, file: Bytes, uploads: seq<Upload>, downloads: seq<Download>)

  datatype Event =
    | BeginPut(key: Key, size: int64)
    | WriteChunk(u: nat, chunk: Bytes)
    | FinishPut(u: nat)
    | AbortPut(u: nat)
    | BeginGet(key: Key)
    | ReadBytes(d: nat, buffer: nat)
    | Query(key: Key)
    | Delete(key: Key)

  // ---------------------------------------------------------------------------------------------
  // Steps
  // ---------------------------------------------------------------------------------------------

  /** When a step can happen in the program. Allocations stay clear of 2^64. */
  predicate Possible(cfg: Config, s: System, e: Event) {
    match e
    case BeginPut(_, size) => A.Fits(cfg.geometry, s.state, size)
    case WriteChunk(u, _) => u < |s.uploads| && s.uploads[u].phase == Writing
    case FinishPut(u) => u < |s.uploads| && s.uploads[u].phase == Writing
    case AbortPut(u) => u < |s.uploads| && s.uploads[u].phase == Writing
    case ReadBytes(d, buffer) => d < |s.downloads| && 0 < buffer
    case BeginGet(_) => true
    case Query(_) => true
    case Delete(_) => true
  }

  function Lookup(cfg: Config, s: System, key: Key): Option<Location> {
    Find(cfg.hashes, s.index, s.state.cursors, key)
  }

  function Queried(cfg: Config, s: System, key: Key): System {
    s.(index := AfterFind(cfg.hashes, s.index, s.state.cursors, key))
  }

  /** Where an upload writes next. */
  function WritePosition(cfg: Config, up: Upload): nat
    requires 0 < cfg.Size()
  {
    Wrap(up.offset + |up.received|) % cfg.Size()
  }

  /** What the reader of a download returns next. */
  function NextRead(cfg: Config, s: System, d: Download, buffer: nat): ReadResult
    requires 0 < cfg.Size()
  {
    ReadChunk(s.file, cfg.Size(), Reader(Wrap(d.at.offset + |d.got|), Wrap(d.at.length - |d.got|)), buffer)
  }

  function Step(cfg: Config, s: System, e: Event): System
    requires cfg.geometry.Valid() && Possible(cfg, s, e)
  {
    match e
    case BeginPut(key, size) =>
      var a := A.Allocate(cfg.geometry, s.state, size);
      s.(state := a.state, uploads := s.uploads + [Upload(key, size, a.offset, [], Writing, false)])
    case WriteChunk(u, chunk) =>
      var up, position := s.uploads[u], WritePosition(cfg, s.uploads[u]);
      var crossed := up.crossed || position + |chunk| > cfg.Size();
      s.(file := WriteAt(s.file, position, chunk),
         uploads := s.uploads[u := up.(received := up.received + chunk, crossed := crossed)])
    case FinishPut(u) =>
      var up := s.uploads[u];
      if s.state.cursors.Contains(up.offset, up.size) then
        s.(index := Remember(cfg.hashes, s.index, s.state.cursors, up.key, up.At()),
           uploads := s.uploads[u := up.(phase := Indexed)])
      else
        s.(uploads := s.uploads[u := up.(phase := Abandoned)])
    case AbortPut(u) =>
      s.(uploads := s.uploads[u := s.uploads[u].(phase := Abandoned)])
    case BeginGet(key) =>
      var found := Lookup(cfg, s, key);
      var s' := Queried(cfg, s, key);
      if found.None? then s' else s'.(downloads := s.downloads + [Download(key, found.value, [])])
    case ReadBytes(d, buffer) =>
      var dl := s.downloads[d];
      var b := NextRead(cfg, s, dl, buffer);
      if b.Data? then s.(downloads := s.downloads[d := dl.(got := dl.got + b.bytes)]) else s
    case Query(key) => Queried(cfg, s, key)
    case Delete(key) =>
      var found := Lookup(cfg, s, key);
      var s' := Queried(cfg, s, key);
      if found.None? then s' else s'.(state := A.Invalidate(s.state, found.value.offset, found.value.length))
  }

  /** Every step can happen where it does. */
  predicate CanRun(cfg: Config, s: System, events: seq<Event>)
    decreases |events|
  {
    cfg.geometry.Valid() &&
    (events == [] || (Possible(cfg, s, events[0]) && CanRun(cfg, Step(cfg, s, events[0]), events[1..])))
  }

  function Run(cfg: Config, s: System, events: seq<Event>): System
    requires CanRun(cfg, s, events)
    decreases |events|
  {
    if events == [] then s else Run(cfg, Step(cfg, s, events[0]), events[1..])
  }

  /** A store without uploads: nothing in its index, any cursors that fit its data file. */
  predicate Fresh(cfg: Config, s: System) {
    A.Sane(cfg.geometry, s.state) && s.uploads == [] && s.downloads == [] && Blank(s.index.table) &&
    forall p | 0 <= p < |s.index.cache| :: s.index.cache[p] == NO_RECORD
  }

  // ---------------------------------------------------------------------------------------------
  // Cursors and index
  // ---------------------------------------------------------------------------------------------

  /** The blobs that ever made it into the index. */
  function Completed(uploads: seq<Upload>): History {
    set u | u in uploads && u.phase == Indexed :: (u.key, u.At())
  }

  predicate IsWithin(st: A.State, up: Upload) {
    up.End() <= st.sub <= st.cursors.write
  }

  /** Everything handed out ends at or before both write cursors, and nothing overlaps. */
  predicate RangesOk(st: A.State, uploads: seq<Upload>) {
    (forall u | 0 <= u < |uploads| :: IsWithin(st, uploads[u])) &&
    (forall u, v | 0 <= u < v < |uploads| :: uploads[u].End() <= uploads[v].offset)
  }

  predicate IndexInv(cfg: Config, s: System) {
    A.Sane(cfg.geometry, s.state) && RangesOk(s.state, s.uploads) && Sound(s.index, Completed(s.uploads))
  }

  /** What a blank slot of the index reads as: an empty blob under the zero key. */
  predicate IsBlank(key: Key, at: Location) {
    key == BLANK.key && at == Location(BLANK.offset, BLANK.length)
  }

  lemma RangesStayOk(st: A.State, st': A.State, uploads: seq<Upload>)
    requires RangesOk(st, uploads) && st.sub == st'.sub && st.cursors.write == st'.cursors.write
    ensures RangesOk(st', uploads)
  {
    forall u | 0 <= u < |uploads| ensures IsWithin(st', uploads[u]) {
      assert IsWithin(st, uploads[u]);
    }
  }

  lemma CompletedUnchanged(uploads: seq<Upload>, u: nat, up: Upload)
    requires u < |uploads| && uploads[u].phase != Indexed && up.phase != Indexed
    ensures Completed(uploads[u := up]) == Completed(uploads)
  {
    var uploads' := uploads[u := up];
    forall v | 0 <= v < |uploads| && v != u ensures uploads[v] in uploads' && uploads'[v] in uploads {
      assert uploads'[v] == uploads[v];
    }
  }

  lemma CompletedGrows(uploads: seq<Upload>, u: nat, up: Upload)
    requires u < |uploads| && uploads[u].phase != Indexed && up.phase == Indexed
    ensures Completed(uploads[u := up]) == Completed(uploads) + {(up.key, up.At())}
  {
    var uploads' := uploads[u := up];
    assert uploads'[u] == up;
    forall v | 0 <= v < |uploads| && v != u ensures uploads[v] in uploads' && uploads'[v] in uploads {
      assert uploads'[v] == uploads[v];
    }
  }

  /** What is found was completed under that key; only the zero key can find a blank slot. */
  lemma LookupIsCompleted(cfg: Config, s: System, key: Key)
    requires IndexInv(cfg, s) && Lookup(cfg, s, key).Some? && !IsBlank(key, Lookup(cfg, s, key).value)
    ensures exists u :: 0 <= u < |s.uploads| && s.uploads[u].phase == Indexed &&
              s.uploads[u].key == key && s.uploads[u].At() == Lookup(cfg, s, key).value
  {
    hide Find;
    var at := Lookup(cfg, s, key).value;
    FindIsSound(cfg.hashes, s.index, s.state.cursors, key, Completed(s.uploads));
    var up :| up in s.uploads && up.phase == Indexed && (key, at) == (up.key, up.At());
    var u :| 0 <= u < |s.uploads| && s.uploads[u] == up;
  }

  /** A location that is found lies between the cursors without wrapping. */
  lemma LookupIsInside(cfg: Config, s: System, key: Key)
    requires IndexInv(cfg, s) && Lookup(cfg, s, key).Some?
    ensures var at := Lookup(cfg, s, key).value; Inside(s.state.cursors, at.offset, at.length)
  {
    hide Find;
    var at := Lookup(cfg, s, key).value;
    FindIsSound(cfg.hashes, s.index, s.state.cursors, key, Completed(s.uploads));
    if !IsBlank(key, at) {
      LookupIsCompleted(cfg, s, key);
    }
    ContainsIsInside(s.state.cursors, at.offset, at.length);
  }

  lemma BeginPutKeepsIndex(cfg: Config, s: System, key: Key, size: int64)
    requires IndexInv(cfg, s) && Possible(cfg, s, BeginPut(key, size))
    ensures var s' := Step(cfg, s, BeginPut(key, size));
            IndexInv(cfg, s') && s'.state.cursors.Follows(s.state.cursors)
  {
    hide A.Allocate, Sound;
    A.AllocateIsLeast(cfg.geometry, s.state, size);
    assert Completed(Step(cfg, s, BeginPut(key, size)).uploads) == Completed(s.uploads);
  }

  lemma EndPutKeepsIndex(cfg: Config, s: System, e: Event)
    requires IndexInv(cfg, s) && (e.FinishPut? || e.AbortPut?) && Possible(cfg, s, e)
    ensures IndexInv(cfg, Step(cfg, s, e))
  {
    hide Remember, Sound;
    var up, up' := s.uploads[e.u], Step(cfg, s, e).uploads[e.u];
    if up'.phase == Indexed {
      CompletedGrows(s.uploads, e.u, up');
      StoreIsSound(cfg.hashes, s.index, s.state.cursors, up.key, up.At(), Completed(s.uploads));
    } else {
      CompletedUnchanged(s.uploads, e.u, up');
    }
  }

  lemma QueryKeepsIndex(cfg: Config, s: System, key: Key)
    requires IndexInv(cfg, s)
    ensures IndexInv(cfg, Queried(cfg, s, key))
  {
    hide AfterFind, Find, Sound;
    FindIsSound(cfg.hashes, s.index, s.state.cursors, key, Completed(s.uploads));
  }

  lemma DeleteKeepsIndex(cfg: Config, s: System, key: Key)
    requires IndexInv(cfg, s)
    ensures var s' := Step(cfg, s, Delete(key));
            IndexInv(cfg, s') && s'.state.cursors.Follows(s.state.cursors)
    ensures Lookup(cfg, s, key).Some? ==>
              var at := Lookup(cfg, s, key).value;
              Step(cfg, s, Delete(key)).state.cursors.read == at.offset + Max(1, at.length)
  {
    hide AfterFind, Find, Sound;
    QueryKeepsIndex(cfg, s, key);
    if Lookup(cfg, s, key).Some? {
      var at := Lookup(cfg, s, key).value;
      LookupIsInside(cfg, s, key);
      A.InvalidateInside(s.state.cursors, cfg.geometry.dataSize, at.offset, A.PositiveSize(at.length));
      RangesStayOk(s.state, Step(cfg, s, Delete(key)).state, s.uploads);
    }
  }

  /** Whatever the program does keeps cursors and index in order, and no cursor moves back. */
  lemma StepKeepsIndex(cfg: Config, s: System, e: Event)
    requires IndexInv(cfg, s) && Possible(cfg, s, e)
    ensures IndexInv(cfg, Step(cfg, s, e))
    ensures Step(cfg, s, e).state.cursors.Follows(s.state.cursors)
  {
    hide Sound, Find, AfterFind, A.Allocate, A.Invalidate, ReadChunk, WriteAt, Remember;
    match e
    case BeginPut(key, size) => BeginPutKeepsIndex(cfg, s, key, size);
    case WriteChunk(u, chunk) => CompletedUnchanged(s.uploads, u, Step(cfg, s, e).uploads[u]);
    case FinishPut(_) => EndPutKeepsIndex(cfg, s, e);
    case AbortPut(_) => EndPutKeepsIndex(cfg, s, e);
    case BeginGet(key) => QueryKeepsIndex(cfg, s, key);
    case ReadBytes(_, _) =>
    case Query(key) => QueryKeepsIndex(cfg, s, key);
    case Delete(key) => DeleteKeepsIndex(cfg, s, key);
  }

  lemma {:induction false} RunKeepsIndex(cfg: Config, s: System, events: seq<Event>)
    requires IndexInv(cfg, s) && CanRun(cfg, s, events)
    ensures IndexInv(cfg, Run(cfg, s, events))
    ensures Run(cfg, s, events).state.cursors.Follows(s.state.cursors)
    decreases |events|
  {
    hide IndexInv, Possible, Step;
    if events != [] {
      StepKeepsIndex(cfg, s, events[0]);
      RunKeepsIndex(cfg, Step(cfg, s, events[0]), events[1..]);
    }
  }

  lemma FreshIsFine(cfg: Config, s: System)
    requires Fresh(cfg, s)
    ensures IndexInv(cfg, s)
  {
  }

  /** Nothing is ever found below the read cursor of an earlier state. */
  lemma NothingBelowRead(cfg: Config, s: System, events: seq<Event>, other: Key)
    requires IndexInv(cfg, s) && CanRun(cfg, s, events)
    ensures var found := Lookup(cfg, Run(cfg, s, events), other);
            found.Some? ==> s.state.cursors.read <= found.value.offset
  {
    hide Lookup, IndexInv;
    RunKeepsIndex(cfg, s, events);
    var y := Run(cfg, s, events);
    if Lookup(cfg, y, other).Some? {
      LookupIsInside(cfg, y, other);
    }
  }

  /**
   * After a blob was found and deleted, nothing that starts before its end is ever found again:
   * in every run, whatever transfers do in it and whatever they have done to the data file.
   */
  lemma DeletedStaysAway(cfg: Config, s: System, key: Key, events: seq<Event>, other: Key)
    requires IndexInv(cfg, s) && Lookup(cfg, s, key).Some? && CanRun(cfg, Step(cfg, s, Delete(key)), events)
    ensures var at := Lookup(cfg, s, key).value;
            var found := Lookup(cfg, Run(cfg, Step(cfg, s, Delete(key)), events), other);
            found.Some? ==> at.offset + Max(1, at.length) <= found.value.offset
  {
    hide Lookup, IndexInv, Step;
    DeleteKeepsIndex(cfg, s, key);
    NothingBelowRead(cfg, Step(cfg, s, Delete(key)), events, other);
  }
}
