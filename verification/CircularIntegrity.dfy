/**
 * What the concurrent calls of the circular store guarantee for the bytes of blobs, and exactly
 * which transfers that depends on.
 */
module CircularIntegrity {
  import opened Arithmetic
  import opened Wrappers
  import opened Cursors
  import opened DataStore
  import opened OffsetStore
  import T = OffsetTable
  import opened CircularSystem
  import A = Allocation

  // ---------------------------------------------------------------------------------------------
  // Orderly steps
  // ---------------------------------------------------------------------------------------------

  /** The linear address from which on nothing has been overwritten by an allocation. */
  function Floor(cfg: Config, s: System): nat {
    Max(0, s.state.cursors.write - cfg.Size())
  }

  /**
   * The upload is in the index, or can still get there: its range has not been discarded. Uploads with
   * a chunk across the end of the file are lost anyway, see DataStore.ReadsBackIff.
   */
  predicate Matters(s: System, up: Upload) {
    !up.crossed && (up.phase == Indexed || (up.phase == Writing && s.state.cursors.read <= up.offset))
  }

  /** Byte i of upload u has been written, matters, and has not been lapped by allocation. */
  predicate Kept(cfg: Config, s: System, u: nat, i: nat) {
    u < |s.uploads| && Matters(s, s.uploads[u]) && i < |s.uploads[u].received| &&
    Floor(cfg, s) <= s.uploads[u].offset + i
  }

  /**
   * The next n bytes of upload u, whatever they are, do no damage: their file positions belong to no
   * byte that is kept. An upload that runs past the end of the file only loses bytes of its own.
   */
  ghost predicate Harmless(cfg: Config, s: System, u: nat, n: nat)
    requires 0 < cfg.Size() && u < |s.uploads|
  {
    var b := s.uploads[u].offset + |s.uploads[u].received|;
    forall v: nat, i: nat | Kept(cfg, s, v, i) && (v != u || !Crosses(cfg.Size(), b, n)) ::
      !Hits(cfg.Size(), b, n, s.uploads[v].offset + i)
  }

  /**
   * Uploads come from the checksum validating reader: never more bytes than announced, and an orderly
   * end only after all of them. Writes are harmless.
   */
  ghost predicate Orderly(cfg: Config, s: System, e: Event)
    requires 0 < cfg.Size() && Possible(cfg, s, e)
  {
    match e
    case BeginPut(_, size) => 0 <= size
    case WriteChunk(u, chunk) =>
      |s.uploads[u].received| + |chunk| <= s.uploads[u].size && Harmless(cfg, s, u, |chunk|)
    case FinishPut(u) => |s.uploads[u].received| == s.uploads[u].size
    case _ => true
  }

  /** A completed upload under this key to this location. */
  predicate IsOf(up: Upload, key: T.Key, at: T.Location) {
    up.phase == Indexed && up.key == key && up.At() == at
  }

  /** Byte i of upload u has the same value as a byte that is kept at its file position. */
  ghost predicate Backed(cfg: Config, s: System, u: nat, i: nat)
    requires 0 < cfg.Size() && u < |s.uploads| && i < |s.uploads[u].received|
  {
    exists v: nat, j: nat :: Kept(cfg, s, v, j) && s.uploads[v].received[j] == s.uploads[u].received[i] &&
      (s.uploads[v].offset + j) % cfg.Size() == (s.uploads[u].offset + i) % cfg.Size()
  }

  /** How many bytes the reader of a download asks the data file for next. */
  function ReadSize(cfg: Config, dl: Download, buffer: nat): nat
    requires 0 < cfg.Size()
  {
    ReadLength(cfg.Size(), Reader(Wrap(dl.at.offset + |dl.got|), Wrap(dl.at.length - |dl.got|)), buffer)
  }

  /** The bytes that are read next are backed by bytes that are kept. */
  ghost predicate SafeRead(cfg: Config, s: System, dl: Download, buffer: nat)
    requires 0 < cfg.Size()
  {
    forall u: nat, i: nat |
      u < |s.uploads| && IsOf(s.uploads[u], dl.key, dl.at) && i < |s.uploads[u].received| &&
      |dl.got| <= i < |dl.got| + ReadSize(cfg, dl, buffer) ::
      Backed(cfg, s, u, i)
  }

  /** If this is a read of download d, then it is safe. */
  ghost predicate SafeFor(cfg: Config, s: System, e: Event, d: nat)
    requires 0 < cfg.Size() && Possible(cfg, s, e)
  {
    e.ReadBytes? && e.d == d ==> SafeRead(cfg, s, s.downloads[d], e.buffer)
  }

  ghost predicate SafeRun(cfg: Config, s: System, events: seq<Event>, d: nat)
    requires CanRun(cfg, s, events)
    decreases |events|
  {
    events == [] ||
    (SafeFor(cfg, s, events[0], d) && SafeRun(cfg, Step(cfg, s, events[0]), events[1..], d))
  }

  ghost predicate OrderlyRun(cfg: Config, s: System, events: seq<Event>)
    requires CanRun(cfg, s, events)
    decreases |events|
  {
    events == [] ||
    (Orderly(cfg, s, events[0]) && OrderlyRun(cfg, Step(cfg, s, events[0]), events[1..]))
  }

  ghost predicate GoodRun(cfg: Config, s: System, events: seq<Event>) {
    CanRun(cfg, s, events) && OrderlyRun(cfg, s, events)
  }

  /** Runs can be continued. */
  lemma {:induction false} RunThen(cfg: Config, s: System, events: seq<Event>, e: Event)
    requires GoodRun(cfg, s, events)
    requires Possible(cfg, Run(cfg, s, events), e) && Orderly(cfg, Run(cfg, s, events), e)
    ensures GoodRun(cfg, s, events + [e])
    ensures Run(cfg, s, events + [e]) == Step(cfg, Run(cfg, s, events), e)
    decreases |events|
  {
    hide Step, Possible, Orderly;
    if events == [] {
      assert events + [e] == [e] && [e][1..] == [];
      assert CanRun(cfg, Step(cfg, s, e), []) && OrderlyRun(cfg, Step(cfg, s, e), []);
    } else {
      RunThen(cfg, Step(cfg, s, events[0]), events[1..], e);
      assert (events + [e])[1..] == events[1..] + [e];
    }
  }

  // ---------------------------------------------------------------------------------------------
  // Invariant
  // ---------------------------------------------------------------------------------------------

  predicate UploadOk(up: Upload) {
    0 <= up.size && |up.received| <= up.size && (up.phase == Indexed ==> |up.received| == up.size)
  }

  predicate UploadsOk(uploads: seq<Upload>) {
    forall u | 0 <= u < |uploads| :: UploadOk(uploads[u])
  }

  /** Every byte that is kept is in place. */
  ghost predicate BytesOk(cfg: Config, s: System)
    requires 0 < cfg.Size()
  {
    forall u: nat, i: nat | Kept(cfg, s, u, i) ::
      Stored(s.file, cfg.Size(), s.uploads[u].offset + i, s.uploads[u].received[i])
  }

  /** The bytes are the first ones of an upload of this key to this location that was completed. */
  predicate Genuine(uploads: seq<Upload>, key: T.Key, at: T.Location, got: Bytes) {
    exists u :: 0 <= u < |uploads| && IsOf(uploads[u], key, at) && got <= uploads[u].received
  }

  /** What this download has delivered so far is genuine, or it found a blank slot. */
  predicate DownloadOk(s: System, d: nat) {
    d < |s.downloads| ==>
      var dl := s.downloads[d];
      Genuine(s.uploads, dl.key, dl.at, dl.got) || (IsBlank(dl.key, dl.at) && dl.got == [])
  }

  ghost predicate Inv(cfg: Config, s: System) {
    IndexInv(cfg, s) && UploadsOk(s.uploads) && BytesOk(cfg, s)
  }

  // ---------------------------------------------------------------------------------------------
  // Writing
  // ---------------------------------------------------------------------------------------------

  /** What writing a chunk does: it goes to the file position of the upload's next linear address. */
  predicate Writes(cfg: Config, s: System, u: nat, chunk: Bytes, s': System)
    requires 0 < cfg.Size()
  {
    u < |s.uploads| &&
    var up := s.uploads[u];
    var b := up.offset + |up.received|;
    var crossed := up.crossed || Crosses(cfg.Size(), b, |chunk|);
    s' == s.(file := WriteAt(s.file, b % cfg.Size(), chunk),
             uploads := s.uploads[u := up.(received := up.received + chunk, crossed := crossed)])
  }

  lemma WriteIsAt(cfg: Config, s: System, u: nat, chunk: Bytes)
    requires IndexInv(cfg, s) && Possible(cfg, s, WriteChunk(u, chunk)) && UploadOk(s.uploads[u])
    ensures Writes(cfg, s, u, chunk, Step(cfg, s, WriteChunk(u, chunk)))
  {
    hide Sound, Wrap, WriteAt;
    var up := s.uploads[u];
    WrapIsIdentity(up.offset + |up.received|);
  }

  /** The bytes that are kept once a chunk was written: the same, and those of the chunk if they matter. */
  lemma KeptAfterWrite(cfg: Config, s: System, s': System, u: nat, chunk: Bytes, v: nat, i: nat)
    requires 0 < cfg.Size() && Writes(cfg, s, u, chunk, s')
    ensures var up := s.uploads[u];
            var b := up.offset + |up.received|;
            if v == u && Crosses(cfg.Size(), b, |chunk|) then !Kept(cfg, s', v, i)
            else if v == u && |up.received| <= i then
              Kept(cfg, s', v, i) <==>
              i < |up.received| + |chunk| && Matters(s, up) && Floor(cfg, s) <= up.offset + i
            else
              (Kept(cfg, s', v, i) <==> Kept(cfg, s, v, i)) &&
              (Kept(cfg, s, v, i) ==>
                s'.uploads[v].offset == s.uploads[v].offset && s'.uploads[v].received[i] == s.uploads[v].received[i])
  {
    hide WriteAt, Crosses;
  }

  /** A byte of the chunk itself. */
  lemma ChunkByteIsPut(cfg: Config, f: Bytes, up: Upload, chunk: Bytes, i: nat)
    requires 0 < cfg.Size() && !Crosses(cfg.Size(), up.offset + |up.received|, |chunk|)
    requires |up.received| <= i < |up.received| + |chunk|
    ensures var b := up.offset + |up.received|;
            Stored(WriteAt(f, b % cfg.Size(), chunk), cfg.Size(), up.offset + i, (up.received + chunk)[i])
  {
    hide Stored, WriteAt, Crosses;
    var b, k := up.offset + |up.received|, i - |up.received|;
    WritePuts(f, cfg.Size(), b, chunk);
    assert Stored(WriteAt(f, b % cfg.Size(), chunk), cfg.Size(), b + k, chunk[k]);
    assert b + k == up.offset + i;
  }

  lemma HarmlessKeepsByte(cfg: Config, s: System, s': System, u: nat, chunk: Bytes, v: nat, i: nat)
    requires 0 < cfg.Size() && u < |s.uploads| && BytesOk(cfg, s) && Harmless(cfg, s, u, |chunk|)
    requires Writes(cfg, s, u, chunk, s') && Kept(cfg, s', v, i)
    ensures Stored(s'.file, cfg.Size(), s'.uploads[v].offset + i, s'.uploads[v].received[i])
  {
    hide Stored, WriteAt, Hits, Crosses, Matters, Floor;
    var up := s.uploads[u];
    KeptAfterWrite(cfg, s, s', u, chunk, v, i);
    if v == u && |up.received| <= i {
      ChunkByteIsPut(cfg, s.file, up, chunk, i);
    } else {
      var a, y := s.uploads[v].offset + i, s.uploads[v].received[i];
      assert Kept(cfg, s, v, i);
      WriteSpares(s.file, cfg.Size(), up.offset + |up.received|, chunk, a, y);
    }
  }

  lemma HarmlessKeepsBytes(cfg: Config, s: System, u: nat, chunk: Bytes)
    requires IndexInv(cfg, s) && UploadsOk(s.uploads) && BytesOk(cfg, s)
    requires Possible(cfg, s, WriteChunk(u, chunk)) && Harmless(cfg, s, u, |chunk|)
    ensures BytesOk(cfg, Step(cfg, s, WriteChunk(u, chunk)))
  {
    hide Stored, Sound, RangesOk, Matters, Floor, Step, Harmless, UploadOk, Writes;
    var s' := Step(cfg, s, WriteChunk(u, chunk));
    WriteIsAt(cfg, s, u, chunk);
    forall v: nat, i: nat | Kept(cfg, s', v, i)
      ensures Stored(s'.file, cfg.Size(), s'.uploads[v].offset + i, s'.uploads[v].received[i])
    {
      HarmlessKeepsByte(cfg, s, s', u, chunk, v, i);
    }
  }

  lemma ByteIsLost(cfg: Config, s: System, s': System, u: nat, chunk: Bytes, v: nat, i: nat)
    requires 0 < cfg.Size() && Writes(cfg, s, u, chunk, s') && Kept(cfg, s, v, i)
    requires v != u || !Crosses(cfg.Size(), s.uploads[u].offset + |s.uploads[u].received|, |chunk|)
    requires !Stored(s'.file, cfg.Size(), s.uploads[v].offset + i, s.uploads[v].received[i])
    ensures !BytesOk(cfg, s')
  {
    hide Stored, WriteAt, Crosses;
    KeptAfterWrite(cfg, s, s', u, chunk, v, i);
    assert Kept(cfg, s', v, i);
  }

  lemma KeptIsWritten(cfg: Config, s: System, v: nat, i: nat)
    requires Kept(cfg, s, v, i)
    ensures v < |s.uploads| && i < |s.uploads[v].received|
  {
  }

  /** A write at the file position of a byte that is kept loses it, for some of its possible contents. */
  lemma HitBreaksBytes(cfg: Config, s: System, u: nat, n: nat, v: nat, i: nat) returns (chunk: Bytes)
    requires IndexInv(cfg, s) && UploadsOk(s.uploads) && u < |s.uploads| && s.uploads[u].phase == Writing
    requires var b := s.uploads[u].offset + |s.uploads[u].received|;
             Kept(cfg, s, v, i) && (v != u || !Crosses(cfg.Size(), b, n)) &&
             Hits(cfg.Size(), b, n, s.uploads[v].offset + i)
    ensures |chunk| == n && !BytesOk(cfg, Step(cfg, s, WriteChunk(u, chunk)))
  {
    hide Stored, WriteAt, Hits, Crosses, Sound, Matters, Floor, Step, UploadOk, BytesOk, RangesOk, Kept, Writes;
    assert v < |s.uploads| && i < |s.uploads[v].received| by { KeptIsWritten(cfg, s, v, i); }
    var b, a := s.uploads[u].offset + |s.uploads[u].received|, s.uploads[v].offset + i;
    chunk := HitDamages(s.file, cfg.Size(), b, n, a, s.uploads[v].received[i]);
    WriteIsAt(cfg, s, u, chunk);
    assert !Stored(Step(cfg, s, WriteChunk(u, chunk)).file, cfg.Size(), a, s.uploads[v].received[i]) by {
      WritesFile(cfg, s, u, chunk, Step(cfg, s, WriteChunk(u, chunk)));
    }
    ByteIsLost(cfg, s, Step(cfg, s, WriteChunk(u, chunk)), u, chunk, v, i);
  }

  lemma WritesFile(cfg: Config, s: System, u: nat, chunk: Bytes, s': System)
    requires 0 < cfg.Size() && Writes(cfg, s, u, chunk, s')
    ensures s'.file == WriteAt(s.file, (s.uploads[u].offset + |s.uploads[u].received|) % cfg.Size(), chunk)
  {
  }

  /**
   * Exactly when an upload may write its next n bytes, however late it is: every byte that is kept
   * stays in place, whatever the n bytes are, if and only if none of them is at the file position of
   * a byte that is kept.
   */
  lemma WriteIsHarmlessIff(cfg: Config, s: System, u: nat, n: nat)
    requires Inv(cfg, s) && u < |s.uploads| && s.uploads[u].phase == Writing
    ensures (forall chunk: Bytes | |chunk| == n :: BytesOk(cfg, Step(cfg, s, WriteChunk(u, chunk))))
       <==> Harmless(cfg, s, u, n)
  {
    hide BytesOk, Step, Matters, Floor, Crosses, Hits, Sound, RangesOk, UploadOk;
    if Harmless(cfg, s, u, n) {
      forall chunk: Bytes | |chunk| == n ensures BytesOk(cfg, Step(cfg, s, WriteChunk(u, chunk))) {
        HarmlessKeepsBytes(cfg, s, u, chunk);
      }
    } else {
      var b := s.uploads[u].offset + |s.uploads[u].received|;
      var v: nat, i: nat :| Kept(cfg, s, v, i) && (v != u || !Crosses(cfg.Size(), b, n)) &&
                            Hits(cfg.Size(), b, n, s.uploads[v].offset + i);
      var chunk := HitBreaksBytes(cfg, s, u, n, v, i);
    }
  }

  /** A write within one round of the write cursor, or by the last upload, hits no byte that is kept. */
  lemma HitWithinRound(cfg: Config, s: System, u: nat, n: nat, v: nat, i: nat)
    requires IndexInv(cfg, s) && UploadsOk(s.uploads) && u < |s.uploads| && Kept(cfg, s, v, i)
    requires var b := s.uploads[u].offset + |s.uploads[u].received|;
             |s.uploads[u].received| + n <= s.uploads[u].size &&
             (Floor(cfg, s) <= b || u == |s.uploads| - 1)
    ensures !Hits(cfg.Size(), s.uploads[u].offset + |s.uploads[u].received|, n, s.uploads[v].offset + i)
  {
    hide Sound, Hits;
    var b, a := s.uploads[u].offset + |s.uploads[u].received|, s.uploads[v].offset + i;
    assert UploadOk(s.uploads[u]) && UploadOk(s.uploads[v]);
    assert s.uploads[u].End() <= s.state.cursors.write && s.uploads[v].End() <= s.state.cursors.write;
    if Hits(cfg.Size(), b, n, a) {
      HitIsInRange(cfg.Size(), b, n, a);
    }
  }

  /** A write that has not been lapped is harmless. */
  lemma TimelyIsHarmless(cfg: Config, s: System, u: nat, n: nat)
    requires IndexInv(cfg, s) && UploadsOk(s.uploads) && u < |s.uploads|
    requires |s.uploads[u].received| + n <= s.uploads[u].size
    requires Floor(cfg, s) <= s.uploads[u].offset + |s.uploads[u].received|
    ensures Harmless(cfg, s, u, n)
  {
    hide Hits, Crosses, Floor, Sound, RangesOk, Matters, UploadOk;
    forall v: nat, i: nat | Kept(cfg, s, v, i)
      ensures !Hits(cfg.Size(), s.uploads[u].offset + |s.uploads[u].received|, n, s.uploads[v].offset + i)
    {
      HitWithinRound(cfg, s, u, n, v, i);
    }
  }

  /** So are those of the upload that was allocated last, be it as large or as late as it may. */
  lemma YoungestIsHarmless(cfg: Config, s: System, n: nat)
    requires IndexInv(cfg, s) && UploadsOk(s.uploads) && s.uploads != []
    requires s.uploads[|s.uploads| - 1].size >= |s.uploads[|s.uploads| - 1].received| + n
    ensures Harmless(cfg, s, |s.uploads| - 1, n)
  {
    hide Hits, Crosses, Floor, Sound, RangesOk, Matters, UploadOk;
    var u := |s.uploads| - 1;
    forall v: nat, i: nat | Kept(cfg, s, v, i)
      ensures !Hits(cfg.Size(), s.uploads[u].offset + |s.uploads[u].received|, n, s.uploads[v].offset + i)
    {
      HitWithinRound(cfg, s, u, n, v, i);
    }
  }

  // ---------------------------------------------------------------------------------------------
  // Every orderly step keeps the invariant
  // ---------------------------------------------------------------------------------------------

  /** What was kept before is all that is kept now, and the file is the same. */
  lemma FewerBytesAreKept(cfg: Config, s: System, s': System)
    requires 0 < cfg.Size() && BytesOk(cfg, s) && s'.file == s.file
    requires s.state.cursors.read <= s'.state.cursors.read && s.state.cursors.write <= s'.state.cursors.write
    requires |s.uploads| <= |s'.uploads|
    requires forall u | 0 <= u < |s'.uploads| ::
               s'.uploads[u].received == [] ||
               (u < |s.uploads| && s'.uploads[u].offset == s.uploads[u].offset &&
                s'.uploads[u].received == s.uploads[u].received &&
                (Matters(s', s'.uploads[u]) ==> Matters(s, s.uploads[u])))
    ensures BytesOk(cfg, s')
  {
    hide Stored;
    forall u: nat, i: nat | Kept(cfg, s', u, i)
      ensures Stored(s'.file, cfg.Size(), s'.uploads[u].offset + i, s'.uploads[u].received[i])
    {
      assert Kept(cfg, s, u, i);
    }
  }

  /** Completed uploads stay as they are. */
  predicate Extends(uploads: seq<Upload>, uploads': seq<Upload>) {
    |uploads| <= |uploads'| &&
    forall u | 0 <= u < |uploads| && uploads[u].phase == Indexed :: uploads'[u] == uploads[u]
  }

  lemma DownloadStaysGenuine(s: System, s': System, d: nat)
    requires DownloadOk(s, d) && Extends(s.uploads, s'.uploads)
    requires d < |s'.downloads| ==> d < |s.downloads| && s'.downloads[d] == s.downloads[d]
    ensures DownloadOk(s', d)
  {
    if d < |s'.downloads| && Genuine(s.uploads, s.downloads[d].key, s.downloads[d].at, s.downloads[d].got) {
      var dl := s.downloads[d];
      var u :| 0 <= u < |s.uploads| && IsOf(s.uploads[u], dl.key, dl.at) && dl.got <= s.uploads[u].received;
      assert s'.uploads[u] == s.uploads[u];
    }
  }

  lemma BeginPutKeepsInv(cfg: Config, s: System, key: T.Key, size: int64)
    requires Inv(cfg, s) && Possible(cfg, s, BeginPut(key, size)) && Orderly(cfg, s, BeginPut(key, size))
    ensures Inv(cfg, Step(cfg, s, BeginPut(key, size)))
  {
    hide A.Allocate, Sound, RangesOk;
    var s' := Step(cfg, s, BeginPut(key, size));
    StepKeepsIndex(cfg, s, BeginPut(key, size));
    FewerBytesAreKept(cfg, s, s');
  }

  lemma WriteChunkKeepsInv(cfg: Config, s: System, u: nat, chunk: Bytes)
    requires Inv(cfg, s) && Possible(cfg, s, WriteChunk(u, chunk)) && Orderly(cfg, s, WriteChunk(u, chunk))
    ensures Inv(cfg, Step(cfg, s, WriteChunk(u, chunk)))
  {
    hide Sound, RangesOk, BytesOk, Harmless, WriteAt;
    var s' := Step(cfg, s, WriteChunk(u, chunk));
    StepKeepsIndex(cfg, s, WriteChunk(u, chunk));
    HarmlessKeepsBytes(cfg, s, u, chunk);
  }

  lemma EndPutKeepsInv(cfg: Config, s: System, e: Event)
    requires Inv(cfg, s) && (e.FinishPut? || e.AbortPut?) && Possible(cfg, s, e) && Orderly(cfg, s, e)
    ensures Inv(cfg, Step(cfg, s, e))
  {
    hide Sound, RangesOk, Remember;
    var s' := Step(cfg, s, e);
    StepKeepsIndex(cfg, s, e);
    FewerBytesAreKept(cfg, s, s');
  }

  lemma LookupIsGenuine(cfg: Config, s: System, key: T.Key)
    requires IndexInv(cfg, s) && Lookup(cfg, s, key).Some?
    ensures var at := Lookup(cfg, s, key).value;
            Genuine(s.uploads, key, at, []) || IsBlank(key, at)
  {
    hide Lookup, IndexInv;
    var at := Lookup(cfg, s, key).value;
    if !IsBlank(key, at) {
      LookupIsCompleted(cfg, s, key);
      var u :| 0 <= u < |s.uploads| && s.uploads[u].phase == Indexed &&
               s.uploads[u].key == key && s.uploads[u].At() == at;
      assert [] <= s.uploads[u].received;
    }
  }

  lemma LookupKeepsInv(cfg: Config, s: System, e: Event)
    requires Inv(cfg, s) && (e.BeginGet? || e.Query? || e.Delete?)
    ensures Inv(cfg, Step(cfg, s, e))
  {
    hide Sound, RangesOk, Find, AfterFind, A.Invalidate;
    var s' := Step(cfg, s, e);
    StepKeepsIndex(cfg, s, e);
    FewerBytesAreKept(cfg, s, s');
  }

  // ---------------------------------------------------------------------------------------------
  // Reading
  // ---------------------------------------------------------------------------------------------

  /** Of a completed upload whose range has not been reached by allocation again, all bytes are in place. */
  lemma UploadIsInPlace(cfg: Config, s: System, u: nat, from: nat)
    requires 0 < cfg.Size() && BytesOk(cfg, s) && u < |s.uploads| && from <= |s.uploads[u].received|
    requires s.uploads[u].phase == Indexed && !s.uploads[u].crossed && Floor(cfg, s) <= s.uploads[u].offset + from
    ensures Holds(s.file, cfg.Size(), s.uploads[u].offset + from, s.uploads[u].received[from..])
  {
    hide Stored;
    var up, data := s.uploads[u], s.uploads[u].received[from..];
    forall i | 0 <= i < |data| ensures Stored(s.file, cfg.Size(), up.offset + from + i, data[i]) {
      assert Kept(cfg, s, u, from + i);
      assert up.offset + (from + i) == up.offset + from + i;
    }
  }

  /** The read goes on with the bytes of this upload, or reports its end when all are delivered. */
  predicate Continues(cfg: Config, s: System, dl: Download, up: Upload, buffer: nat)
    requires 0 < cfg.Size()
  {
    var b := NextRead(cfg, s, dl, buffer);
    if |dl.got| == dl.at.length then b == Eof
    else b.Data? && b.bytes != [] && dl.got + b.bytes <= up.received
  }

  /** What that means for the data file. */
  lemma ContinuesIff(cfg: Config, s: System, dl: Download, u: nat, buffer: nat)
    requires IndexInv(cfg, s) && u < |s.uploads| && UploadOk(s.uploads[u]) && IsOf(s.uploads[u], dl.key, dl.at)
    requires dl.got <= s.uploads[u].received && |dl.got| < dl.at.length && 0 < buffer
    ensures var up, k, n := s.uploads[u], |dl.got|, ReadSize(cfg, dl, buffer);
            0 < n && k + n <= |up.received| &&
            (Continues(cfg, s, dl, up, buffer)
             <==> Holds(s.file, cfg.Size(), up.offset + k, up.received[k..k + n]))
  {
    hide Sound, Wrap, Stored, ReadChunk;
    var up, k, n := s.uploads[u], |dl.got|, ReadSize(cfg, dl, buffer);
    assert IsWithin(s.state, up);
    WrapIsIdentity(dl.at.offset + k);
    WrapIsIdentity(dl.at.length - k);
    var r, data := Reader(dl.at.offset + k, dl.at.length - k), up.received[k..k + n];
    ReadIsDataIff(s.file, cfg.Size(), r, buffer, data);
    ReadHasLength(s.file, cfg.Size(), r, buffer);
    assert up.received[..k + n] == dl.got + data;
    assert forall b: Bytes | |b| == n && dl.got + b <= up.received :: dl.got + b == up.received[..k + n];
  }

  lemma KeptIgnoresFile(cfg: Config, s: System, f: Bytes)
    ensures forall v: nat, j: nat :: Kept(cfg, s.(file := f), v, j) <==> Kept(cfg, s, v, j)
  {
  }

  /** An unsafe byte: nothing that has to be kept rules out that the data file has another one in its place. */
  lemma UnbackedMayDiffer(cfg: Config, s: System, u: nat, i: nat) returns (f: Bytes)
    requires Inv(cfg, s) && u < |s.uploads| && i < |s.uploads[u].received| && !Backed(cfg, s, u, i)
    ensures BytesOk(cfg, s.(file := f))
    ensures !Stored(f, cfg.Size(), s.uploads[u].offset + i, s.uploads[u].received[i])
  {
    hide Sound, RangesOk, Matters, Floor, UploadOk;
    var a, y := s.uploads[u].offset + i, s.uploads[u].received[i];
    if v: nat, j: nat :| Kept(cfg, s, v, j) && (s.uploads[v].offset + j) % cfg.Size() == a % cfg.Size() {
      f := s.file;
      assert Stored(f, cfg.Size(), s.uploads[v].offset + j, s.uploads[v].received[j]);
    } else {
      hide WriteAt, Stored;
      f := HitDamages(s.file, cfg.Size(), a, 1, a, y);
      var z := f;
      f := WriteAt(s.file, a % cfg.Size(), z);
      forall v: nat, j: nat | Kept(cfg, s, v, j)
        ensures Stored(f, cfg.Size(), s.uploads[v].offset + j, s.uploads[v].received[j])
      {
        WriteSpares(s.file, cfg.Size(), a, z, s.uploads[v].offset + j, s.uploads[v].received[j]);
      }
      KeptIgnoresFile(cfg, s, f);
    }
  }

  lemma BackedIsStored(cfg: Config, s: System, u: nat, i: nat)
    requires 0 < cfg.Size() && BytesOk(cfg, s)
    requires u < |s.uploads| && i < |s.uploads[u].received| && Backed(cfg, s, u, i)
    ensures Stored(s.file, cfg.Size(), s.uploads[u].offset + i, s.uploads[u].received[i])
  {
    hide Matters, Floor;
    var v: nat, j: nat :| Kept(cfg, s, v, j) && s.uploads[v].received[j] == s.uploads[u].received[i] &&
                          (s.uploads[v].offset + j) % cfg.Size() == (s.uploads[u].offset + i) % cfg.Size();
    assert Stored(s.file, cfg.Size(), s.uploads[v].offset + j, s.uploads[v].received[j]);
  }

  /** All these bytes are backed. */
  ghost predicate AllBacked(cfg: Config, s: System, u: nat, from: nat, to: nat)
    requires 0 < cfg.Size() && u < |s.uploads| && to <= |s.uploads[u].received|
  {
    forall i: nat | from <= i < to :: Backed(cfg, s, u, i)
  }

  lemma AllBackedIsHeld(cfg: Config, s: System, u: nat, from: nat, to: nat)
    requires 0 < cfg.Size() && BytesOk(cfg, s) && u < |s.uploads| && from <= to <= |s.uploads[u].received|
    requires AllBacked(cfg, s, u, from, to)
    ensures Holds(s.file, cfg.Size(), s.uploads[u].offset + from, s.uploads[u].received[from..to])
  {
    hide Stored, Backed, BytesOk;
    var up := s.uploads[u];
    forall i | 0 <= i < to - from
      ensures Stored(s.file, cfg.Size(), up.offset + from + i, up.received[from..to][i])
    {
      assert Backed(cfg, s, u, from + i);
      BackedIsStored(cfg, s, u, from + i);
      assert up.offset + (from + i) == up.offset + from + i;
    }
  }

  /** Another data file does not change what is kept, and so what is backed. */
  lemma BackedIgnoresFile(cfg: Config, s: System, f: Bytes, u: nat, i: nat)
    requires 0 < cfg.Size() && u < |s.uploads| && i < |s.uploads[u].received|
    ensures Backed(cfg, s.(file := f), u, i) <==> Backed(cfg, s, u, i)
  {
    KeptIgnoresFile(cfg, s, f);
  }

  /**
   * Exactly when a read of a download, however late, returns the next bytes of its upload: in every data
   * file that keeps what has to be kept, if and only if each byte that is read next has the same value as
   * a byte that is kept at its file position.
   */
  lemma ReadIsGenuineIff(cfg: Config, s: System, dl: Download, u: nat, buffer: nat)
    requires Inv(cfg, s) && u < |s.uploads| && IsOf(s.uploads[u], dl.key, dl.at) && dl.got <= s.uploads[u].received
    requires |dl.got| < dl.at.length && 0 < buffer
    ensures |dl.got| + ReadSize(cfg, dl, buffer) <= |s.uploads[u].received|
    ensures (forall f: Bytes | BytesOk(cfg, s.(file := f)) :: Continues(cfg, s.(file := f), dl, s.uploads[u], buffer))
       <==> AllBacked(cfg, s, u, |dl.got|, |dl.got| + ReadSize(cfg, dl, buffer))
  {
    hide BytesOk, Continues, Backed, ReadSize, Sound, RangesOk, Stored, UploadOk;
    var up, k, n := s.uploads[u], |dl.got|, ReadSize(cfg, dl, buffer);
    ContinuesIff(cfg, s, dl, u, buffer);
    if AllBacked(cfg, s, u, k, k + n) {
      forall f: Bytes | BytesOk(cfg, s.(file := f)) ensures Continues(cfg, s.(file := f), dl, up, buffer) {
        forall i: nat | k <= i < k + n ensures Backed(cfg, s.(file := f), u, i) {
          BackedIgnoresFile(cfg, s, f, u, i);
        }
        AllBackedIsHeld(cfg, s.(file := f), u, k, k + n);
        ContinuesIff(cfg, s.(file := f), dl, u, buffer);
      }
    } else {
      var i: nat :| k <= i < k + n && !Backed(cfg, s, u, i);
      var f := UnbackedMayDiffer(cfg, s, u, i);
      ContinuesIff(cfg, s.(file := f), dl, u, buffer);
      assert up.offset + k + (i - k) == up.offset + i && up.received[k..k + n][i - k] == up.received[i];
    }
  }

  /** The next bytes of a download whose read is safe are those of its upload. */
  lemma ReadIsGenuine(cfg: Config, s: System, d: nat, buffer: nat)
    requires Inv(cfg, s) && Possible(cfg, s, ReadBytes(d, buffer)) && DownloadOk(s, d)
    requires SafeRead(cfg, s, s.downloads[d], buffer)
    ensures var dl := s.downloads[d];
            var b := NextRead(cfg, s, dl, buffer);
            if |dl.got| == dl.at.length then b == Eof
            else b.Data? && b.bytes != [] && Genuine(s.uploads, dl.key, dl.at, dl.got + b.bytes)
  {
    hide BytesOk, Backed, ReadSize, Sound, RangesOk, ReadChunk;
    var dl := s.downloads[d];
    if Genuine(s.uploads, dl.key, dl.at, dl.got) {
      var u: nat :| u < |s.uploads| && IsOf(s.uploads[u], dl.key, dl.at) && dl.got <= s.uploads[u].received;
      ContinuesIsSafe(cfg, s, dl, u, buffer);
    } else {
      ReadIsDone(cfg, s, dl, buffer);
    }
  }

  lemma ContinuesIsSafe(cfg: Config, s: System, dl: Download, u: nat, buffer: nat)
    requires Inv(cfg, s) && u < |s.uploads| && IsOf(s.uploads[u], dl.key, dl.at) && dl.got <= s.uploads[u].received
    requires SafeRead(cfg, s, dl, buffer) && 0 < buffer
    ensures Continues(cfg, s, dl, s.uploads[u], buffer)
  {
    hide BytesOk, Backed, ReadSize, Sound, RangesOk, Continues;
    assert UploadOk(s.uploads[u]);
    if |dl.got| < dl.at.length {
      ReadIsGenuineIff(cfg, s, dl, u, buffer);
      assert s.(file := s.file) == s;
    } else {
      ReadIsDone(cfg, s, dl, buffer);
      ContinuesAtEnd(cfg, s, dl, s.uploads[u], buffer);
    }
  }

  lemma ContinuesAtEnd(cfg: Config, s: System, dl: Download, up: Upload, buffer: nat)
    requires 0 < cfg.Size() && |dl.got| == dl.at.length && NextRead(cfg, s, dl, buffer) == Eof
    ensures Continues(cfg, s, dl, up, buffer)
  {
  }

  lemma ReadIsDone(cfg: Config, s: System, dl: Download, buffer: nat)
    requires 0 < cfg.Size() && |dl.got| == dl.at.length
    ensures NextRead(cfg, s, dl, buffer) == Eof
  {
  }

  /** A read that allocation has not lapped is safe, if the upload did not run past the end of the file. */
  lemma TimelyIsSafe(cfg: Config, s: System, dl: Download, buffer: nat)
    requires 0 < cfg.Size() && Floor(cfg, s) <= dl.at.offset + |dl.got|
    requires forall up | up in s.uploads && IsOf(up, dl.key, dl.at) :: !up.crossed
    ensures SafeRead(cfg, s, dl, buffer)
  {
    hide ReadSize;
    forall u: nat, i: nat |
      u < |s.uploads| && IsOf(s.uploads[u], dl.key, dl.at) && i < |s.uploads[u].received| &&
      |dl.got| <= i < |dl.got| + ReadSize(cfg, dl, buffer)
      ensures Backed(cfg, s, u, i)
    {
      assert Kept(cfg, s, u, i);
    }
  }

  lemma ReadKeepsInv(cfg: Config, s: System, d: nat, buffer: nat)
    requires Inv(cfg, s) && Possible(cfg, s, ReadBytes(d, buffer))
    ensures Inv(cfg, Step(cfg, s, ReadBytes(d, buffer)))
  {
    hide ReadChunk, Stored, Sound, RangesOk;
    StepKeepsIndex(cfg, s, ReadBytes(d, buffer));
    FewerBytesAreKept(cfg, s, Step(cfg, s, ReadBytes(d, buffer)));
  }

  lemma StepExtends(cfg: Config, s: System, e: Event)
    requires cfg.geometry.Valid() && Possible(cfg, s, e)
    ensures Extends(s.uploads, Step(cfg, s, e).uploads)
  {
    hide A.Allocate, A.Invalidate, Find, AfterFind, Remember, ReadChunk, WriteAt;
  }

  lemma StepKeepsDownload(cfg: Config, s: System, e: Event, d: nat)
    requires Inv(cfg, s) && Possible(cfg, s, e) && DownloadOk(s, d) && SafeFor(cfg, s, e, d)
    ensures DownloadOk(Step(cfg, s, e), d)
  {
    hide A.Allocate, A.Invalidate, Find, AfterFind, Remember, ReadChunk, WriteAt, BytesOk, Sound, RangesOk, Genuine;
    StepExtends(cfg, s, e);
    if e.ReadBytes? && e.d == d {
      ReadIsGenuine(cfg, s, d, e.buffer);
    } else if e.BeginGet? && d == |s.downloads| {
      if Lookup(cfg, s, e.key).Some? {
        LookupIsGenuine(cfg, s, e.key);
      }
    } else {
      DownloadStaysGenuine(s, Step(cfg, s, e), d);
    }
  }

  lemma StepKeepsInv(cfg: Config, s: System, e: Event)
    requires Inv(cfg, s) && Possible(cfg, s, e) && Orderly(cfg, s, e)
    ensures Inv(cfg, Step(cfg, s, e))
  {
    hide UploadsOk, BytesOk, RangesOk, Sound, Step, Possible, Orderly;
    match e
    case BeginPut(key, size) => BeginPutKeepsInv(cfg, s, key, size);
    case WriteChunk(u, chunk) => WriteChunkKeepsInv(cfg, s, u, chunk);
    case FinishPut(_) => EndPutKeepsInv(cfg, s, e);
    case AbortPut(_) => EndPutKeepsInv(cfg, s, e);
    case ReadBytes(d, buffer) => ReadKeepsInv(cfg, s, d, buffer);
    case BeginGet(_) => LookupKeepsInv(cfg, s, e);
    case Query(_) => LookupKeepsInv(cfg, s, e);
    case Delete(_) => LookupKeepsInv(cfg, s, e);
  }

  lemma {:induction false} RunKeepsInv(cfg: Config, s: System, events: seq<Event>)
    requires Inv(cfg, s) && GoodRun(cfg, s, events)
    ensures Inv(cfg, Run(cfg, s, events))
    decreases |events|
  {
    hide UploadsOk, BytesOk, RangesOk, Sound, Step, Possible, Orderly;
    if events != [] {
      StepKeepsInv(cfg, s, events[0]);
      RunKeepsInv(cfg, Step(cfg, s, events[0]), events[1..]);
    }
  }

  lemma {:induction false} RunKeepsDownload(cfg: Config, s: System, events: seq<Event>, d: nat)
    requires Inv(cfg, s) && GoodRun(cfg, s, events) && DownloadOk(s, d) && SafeRun(cfg, s, events, d)
    ensures DownloadOk(Run(cfg, s, events), d)
    decreases |events|
  {
    hide UploadsOk, BytesOk, RangesOk, Sound, DownloadOk, SafeFor, Step, Possible, Orderly;
    if events != [] {
      StepKeepsInv(cfg, s, events[0]);
      StepKeepsDownload(cfg, s, events[0], d);
      RunKeepsDownload(cfg, Step(cfg, s, events[0]), events[1..], d);
    }
  }

  // ---------------------------------------------------------------------------------------------
  // Integrity
  // ---------------------------------------------------------------------------------------------

  /** A completed upload of this key and location, with all its bytes in the data file. */
  predicate InPlaceUpload(cfg: Config, s: System, up: Upload, key: T.Key, at: T.Location)
    requires 0 < cfg.Size()
  {
    IsOf(up, key, at) && |up.received| == at.length && Holds(s.file, cfg.Size(), at.offset, up.received)
  }

  /** It is in place, unless one of its own chunks ran past the end of the file. */
  predicate GoodUpload(cfg: Config, s: System, up: Upload, key: T.Key, at: T.Location)
    requires 0 < cfg.Size()
  {
    IsOf(up, key, at) && |up.received| == at.length && (!up.crossed ==> InPlaceUpload(cfg, s, up, key, at))
  }

  lemma HitIsInPlace(cfg: Config, s: System, key: T.Key)
    requires Inv(cfg, s) && Lookup(cfg, s, key).Some? && !IsBlank(key, Lookup(cfg, s, key).value)
    ensures exists up :: up in s.uploads && GoodUpload(cfg, s, up, key, Lookup(cfg, s, key).value)
  {
    hide Stored, Lookup, BytesOk;
    var at := Lookup(cfg, s, key).value;
    LookupIsCompleted(cfg, s, key);
    LookupIsInside(cfg, s, key);
    var u: nat :| u < |s.uploads| && s.uploads[u].phase == Indexed &&
             s.uploads[u].key == key && s.uploads[u].At() == at;
    assert UploadOk(s.uploads[u]);
    if !s.uploads[u].crossed {
      UploadIsInPlace(cfg, s, u, 0);
    }
    assert GoodUpload(cfg, s, s.uploads[u], key, at);
  }

  lemma FreshIsGood(cfg: Config, s: System)
    requires Fresh(cfg, s)
    ensures Inv(cfg, s)
  {
    FreshIsFine(cfg, s);
  }

  /**
   * Integrity over all interleavings: after any orderly run, whatever a lookup finds is a completed
   * upload under that key with all its bytes in the data file, unless its own chunks ran past the end
   * of the file. Only the zero key can find the empty blob of a blank slot.
   */
  lemma Integrity(cfg: Config, s: System, events: seq<Event>, key: T.Key)
    requires Fresh(cfg, s) && GoodRun(cfg, s, events)
    ensures var y := Run(cfg, s, events);
            var found := Lookup(cfg, y, key);
            found.None? || IsBlank(key, found.value) ||
            exists up :: up in y.uploads && GoodUpload(cfg, y, up, key, found.value)
  {
    hide Lookup, GoodUpload;
    FreshIsGood(cfg, s);
    RunKeepsInv(cfg, s, events);
    var y := Run(cfg, s, events);
    if Lookup(cfg, y, key).Some? && !IsBlank(key, Lookup(cfg, y, key).value) {
      HitIsInPlace(cfg, y, key);
    }
  }

  /** And every download whose own reads were safe has delivered a prefix of such an upload. */
  lemma DownloadsAreGenuine(cfg: Config, s: System, events: seq<Event>, d: nat)
    requires Fresh(cfg, s) && GoodRun(cfg, s, events) && SafeRun(cfg, s, events, d)
    ensures DownloadOk(Run(cfg, s, events), d)
  {
    FreshIsGood(cfg, s);
    RunKeepsDownload(cfg, s, events, d);
  }
}
