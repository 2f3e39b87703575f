/**
 * The circular store gives up its lock during transfers and does not notice in time when allocation
 * has lapped them: one run of the concurrent system, and two ways in which it can go wrong.
 */
module LateTransfers {
  import opened Wrappers
  import opened Cursors
  import opened DataStore
  import opened OffsetStore
  import opened CircularSystem
  import opened CircularIntegrity
  import A = Allocation
  import T = OffsetTable

  /** A blob is found although its bytes are not, or no longer, in the data file. */
  predicate Corrupted(cfg: Config, s: System, key: T.Key)
    requires 0 < cfg.Size()
  {
    var found := Lookup(cfg, s, key);
    found.Some? && !IsBlank(key, found.value) &&
    forall up | up in s.uploads :: !InPlaceUpload(cfg, s, up, key, found.value)
  }

  const LAP_CONFIG: Config := Config(A.Geometry(2, 1), Hashes((key, attempt) => key, key => key))

  function LapWrite(k: nat): nat {
    if k < 2 then k else if k < 6 then 2 else if k < 9 then 3 else 4
  }

  function LapIndex(k: nat): Layers {
    var table := [T.BLANK, T.BLANK,
                  if k < 4 then T.BLANK else T.Record(2, 0, 1, 1), if k < 8 then T.BLANK else T.Record(3, 0, 2, 1)];
    var cache := [NO_RECORD, NO_RECORD,
                  if k < 4 then NO_RECORD else CachedRecord(2, T.Location(1, 1)),
                  if k < 8 then NO_RECORD else CachedRecord(3, T.Location(2, 1))];
    Layers(table, cache)
  }

  function LapFile(k: nat): Bytes {
    if k < 3 then [] else if k < 7 then [0, 5] else if k < 10 then [7, 5] else [7, 8]
  }

  /** Four blobs of one byte in a data file of two. The first never writes; the second is downloaded. */
  function LapUpload(k: nat, u: nat): Upload {
    if u == 0 then Upload(1, 1, 0, [], Writing, false)
    else if u == 1 then Upload(2, 1, 1, if k < 3 then [] else [5], if k < 4 then Writing else Indexed, false)
    else if u == 2 then Upload(3, 1, 2, if k < 7 then [] else [7], if k < 8 then Writing else Indexed, false)
    else Upload(4, 1, 3, if k < 10 then [] else [8], Writing, false)
  }

  function LapUploads(k: nat): seq<Upload> {
    [LapUpload(k, 0), LapUpload(k, 1), LapUpload(k, 2), LapUpload(k, 3)][..LapWrite(k)]
  }

  function LapState(k: nat): System {
    var write := LapWrite(k);
    System(A.State(Cursors(if write < 2 then 0 else write - 2, write), write), LapIndex(k), LapFile(k), LapUploads(k),
           if k < 5 then [] else [Download(2, T.Location(1, 1), [])])
  }

  function LapEvent(k: nat): Event {
    if k < 2 then BeginPut(k + 1, 1)
    else if k == 2 then WriteChunk(1, [5]) else if k == 3 then FinishPut(1)
    else if k == 4 then BeginGet(2)
    else if k == 5 then BeginPut(3, 1)
    else if k == 6 then WriteChunk(2, [7]) else if k == 7 then FinishPut(2)
    else if k == 8 then BeginPut(4, 1)
    else WriteChunk(3, [8])
  }

  /** The k-th event is orderly in the k-th state and leads to the next. */
  ghost predicate LapGoesOn(k: nat) {
    Possible(LAP_CONFIG, LapState(k), LapEvent(k)) && Orderly(LAP_CONFIG, LapState(k), LapEvent(k)) &&
    Step(LAP_CONFIG, LapState(k), LapEvent(k)) == LapState(k + 1)
  }

  lemma LapIndexStays(k: nat)
    requires k != 3 && k != 7
    ensures LapIndex(k + 1) == LapIndex(k)
  {
  }

  lemma LapAllocates(k: nat)
    requires k == 0 || k == 1 || k == 5 || k == 8
    ensures LapGoesOn(k)
  {
    hide A.Allocate, LapIndex;
    LapIndexStays(k);
    A.AllocateIsLeast(LAP_CONFIG.geometry, LapState(k).state, 1);
    var up := Upload(LapWrite(k) + 1, 1, LapWrite(k), [], Writing, false);
    assert LapState(k + 1).uploads == LapState(k).uploads + [up];
  }

  /** Upload k writes its byte when no byte is kept at its file position. */
  lemma LapIsHarmless(k: nat)
    requires k == 2 || k == 6 || k == 9
    ensures Harmless(LAP_CONFIG, LapState(k), LapEvent(k).u, 1)
  {
    hide LapIndex, LapFile;
    var s, u := LapState(k), LapEvent(k).u;
    assert s.uploads[u] == LapUpload(k, u) && u % 2 <= 1;
    forall v: nat, i: nat | Kept(LAP_CONFIG, s, v, i) ensures !Hits(2, u, 1, s.uploads[v].offset + i) {
      assert s.uploads[v] == LapUpload(k, v) && i == 0;
    }
  }

  lemma LapFileGrows(k: nat)
    requires k == 2 || k == 6 || k == 9
    ensures WriteAt(LapFile(k), LapEvent(k).u % 2, LapEvent(k).chunk) == LapFile(k + 1)
  {
  }

  lemma LapUploadGrows(k: nat)
    requires k == 2 || k == 6 || k == 9
    ensures var u, chunk := LapEvent(k).u, LapEvent(k).chunk;
            var up := LapUpload(k, u);
            u < |LapUploads(k)| && LapUploads(k)[u] == up &&
            up.offset == u && up.received == [] && up.size == |chunk| == 1 && up.phase == Writing && !up.crossed &&
            LapUploads(k + 1) == LapUploads(k)[u := up.(received := chunk)]
  {
    var u := LapEvent(k).u;
    assert LapUpload(k + 1, u) == LapUpload(k, u).(received := LapEvent(k).chunk);
    assert LapUploads(k + 1) == LapUploads(k)[u := LapUpload(k + 1, u)];
  }

  lemma LapWrites(k: nat)
    requires k == 2 || k == 6 || k == 9
    ensures LapGoesOn(k)
  {
    hide Harmless, LapIndex, LapFile, LapUploads, LapUpload, WriteAt;
    LapIsHarmless(k);
    LapIndexStays(k);
    LapFileGrows(k);
    LapUploadGrows(k);
    assert [] + LapEvent(k).chunk == LapEvent(k).chunk;
  }

  lemma LapInserts(t: T.Table, c: Cursors, key: T.Key, at: T.Location)
    requires |t| == 4 && 2 <= key <= 3 && t[key] == T.BLANK
    ensures T.Insert(LAP_CONFIG.hashes.table, t, c, key, at) == t[key := T.Record(key, 0, at.offset, at.length)]
  {
    assert T.PutRecord(LAP_CONFIG.hashes.table, t, c, T.Record(key, 0, at.offset, at.length)).carried.None?;
  }

  lemma LapFinishes(k: nat)
    requires k == 3 || k == 7
    ensures LapGoesOn(k)
  {
    hide T.Insert;
    var u, s := LapEvent(k).u, LapState(k);
    var at := T.Location(u, 1);
    assert s.uploads[u] == LapUpload(k, u);
    LapInserts(s.index.table, s.state.cursors, u + 1, at);
    assert CacheSlot(LAP_CONFIG.hashes, s.index, u + 1) == u + 1;
    assert LapIndex(k + 1).table == s.index.table[u + 1 := T.Record(u + 1, 0, u, 1)];
    assert LapIndex(k + 1).cache == s.index.cache[u + 1 := CachedRecord(u + 1, at)];
    assert LapState(k + 1).uploads == s.uploads[u := LapUpload(k + 1, u)];
  }

  /** The blobs with these keys are in the index from their Finish on. */
  lemma LapFinds(k: nat, key: T.Key)
    requires (key == 2 && 4 <= k <= 8) || (key == 3 && 8 <= k <= 10)
    ensures Lookup(LAP_CONFIG, LapState(k), key) == Some(T.Location(key - 1, 1))
    ensures Queried(LAP_CONFIG, LapState(k), key) == LapState(k)
  {
    var s := LapState(k);
    assert CacheSlot(LAP_CONFIG.hashes, s.index, key) == key;
    assert s.index.cache[key] == CachedRecord(key, T.Location(key - 1, 1));
    assert s.index.cache[key := CachedRecord(key, T.Location(key - 1, 1))] == s.index.cache;
  }

  lemma LapStep(k: nat)
    requires k < 10
    ensures LapGoesOn(k)
  {
    hide LapGoesOn;
    if k == 2 || k == 6 || k == 9 {
      LapWrites(k);
    } else if k == 3 || k == 7 {
      LapFinishes(k);
    } else if k == 4 {
      LapBeginsGet();
    } else {
      LapAllocates(k);
    }
  }

  lemma LapBeginsGet()
    ensures LapGoesOn(4)
  {
    hide Lookup, Queried, LapIndex;
    LapFinds(4, 2);
    assert LapUploads(5) == LapUploads(4);
    LapIndexStays(4);
  }

  function LapEvents(k: nat, n: nat): seq<Event>
    requires k <= n <= 10
    decreases n - k
  {
    if k == n then [] else [LapEvent(k)] + LapEvents(k + 1, n)
  }

  lemma {:induction false} LapRun(k: nat, n: nat)
    requires k <= n <= 10
    ensures GoodRun(LAP_CONFIG, LapState(k), LapEvents(k, n))
    ensures Run(LAP_CONFIG, LapState(k), LapEvents(k, n)) == LapState(n)
    decreases n - k
  {
    hide Step, Possible, Orderly, LapState, LapEvent;
    if k < n {
      LapStep(k);
      assert LapEvents(k, n)[1..] == LapEvents(k + 1, n);
      LapRun(k + 1, n);
    }
  }

  lemma LapIsFresh()
    ensures Fresh(LAP_CONFIG, LapState(0))
  {
  }

  /** The third blob is live and in the index when the first upload writes over it. */
  lemma LateWrite()
    ensures Possible(LAP_CONFIG, LapState(8), WriteChunk(0, [9]))
    ensures Corrupted(LAP_CONFIG, Step(LAP_CONFIG, LapState(8), WriteChunk(0, [9])), 3)
  {
    hide Lookup;
    var s := LapState(8);
    assert s.uploads[0] == LapUpload(8, 0);
    var s' := Step(LAP_CONFIG, s, WriteChunk(0, [9]));
    LapFinds(8, 3);
    assert Lookup(LAP_CONFIG, s', 3) == Lookup(LAP_CONFIG, s, 3) by { LookupIgnoresFile(LAP_CONFIG, s, s', 3); }
    assert !Holds(s'.file, 2, 2, [7]) by { HoldsFirst(s'.file, 2, 2, [7]); }
    forall up | up in s'.uploads ensures !InPlaceUpload(LAP_CONFIG, s', up, 3, T.Location(2, 1)) {
      var u :| 0 <= u < |s'.uploads| && s'.uploads[u] == up;
      assert u == 0 || up == LapUpload(8, u);
    }
  }

  lemma LookupIgnoresFile(cfg: Config, s: System, s': System, key: T.Key)
    requires s'.index == s.index && s'.state == s.state
    ensures Lookup(cfg, s', key) == Lookup(cfg, s, key)
  {
  }

  /** The bytes of the second blob are gone when its download goes on. */
  lemma LateRead()
    ensures Possible(LAP_CONFIG, LapState(10), ReadBytes(0, 1))
    ensures var dl := LapState(10).downloads[0];
            NextRead(LAP_CONFIG, LapState(10), dl, 1) == Data([8]) &&
            !Genuine(LapState(10).uploads, dl.key, dl.at, dl.got + [8])
  {
    var s := LapState(10);
    assert s.file[1..1 + 1] == [8];
    assert [] + [8] == [8] && s.downloads == [Download(2, T.Location(1, 1), [])];
    forall u | 0 <= u < |s.uploads| && s.uploads[u].key == 2 ensures !([8] <= s.uploads[u].received) {
      assert s.uploads[u] == LapUpload(10, u);
      assert [8][0] == 8 && s.uploads[u].received[0] == 5;
    }
  }

  /**
   * Harmless writes are needed, and the program does not provide them: after an orderly run, one chunk
   * that is written late destroys a blob that is live and in the index. The test for stale data at the
   * end of the late upload comes after the damage.
   */
  lemma LateWriteCorrupts()
    ensures exists cfg: Config, s: System, events: seq<Event>, e: Event, key: T.Key ::
              Fresh(cfg, s) && GoodRun(cfg, s, events) && e.WriteChunk? &&
              Possible(cfg, Run(cfg, s, events), e) && Corrupted(cfg, Step(cfg, Run(cfg, s, events), e), key)
  {
    hide LapState, Fresh, GoodRun, Possible, Corrupted, Step, Run;
    LapIsFresh();
    LapRun(0, 8);
    LateWrite();
    assert WriteChunk(0, [9]).WriteChunk?;
  }

  /** Safe reads are needed too: after an orderly run, a late read delivers bytes of another blob. */
  lemma LateReadDeliversOthers()
    ensures exists cfg: Config, s: System, events: seq<Event>, d: nat ::
              Fresh(cfg, s) && GoodRun(cfg, s, events) && d < |Run(cfg, s, events).downloads| &&
              var y := Run(cfg, s, events); var dl := y.downloads[d];
              var b := NextRead(cfg, y, dl, 1);
              b.Data? && !Genuine(y.uploads, dl.key, dl.at, dl.got + b.bytes)
  {
    hide LapState, Fresh, GoodRun, Run, NextRead, Genuine;
    LapIsFresh();
    LapRun(0, 10);
    LateRead();
  }
}
