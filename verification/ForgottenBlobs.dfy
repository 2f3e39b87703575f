/**
 * FindMissing changes the cache as it goes along: an orderly run of the circular store after which a
 * request for two blobs reports one that a Get would find.
 */
module ForgottenBlobs {
  import opened Wrappers
  import opened Cursors
  import opened DataStore
  import opened OffsetStore
  import opened CircularSystem
  import opened CircularIntegrity
  import opened CircularCalls
  import A = Allocation
  import T = OffsetTable

  /** One slot for all keys, in the table and in the cache. */
  const ONE_SLOT: Config := Config(A.Geometry(2, 1), Hashes((key, attempt) => 0, key => 0))

  /** The newer blob, and the older one that finds no slot in the table. */
  const KEPT: T.Record := T.Record(2, 0, 2, 1)
  const FORGOTTEN: T.Location := T.Location(1, 1)

  function SlotIndex(k: nat): Layers {
    var cached := if k < 4 then NO_RECORD
                  else if k < 6 then CachedRecord(2, T.Location(2, 1)) else CachedRecord(3, FORGOTTEN);
    Layers([if k < 4 then T.BLANK else KEPT], [cached])
  }

  function SlotUpload(k: nat, u: nat): Upload {
    if u == 0 then Upload(3, 1, 1, if k < 5 then [] else [5], if k < 6 then Writing else Indexed, false)
    else Upload(2, 1, 2, if k < 3 then [] else [6], if k < 4 then Writing else Indexed, false)
  }

  function SlotUploads(k: nat): seq<Upload> {
    if k == 0 then [] else if k == 1 then [SlotUpload(k, 0)] else [SlotUpload(k, 0), SlotUpload(k, 1)]
  }

  /** Two blobs of one byte: the one that was allocated first is finished last. */
  function SlotState(k: nat): System {
    var write := if k < 2 then k + 1 else 3;
    System(A.State(Cursors(1, write), write), SlotIndex(k), if k < 3 then [] else if k < 5 then [6] else [6, 5],
           SlotUploads(k), [])
  }

  function SlotEvent(k: nat): Event {
    if k == 0 then BeginPut(3, 1) else if k == 1 then BeginPut(2, 1)
    else if k == 2 then WriteChunk(1, [6]) else if k == 3 then FinishPut(1)
    else if k == 4 then WriteChunk(0, [5]) else FinishPut(0)
  }

  ghost predicate SlotGoesOn(k: nat) {
    Possible(ONE_SLOT, SlotState(k), SlotEvent(k)) && Orderly(ONE_SLOT, SlotState(k), SlotEvent(k)) &&
    Step(ONE_SLOT, SlotState(k), SlotEvent(k)) == SlotState(k + 1)
  }

  lemma SlotAllocates(k: nat)
    requires k < 2
    ensures SlotGoesOn(k)
  {
    hide A.Allocate;
    A.AllocateIsLeast(ONE_SLOT.geometry, SlotState(k).state, 1);
    assert SlotUploads(k + 1) == SlotUploads(k) + [SlotUpload(k + 1, k)];
  }

  lemma SlotIndexStays(k: nat)
    requires k == 2 || k == 4
    ensures SlotIndex(k + 1) == SlotIndex(k)
  {
  }

  lemma SlotWrites(k: nat)
    requires (k == 2 || k == 4) && Inv(ONE_SLOT, SlotState(k))
    ensures SlotGoesOn(k)
  {
    hide BytesOk, Harmless, RangesOk, Sound, SlotIndex;
    SlotIndexStays(k);
    var u, chunk := SlotEvent(k).u, SlotEvent(k).chunk;
    assert SlotUploads(k)[u] == SlotUpload(k, u) && [] + chunk == chunk;
    TimelyIsHarmless(ONE_SLOT, SlotState(k), u, 1);
    assert WriteAt(SlotState(k).file, (u + 1) % 2, chunk) == SlotState(k + 1).file;
    assert SlotUploads(k + 1) == SlotUploads(k)[u := SlotUpload(k + 1, u)];
  }

  /** The older record goes from attempt to attempt, and is dropped after the last. */
  lemma {:induction false} OlderIsDropped(t: T.Table, attempt: nat)
    requires t == [KEPT] && attempt <= 7
    ensures T.PutChain(ONE_SLOT.hashes.table, t, Cursors(1, 3), T.Record(3, attempt, 1, 1), 8 - attempt) == t
    decreases 8 - attempt
  {
    if attempt < 7 {
      OlderIsDropped(t, attempt + 1);
    }
  }

  lemma SlotFinishesNewer()
    ensures SlotGoesOn(3)
  {
    hide T.PutChain;
    var t := SlotIndex(3).table;
    assert t[0 := KEPT] == [KEPT];
    assert T.PutRecord(ONE_SLOT.hashes.table, t, Cursors(1, 3), KEPT) == T.Step([KEPT], None);
    NewerLands(t);
    assert SlotIndex(4).cache == SlotIndex(3).cache[0 := CachedRecord(2, T.Location(2, 1))];
    assert SlotUploads(3)[1] == SlotUpload(3, 1) && SlotUploads(4) == SlotUploads(3)[1 := SlotUpload(4, 1)];
  }

  lemma NewerLands(t: T.Table)
    requires T.PutRecord(ONE_SLOT.hashes.table, t, Cursors(1, 3), KEPT) == T.Step([KEPT], None)
    ensures T.Insert(ONE_SLOT.hashes.table, t, Cursors(1, 3), 2, T.Location(2, 1)) == [KEPT]
  {
    hide T.PutRecord;
  }

  lemma SlotFinishesOlder()
    ensures SlotGoesOn(5)
  {
    hide T.PutChain;
    OlderIsDropped(SlotIndex(5).table, 0);
    assert SlotIndex(6).cache == SlotIndex(5).cache[0 := CachedRecord(3, FORGOTTEN)];
    assert SlotUploads(5)[0] == SlotUpload(5, 0) && SlotUploads(6) == SlotUploads(5)[0 := SlotUpload(6, 0)];
  }

  lemma SlotStep(k: nat)
    requires k < 6 && Inv(ONE_SLOT, SlotState(k))
    ensures SlotGoesOn(k)
  {
    hide SlotGoesOn, Inv;
    if k < 2 {
      SlotAllocates(k);
    } else if k == 3 {
      SlotFinishesNewer();
    } else if k == 5 {
      SlotFinishesOlder();
    } else {
      SlotWrites(k);
    }
  }

  function SlotEvents(k: nat): seq<Event>
    requires k <= 6
    decreases 6 - k
  {
    if k == 6 then [] else [SlotEvent(k)] + SlotEvents(k + 1)
  }

  lemma {:induction false} SlotRun(k: nat)
    requires k <= 6 && Inv(ONE_SLOT, SlotState(k))
    ensures GoodRun(ONE_SLOT, SlotState(k), SlotEvents(k))
    ensures Run(ONE_SLOT, SlotState(k), SlotEvents(k)) == SlotState(6)
    decreases 6 - k
  {
    hide Step, Possible, Orderly, SlotState, SlotEvent, UploadsOk, BytesOk, RangesOk, Sound;
    if k < 6 {
      SlotStep(k);
      StepKeepsInv(ONE_SLOT, SlotState(k), SlotEvent(k));
      assert SlotEvents(k)[1..] == SlotEvents(k + 1);
      SlotRun(k + 1);
    }
  }

  lemma SlotIsFresh()
    ensures Fresh(ONE_SLOT, SlotState(0))
  {
  }

  lemma {:induction false} ProbeMisses(attempt: nat)
    requires attempt <= 7
    ensures T.Probe(ONE_SLOT.hashes.table, [KEPT], Cursors(1, 3), 3, attempt).None?
    decreases 7 - attempt
  {
    if attempt < 7 {
      ProbeMisses(attempt + 1);
    }
  }

  /** The older blob is found, but no longer once the newer one was looked up. */
  lemma OlderIsReported()
    ensures LocateBlob(ONE_SLOT, Core(SlotState(6)), 3) == Some(FORGOTTEN)
    ensures IsReported(ONE_SLOT, Core(SlotState(6)), [2, 3], 1)
  {
    var st := Core(SlotState(6));
    ProbeMisses(0);
    assert !InTable(ONE_SLOT, st, 3);
    assert T.Probe(ONE_SLOT.hashes.table, [KEPT], Cursors(1, 3), 2, 0) == Some(T.Location(2, 1));
    assert InTable(ONE_SLOT, st, 2);
    assert Evicts(ONE_SLOT, st, [2, 3][0], 3);
  }

  lemma LastIsIn(cfg: Config, st: Contents, keys: seq<T.Key>)
    requires keys != [] && IsReported(cfg, st, keys, |keys| - 1)
    ensures keys[|keys| - 1] in FindMissingBlobs(cfg, st, keys).keys
  {
    hide IsReported, FindMissingBlobs;
    FindMissingIff(cfg, st, keys);
  }

  /** After an orderly run, a request for several blobs reports one that a Get would find. */
  lemma FindMissingForgets()
    ensures exists cfg: Config, s: System, events: seq<Event>, keys: seq<T.Key>, key: T.Key ::
              Fresh(cfg, s) && GoodRun(cfg, s, events) &&
              var st := Core(Run(cfg, s, events));
              LocateBlob(cfg, st, key).Some? && key in FindMissingBlobs(cfg, st, keys).keys
  {
    hide SlotState, SlotEvents, Fresh, GoodRun, Run, Inv, LocateBlob, FindMissingBlobs, IsReported;
    SlotIsFresh();
    FreshIsGood(ONE_SLOT, SlotState(0));
    SlotRun(0);
    OlderIsReported();
    LastIsIn(ONE_SLOT, Core(SlotState(6)), [2, 3]);
  }
}
