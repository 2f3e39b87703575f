/**
 * The circular store below the validating adapter: nothing compares the bytes that a source delivers
 * with the size it announced, and a reader cannot tell the end of a blob from the end of the data file.
 */
module PlainTransfers {
  import opened Wrappers
  import opened Cursors
  import opened DataStore
  import opened OffsetStore
  import opened CircularSystem
  import opened CircularIntegrity
  import A = Allocation
  import T = OffsetTable

  /**
   * Exactly when a reader reports the end: all of the blob was delivered, or the data file is too short
   * for the bytes that it asks for next.
   */
  lemma NextReadEndsIff(cfg: Config, s: System, dl: Download, buffer: nat)
    requires 0 < cfg.Size() && |dl.got| <= dl.at.length && dl.at.offset + dl.at.length < TWO_64 && 0 < buffer
    ensures NextRead(cfg, s, dl, buffer) == Eof
       <==> |dl.got| == dl.at.length ||
            |s.file| < (dl.at.offset + |dl.got|) % cfg.Size() + ReadSize(cfg, dl, buffer)
  {
    WrapIsIdentity(dl.at.offset + |dl.got|);
    WrapIsIdentity(dl.at.length - |dl.got|);
  }

  const SHORT_CONFIG: Config := Config(A.Geometry(2, 1), Hashes((key, attempt) => key, key => key))

  const SHORT_AT: T.Location := T.Location(0, 2)

  function ShortIndex(k: nat): Layers {
    var table := [T.BLANK, if k < 3 then T.BLANK else T.Record(1, 0, 0, 2)];
    var cache := [NO_RECORD, if k < 3 then NO_RECORD else CachedRecord(1, SHORT_AT)];
    Layers(table, cache)
  }

  /** A blob of two bytes is announced, one arrives, and a client gets that blob. */
  function ShortState(k: nat): System {
    var write := if k < 1 then 0 else 2;
    var upload := Upload(1, 2, 0, if k < 2 then [] else [5], if k < 3 then Writing else Indexed, false);
    System(A.State(Cursors(0, write), write), ShortIndex(k), if k < 2 then [] else [5],
           if k < 1 then [] else [upload],
           if k < 4 then [] else [Download(1, SHORT_AT, if k < 5 then [] else [5])])
  }

  function ShortEvent(k: nat): Event {
    if k == 0 then BeginPut(1, 2) else if k == 1 then WriteChunk(0, [5]) else if k == 2 then FinishPut(0)
    else if k == 3 then BeginGet(1) else ReadBytes(0, 1)
  }

  predicate ShortGoesOn(k: nat) {
    Possible(SHORT_CONFIG, ShortState(k), ShortEvent(k)) &&
    Step(SHORT_CONFIG, ShortState(k), ShortEvent(k)) == ShortState(k + 1)
  }

  lemma ShortBegins()
    ensures ShortGoesOn(0)
  {
    hide A.Allocate;
    A.AllocateIsLeast(SHORT_CONFIG.geometry, ShortState(0).state, 2);
  }

  lemma ShortWrites()
    ensures ShortGoesOn(1)
  {
    assert WriteAt([], 0, [5]) == [5] && [] + [5] == [5];
    assert ShortState(2).uploads == ShortState(1).uploads[0 := ShortState(2).uploads[0]];
  }

  lemma ShortInserts(t: T.Table)
    requires t == ShortIndex(2).table
    ensures T.Insert(SHORT_CONFIG.hashes.table, t, Cursors(0, 2), 1, SHORT_AT) == ShortIndex(3).table
  {
    assert t[1 := T.Record(1, 0, 0, 2)] == ShortIndex(3).table;
    assert T.PutRecord(SHORT_CONFIG.hashes.table, t, Cursors(0, 2), T.Record(1, 0, 0, 2)).carried.None?;
  }

  lemma ShortFinishes()
    ensures ShortGoesOn(2)
  {
    hide T.Insert;
    ShortInserts(ShortIndex(2).table);
    assert CacheSlot(SHORT_CONFIG.hashes, ShortIndex(2), 1) == 1;
    assert ShortIndex(3).cache == ShortIndex(2).cache[1 := CachedRecord(1, SHORT_AT)];
    assert ShortState(3).uploads == ShortState(2).uploads[0 := ShortState(3).uploads[0]];
  }

  lemma ShortIsFound()
    ensures ShortGoesOn(3)
  {
    assert CacheSlot(SHORT_CONFIG.hashes, ShortIndex(3), 1) == 1;
    assert ShortIndex(3).cache[1 := CachedRecord(1, SHORT_AT)] == ShortIndex(3).cache;
    assert ShortState(4).downloads == ShortState(3).downloads + [Download(1, SHORT_AT, [])];
  }

  lemma ShortReads()
    ensures ShortGoesOn(4)
  {
    assert [5][0..0 + 1] == [5] && [] + [5] == [5];
    assert ShortState(5).downloads == ShortState(4).downloads[0 := Download(1, SHORT_AT, [5])];
  }

  function ShortEvents(k: nat): seq<Event>
    requires k <= 5
    decreases 5 - k
  {
    if k == 5 then [] else [ShortEvent(k)] + ShortEvents(k + 1)
  }

  lemma {:induction false} ShortRun(k: nat)
    requires k <= 5
    ensures CanRun(SHORT_CONFIG, ShortState(k), ShortEvents(k))
    ensures Run(SHORT_CONFIG, ShortState(k), ShortEvents(k)) == ShortState(5)
    decreases 5 - k
  {
    hide Step, Possible, ShortState, ShortEvent;
    if k < 5 {
      ShortStep(k);
      assert ShortEvents(k)[1..] == ShortEvents(k + 1);
      ShortRun(k + 1);
    }
  }

  lemma ShortStep(k: nat)
    requires k < 5
    ensures ShortGoesOn(k)
  {
    hide ShortGoesOn;
    match k
    case 0 => ShortBegins();
    case 1 => ShortWrites();
    case 2 => ShortFinishes();
    case 3 => ShortIsFound();
    case _ => ShortReads();
  }

  lemma ShortEnds()
    ensures Fresh(SHORT_CONFIG, ShortState(0))
    ensures NextRead(SHORT_CONFIG, ShortState(5), Download(1, SHORT_AT, [5]), 1) == Eof
    ensures ShortState(5).downloads == [Download(1, SHORT_AT, [5])]
  {
    NextReadEndsIff(SHORT_CONFIG, ShortState(5), Download(1, SHORT_AT, [5]), 1);
  }

  /**
   * What the end of the data file costs without the adapter: after a Put whose source delivered too little,
   * a Get of the blob that is now in the index ends in order, with too few bytes.
   */
  lemma ShortSourceIsServed()
    ensures exists cfg: Config, s: System, events: seq<Event>, d: nat ::
              Fresh(cfg, s) && CanRun(cfg, s, events) && d < |Run(cfg, s, events).downloads| &&
              var y := Run(cfg, s, events); var dl := y.downloads[d];
              |dl.got| < dl.at.length && NextRead(cfg, y, dl, 1) == Eof
  {
    hide ShortState, Fresh, CanRun, Run, NextRead, ShortEvents;
    ShortRun(0);
    ShortEnds();
    assert ShortState(5).downloads[0] == Download(1, SHORT_AT, [5]);
  }
}
