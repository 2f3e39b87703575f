/**
 * Reading through the validating adapter (merkle_blob_access.go) from the concurrent circular store,
 * whatever state its data file is in: corruption is never delivered, and it is repaired.
 */
module MerkleBlobAccess {
  import opened Arithmetic
  import opened Wrappers
  import opened Cursors
  import opened DataStore
  import opened CircularSystem
  import C = CircularCalls
  import I = CircularIntegrity
  import CB = CircularBlobAccess
  import opened Merkle
  import OffsetStore
  import T = OffsetTable

  // ---------------------------------------------------------------------------------------------
  // Get
  // ---------------------------------------------------------------------------------------------

  /** What other calls do before the client's next read, and the size of the buffer it reads with. */
  datatype Turn = Turn(others: seq<Event>, buffer: nat)

  datatype GetResult = NotFound | Delivered(bytes: Bytes) | Rejected | Pending

  datatype Fetched = Fetched(system: System, result: GetResult)

  /** The store after other calls made these steps. A sequence that cannot happen stands for none. */
  function Meanwhile(cfg: Config, s: System, others: seq<Event>): System {
    if CanRun(cfg, s, others) then Run(cfg, s, others) else s
  }

  /** discardBadBlob: the deletion has to wait for the lock. */
  function Discard(cfg: Config, s: System, key: T.Key, gap: seq<Event>): System
    requires cfg.geometry.Valid()
  {
    Step(cfg, Meanwhile(cfg, s, gap), Delete(key))
  }

  /** The client reads on, until the end, an error of the validator, or the last of its turns. */
  function Fetch(h: HashFunction, want: Digest, cfg: Config, s: System, dl: Download, ck: Checker,
                 turns: seq<Turn>, gap: seq<Event>): Fetched
    requires cfg.geometry.Valid()
    decreases |turns|
  {
    if turns == [] then Fetched(s, Pending)
    else
      var s' := Meanwhile(cfg, s, turns[0].others);
      var r := CheckRead(h, want, ck, NextRead(cfg, s', dl, turns[0].buffer));
      match r.result
      case Data(b) => Fetch(h, want, cfg, s', dl.(got := dl.got + b), r.checker, turns[1..], gap)
      case Eof => Fetched(s', Delivered(dl.got))
      case Failed => Fetched(Discard(cfg, s', dl.key, gap), Rejected)
  }

  function MerkleGet(h: HashFunction, keyOf: Digest -> T.Key, want: Digest, cfg: Config, s: System,
                     turns: seq<Turn>, gap: seq<Event>): Fetched
    requires cfg.geometry.Valid()
  {
    var key := keyOf(want);
    var found := Lookup(cfg, s, key);
    var s' := Queried(cfg, s, key);
    if found.None? then Fetched(s', NotFound)
    else if found.value.length != want.size then Fetched(Discard(cfg, s', key, gap), Rejected)
    else Fetch(h, want, cfg, s', Download(key, found.value, []), Start(want), turns, gap)
  }

  // ---------------------------------------------------------------------------------------------
  // Safety in every state
  // ---------------------------------------------------------------------------------------------

  lemma {:induction false} RunsJoin(cfg: Config, s: System, events: seq<Event>, more: seq<Event>)
    requires CanRun(cfg, s, events) && CanRun(cfg, Run(cfg, s, events), more)
    ensures CanRun(cfg, s, events + more)
    ensures Run(cfg, s, events + more) == Run(cfg, Run(cfg, s, events), more)
    decreases |events|
  {
    hide Step, Possible;
    if events == [] {
      assert events + more == more;
    } else {
      RunsJoin(cfg, Step(cfg, s, events[0]), events[1..], more);
      assert (events + more)[1..] == events[1..] + more;
    }
  }

  /** Other calls in between only make the run longer. */
  lemma MeanwhileIsRun(cfg: Config, s: System, events: seq<Event>, others: seq<Event>) returns (events': seq<Event>)
    requires CanRun(cfg, s, events)
    ensures CanRun(cfg, s, events') && Run(cfg, s, events') == Meanwhile(cfg, Run(cfg, s, events), others)
  {
    hide Run;
    events' := events;
    if CanRun(cfg, Run(cfg, s, events), others) {
      RunsJoin(cfg, s, events, others);
      events' := events + others;
    }
  }

  /** The reader of a blob, whatever the data file holds: something, or the end of the blob or of the file. */
  lemma ReadMakesProgress(cfg: Config, s: System, dl: Download, buffer: nat)
    requires 0 < cfg.Size() && |dl.got| <= dl.at.length && 0 < buffer
    ensures match NextRead(cfg, s, dl, buffer)
            case Data(b) => b != [] && |dl.got| + |b| <= dl.at.length
            case Eof => |dl.got| == dl.at.length || |s.file| < cfg.Size()
            case Failed => false
  {
    WrapIsIdentity(dl.at.length - |dl.got|);
  }

  /** What the outcome of a Get says, for a Get that ended in this state. */
  ghost predicate Safe(h: HashFunction, want: Digest, cfg: Config, key: T.Key, g: Fetched, before: System) {
    cfg.geometry.Valid() &&
    match g.result
    case NotFound => g.system == before
    case Delivered(bytes) => g.system == before && Matches(h, want, bytes)
    case Rejected => g.system == Step(cfg, before, Delete(key))
    case Pending => g.system == before
  }

  lemma {:induction false} FetchIsSafe(h: HashFunction, want: Digest, cfg: Config, s: System, events: seq<Event>,
                                       dl: Download, ck: Checker, turns: seq<Turn>, gap: seq<Event>)
    returns (events': seq<Event>)
    requires CanRun(cfg, s, events) && forall i | 0 <= i < |turns| :: 0 < turns[i].buffer
    requires dl.at.length == want.size && |dl.got| <= want.size && ck == Checker(want.size - |dl.got|, dl.got, false)
    ensures CanRun(cfg, s, events')
    ensures var g := Fetch(h, want, cfg, Run(cfg, s, events), dl, ck, turns, gap);
            Safe(h, want, cfg, dl.key, g, Run(cfg, s, events')) &&
            !g.result.NotFound? && (g.result.Pending? ==> |turns| <= want.size - |dl.got|)
    decreases |turns|
  {
    hide Run, Meanwhile, NextRead, Step;
    events' := events;
    if turns != [] {
      events' := MeanwhileIsRun(cfg, s, events, turns[0].others);
      var s' := Run(cfg, s, events');
      var inner := NextRead(cfg, s', dl, turns[0].buffer);
      ReadMakesProgress(cfg, s', dl, turns[0].buffer);
      var r := CheckRead(h, want, ck, inner);
      if r.result.Data? {
        events' := FetchIsSafe(h, want, cfg, s, events', dl.(got := dl.got + inner.bytes), r.checker, turns[1..], gap);
      } else if r.result.Failed? {
        events' := MeanwhileIsRun(cfg, s, events', gap);
      }
    }
  }

  /**
   * From any state of cursors and index, whatever has been done to the data file: a Get is a run of the
   * store. It delivers only bytes of the size and hash asked for, and is over once there were more turns
   * than bytes. If it found its key and did not deliver, then it ends with an error, and a deletion is
   * its last step; also when the data file ends before the blob.
   */
  lemma MerkleGetIsSafe(h: HashFunction, keyOf: Digest -> T.Key, want: Digest, cfg: Config, s: System,
                        turns: seq<Turn>, gap: seq<Event>) returns (events: seq<Event>)
    requires IndexInv(cfg, s) && forall i | 0 <= i < |turns| :: 0 < turns[i].buffer
    ensures CanRun(cfg, s, events)
    ensures var g := MerkleGet(h, keyOf, want, cfg, s, turns, gap);
            Safe(h, want, cfg, keyOf(want), g, Run(cfg, s, events)) &&
            (g.result.NotFound? <==> Lookup(cfg, s, keyOf(want)).None?) && (g.result.Pending? ==> |turns| <= want.size)
  {
    hide Lookup, Queried, Meanwhile, Fetch, OffsetStore.Sound, RangesOk;
    var key := keyOf(want);
    events := [Query(key)];
    assert Step(cfg, s, Query(key)) == Queried(cfg, s, key) && events[1..] == [];
    assert CanRun(cfg, Queried(cfg, s, key), []) && Run(cfg, s, events) == Run(cfg, Queried(cfg, s, key), []);
    if Lookup(cfg, s, key).Some? {
      var at := Lookup(cfg, s, key).value;
      if at.length != want.size {
        events := MeanwhileIsRun(cfg, s, events, gap);
      } else {
        events := FetchIsSafe(h, want, cfg, s, events, Download(key, at, []), Start(want), turns, gap);
      }
    }
  }

  /**
   * Repair: after a Get that rejected its blob, in every run, nothing is found that starts before the end
   * of what the deletion located.
   */
  lemma RejectedStaysAway(h: HashFunction, keyOf: Digest -> T.Key, want: Digest, cfg: Config, s: System,
                          turns: seq<Turn>, gap: seq<Event>, later: seq<Event>, other: T.Key)
    returns (events: seq<Event>)
    requires IndexInv(cfg, s) && forall i | 0 <= i < |turns| :: 0 < turns[i].buffer
    requires var g := MerkleGet(h, keyOf, want, cfg, s, turns, gap); g.result.Rejected? && CanRun(cfg, g.system, later)
    ensures CanRun(cfg, s, events)
    ensures var g := MerkleGet(h, keyOf, want, cfg, s, turns, gap);
            var dropped := Lookup(cfg, Run(cfg, s, events), keyOf(want));
            var found := Lookup(cfg, Run(cfg, g.system, later), other);
            g.system == Step(cfg, Run(cfg, s, events), Delete(keyOf(want))) &&
            (dropped.Some? && found.Some? ==>
              dropped.value.offset + Max(1, dropped.value.length) <= found.value.offset)
  {
    hide Lookup, MerkleGet, Step, Run, OffsetStore.Sound, RangesOk;
    events := MerkleGetIsSafe(h, keyOf, want, cfg, s, turns, gap);
    RunKeepsIndex(cfg, s, events);
    if Lookup(cfg, Run(cfg, s, events), keyOf(want)).Some? {
      DeletedStaysAway(cfg, Run(cfg, s, events), keyOf(want), later, other);
    }
  }

  // ---------------------------------------------------------------------------------------------
  // One caller at a time
  // ---------------------------------------------------------------------------------------------

  predicate Alone(turns: seq<Turn>) {
    forall i | 0 <= i < |turns| :: turns[i].others == []
  }

  lemma {:induction false} FetchAlone(h: HashFunction, want: Digest, cfg: Config, s: System, dl: Download, ck: Checker,
                                      turns: seq<Turn>)
    requires cfg.geometry.Valid() && Alone(turns)
    ensures var g := Fetch(h, want, cfg, s, dl, ck, turns, []);
            g.system == if g.result.Rejected? then Step(cfg, s, Delete(dl.key)) else s
    decreases |turns|
  {
    hide Step, NextRead;
    if turns != [] {
      var r := CheckRead(h, want, ck, NextRead(cfg, s, dl, turns[0].buffer));
      if r.result.Data? {
        FetchAlone(h, want, cfg, s, dl.(got := dl.got + r.result.bytes), r.checker, turns[1..]);
      }
    }
  }

  /** Without other calls in between it is the blob that was rejected which is never found again. */
  lemma RejectedAloneStaysAway(h: HashFunction, keyOf: Digest -> T.Key, want: Digest, cfg: Config, s: System,
                               turns: seq<Turn>, later: seq<Event>, other: T.Key)
    requires IndexInv(cfg, s) && Alone(turns)
    requires var g := MerkleGet(h, keyOf, want, cfg, s, turns, []); g.result.Rejected? && CanRun(cfg, g.system, later)
    ensures Lookup(cfg, s, keyOf(want)).Some?
    ensures var at := Lookup(cfg, s, keyOf(want)).value;
            var found := Lookup(cfg, Run(cfg, MerkleGet(h, keyOf, want, cfg, s, turns, []).system, later), other);
            found.Some? ==> at.offset + Max(1, at.length) <= found.value.offset
  {
    hide OffsetStore.Find, OffsetStore.AfterFind, OffsetStore.Sound, RangesOk, Step;
    var key := keyOf(want);
    var at := Lookup(cfg, s, key).value;
    var s' := Queried(cfg, s, key);
    LookupIsInside(cfg, s, key);
    ContainsIsInside(s.state.cursors, at.offset, at.length);
    OffsetStore.FindAgain(cfg.hashes, s.index, s.state.cursors, key, s.state.cursors);
    if at.length == want.size {
      FetchAlone(h, want, cfg, s', Download(key, at, []), Start(want), turns);
    }
    QueryKeepsIndex(cfg, s, key);
    DeletedStaysAway(cfg, s', key, later, other);
  }

  // ---------------------------------------------------------------------------------------------
  // Blobs whose bytes are in place
  // ---------------------------------------------------------------------------------------------

  /** Each time the client reads, the data file holds what it reads next of these bytes. */
  predicate InPlaceThroughout(cfg: Config, s: System, dl: Download, data: Bytes, turns: seq<Turn>)
    requires 0 < cfg.Size()
    decreases |turns|
  {
    turns == [] || |dl.got| == |data| ||
    var s', k, n := Meanwhile(cfg, s, turns[0].others), |dl.got|, I.ReadSize(cfg, dl, turns[0].buffer);
    k + n <= |data| && Holds(s'.file, cfg.Size(), dl.at.offset + k, data[k..k + n]) &&
    InPlaceThroughout(cfg, s', dl.(got := data[..k + n]), data, turns[1..])
  }

  /** What is read next, given that it is in place. */
  lemma ReadsNext(cfg: Config, s: System, dl: Download, data: Bytes, buffer: nat)
    requires 0 < cfg.Size() && dl.got <= data && |dl.got| < |data| == dl.at.length && 0 < buffer
    requires dl.at.offset + |data| < TWO_64
    requires var k, n := |dl.got|, I.ReadSize(cfg, dl, buffer);
             k + n <= |data| && Holds(s.file, cfg.Size(), dl.at.offset + k, data[k..k + n])
    ensures var k, n := |dl.got|, I.ReadSize(cfg, dl, buffer);
            0 < n && NextRead(cfg, s, dl, buffer) == Data(data[k..k + n]) && dl.got + data[k..k + n] == data[..k + n]
  {
    hide ReadChunk, Wrap, Stored;
    var k, n := |dl.got|, I.ReadSize(cfg, dl, buffer);
    WrapIsIdentity(dl.at.offset + k);
    WrapIsIdentity(dl.at.length - k);
    ReadIsDataIff(s.file, cfg.Size(), Reader(dl.at.offset + k, dl.at.length - k), buffer, data[k..k + n]);
  }

  lemma {:induction false} FetchDecides(h: HashFunction, want: Digest, cfg: Config, s: System, dl: Download,
                                        ck: Checker, turns: seq<Turn>, gap: seq<Event>, data: Bytes)
    requires cfg.geometry.Valid() && forall i | 0 <= i < |turns| :: 0 < turns[i].buffer
    requires InPlaceThroughout(cfg, s, dl, data, turns) && dl.at.offset + |data| < TWO_64
    requires |data| == want.size == dl.at.length && dl.got <= data && |turns| > want.size - |dl.got|
    requires ck == Checker(want.size - |dl.got|, dl.got, false)
    ensures Fetch(h, want, cfg, s, dl, ck, turns, gap).result ==
            if Matches(h, want, data) then Delivered(data) else Rejected
    decreases |turns|
  {
    hide Meanwhile, Step, ReadChunk, I.ReadSize, Holds, Wrap, Discard;
    var s', k, n := Meanwhile(cfg, s, turns[0].others), |dl.got|, I.ReadSize(cfg, dl, turns[0].buffer);
    if k < |data| {
      ReadsNext(cfg, s', dl, data, turns[0].buffer);
      var r := CheckRead(h, want, ck, Data(data[k..k + n]));
      FetchDecides(h, want, cfg, s', dl.(got := data[..k + n]), r.checker, turns[1..], gap, data);
    } else {
      I.ReadIsDone(cfg, s', dl, turns[0].buffer);
      assert dl.got == data;
    }
  }

  /** A Get of a blob that stays in place delivers it if and only if its bytes match, and rejects it otherwise. */
  lemma MerkleGetDecides(h: HashFunction, keyOf: Digest -> T.Key, want: Digest, cfg: Config, s: System,
                         turns: seq<Turn>, gap: seq<Event>, data: Bytes)
    requires IndexInv(cfg, s) && Lookup(cfg, s, keyOf(want)).Some?
    requires forall i | 0 <= i < |turns| :: 0 < turns[i].buffer
    requires var at := Lookup(cfg, s, keyOf(want)).value;
             |data| == at.length && |turns| > want.size &&
             InPlaceThroughout(cfg, Queried(cfg, s, keyOf(want)), Download(keyOf(want), at, []), data, turns)
    ensures MerkleGet(h, keyOf, want, cfg, s, turns, gap).result ==
            if Matches(h, want, data) then Delivered(data) else Rejected
  {
    hide Lookup, Queried, Discard, Fetch, InPlaceThroughout, OffsetStore.Sound, RangesOk;
    var key := keyOf(want);
    var at := Lookup(cfg, s, key).value;
    if at.length == want.size {
      LookupIsInside(cfg, s, key);
      FetchDecides(h, want, cfg, Queried(cfg, s, key), Download(key, at, []), Start(want), turns, gap, data);
    }
  }

  /** Other calls are orderly between the reads, and the reads are safe. */
  ghost predicate OrderlyTurns(cfg: Config, s: System, dl: Download, data: Bytes, turns: seq<Turn>)
    requires 0 < cfg.Size()
    decreases |turns|
  {
    turns == [] || |dl.got| == |data| ||
    (I.GoodRun(cfg, s, turns[0].others) &&
     var s', k, n := Run(cfg, s, turns[0].others), |dl.got|, I.ReadSize(cfg, dl, turns[0].buffer);
     I.SafeRead(cfg, s', dl, turns[0].buffer) &&
     (k + n <= |data| ==> OrderlyTurns(cfg, s', dl.(got := data[..k + n]), data, turns[1..])))
  }

  lemma {:induction false} RunExtends(cfg: Config, s: System, events: seq<Event>)
    requires CanRun(cfg, s, events)
    ensures I.Extends(s.uploads, Run(cfg, s, events).uploads)
    decreases |events|
  {
    hide Step, Possible;
    if events != [] {
      I.StepExtends(cfg, s, events[0]);
      RunExtends(cfg, Step(cfg, s, events[0]), events[1..]);
    }
  }

  /** What a safe read finds in place. */
  lemma SafeIsInPlace(cfg: Config, s: System, dl: Download, u: nat, buffer: nat)
    requires I.Inv(cfg, s) && u < |s.uploads| && I.IsOf(s.uploads[u], dl.key, dl.at)
    requires dl.got <= s.uploads[u].received && |dl.got| < dl.at.length && 0 < buffer && I.SafeRead(cfg, s, dl, buffer)
    ensures var up, k, n := s.uploads[u], |dl.got|, I.ReadSize(cfg, dl, buffer);
            k + n <= |up.received| && Holds(s.file, cfg.Size(), dl.at.offset + k, up.received[k..k + n])
  {
    hide I.ReadSize, Holds, I.BytesOk, I.Backed, OffsetStore.Sound, RangesOk, I.Continues;
    assert I.UploadOk(s.uploads[u]);
    I.ContinuesIff(cfg, s, dl, u, buffer);
    I.ContinuesIsSafe(cfg, s, dl, u, buffer);
  }

  lemma {:induction false} OrderlyIsInPlace(cfg: Config, s: System, dl: Download, u: nat, turns: seq<Turn>)
    requires I.Inv(cfg, s) && u < |s.uploads| && I.IsOf(s.uploads[u], dl.key, dl.at)
    requires dl.got <= s.uploads[u].received && |s.uploads[u].received| == dl.at.length
    requires OrderlyTurns(cfg, s, dl, s.uploads[u].received, turns)
    requires forall i | 0 <= i < |turns| :: 0 < turns[i].buffer
    ensures InPlaceThroughout(cfg, s, dl, s.uploads[u].received, turns)
    decreases |turns|
  {
    hide I.ReadSize, Holds, I.SafeRead, I.BytesOk, I.UploadsOk, OffsetStore.Sound, RangesOk, Run, CanRun, I.OrderlyRun;
    var data := s.uploads[u].received;
    if turns != [] && |dl.got| < |data| {
      var s' := Run(cfg, s, turns[0].others);
      I.RunKeepsInv(cfg, s, turns[0].others);
      RunExtends(cfg, s, turns[0].others);
      assert s'.uploads[u] == s.uploads[u];
      SafeIsInPlace(cfg, s', dl, u, turns[0].buffer);
      var n := I.ReadSize(cfg, dl, turns[0].buffer);
      OrderlyIsInPlace(cfg, s', dl.(got := data[..|dl.got| + n]), u, turns[1..]);
    }
  }

  /**
   * In every orderly state: a Get that locates a completed upload, while other calls go on in order and
   * its own reads are safe, delivers that upload if its bytes match, and rejects it otherwise.
   */
  lemma MerkleGetDelivers(h: HashFunction, keyOf: Digest -> T.Key, want: Digest, cfg: Config, s: System, u: nat,
                          turns: seq<Turn>, gap: seq<Event>)
    requires I.Inv(cfg, s) && Lookup(cfg, s, keyOf(want)).Some?
    requires u < |s.uploads| && I.IsOf(s.uploads[u], keyOf(want), Lookup(cfg, s, keyOf(want)).value)
    requires |turns| > want.size && forall i | 0 <= i < |turns| :: 0 < turns[i].buffer
    requires var key := keyOf(want);
             OrderlyTurns(cfg, Queried(cfg, s, key), Download(key, Lookup(cfg, s, key).value, []),
                          s.uploads[u].received, turns)
    ensures MerkleGet(h, keyOf, want, cfg, s, turns, gap).result ==
            var data := s.uploads[u].received;
            if Matches(h, want, data) then Delivered(data) else Rejected
  {
    hide Lookup, MerkleGet, InPlaceThroughout, OrderlyTurns, Holds, Matches, I.BytesOk, OffsetStore.Sound, RangesOk;
    var key := keyOf(want);
    var at := Lookup(cfg, s, key).value;
    assert I.UploadOk(s.uploads[u]);
    I.LookupKeepsInv(cfg, s, Query(key));
    OrderlyIsInPlace(cfg, Queried(cfg, s, key), Download(key, at, []), u, turns);
    MerkleGetDecides(h, keyOf, want, cfg, s, turns, gap, s.uploads[u].received);
  }

  // ---------------------------------------------------------------------------------------------
  // End to end
  // ---------------------------------------------------------------------------------------------

  lemma {:induction false} StaysInPlaceAlone(cfg: Config, s: System, dl: Download, data: Bytes, turns: seq<Turn>)
    requires cfg.geometry.Valid() && Alone(turns) && Holds(s.file, cfg.Size(), dl.at.offset, data)
    requires |dl.got| <= |data| == dl.at.length
    ensures InPlaceThroughout(cfg, s, dl, data, turns)
    decreases |turns|
  {
    hide Stored, I.ReadSize;
    if turns != [] && |dl.got| < |data| {
      var k, n := |dl.got|, I.ReadSize(cfg, dl, turns[0].buffer);
      ReadSizeFits(cfg, dl, turns[0].buffer);
      HoldsPart(s.file, cfg.Size(), dl.at.offset, data, k, k + n);
      StaysInPlaceAlone(cfg, s, dl.(got := data[..k + n]), data, turns[1..]);
    }
  }

  lemma ReadSizeFits(cfg: Config, dl: Download, buffer: nat)
    requires 0 < cfg.Size() && |dl.got| <= dl.at.length
    ensures |dl.got| + I.ReadSize(cfg, dl, buffer) <= dl.at.length
  {
    WrapIsIdentity(dl.at.length - |dl.got|);
  }

  /** This call stored a blob for this digest. */
  ghost predicate Stores(h: HashFunction, keyOf: Digest -> T.Key, want: Digest, call: C.Call) {
    exists size: int64, r: Source, fault: Option<Fault> ::
      C.MerklePut(h, keyOf, want, size, r, fault) == Some(call) && !call.r.failed
  }

  /** No other digest of this size that the calls stored a blob for has the same key. */
  ghost predicate NoCollision(h: HashFunction, keyOf: Digest -> T.Key, want: Digest, calls: seq<C.Call>) {
    forall other: Digest, call: C.Call |
      call in calls && call.Put? && Stores(h, keyOf, other, call) && other.size == want.size &&
      keyOf(other) == keyOf(want) ::
      other == want
  }

  /**
   * End to end: after any sequence of validated calls on a fresh store, a Get of a digest whose key is found
   * delivers exactly what one of the calls put there for it, unless a chunk of that call ran past the end of
   * the file. If what is found has another size it is rejected.
   */
  lemma MerkleReadBack(h: HashFunction, keyOf: Digest -> T.Key, want: Digest, cfg: Config, st: C.Contents,
                       calls: seq<C.Call>, turns: seq<Turn>)
    requires Fresh(cfg, C.Initial(st)) && C.ServesAll(cfg, st, calls) && C.AllMerkle(h, keyOf, calls)
    requires Alone(turns) && |turns| > want.size && forall i | 0 <= i < |turns| :: 0 < turns[i].buffer
    requires NoCollision(h, keyOf, want, calls)
    requires var y := C.AfterAll(cfg, C.Initial(st), calls);
             var found := Lookup(cfg, y, keyOf(want));
             found.Some? && !IsBlank(keyOf(want), found.value)
    ensures var y := C.AfterAll(cfg, C.Initial(st), calls);
            var at := Lookup(cfg, y, keyOf(want)).value;
            var result := MerkleGet(h, keyOf, want, cfg, y, turns, []).result;
            if at.length != want.size then result == Rejected
            else exists call :: call in calls && call.Put? &&
                   C.Provides(call, keyOf(want), want.size, Concat(call.r.chunks)) &&
                   (NoneCrosses(cfg.Size(), at.offset, call.r.chunks) ==>
                      result == Delivered(Concat(call.r.chunks)) && Matches(h, want, Concat(call.r.chunks)))
  {
    hide Lookup, C.AfterAll, C.ServesAll, Holds, C.MerklePut, Matches, NoneCrosses, Fetch;
    var y, key := C.AfterAll(cfg, C.Initial(st), calls), keyOf(want);
    C.AfterAllIsFine(cfg, st, calls);
    var at := Lookup(cfg, y, key).value;
    if at.length == want.size {
      I.HitIsInPlace(cfg, y, key);
      var up :| up in y.uploads && I.GoodUpload(cfg, y, up, key, at);
      var call :| call in calls && C.Makes(cfg, call, up);
      MadeForWant(h, keyOf, want, calls, call);
      if !up.crossed {
        StaysInPlaceAlone(cfg, Queried(cfg, y, key), Download(key, at, []), up.received, turns);
        MerkleGetDecides(h, keyOf, want, cfg, y, turns, [], up.received);
      }
    }
  }

  lemma MadeForWant(h: HashFunction, keyOf: Digest -> T.Key, want: Digest, calls: seq<C.Call>, call: C.Call)
    requires C.AllMerkle(h, keyOf, calls) && NoCollision(h, keyOf, want, calls) && call in calls && call.Put?
    requires C.Provides(call, keyOf(want), want.size, Concat(call.r.chunks))
    ensures Matches(h, want, Concat(call.r.chunks))
  {
    hide C.MerklePut, Matches;
    var other, size, r, fault :| C.MerklePut(h, keyOf, other, size, r, fault) == Some(call);
    C.MerklePutDelivers(h, keyOf, other, size, r, fault);
    C.MerklePutIsFor(h, keyOf, other, size, r, fault);
    assert Stores(h, keyOf, other, call);
  }

  // ---------------------------------------------------------------------------------------------
  // The adapter
  // ---------------------------------------------------------------------------------------------

  /** What Get returns: the validating reader above the one of the data store. */
  class BlobReader {
    const backend: CB.CircularBlobAccess
    const key: T.Key
    const reader: FileDataStoreReader
    const checker: ChecksumValidatingReader

    ghost predicate Valid()
      reads backend.Repr()
    {
      backend.Valid() && reader.ds == backend.dataStore
    }

    constructor (backend: CB.CircularBlobAccess, key: T.Key, reader: FileDataStoreReader,
                 checker: ChecksumValidatingReader)
      ensures this.backend == backend && this.key == key && this.reader == reader && this.checker == checker
    {
      this.backend, this.key, this.reader, this.checker := backend, key, reader, checker;
    }

    method Read(buffer: nat) returns (result: ReadResult)
      requires Valid()
      modifies reader, checker, backend.Repr()
      ensures backend.offsetStore.Valid()
      ensures var was := old(backend.Value());
              var inner := ReadChunk(was.file, backend.Cfg().Size(), old(reader.Value()), buffer);
              var r := CheckRead(checker.hash, checker.expected, old(checker.Value()), inner);
              result == r.result && checker.Value() == r.checker &&
              reader.Value() ==
                (if inner.Data? then Advance(old(reader.Value()), |inner.bytes|) else old(reader.Value())) &&
              backend.Value() == if result.Failed? then C.DeleteBlob(backend.Cfg(), was, key) else was
    {
      hide ReadChunk, C.DeleteBlob, Advance;
      var inner := reader.Read(buffer);
      result := checker.Read(inner);
      if result.Failed? {
        backend.Delete(key);
      }
    }
  }

  class MerkleBlobAccess {
    const backend: CB.CircularBlobAccess
    const hash: HashFunction
    const keyOf: Digest -> T.Key

    constructor (backend: CB.CircularBlobAccess, hash: HashFunction, keyOf: Digest -> T.Key)
      ensures this.backend == backend && this.hash == hash && this.keyOf == keyOf
    {
      this.backend, this.hash, this.keyOf := backend, hash, keyOf;
    }

    /** A reader, or an error; a blob of another size than that of the digest is deleted. */
    method Get(want: Digest) returns (r: Option<BlobReader>)
      requires backend.Valid()
      modifies backend.Repr()
      ensures backend.offsetStore.Valid()
      ensures var was := old(backend.Value());
              var found := C.LocateBlob(backend.Cfg(), was, keyOf(want));
              var located := C.AfterLocate(backend.Cfg(), was, keyOf(want));
              if found.None? then r.None? && backend.Value() == located
              else if found.value.length != want.size then
                r.None? && backend.Value() == C.DeleteBlob(backend.Cfg(), located, keyOf(want))
              else
                r.Some? && fresh(r.value) && r.value.Valid() && backend.Value() == located &&
                r.value.backend == backend && r.value.key == keyOf(want) &&
                r.value.reader.Value() == Reader(found.value.offset, want.size) &&
                r.value.checker.hash == hash && r.value.checker.expected == want &&
                r.value.checker.Value() == Start(want)
    {
      hide C.LocateBlob, C.AfterLocate, C.DeleteBlob;
      var length, reader := backend.Get(keyOf(want));
      if reader.None? {
        return None;
      }
      if length != want.size {
        backend.Delete(keyOf(want));
        return None;
      }
      WrapIsIdentity(length);
      var checker := new ChecksumValidatingReader(hash, want);
      var blobReader := new BlobReader(backend, keyOf(want), reader.value, checker);
      return Some(blobReader);
    }

    method Put(want: Digest, size: int64, r: Source, fault: Option<Fault>) returns (status: Option<C.PutStatus>)
      requires backend.Valid()
      modifies backend.Repr()
      ensures backend.Valid()
      ensures var call := C.MerklePut(hash, keyOf, want, size, r, fault);
              if call.None? then status.None? && backend.Value() == old(backend.Value())
              else status.Some? && C.PutOutcome(backend.Value(), status.value) ==
                     C.PutBlob(backend.Cfg(), old(backend.Value()), call.value.key, call.value.size, call.value.r)
    {
      hide C.PutBlob, Validate, Reaching;
      if want.size != size {
        return None;
      }
      var done := backend.Put(keyOf(want), size, Validate(hash, want, Start(want), r).source, fault);
      status := Some(done);
    }
  }
}
