/**
 * Batched uploads (batched_store_blob_access.go): Put() only notes what is to be stored; a flush
 * asks the backend what it lacks, hands that over, and closes the readers of the rest. Readers are
 * known by number, blobs by their key.
 */
module BatchedStore {
  import opened Arithmetic
  import opened Wrappers

  type Key = nat
  type Reader = nat

  /** Any truthful store that may fail at any time, but does not lose what it has. */
  class Backend {
    var present: set<Key>
    /** How many of its calls have failed. */
    ghost var failures: nat

    constructor ()
      ensures present == {} && failures == 0
    {
      present, failures := {}, 0;
    }

    method FindMissing(keys: set<Key>) returns (missing: Option<seq<Key>>)
      modifies this`failures
      ensures missing.Some? ==> forall k :: k in missing.value <==> k in keys && k !in present
      ensures missing.Some? ==> forall i, j | 0 <= i < j < |missing.value| :: missing.value[i] != missing.value[j]
      ensures failures == old(failures) + if missing.Some? then 0 else 1
    {
      var fails: bool := *;
      if fails {
        failures := failures + 1;
        return None;
      }
      var rest, found := keys, [];
      while rest != {}
        invariant rest <= keys
        invariant forall k :: k in found <==> k in keys && k !in rest && k !in present
        invariant forall i, j | 0 <= i < j < |found| :: found[i] != found[j]
        decreases rest
      {
        var k :| k in rest;
        rest := rest - {k};
        if k !in present {
          found := found + [k];
        }
      }
      missing := Some(found);
    }

    /** The reader is the backend's to close, also when it fails. */
    method Put(key: Key, r: Reader) returns (ok: bool)
      modifies this
      ensures present == if ok then old(present) + {key} else old(present)
      ensures failures == old(failures) + if ok then 0 else 1
    {
      ok := *;
      if ok {
        present := present + {key};
      } else {
        failures := failures + 1;
      }
    }
  }

  /** Where a reader is: pending under a key, in the hands of the backend, or closed. */
  datatype Place = PendingAs(key: Key) | Handed | Closed

  /** Every reader is in exactly one place, and the pending ones are those in the map. */
  ghost predicate Placed(pending: map<Key, Reader>, places: map<Reader, Place>) {
    (forall k | k in pending :: pending[k] in places && places[pending[k]] == PendingAs(k)) &&
    (forall r | r in places && places[r].PendingAs? :: places[r].key in pending && pending[places[r].key] == r)
  }

  /** What was accepted is stored, pending, or was lost to the backend and reported since. */
  ghost predicate Accounted(accepted: set<Key>, present: set<Key>, pending: map<Key, Reader>, failed: set<Key>) {
    (forall k | k in accepted :: k in present || k in pending || k in failed) &&
    (forall k | k in pending :: k !in failed)
  }

  /** Readers that were not pending stay where they are; pending ones may be handed over or closed. */
  ghost predicate Settles(was: map<Reader, Place>, places: map<Reader, Place>) {
    was.Keys == places.Keys &&
    forall r | r in was :: places[r] == was[r] || (was[r].PendingAs? && !places[r].PendingAs?)
  }

  /** Of the readers that were pending, only those of these blobs have gone to the backend. */
  ghost predicate HandsOverOnly(was: map<Reader, Place>, places: map<Reader, Place>, keys: set<Key>) {
    forall r | r in was && r in places && was[r].PendingAs? && places[r] == Handed :: was[r].key in keys
  }

  /** The readers from i on are different, and none of these. */
  ghost predicate AllNew(blobs: seq<(Key, Reader)>, i: nat, known: set<Reader>) {
    (forall k | i <= k < |blobs| :: blobs[k].1 !in known) &&
    (forall j, k | i <= j < k < |blobs| :: blobs[j].1 != blobs[k].1)
  }

  ghost function Readers(blobs: seq<(Key, Reader)>, n: nat): (r: set<Reader>)
    requires n <= |blobs|
    ensures n == 0 ==> r == {}
  {
    set i | 0 <= i < n :: blobs[i].1
  }

  /** What was pending, and the first blobs, are pending or stored. */
  ghost predicate Arrived(blobs: seq<(Key, Reader)>, n: nat, had: set<Key>, pending: map<Key, Reader>,
                          present: set<Key>)
    requires n <= |blobs|
  {
    (forall k | k in had :: k in pending || k in present) &&
    forall i | 0 <= i < n :: blobs[i].0 in pending || blobs[i].0 in present
  }

  ghost predicate AllClose(blobs: seq<(Key, Reader)>, closes: Reader -> bool) {
    forall i | 0 <= i < |blobs| :: closes(blobs[i].1)
  }

  class BatchedStoreBlobAccess {
    const backend: Backend
    const batchSize: int
    var pending: map<Key, Reader>

    /** The readers passed in so far. */
    ghost var places: map<Reader, Place>

    /** Keys that were put without an error, and those that the backend failed to store and that were not put again. */
    ghost var accepted: set<Key>
    ghost var failed: set<Key>

    ghost predicate Valid()
      reads this, backend
    {
      Placed(pending, places) && Accounted(accepted, backend.present, pending, failed) &&
      |pending| <= Max(1, batchSize)
    }

    constructor (backend: Backend, batchSize: int)
      ensures Valid() && this.backend == backend && this.batchSize == batchSize
      ensures pending == map[] && places == map[] && accepted == {} && failed == {}
    {
      this.backend, this.batchSize := backend, batchSize;
      pending, places, accepted, failed := map[], map[], {}, {};
    }

    /** One pending blob goes to the backend. */
    method HandOver(key: Key) returns (ok: bool)
      requires Valid() && key in pending
      modifies this`pending, this`places, this`failed, backend
      ensures Valid() && Settles(old(places), places) && places[old(pending)[key]] == Handed
      ensures pending == old(pending) - {key}
      ensures backend.present == if ok then old(backend.present) + {key} else old(backend.present)
      ensures failed == if ok then old(failed) else old(failed) + {key}
      ensures backend.failures == old(backend.failures) + if ok then 0 else 1
      ensures var r := old(pending)[key];
              r in old(places) && old(places)[r] == PendingAs(key) && places == old(places)[r := Handed]
    {
      var r := pending[key];
      MapSize(pending, key);
      pending := pending - {key};
      places := places[r := Handed];
      ok := backend.Put(key, r);
      if !ok {
        failed := failed + {key};
      }
    }

    /** Uploads the missing ones, until one fails. */
    method StoreMissing(missing: seq<Key>) returns (ok: bool)
      requires Valid() && forall k | k in missing :: k in pending
      modifies this`pending, this`places, this`failed, backend
      ensures Valid() && Settles(old(places), places)
      ensures old(backend.present) <= backend.present && pending.Keys <= old(pending).Keys
      ensures ok ==> failed == old(failed) && forall k | k in missing :: k in backend.present
      ensures ok || exists k :: failed == old(failed) + {k}
      ensures forall k | k in old(pending) :: k in pending || k in backend.present || k in failed
      ensures backend.failures == old(backend.failures) + if ok then 0 else 1
      ensures HandsOverOnly(old(places), places, set k | k in missing)
    {
      hide Placed, Accounted, Settles, HandsOverOnly;
      SettlesSame(places);
      HandsOverNone(places, set k | k in missing);
      for i := 0 to |missing|
        invariant Valid() && failed == old(failed) && Settles(old(places), places)
        invariant old(backend.present) <= backend.present && pending.Keys <= old(pending).Keys
        invariant forall k | k in missing[..i] :: k in backend.present
        invariant forall k | k in old(pending) :: k in pending || k in backend.present
        invariant backend.failures == old(backend.failures) && HandsOverOnly(old(places), places, set k | k in missing)
      {
        var key := missing[i];
        assert missing[..i + 1] == missing[..i] + [key];
        if key in pending {
          ghost var before := places;
          ghost var r := pending[key];
          var stored := HandOver(key);
          HandsOverOneMore(old(places), before, r, key, set k | k in missing);
          SettlesTransitive(old(places), before, places);
          if !stored {
            return false;
          }
        }
      }
      assert missing[..|missing|] == missing;
      ok := true;
    }

    lemma HandsOverNone(places: map<Reader, Place>, keys: set<Key>)
      ensures HandsOverOnly(places, places, keys)
    {
    }

    lemma HandsOverOneMore(was: map<Reader, Place>, before: map<Reader, Place>, r: Reader, key: Key, keys: set<Key>)
      requires HandsOverOnly(was, before, keys) && Settles(was, before) && key in keys
      requires r in before && before[r] == PendingAs(key)
      ensures HandsOverOnly(was, before[r := Handed], keys)
    {
    }

    /** Closing is not handing over. */
    lemma HandsOverNoMore(was: map<Reader, Place>, before: map<Reader, Place>, places: map<Reader, Place>,
                          keys: set<Key>, all: set<Key>)
      requires HandsOverOnly(was, before, keys) && keys <= all
      requires forall r | r in places && places[r] == Handed :: r in before && before[r] == Handed
      ensures HandsOverOnly(was, places, all)
    {
    }

    /** Closes the others. */
    method Discard()
      requires Valid() && pending.Keys <= backend.present
      modifies this`pending, this`places
      ensures Valid() && Settles(old(places), places) && pending == map[]
      ensures forall r | r in places && places[r] == Handed :: r in old(places) && old(places)[r] == Handed
    {
      places := map r | r in places :: if places[r].PendingAs? then Closed else places[r];
      pending := map[];
    }

    /**
     * A flush fails exactly if a call to the backend does. Without error nothing is pending afterwards, and
     * all that was is stored. One that fails loses at most one blob, and all others are still pending or
     * stored. Either way only blobs that the backend did not have are handed over to it.
     */
    method FlushLocked() returns (ok: bool)
      requires Valid()
      modifies this`pending, this`places, this`failed, backend
      ensures Valid() && Settles(old(places), places)
      ensures old(backend.present) <= backend.present && pending.Keys <= old(pending).Keys
      ensures ok ==> pending == map[] && failed == old(failed) && old(pending).Keys <= backend.present
      ensures failed == old(failed) || exists k :: failed == old(failed) + {k}
      ensures forall k | k in old(pending) :: k in pending || k in backend.present || k in failed
      ensures backend.failures == old(backend.failures) + if ok then 0 else 1
      ensures HandsOverOnly(old(places), places, old(pending).Keys - old(backend.present))
    {
      hide Placed, Accounted, Settles, HandsOverOnly;
      SettlesSame(places);
      ghost var absent := pending.Keys - backend.present;
      HandsOverNone(places, absent);
      var missing := backend.FindMissing(pending.Keys);
      if missing.None? {
        return false;
      }
      ghost var asked := set k | k in missing.value;
      ok := StoreMissing(missing.value);
      HandsOverNoMore(old(places), places, places, asked, absent);
      if ok {
        ghost var before := places;
        Discard();
        SettlesTransitive(old(places), before, places);
        HandsOverNoMore(old(places), before, places, asked, absent);
      }
    }

    /** A blob that is already pending is not noted again. `closes` tells whether closing its reader goes well. */
    method Add(key: Key, r: Reader, closes: bool) returns (ok: bool)
      requires Valid() && |pending| + 1 <= Max(1, batchSize) && r !in places
      modifies this
      ensures Valid() && pending == if key in old(pending) then old(pending) else old(pending)[key := r]
      ensures places == old(places)[r := if key in old(pending) then Closed else PendingAs(key)]
      ensures ok <==> closes || key !in old(pending)
      ensures accepted == if ok then old(accepted) + {key} else old(accepted)
      ensures failed == old(failed) - {key}
    {
      hide Placed;
      if key in pending {
        Close(r);
        if closes {
          accepted := accepted + {key};
        }
        return closes;
      }
      Note(key, r);
      ok := true;
    }

    /** What a Put leaves of the readers that were there, once those were flushed and the new one has its place. */
    lemma PutSettles(was: map<Reader, Place>, before: map<Reader, Place>, r: Reader, place: Place, keys: set<Key>)
      requires r !in was && Settles(was, before) && HandsOverOnly(was, before, keys) && place != Handed
      ensures before[r := place].Keys == was.Keys + {r} && Settles(was, before[r := place] - {r})
      ensures HandsOverOnly(was, before[r := place], keys)
    {
      assert before[r := place] - {r} == before;
    }

    /**
     * Below the batch size the backend is not asked. At it, everything is flushed first. An error is only
     * reported if the backend or the closing of a reader fails.
     */
    method Put(key: Key, r: Reader, closes: bool) returns (ok: bool)
      requires Valid() && r !in places
      modifies this, backend
      ensures Valid() && places.Keys == old(places).Keys + {r} && Settles(old(places), places - {r})
      ensures r in places && (places[r] == Closed || (ok && places[r] == PendingAs(key)))
      ensures old(backend.present) <= backend.present
      ensures accepted == if ok then old(accepted) + {key} else old(accepted)
      ensures ok ==> failed == old(failed) - {key} && key in pending
      ensures ok ==> forall k | k in old(pending) :: k in pending || k in backend.present
      ensures backend.failures == old(backend.failures) || (backend.failures == old(backend.failures) + 1 && !ok)
      ensures backend.failures == old(backend.failures) && (closes || key !in old(pending)) ==> ok
      ensures HandsOverOnly(old(places), places, old(pending).Keys - old(backend.present))
      ensures |old(pending)| < batchSize ==>
                backend.present == old(backend.present) && backend.failures == old(backend.failures) &&
                pending == if key in old(pending) then old(pending) else old(pending)[key := r]
    {
      hide Placed, Settles, HandsOverOnly, Accounted;
      ghost var absent := pending.Keys - backend.present;
      SettlesSame(places);
      HandsOverNone(places, absent);
      if |pending| >= batchSize {
        ok := FlushLocked();
        SettlesKeys(old(places), places);
        if !ok {
          PutSettles(old(places), places, r, Closed, absent);
          Close(r);
          return;
        }
      }
      PutSettles(old(places), places, r, if key in pending then Closed else PendingAs(key), absent);
      ok := Add(key, r, closes);
    }

    lemma SettlesSame(places: map<Reader, Place>)
      ensures Settles(places, places)
    {
    }

    lemma SettlesTransitive(first: map<Reader, Place>, second: map<Reader, Place>, third: map<Reader, Place>)
      requires Settles(first, second) && Settles(second, third)
      ensures Settles(first, third)
    {
    }

    lemma SettlesKeys(was: map<Reader, Place>, places: map<Reader, Place>)
      requires Settles(was, places)
      ensures was.Keys == places.Keys
    {
    }

    /** The reader that was just passed in is closed. */
    ghost method Close(r: Reader)
      requires Placed(pending, places) && r !in places
      modifies this`places
      ensures Placed(pending, places) && places == old(places)[r := Closed] && places - {r} == old(places)
    {
      places := places[r := Closed];
    }

    /** A new pending blob. */
    method Note(key: Key, r: Reader)
      requires Placed(pending, places) && Accounted(accepted, backend.present, pending, failed)
      requires |pending| + 1 <= Max(1, batchSize) && key !in pending && r !in places
      modifies this`pending, this`places, this`accepted, this`failed
      ensures Valid() && key in pending && accepted == old(accepted) + {key}
      ensures places == old(places)[r := PendingAs(key)] && places - {r} == old(places)
      ensures pending == old(pending)[key := r] && failed == old(failed) - {key}
    {
      PlacedOneMore(pending, places, key, r);
      hide Placed;
      pending := pending[key := r];
      places := places[r := PendingAs(key)];
      accepted, failed := accepted + {key}, failed - {key};
    }

    lemma PlacedOneMore(pending: map<Key, Reader>, places: map<Reader, Place>, key: Key, r: Reader)
      requires Placed(pending, places) && key !in pending && r !in places
      ensures Placed(pending[key := r], places[r := PendingAs(key)])
    {
    }

    /** One blob of several. */
    method PutNext(blobs: seq<(Key, Reader)>, i: nat, closes: Reader -> bool, ghost had: set<Key>) returns (ok: bool)
      requires Valid() && i < |blobs| && AllNew(blobs, i, places.Keys)
      modifies this, backend
      ensures Valid() && old(backend.present) <= backend.present
      ensures AllNew(blobs, i + 1, places.Keys) && places.Keys == old(places).Keys + {blobs[i].1}
      ensures ok && Arrived(blobs, i, had, old(pending), old(backend.present)) ==>
                Arrived(blobs, i + 1, had, pending, backend.present)
      ensures backend.failures == old(backend.failures) && AllClose(blobs, closes) ==> ok
      ensures old(backend.failures) <= backend.failures && (ok ==> backend.failures == old(backend.failures))
    {
      hide Placed, Settles, Accounted, HandsOverOnly, AllClose, AllNew, Arrived;
      NewAt(blobs, i, places.Keys);
      ok := Put(blobs[i].0, blobs[i].1, closes(blobs[i].1));
      AllCloseAt(blobs, closes, i);
      if ok && Arrived(blobs, i, had, old(pending), old(backend.present)) {
        ArrivedNext(blobs, i, had, old(pending), old(backend.present), pending, backend.present);
      }
    }

    /** Blobs are put one after the other, whatever the results; `ok` tells whether none reported an error. */
    method PutAll(blobs: seq<(Key, Reader)>, closes: Reader -> bool) returns (ok: bool)
      requires Valid() && AllNew(blobs, 0, places.Keys)
      modifies this, backend
      ensures Valid() && old(backend.present) <= backend.present
      ensures places.Keys == old(places).Keys + Readers(blobs, |blobs|)
      ensures ok ==> Arrived(blobs, |blobs|, old(pending).Keys, pending, backend.present)
      ensures backend.failures == old(backend.failures) && AllClose(blobs, closes) ==> ok
      ensures old(backend.failures) <= backend.failures && (ok ==> backend.failures == old(backend.failures))
    {
      hide Placed, Settles, Accounted, HandsOverOnly, AllClose, AllNew, Readers, Arrived;
      ghost var known, had := places.Keys, pending.Keys;
      ArrivedNone(blobs, pending, backend.present);
      ok := true;
      assert known + Readers(blobs, 0) == known;
      for i := 0 to |blobs|
        invariant Valid() && old(backend.present) <= backend.present && AllNew(blobs, i, places.Keys)
        invariant places.Keys == known + Readers(blobs, i)
        invariant ok ==> Arrived(blobs, i, had, pending, backend.present)
        invariant old(backend.failures) <= backend.failures && (ok ==> backend.failures == old(backend.failures))
        invariant backend.failures == old(backend.failures) && AllClose(blobs, closes) ==> ok
      {
        ReadersNext(blobs, i, known);
        var done := PutNext(blobs, i, closes, had);
        ok := ok && done;
      }
    }

    /**
     * An upload phase: all blobs are put, and there is one final flush. If no call reported an error then
     * every blob is in the backend, with all that earlier phases had left behind, and no reader is pending
     * any more; whatever went wrong before. An error is only reported if the backend or the closing of a
     * reader has failed.
     */
    method StoreAll(blobs: seq<(Key, Reader)>, closes: Reader -> bool) returns (ok: bool)
      requires Valid() && AllNew(blobs, 0, places.Keys)
      modifies this, backend
      ensures Valid() && old(backend.present) <= backend.present
      ensures places.Keys == old(places).Keys + Readers(blobs, |blobs|)
      ensures ok ==> pending == map[] && old(pending).Keys <= backend.present
      ensures ok ==> forall i | 0 <= i < |blobs| :: blobs[i].0 in backend.present
      ensures ok ==> forall r | r in places :: !places[r].PendingAs?
      ensures backend.failures == old(backend.failures) && AllClose(blobs, closes) ==> ok
      ensures old(backend.failures) <= backend.failures && (ok ==> backend.failures == old(backend.failures))
    {
      hide Placed, Settles, Accounted, HandsOverOnly, AllClose, AllNew, Readers;
      ok := PutAll(blobs, closes);
      ghost var before := places;
      var flushed := FlushLocked();
      SettlesKeys(before, places);
      ok := ok && flushed;
      if ok {
        NonePending(places);
      }
    }

    lemma ArrivedNone(blobs: seq<(Key, Reader)>, pending: map<Key, Reader>, present: set<Key>)
      ensures Arrived(blobs, 0, pending.Keys, pending, present)
    {
    }

    lemma ArrivedNext(blobs: seq<(Key, Reader)>, i: nat, had: set<Key>, noted: map<Key, Reader>, present: set<Key>,
                      noted': map<Key, Reader>, present': set<Key>)
      requires i < |blobs| && Arrived(blobs, i, had, noted, present) && present <= present'
      requires blobs[i].0 in noted' && forall k | k in noted :: k in noted' || k in present'
      ensures Arrived(blobs, i + 1, had, noted', present')
    {
    }

    lemma NewAt(blobs: seq<(Key, Reader)>, i: nat, known: set<Reader>)
      requires i < |blobs| && AllNew(blobs, i, known)
      ensures blobs[i].1 !in known && AllNew(blobs, i + 1, known + {blobs[i].1})
    {
    }

    lemma ReadersNext(blobs: seq<(Key, Reader)>, i: nat, known: set<Reader>)
      requires i < |blobs|
      ensures known + Readers(blobs, i + 1) == known + Readers(blobs, i) + {blobs[i].1}
    {
    }

    lemma AllCloseAt(blobs: seq<(Key, Reader)>, closes: Reader -> bool, i: nat)
      requires i < |blobs|
      ensures AllClose(blobs, closes) ==> closes(blobs[i].1)
    {
    }

    lemma NonePending(places: map<Reader, Place>)
      requires Placed(map[], places)
      ensures forall r | r in places :: !places[r].PendingAs?
    {
    }

    /**
     * The life of a writer: one phase after the other, whatever came of those before. At its end the
     * backend has every blob of every phase that reported no error.
     */
    method Serve(phases: seq<seq<(Key, Reader)>>, closes: Reader -> bool) returns (oks: seq<bool>)
      requires Valid() && forall p, i | 0 <= p < |phases| && 0 <= i < |phases[p]| :: phases[p][i].1 !in places
      requires forall p, i, j | 0 <= p < |phases| && 0 <= i < j < |phases[p]| :: phases[p][i].1 != phases[p][j].1
      requires forall p, i, q, j | 0 <= p < q < |phases| && 0 <= i < |phases[p]| && 0 <= j < |phases[q]| ::
                 phases[p][i].1 != phases[q][j].1
      modifies this, backend
      ensures Valid() && |oks| == |phases|
      ensures forall p, i | 0 <= p < |phases| && oks[p] && 0 <= i < |phases[p]| :: phases[p][i].0 in backend.present
      ensures backend.failures == old(backend.failures) ==>
                (forall p | 0 <= p < |phases| :: AllClose(phases[p], closes)) ==> forall p | 0 <= p < |phases| :: oks[p]
    {
      hide Placed, Settles, Accounted, AllClose;
      oks := [];
      for p := 0 to |phases|
        invariant Valid() && |oks| == p
        invariant forall q, i | p <= q < |phases| && 0 <= i < |phases[q]| :: phases[q][i].1 !in places
        invariant forall q, i | 0 <= q < p && oks[q] && 0 <= i < |phases[q]| :: phases[q][i].0 in backend.present
        invariant old(backend.failures) <= backend.failures
        invariant backend.failures == old(backend.failures) ==>
                    (forall q | 0 <= q < p :: AllClose(phases[q], closes)) ==> forall q | 0 <= q < p :: oks[q]
      {
        var ok := StoreAll(phases[p], closes);
        oks := oks + [ok];
      }
    }
  }

  lemma MapSize(m: map<Key, Reader>, key: Key)
    requires key in m
    ensures |m - {key}| == |m| - 1
  {
    assert m == (m - {key})[key := m[key]];
  }
}
