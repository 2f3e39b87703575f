/**
 * The two caches of a worker that evict at random: files on disk
 * (hardlinking_content_addressable_storage.go) and directory messages in memory
 * (directory_caching_content_addressable_storage.go). Each method is one section that runs under
 * the lock; the base store is asked between sections, without it.
 */
module EvictionCaches {
  import opened Arithmetic
  import opened Wrappers

  type Key = string

  /** The name of a cached file. */
  function FileKey(digestKey: string, executable: bool): Key {
    digestKey + (if executable then "+x" else "-x")
  }

  /** Files are shared only between requests for the same digest and the same executable bit. */
  lemma FileKeyIsInjective(d1: string, x1: bool, d2: string, x2: bool)
    ensures FileKey(d1, x1) == FileKey(d2, x2) <==> d1 == d2 && x1 == x2
  {
    var k1, k2 := FileKey(d1, x1), FileKey(d2, x2);
    if k1 == k2 {
      assert k1[|k1| - 2] == k2[|k2| - 2];
      assert k1[..|k1| - 2] == d1 && k2[..|k2| - 2] == d2;
    }
  }

  // ---------------------------------------------------------------------------------------------
  // Lists without duplicates
  // ---------------------------------------------------------------------------------------------

  predicate NoDuplicates(list: seq<Key>) {
    forall i, j | 0 <= i < j < |list| :: list[i] != list[j]
  }

  /** The list holds exactly these keys, each once. */
  predicate Enumerates(list: seq<Key>, keys: set<Key>) {
    NoDuplicates(list) && (forall k | k in list :: k in keys) && (forall k | k in keys :: k in list)
  }

  /** The last element takes the place of the one that goes. */
  function RemoveAt(list: seq<Key>, idx: nat): seq<Key>
    requires idx < |list|
  {
    list[idx := list[|list| - 1]][..|list| - 1]
  }

  lemma RemoveAtEnumerates(list: seq<Key>, keys: set<Key>, idx: nat)
    requires Enumerates(list, keys) && idx < |list|
    ensures Enumerates(RemoveAt(list, idx), keys - {list[idx]})
  {
    var r := RemoveAt(list, idx);
    forall k | k in keys - {list[idx]} ensures k in r {
      var i :| 0 <= i < |list| && list[i] == k;
      if i == |list| - 1 {
        assert r[idx] == k;
      } else {
        assert r[i] == k;
      }
    }
  }

  /** The elements at these indices go, one after the other. */
  function RemoveAll(list: seq<Key>, choices: seq<nat>): seq<Key> {
    if choices == [] then list
    else
      var rest, idx := RemoveAll(list, choices[..|choices| - 1]), choices[|choices| - 1];
      if idx < |rest| then RemoveAt(rest, idx) else rest
  }

  lemma EnumeratesElement(list: seq<Key>, keys: set<Key>, idx: nat)
    requires Enumerates(list, keys) && idx < |list|
    ensures list[idx] in keys
  {
  }

  lemma EnumeratesAppend(list: seq<Key>, keys: set<Key>, key: Key)
    requires Enumerates(list, keys) && key !in keys
    ensures Enumerates(list + [key], keys + {key})
  {
  }

  /** The sum of the sizes of the listed files. */
  function Sum(size: Key -> nat, list: seq<Key>): nat {
    if list == [] then 0 else Sum(size, list[..|list| - 1]) + size(list[|list| - 1])
  }

  lemma {:induction false} SumUpdate(size: Key -> nat, list: seq<Key>, i: nat, k: Key)
    requires i < |list|
    ensures Sum(size, list[i := k]) == Sum(size, list) - size(list[i]) + size(k)
    decreases |list|
  {
    var n := |list| - 1;
    if i < n {
      assert list[i := k][..n] == list[..n][i := k];
      SumUpdate(size, list[..n], i, k);
    } else {
      assert list[i := k][..n] == list[..n];
    }
  }

  lemma SumAppend(size: Key -> nat, list: seq<Key>, key: Key)
    ensures Sum(size, list + [key]) == Sum(size, list) + size(key)
  {
    assert (list + [key])[..|list|] == list;
  }

  lemma SumRemoveAt(size: Key -> nat, list: seq<Key>, idx: nat)
    requires idx < |list|
    ensures Sum(size, RemoveAt(list, idx)) == Sum(size, list) - size(list[idx])
  {
    var last := list[|list| - 1];
    SumUpdate(size, list, idx, last);
    var u := list[idx := last];
    assert u[|u| - 1] == last;
  }

  // ---------------------------------------------------------------------------------------------
  // Files
  // ---------------------------------------------------------------------------------------------

  type Content = seq<int>

  /** What a section does. Insert comes after the file was fetched from the base store. */
  datatype Section = Lookup(key: Key) | Insert(key: Key)

  /** All these keys were there before, or were inserted by one of the sections. */
  predicate ComeFrom(keys: set<Key>, before: set<Key>, sections: seq<Section>) {
    forall k | k in keys :: k in before || Insert(k) in sections
  }

  lemma ComeFromOne(keys: set<Key>, before: set<Key>, sections: seq<Section>, key: Key)
    requires ComeFrom(keys, before, sections)
    ensures key in keys ==> ComeFrom({key}, before, sections)
  {
  }

  lemma ComeFromNext(keys: set<Key>, before: set<Key>, sections: seq<Section>, section: Section, after: set<Key>)
    requires ComeFrom(keys, before, sections)
    requires if section.Insert? then after <= keys + {section.key} else after == keys
    ensures ComeFrom(after, before, sections + [section])
  {
  }

  /** Every hit answers a lookup as the base store would, for a key that had come to be in the cache. */
  predicate HitsAgree<T(==)>(hits: seq<Option<T>>, sections: seq<Section>, before: set<Key>, base: Key -> T) {
    |hits| == |sections| &&
    forall i | 0 <= i < |hits| && hits[i].Some? ::
      sections[i].Lookup? && hits[i].value == base(sections[i].key) &&
      ComeFrom({sections[i].key}, before, sections[..i])
  }

  /** What one section shows to be in the cache when it ends: an insertion, or a lookup that hits. */
  predicate Shows<T>(section: Section, hit: Option<T>, key: Key) {
    section == Insert(key) || (section == Lookup(key) && hit.Some?)
  }

  /** Between this section and the later one, nothing else was inserted. */
  predicate Undisturbed(sections: seq<Section>, i: nat, j: nat)
    requires i < j <= |sections|
  {
    forall m | i < m < j && sections[m].Insert? :: sections[m].key == sections[i].key
  }

  /**
   * What was once shown to be in the cache only goes when something else is inserted: it is still there if
   * nothing else was, and until then every lookup hits.
   */
  ghost predicate Stays<T>(sections: seq<Section>, hits: seq<Option<T>>, keys: set<Key>) {
    var n := |sections|;
    |hits| == n &&
    forall i | 0 <= i < n && Shows(sections[i], hits[i], sections[i].key) ::
      (Undisturbed(sections, i, n) ==> sections[i].key in keys) &&
      forall j | i < j < n && Undisturbed(sections, i, j) && sections[j] == Lookup(sections[i].key) :: hits[j].Some?
  }

  /** A lookup changes nothing. An insertion puts its own key there, and changes nothing if it was. */
  lemma StaysNext<T>(sections: seq<Section>, hits: seq<Option<T>>, keys: set<Key>, section: Section,
                     hit: Option<T>, after: set<Key>)
    requires Stays(sections, hits, keys)
    requires section.Lookup? ==> after == keys && (hit.Some? <==> section.key in keys)
    requires section.Insert? ==> section.key in after && (section.key in keys ==> after == keys)
    ensures Stays(sections + [section], hits + [hit], after)
  {
    var n, longer, more := |sections|, sections + [section], hits + [hit];
    forall i | 0 <= i < n
      ensures longer[i] == sections[i] && more[i] == hits[i]
      ensures Undisturbed(longer, i, n + 1) ==>
                Undisturbed(sections, i, n) && (section.Insert? ==> section.key == sections[i].key)
    {
      assert longer[n] == section;
      assert forall m | 0 <= m < n :: longer[m] == sections[m];
    }
    forall i, j | 0 <= i < j <= n ensures Undisturbed(longer, i, j) ==> Undisturbed(sections, i, j) {
      assert forall m | 0 <= m < n :: longer[m] == sections[m];
    }
  }

  lemma HitsAgreeNext<T>(hits: seq<Option<T>>, sections: seq<Section>, before: set<Key>, base: Key -> T,
                         hit: Option<T>, section: Section)
    requires HitsAgree(hits, sections, before, base)
    requires hit.Some? ==>
               section.Lookup? && hit.value == base(section.key) && ComeFrom({section.key}, before, sections)
    ensures HitsAgree(hits + [hit], sections + [section], before, base)
  {
    forall i | 0 <= i <= |hits| ensures (sections + [section])[..i] == sections[..i] {
    }
  }

  lemma NoSections<T>(keys: set<Key>, base: Key -> T)
    ensures ComeFrom(keys, keys, []) && HitsAgree([], [], keys, base) && Stays<T>([], [], keys)
  {
  }

  class HardlinkingCache {
    const maxFiles: int
    const maxSize: int
    /** What the base store has under a key, and the size its digest announces. */
    const base: Key -> Content
    const sizeOf: Key -> nat

    var cacheDirectory: map<Key, Content>
    var filesPresentList: seq<Key>
    var filesPresentSize: map<Key, nat>
    var filesPresentTotalSize: int

    /** How often removing or linking a file has failed. */
    ghost var failures: nat

    ghost predicate Consistent()
      reads this
    {
      Enumerates(filesPresentList, filesPresentSize.Keys) && cacheDirectory.Keys == filesPresentSize.Keys &&
      (forall k | k in filesPresentSize :: filesPresentSize[k] == sizeOf(k) && cacheDirectory[k] == base(k)) &&
      filesPresentTotalSize == Sum(sizeOf, filesPresentList)
    }

    /** Both limits hold, but that a single file may be larger than the cache. */
    ghost predicate Bounded()
      reads this
    {
      |filesPresentList| <= Max(1, maxFiles) &&
      (filesPresentTotalSize <= Max(0, maxSize) || |filesPresentList| == 1)
    }

    ghost predicate Valid()
      reads this
    {
      Consistent() && Bounded()
    }

    /** There is room for one more of this size, or nothing left to evict. */
    ghost predicate Fits(list: seq<Key>, size: nat) {
      list == [] || (|list| < maxFiles && Sum(sizeOf, list) + size <= maxSize)
    }

    /** Each of the evictions was needed. */
    ghost predicate Needed(list: seq<Key>, choices: seq<nat>, size: nat) {
      forall n | 0 <= n < |choices| :: !Fits(RemoveAll(list, choices[..n]), size)
    }

    constructor (maxFiles: int, maxSize: int, base: Key -> Content, sizeOf: Key -> nat)
      ensures Valid() && filesPresentList == [] && failures == 0
      ensures this.maxFiles == maxFiles && this.maxSize == maxSize && this.base == base && this.sizeOf == sizeOf
    {
      failures := 0;
      this.maxFiles, this.maxSize, this.base, this.sizeOf := maxFiles, maxSize, base, sizeOf;
      cacheDirectory, filesPresentList, filesPresentSize, filesPresentTotalSize := map[], [], map[], 0;
    }

    /** The file at this index goes, from disk and then from the bookkeeping. */
    method Evict(idx: nat)
      requires Consistent() && idx < |filesPresentList|
      modifies this
      ensures Consistent() && filesPresentList == RemoveAt(old(filesPresentList), idx)
      ensures filesPresentTotalSize <= old(filesPresentTotalSize) && failures == old(failures)
    {
      hide Enumerates, Sum;
      var key := filesPresentList[idx];
      assert key in filesPresentSize by { EnumeratesElement(filesPresentList, filesPresentSize.Keys, idx); }
      RemoveAtEnumerates(filesPresentList, filesPresentSize.Keys, idx);
      SumRemoveAt(sizeOf, filesPresentList, idx);
      cacheDirectory := cacheDirectory - {key};
      filesPresentTotalSize := filesPresentTotalSize - filesPresentSize[key];
      filesPresentSize := filesPresentSize - {key};
      var last := |filesPresentList| - 1;
      filesPresentList := filesPresentList[idx := filesPresentList[last]];
      filesPresentList := filesPresentList[..last];
    }

    /**
     * Files picked at random go, each because there was no room yet, until there is. Removing one may fail;
     * then eviction stops.
     */
    method MakeSpace(size: nat) returns (ok: bool, ghost choices: seq<nat>)
      requires Valid()
      modifies this
      ensures Valid() && filesPresentSize.Keys <= old(filesPresentSize).Keys
      ensures filesPresentList == RemoveAll(old(filesPresentList), choices)
      ensures Needed(old(filesPresentList), choices, size)
      ensures if ok then Fits(filesPresentList, size) else !Fits(filesPresentList, size)
      ensures failures == old(failures) + if ok then 0 else 1
    {
      hide Enumerates, Sum, RemoveAt, Needed;
      choices := [];
      NeededNone(filesPresentList, size);
      while |filesPresentList| > 0 && (|filesPresentList| >= maxFiles || filesPresentTotalSize + size > maxSize)
        invariant Valid() && filesPresentSize.Keys <= old(filesPresentSize).Keys && failures == old(failures)
        invariant filesPresentList == RemoveAll(old(filesPresentList), choices)
        invariant Needed(old(filesPresentList), choices, size)
        decreases |filesPresentList|
      {
        var idx: nat :| idx < |filesPresentList|;
        var removed: bool := *;
        if !removed {
          failures := failures + 1;
          return false, choices;
        }
        NeededNext(old(filesPresentList), choices, idx, size);
        EvictOne(idx);
        choices := choices + [idx];
      }
      ok := true;
    }

    /** Evicting keeps the limits, as there are at least two files or none is left. */
    method EvictOne(idx: nat)
      requires Valid() && idx < |filesPresentList|
      modifies this
      ensures Valid() && filesPresentList == RemoveAt(old(filesPresentList), idx)
      ensures |filesPresentList| == |old(filesPresentList)| - 1
      ensures filesPresentSize.Keys <= old(filesPresentSize).Keys && failures == old(failures)
    {
      hide Sum;
      Evict(idx);
      SumOfNone(sizeOf, filesPresentList);
    }

    lemma NeededNone(list: seq<Key>, size: nat)
      ensures Needed(list, [], size)
    {
    }

    lemma NeededNext(list: seq<Key>, choices: seq<nat>, idx: nat, size: nat)
      requires Needed(list, choices, size) && !Fits(RemoveAll(list, choices), size)
      requires idx < |RemoveAll(list, choices)|
      ensures Needed(list, choices + [idx], size)
      ensures RemoveAll(list, choices + [idx]) == RemoveAt(RemoveAll(list, choices), idx)
    {
      var longer := choices + [idx];
      assert longer[..|choices|] == choices;
      forall n | 0 <= n < |choices| ensures longer[..n] == choices[..n] {
      }
    }

    /** A hit delivers what the base store would. */
    method TryHit(key: Key) returns (file: Option<Content>)
      requires Valid()
      ensures file == if key in filesPresentSize then Some(base(key)) else None
    {
      if key in filesPresentSize {
        return Some(cacheDirectory[key]);
      }
      return None;
    }

    /**
     * The file just fetched is linked into the cache, unless another call did so in the meantime. What goes
     * for it goes only for want of room, and the call fails exactly if removing or linking a file does.
     */
    method InsertFile(key: Key, file: Content) returns (ok: bool, ghost choices: seq<nat>)
      requires Valid() && file == base(key)
      modifies this
      ensures Valid()
      ensures key in old(filesPresentSize) ==>
                ok && filesPresentList == old(filesPresentList) && filesPresentSize == old(filesPresentSize)
      ensures key !in old(filesPresentSize) ==>
                Needed(old(filesPresentList), choices, sizeOf(key)) &&
                filesPresentList == RemoveAll(old(filesPresentList), choices) + if ok then [key] else []
      ensures ok ==> key in filesPresentSize
      ensures filesPresentSize.Keys <= old(filesPresentSize).Keys + {key}
      ensures failures == old(failures) + if ok then 0 else 1
    {
      hide Enumerates, Sum, RemoveAll, Needed;
      if key in filesPresentSize {
        return true, [];
      }
      var sizeBytes := sizeOf(key);
      ok, choices := MakeSpace(sizeBytes);
      if !ok {
        return;
      }
      var linked: bool := *;
      if !linked {
        failures := failures + 1;
        return false, choices;
      }
      assert filesPresentList == [] ==> filesPresentTotalSize == 0 by { SumOfNone(sizeOf, filesPresentList); }
      AddFile(key, file, sizeBytes);
    }

    lemma SumOfNone(size: Key -> nat, list: seq<Key>)
      ensures list == [] ==> Sum(size, list) == 0
    {
    }

    method AddFile(key: Key, file: Content, sizeBytes: nat)
      requires Consistent() && key !in filesPresentSize && file == base(key) && sizeBytes == sizeOf(key)
      modifies this
      ensures Consistent() && filesPresentSize.Keys == old(filesPresentSize).Keys + {key}
      ensures filesPresentList == old(filesPresentList) + [key] && failures == old(failures)
      ensures filesPresentTotalSize == old(filesPresentTotalSize) + sizeBytes
    {
      hide Enumerates, Sum;
      ghost var was := filesPresentSize.Keys;
      EnumeratesAppend(filesPresentList, was, key);
      SumAppend(sizeOf, filesPresentList, key);
      cacheDirectory := cacheDirectory[key := file];
      filesPresentList := filesPresentList + [key];
      filesPresentSize := filesPresentSize[key := sizeBytes];
      filesPresentTotalSize := filesPresentTotalSize + sizeBytes;
      assert filesPresentSize.Keys == was + {key};
    }

    method Take(section: Section) returns (hit: Option<Content>)
      requires Valid()
      modifies this
      ensures Valid() && old(failures) <= failures
      ensures section.Lookup? ==>
                filesPresentSize == old(filesPresentSize) && failures == old(failures) &&
                hit == if section.key in filesPresentSize then Some(base(section.key)) else None
      ensures section.Insert? ==>
                hit == None && filesPresentSize.Keys <= old(filesPresentSize).Keys + {section.key} &&
                (failures == old(failures) ==> section.key in filesPresentSize) &&
                (section.key in old(filesPresentSize) ==> filesPresentSize == old(filesPresentSize))
    {
      hide Consistent, Bounded, RemoveAll, Needed;
      hit := None;
      match section {
        case Lookup(key) => hit := TryHit(key);
        case Insert(key) => var _, _ := InsertFile(key, base(key));
      }
    }

    /**
     * The sections of any number of calls, interleaved in any way. A lookup that hits is answered as the
     * base store would, and the key was there at the start or inserted since. What was once shown to be in
     * the cache is hit until something else is inserted, if no file could not be removed or linked.
     */
    method Interleave(sections: seq<Section>) returns (hits: seq<Option<Content>>)
      requires Valid()
      modifies this
      ensures Valid() && HitsAgree(hits, sections, old(filesPresentSize).Keys, base)
      ensures old(failures) <= failures && (failures == old(failures) ==> Stays(sections, hits, filesPresentSize.Keys))
    {
      hide HitsAgree, Stays, ComeFrom, Consistent, Bounded;
      hits := [];
      ghost var before := filesPresentSize.Keys;
      NoSections(before, base);
      assert sections[..0] == [];
      for i := 0 to |sections|
        invariant Valid() && ComeFrom(filesPresentSize.Keys, before, sections[..i])
        invariant HitsAgree(hits, sections[..i], before, base) && old(failures) <= failures
        invariant failures == old(failures) ==> Stays(sections[..i], hits, filesPresentSize.Keys)
      {
        ghost var keys := filesPresentSize.Keys;
        var hit := Take(sections[i]);
        ComeFromOne(keys, before, sections[..i], sections[i].key);
        HitsAgreeNext(hits, sections[..i], before, base, hit, sections[i]);
        ComeFromNext(keys, before, sections[..i], sections[i], filesPresentSize.Keys);
        if failures == old(failures) {
          StaysNext(sections[..i], hits, keys, sections[i], hit, filesPresentSize.Keys);
        }
        assert sections[..i + 1] == sections[..i] + [sections[i]];
        hits := hits + [hit];
      }
      assert sections[..|sections|] == sections;
    }
  }

  // ---------------------------------------------------------------------------------------------
  // Directories
  // ---------------------------------------------------------------------------------------------

  type Message = seq<int>

  class DirectoryCache {
    const maxDirectories: int
    const base: Key -> Message

    var directoriesPresentList: seq<Key>
    var directoriesPresentMessage: map<Key, Message>

    ghost predicate Valid()
      reads this
    {
      Enumerates(directoriesPresentList, directoriesPresentMessage.Keys) &&
      (forall k | k in directoriesPresentMessage :: directoriesPresentMessage[k] == base(k)) &&
      |directoriesPresentList| <= Max(0, maxDirectories)
    }

    constructor (maxDirectories: int, base: Key -> Message)
      ensures Valid() && directoriesPresentList == []
      ensures this.maxDirectories == maxDirectories && this.base == base
    {
      this.maxDirectories, this.base := maxDirectories, base;
      directoriesPresentList, directoriesPresentMessage := [], map[];
    }

    /** The list without the directory at this index. */
    method Evict(idx: nat)
      requires Valid() && idx < |directoriesPresentList|
      modifies this
      ensures Valid() && directoriesPresentList == RemoveAt(old(directoriesPresentList), idx)
      ensures directoriesPresentMessage.Keys <= old(directoriesPresentMessage).Keys
    {
      hide Enumerates;
      var key := directoriesPresentList[idx];
      RemoveAtEnumerates(directoriesPresentList, directoriesPresentMessage.Keys, idx);
      directoriesPresentMessage := directoriesPresentMessage - {key};
      var last := |directoriesPresentList| - 1;
      directoriesPresentList := directoriesPresentList[idx := directoriesPresentList[last]];
      directoriesPresentList := directoriesPresentList[..last];
      assert directoriesPresentMessage.Keys == old(directoriesPresentMessage).Keys - {key};
    }

    /**
     * Only as many go as must, to leave room for one more. With room for none, picking a directory to evict
     * from the empty list panics.
     */
    method MakeSpace() returns (panics: bool)
      requires Valid()
      modifies this
      ensures Valid() && (panics <==> maxDirectories < 1)
      ensures !panics && maxDirectories <= |old(directoriesPresentList)| ==>
                |directoriesPresentList| == maxDirectories - 1
      ensures directoriesPresentMessage.Keys <= old(directoriesPresentMessage).Keys
      ensures |old(directoriesPresentList)| < maxDirectories ==> directoriesPresentList == old(directoriesPresentList)
    {
      while |directoriesPresentList| >= maxDirectories
        invariant Valid() && directoriesPresentMessage.Keys <= old(directoriesPresentMessage).Keys
        invariant directoriesPresentList == old(directoriesPresentList) ||
                  maxDirectories - 1 <= |directoriesPresentList| < |old(directoriesPresentList)|
        decreases |directoriesPresentList|
      {
        hide Enumerates;
        if |directoriesPresentList| == 0 {
          return true;
        }
        var idx: nat :| idx < |directoriesPresentList|;
        Evict(idx);
      }
      panics := false;
    }

    method TryHit(key: Key) returns (directory: Option<Message>)
      requires Valid()
      ensures directory == if key in directoriesPresentMessage then Some(base(key)) else None
    {
      directory := if key in directoriesPresentMessage then Some(directoriesPresentMessage[key]) else None;
    }

    method InsertDirectory(key: Key, directory: Message) returns (panics: bool)
      requires Valid() && directory == base(key)
      modifies this
      ensures Valid() && (panics <==> maxDirectories < 1 && key !in old(directoriesPresentMessage))
      ensures !panics ==> key in directoriesPresentMessage
      ensures directoriesPresentMessage.Keys <= old(directoriesPresentMessage).Keys + {key}
      ensures key in old(directoriesPresentMessage) ==>
                directoriesPresentList == old(directoriesPresentList) &&
                directoriesPresentMessage == old(directoriesPresentMessage)
      ensures key !in old(directoriesPresentMessage) && !panics ==>
                if |old(directoriesPresentList)| < maxDirectories
                then directoriesPresentList == old(directoriesPresentList) + [key]
                else |directoriesPresentList| == maxDirectories
    {
      hide Enumerates;
      panics := false;
      if key !in directoriesPresentMessage {
        panics := MakeSpace();
        if !panics {
          AddDirectory(key, directory);
        }
      }
    }

    method AddDirectory(key: Key, directory: Message)
      requires Valid() && |directoriesPresentList| < maxDirectories
      requires key !in directoriesPresentMessage && directory == base(key)
      modifies this
      ensures Valid() && directoriesPresentMessage == old(directoriesPresentMessage)[key := directory]
      ensures directoriesPresentList == old(directoriesPresentList) + [key]
    {
      hide Enumerates;
      EnumeratesAppend(directoriesPresentList, directoriesPresentMessage.Keys, key);
      directoriesPresentList := directoriesPresentList + [key];
      directoriesPresentMessage := directoriesPresentMessage[key := directory];
      assert directoriesPresentMessage.Keys == old(directoriesPresentMessage).Keys + {key};
    }

    /** The sections of any number of calls, interleaved in any way, until one panics; see above. */
    method Interleave(sections: seq<Section>) returns (hits: seq<Option<Message>>, panics: bool)
      requires Valid()
      modifies this
      ensures Valid() && |hits| <= |sections|
      ensures HitsAgree(hits, sections[..|hits|], old(directoriesPresentMessage).Keys, base)
      ensures Stays(sections[..|hits|], hits, directoriesPresentMessage.Keys) || panics
      ensures if panics then maxDirectories < 1 else |hits| == |sections|
    {
      hits, panics := [], false;
      ghost var before := directoriesPresentMessage.Keys;
      for i := 0 to |sections|
        invariant Valid() && ComeFrom(directoriesPresentMessage.Keys, before, sections[..i])
        invariant |hits| == i && HitsAgree(hits, sections[..i], before, base)
        invariant Stays(sections[..i], hits, directoriesPresentMessage.Keys)
      {
        hide Enumerates, HitsAgree, Stays;
        ghost var keys := directoriesPresentMessage.Keys;
        var hit := None;
        match sections[i] {
          case Lookup(key) => hit := TryHit(key);
          case Insert(key) =>
            panics := InsertDirectory(key, base(key));
            if panics {
              return;
            }
        }
        HitsAgreeNext(hits, sections[..i], before, base, hit, sections[i]);
        StaysNext(sections[..i], hits, keys, sections[i], hit, directoriesPresentMessage.Keys);
        assert sections[..i + 1] == sections[..i] + [sections[i]];
        hits := hits + [hit];
      }
      panics := false;
    }
  }
}
