/**
 * Placement of blobs on shards (weighted_shard_permuter.go) and requests that concern several of
 * them (sharding_blob_access.go). The pseudo-random generator is an arbitrary sequence of draws.
 */
module Sharding {
  import opened Wrappers

  /** The total weight of the first k shards. */
  function Sum(weights: seq<nat>, k: nat): nat
    requires k <= |weights|
  {
    if k == 0 then 0 else Sum(weights, k - 1) + weights[k - 1]
  }

  function Total(weights: seq<nat>): nat {
    Sum(weights, |weights|)
  }

  lemma {:induction false} SumGrows(weights: seq<nat>, i: nat, j: nat)
    requires i <= j <= |weights|
    ensures Sum(weights, i) <= Sum(weights, j)
    decreases j
  {
    if i < j {
      SumGrows(weights, i, j - 1);
    }
  }

  /** Shard i owns this slot. */
  predicate Owns(weights: seq<nat>, i: nat, slot: nat) {
    i < |weights| && Sum(weights, i) <= slot < Sum(weights, i + 1)
  }

  lemma OwnerIsUnique(weights: seq<nat>, i: nat, j: nat, slot: nat)
    requires Owns(weights, i, slot) && Owns(weights, j, slot)
    ensures i == j
  {
    if i < j {
      SumGrows(weights, i + 1, j);
    } else if j < i {
      SumGrows(weights, j + 1, i);
    }
  }

  /** The first k shards searched for the owner of a slot. */
  function OwnerBelow(weights: seq<nat>, slot: nat, k: nat): (i: nat)
    requires 0 < k <= |weights| && slot < Sum(weights, k)
    ensures i < k && Owns(weights, i, slot)
  {
    if Sum(weights, k - 1) <= slot then k - 1 else OwnerBelow(weights, slot, k - 1)
  }

  function Owner(weights: seq<nat>, slot: nat): (i: nat)
    requires slot < Total(weights)
    ensures Owns(weights, i, slot)
  {
    OwnerBelow(weights, slot, |weights|)
  }

  lemma {:induction false} IntervalSize(s: set<nat>, lo: nat, hi: nat)
    requires lo <= hi && forall x: nat :: x in s <==> lo <= x < hi
    ensures |s| == hi - lo
    decreases hi
  {
    if lo < hi {
      IntervalSize(s - {hi - 1}, lo, hi - 1);
    } else {
      assert s == {};
    }
  }

  /** Every shard is hit by exactly as many slots as its weight says. */
  lemma SlotsPerShard(weights: seq<nat>, i: nat)
    requires i < |weights|
    ensures |set slot: nat | slot < Total(weights) && Owner(weights, slot) == i| == weights[i]
  {
    hide Owner;
    var hit := set slot: nat | slot < Total(weights) && Owner(weights, slot) == i;
    var lo := Sum(weights, i);
    SumGrows(weights, i + 1, |weights|);
    forall slot: nat ensures slot in hit <==> lo <= slot < lo + weights[i] {
      if Owns(weights, i, slot) {
        OwnerIsUnique(weights, i, Owner(weights, slot), slot);
      }
    }
    IntervalSize(hit, lo, lo + weights[i]);
  }

  // ---------------------------------------------------------------------------------------------
  // Selection
  // ---------------------------------------------------------------------------------------------

  /** The first shard drawn that is not drained. */
  function Select(weights: seq<nat>, drained: set<nat>, draws: seq<nat>): Option<nat>
    requires 0 < Total(weights)
    decreases |draws|
  {
    if draws == [] then None
    else
      var i := Owner(weights, draws[0] % Total(weights));
      if i in drained then Select(weights, drained, draws[1..]) else Some(i)
  }

  /**
   * Draining shard d only moves what was on d: any other selection stays, and nothing is selected
   * for d any more.
   */
  lemma {:induction false} DrainMovesOnlyItsOwn(weights: seq<nat>, drained: set<nat>, draws: seq<nat>, d: nat)
    requires 0 < Total(weights)
    ensures var before, after := Select(weights, drained, draws), Select(weights, drained + {d}, draws);
            (before != Some(d) ==> after == before) && after != Some(d)
    decreases |draws|
  {
    if draws != [] {
      DrainMovesOnlyItsOwn(weights, drained, draws[1..], d);
    }
  }

  /** The trailing shard of `was` is replaced by shards that share its weight. */
  predicate Splits(was: seq<nat>, now: seq<nat>, n: nat) {
    |was| == n + 1 && n < |now| && was[..n] == now[..n] && Total(was) == Total(now)
  }

  lemma {:induction false} SumOfPrefix(a: seq<nat>, b: seq<nat>, n: nat, k: nat)
    requires k <= n <= |a| && n <= |b| && a[..n] == b[..n]
    ensures Sum(a, k) == Sum(b, k)
    decreases k
  {
    if 0 < k {
      SumOfPrefix(a, b, n, k - 1);
      assert a[k - 1] == a[..n][k - 1] && b[k - 1] == b[..n][k - 1];
    }
  }

  /** Slots of shards before the split keep their owner; the others go to the new shards. */
  lemma SplitKeepsOwner(was: seq<nat>, now: seq<nat>, n: nat, slot: nat)
    requires Splits(was, now, n) && slot < Total(was)
    ensures var i, j := Owner(was, slot), Owner(now, slot); if i < n then j == i else i == n <= j
  {
    var i, j := Owner(was, slot), Owner(now, slot);
    if i < n {
      SumOfPrefix(was, now, n, i);
      SumOfPrefix(was, now, n, i + 1);
      OwnerIsUnique(now, i, j, slot);
    } else if j < n {
      SumOfPrefix(was, now, n, j);
      SumOfPrefix(was, now, n, j + 1);
      OwnerIsUnique(was, i, j, slot);
    }
  }

  /**
   * Growing a cluster out of a drained trailing shard, with the total weight unchanged, leaves every
   * blob where it was or sends it to one of the new shards.
   */
  lemma {:induction false} GrowingMovesOnlyToNewShards(
    was: seq<nat>, now: seq<nat>, n: nat, drained: set<nat>, drained': set<nat>, draws: seq<nat>)
    requires Splits(was, now, n) && 0 < Total(was) && n in drained
    requires forall i: nat | i < n :: i in drained <==> i in drained'
    requires Select(was, drained, draws).Some?
    ensures var i, j := Select(was, drained, draws), Select(now, drained', draws);
            i.value < n && j.Some? && (j == i || n <= j.value)
    decreases |draws|
  {
    var slot := draws[0] % Total(was);
    SplitKeepsOwner(was, now, n, slot);
    if Owner(was, slot) in drained && Owner(now, slot) in drained' {
      GrowingMovesOnlyToNewShards(was, now, n, drained, drained', draws[1..]);
    }
    if Owner(was, slot) in drained && Owner(now, slot) !in drained' {
      SelectIsBefore(was, n, drained, draws);
    }
  }

  /** With the trailing shard drained, only shards before it are selected. */
  lemma {:induction false} SelectIsBefore(weights: seq<nat>, n: nat, drained: set<nat>, draws: seq<nat>)
    requires |weights| == n + 1 && 0 < Total(weights) && n in drained && Select(weights, drained, draws).Some?
    ensures Select(weights, drained, draws).value < n
    decreases |draws|
  {
    if Owner(weights, draws[0] % Total(weights)) in drained {
      SelectIsBefore(weights, n, drained, draws[1..]);
    }
  }

  /** The first n outputs of a generator that is seeded with the hash, or with 1 if that is 0. */
  function Draws(generator: (nat, nat) -> nat, hash: nat, n: nat): (draws: seq<nat>)
    ensures |draws| == n
  {
    seq(n, (i: nat) => generator(if hash == 0 then 1 else hash, i))
  }

  /** The slot that the generator draws in turn k, for this hash. */
  function Slot(weights: seq<nat>, generator: (nat, nat) -> nat, hash: nat, k: nat): nat
    requires 0 < Total(weights)
  {
    generator(if hash == 0 then 1 else hash, k) % Total(weights)
  }

  /** Shard i owns the slot of draw k and is not drained, and all owners of earlier draws are. */
  predicate IsFirstUndrained(weights: seq<nat>, drained: set<nat>, draws: seq<nat>, i: nat, k: nat)
    requires 0 < Total(weights) && k < |draws|
  {
    i !in drained && Owns(weights, i, draws[k] % Total(weights)) &&
    forall j, o: nat | 0 <= j < k && o < |weights| && Owns(weights, o, draws[j] % Total(weights)) :: o in drained
  }

  lemma {:induction false} SelectIsFirstUndrained(weights: seq<nat>, drained: set<nat>, draws: seq<nat>, i: nat)
    requires 0 < Total(weights)
    ensures Select(weights, drained, draws) == Some(i) <==>
            exists k: nat :: k < |draws| && IsFirstUndrained(weights, drained, draws, i, k)
    decreases |draws|
  {
    if draws != [] {
      hide Owns, Owner;
      var first, rest := Owner(weights, draws[0] % Total(weights)), draws[1..];
      OwnerOwns(weights, draws[0] % Total(weights));
      SelectIsFirstUndrained(weights, drained, rest, i);
      if first in drained {
        if k: nat :| k < |rest| && IsFirstUndrained(weights, drained, rest, i, k) {
          forall j, o: nat | 0 <= j < k + 1 && o < |weights| && Owns(weights, o, draws[j] % Total(weights))
            ensures o in drained
          {
            if j == 0 {
              OwnerIsUnique(weights, o, first, draws[0] % Total(weights));
            } else {
              assert Owns(weights, o, rest[j - 1] % Total(weights));
            }
          }
          assert IsFirstUndrained(weights, drained, draws, i, k + 1);
        }
        if k: nat :| k < |draws| && IsFirstUndrained(weights, drained, draws, i, k) {
          if k == 0 {
            OwnerIsUnique(weights, i, first, draws[0] % Total(weights));
          }
          assert IsFirstUndrained(weights, drained, rest, i, k - 1);
        }
      } else {
        if first == i {
          assert IsFirstUndrained(weights, drained, draws, i, 0);
        }
        if k: nat :| k < |draws| && IsFirstUndrained(weights, drained, draws, i, k) {
          assert k == 0;
          OwnerIsUnique(weights, i, first, draws[0] % Total(weights));
        }
      }
    }
  }

  lemma OwnerOwns(weights: seq<nat>, slot: nat)
    requires slot < Total(weights)
    ensures Owner(weights, slot) < |weights| && Owns(weights, Owner(weights, slot), slot)
  {
  }

  /** Shard i owns the slot drawn in turn k for this hash, is not drained, and all owners of earlier ones are. */
  predicate IsChosen(weights: seq<nat>, drained: set<nat>, generator: (nat, nat) -> nat, hash: nat, i: nat, k: nat)
    requires 0 < Total(weights)
  {
    i !in drained && Owns(weights, i, Slot(weights, generator, hash, k)) &&
    forall j, o: nat | 0 <= j < k && o < |weights| && Owns(weights, o, Slot(weights, generator, hash, j)) ::
      o in drained
  }

  /** Which shard a digest with this hash goes to. */
  lemma ShardIsFirstUndrained(weights: seq<nat>, drained: set<nat>, generator: (nat, nat) -> nat, hash: nat, n: nat,
                              i: nat)
    requires 0 < Total(weights)
    ensures Select(weights, drained, Draws(generator, hash, n)) == Some(i) <==>
            exists k: nat :: k < n && IsChosen(weights, drained, generator, hash, i, k)
  {
    hide Owns, Select;
    var draws := Draws(generator, hash, n);
    SelectIsFirstUndrained(weights, drained, draws, i);
    forall k: nat | k < n
      ensures IsFirstUndrained(weights, drained, draws, i, k) <==> IsChosen(weights, drained, generator, hash, i, k)
    {
      assert forall j | 0 <= j <= k :: draws[j] % Total(weights) == Slot(weights, generator, hash, j);
    }
  }

  class WeightedShardPermuter {
    ghost const weights: seq<nat>
    const cumulativeWeights: seq<nat>

    ghost predicate Valid() {
      |cumulativeWeights| == |weights| && 0 < Total(weights) &&
      forall i | 0 <= i < |weights| :: cumulativeWeights[i] == Sum(weights, i + 1)
    }

    constructor (weights: seq<nat>)
      requires 0 < Total(weights)
      ensures Valid() && this.weights == weights
    {
      var cumulative: seq<nat> := [];
      var totalWeight := 0;
      for i := 0 to |weights|
        invariant |cumulative| == i && totalWeight == Sum(weights, i)
        invariant forall k | 0 <= k < i :: cumulative[k] == Sum(weights, k + 1)
      {
        totalWeight := totalWeight + weights[i];
        cumulative := cumulative + [totalWeight];
      }
      this.weights := weights;
      cumulativeWeights := cumulative;
    }

    /** sort.Search for the first shard whose cumulative weight exceeds the slot. */
    method Search(slot: nat) returns (idx: nat)
      requires Valid() && slot < Total(weights)
      ensures idx == Owner(weights, slot)
    {
      var i, j := 0, |cumulativeWeights|;
      while i < j
        invariant 0 <= i <= j <= |weights|
        invariant 0 < i ==> Sum(weights, i) <= slot
        invariant j < |weights| ==> slot < Sum(weights, j + 1)
      {
        var h := (i + j) / 2;
        if slot < cumulativeWeights[h] {
          j := h;
        } else {
          i := h + 1;
        }
      }
      assert Owns(weights, i, slot);
      OwnerIsUnique(weights, i, Owner(weights, slot), slot);
      idx := i;
    }

    /**
     * GetShard with the selector of getBackend: goes on until a shard is not drained. The hypothesis
     * is that one is drawn at some point.
     */
    method GetShard(generator: (nat, nat) -> nat, hash: nat, drained: set<nat>, ghost enough: nat) returns (idx: nat)
      requires Valid()
      requires Select(weights, drained, Draws(generator, hash, enough)).Some?
      ensures Some(idx) == Select(weights, drained, Draws(generator, hash, enough))
    {
      var seed := if hash == 0 then 1 else hash;
      ghost var draws := Draws(generator, hash, enough);
      var k := 0;
      while true
        invariant 0 <= k <= enough && Select(weights, drained, draws[k..]) == Select(weights, drained, draws)
        decreases enough - k
      {
        assert draws[k..] != [];
        assert draws[k..][0] == generator(seed, k) && draws[k..][1..] == draws[k + 1..];
        var slot := generator(seed, k) % cumulativeWeights[|cumulativeWeights| - 1];
        idx := Search(slot);
        if idx !in drained {
          return;
        }
        k := k + 1;
      }
    }
  }

  // ---------------------------------------------------------------------------------------------
  // Requests to several shards
  // ---------------------------------------------------------------------------------------------

  type Digest = nat

  function Filter(p: Digest -> bool, s: seq<Digest>): seq<Digest> {
    if s == [] then [] else (if p(s[0]) then [s[0]] else []) + Filter(p, s[1..])
  }

  lemma {:induction false} FilterAppend(p: Digest -> bool, s: seq<Digest>, d: Digest)
    ensures Filter(p, s + [d]) == Filter(p, s) + (if p(d) then [d] else [])
    decreases |s|
  {
    if s == [] {
      assert s + [d] == [d];
    } else {
      var t, head := s + [d], if p(s[0]) then [s[0]] else [];
      assert t[0] == s[0] && t[1..] == s[1..] + [d];
      FilterAppend(p, s[1..], d);
      assert Filter(p, t) == head + Filter(p, s[1..] + [d]);
      assert Filter(p, s) == head + Filter(p, s[1..]);
    }
  }

  /** Two filters that never agree together select what their union selects. */
  lemma {:induction false} FilterSplit(p: Digest -> bool, q: Digest -> bool, r: Digest -> bool, s: seq<Digest>)
    requires forall d :: !(p(d) && q(d)) && (r(d) <==> p(d) || q(d))
    ensures multiset(Filter(r, s)) == multiset(Filter(p, s)) + multiset(Filter(q, s))
    decreases |s|
  {
    if s != [] {
      FilterSplit(p, q, r, s[1..]);
    }
  }

  lemma {:induction false} FilterFilter(p: Digest -> bool, q: Digest -> bool, r: Digest -> bool, s: seq<Digest>)
    requires forall d :: r(d) <==> p(d) && q(d)
    ensures Filter(q, Filter(p, s)) == Filter(r, s)
    decreases |s|
  {
    if s != [] {
      var rest := Filter(p, s[1..]);
      FilterFilter(p, q, r, s[1..]);
      if p(s[0]) {
        FilterCons(q, s[0], rest);
        assert Filter(p, s) == [s[0]] + rest;
      } else {
        assert Filter(p, s) == rest;
      }
    }
  }

  lemma FilterCons(p: Digest -> bool, d: Digest, s: seq<Digest>)
    ensures Filter(p, [d] + s) == (if p(d) then [d] else []) + Filter(p, s)
  {
    assert ([d] + s)[1..] == s;
  }

  lemma {:induction false} FilterSame(p: Digest -> bool, q: Digest -> bool, s: seq<Digest>)
    requires forall d | d in s :: p(d) == q(d)
    ensures Filter(p, s) == Filter(q, s)
    decreases |s|
  {
    if s != [] {
      FilterSame(p, q, s[1..]);
    }
  }

  function Nothing(): Digest -> bool {
    (d: Digest) => false
  }

  /** What is asked of shard b. */
  function Asked(shardOf: Digest -> nat, b: nat): Digest -> bool {
    (d: Digest) => shardOf(d) == b
  }

  /** What shard b reports as missing. */
  function Absent(present: (nat, Digest) -> bool, b: nat): Digest -> bool {
    (d: Digest) => !present(b, d)
  }

  /** What is missing on its own shard, where that has answered. */
  function Reported(shardOf: Digest -> nat, present: (nat, Digest) -> bool, answered: set<nat>): Digest -> bool {
    (d: Digest) => shardOf(d) in answered && !present(shardOf(d), d)
  }

  /** What is missing on its own shard, where that does not fail. */
  function Missing(shardOf: Digest -> nat, present: (nat, Digest) -> bool, failing: set<nat>): Digest -> bool {
    (d: Digest) => shardOf(d) !in failing && !present(shardOf(d), d)
  }

  /** The digests are grouped by their shard. */
  ghost predicate Grouped(shardOf: Digest -> nat, perShard: map<nat, seq<Digest>>, digests: seq<Digest>) {
    (forall d | d in digests :: shardOf(d) in perShard) &&
    (forall b | b in perShard :: perShard[b] == Filter(Asked(shardOf, b), digests)) &&
    (forall b | b in perShard :: exists d :: d in digests && shardOf(d) == b)
  }

  lemma GroupedNone(shardOf: Digest -> nat)
    ensures Grouped(shardOf, map[], [])
  {
  }

  lemma AskedAppend(shardOf: Digest -> nat, digests: seq<Digest>, d: Digest, b: nat)
    ensures Filter(Asked(shardOf, b), digests + [d])
         == Filter(Asked(shardOf, b), digests) + (if shardOf(d) == b then [d] else [])
  {
    FilterAppend(Asked(shardOf, b), digests, d);
  }

  lemma NotAsked(shardOf: Digest -> nat, digests: seq<Digest>, b: nat)
    requires forall d | d in digests :: shardOf(d) != b
    ensures Filter(Asked(shardOf, b), digests) == []
  {
    FilterSame(Asked(shardOf, b), Nothing(), digests);
    NothingSelected(digests);
  }

  lemma GroupedAppend(shardOf: Digest -> nat, perShard: map<nat, seq<Digest>>, digests: seq<Digest>, d: Digest)
    requires Grouped(shardOf, perShard, digests)
    ensures var b := shardOf(d);
            Grouped(shardOf, perShard[b := (if b in perShard then perShard[b] else []) + [d]], digests + [d])
  {
    hide Filter, Asked;
    var b := shardOf(d);
    forall c: nat ensures Filter(Asked(shardOf, c), digests + [d])
        == Filter(Asked(shardOf, c), digests) + (if b == c then [d] else []) {
      AskedAppend(shardOf, digests, d, c);
    }
    if b !in perShard {
      NotAsked(shardOf, digests, b);
    }
    var perShard' := perShard[b := (if b in perShard then perShard[b] else []) + [d]];
    forall c | c in perShard' ensures exists x :: x in digests + [d] && shardOf(x) == c {
      if c == b {
        assert d in digests + [d];
      } else {
        var x :| x in digests && shardOf(x) == c;
        assert x in digests + [d];
      }
    }
  }

  method GroupByShard(shardOf: Digest -> nat, digests: seq<Digest>) returns (perShard: map<nat, seq<Digest>>)
    ensures Grouped(shardOf, perShard, digests)
  {
    hide Grouped, Filter;
    perShard := map[];
    GroupedNone(shardOf);
    var i := 0;
    while i < |digests|
      invariant i <= |digests| && Grouped(shardOf, perShard, digests[..i])
    {
      var d := digests[i];
      var b := shardOf(d);
      GroupedAppend(shardOf, perShard, digests[..i], d);
      assert digests[..i + 1] == digests[..i] + [d];
      perShard := perShard[b := (if b in perShard then perShard[b] else []) + [d]];
      i := i + 1;
    }
    assert digests[..i] == digests;
  }

  /** What has been collected when the shards in `done` have answered. */
  ghost predicate Collected(shardOf: Digest -> nat, present: (nat, Digest) -> bool, failing: set<nat>,
                            digests: seq<Digest>, done: set<nat>, missing: seq<Digest>, failed: bool) {
    (failed <==> done * failing != {}) &&
    multiset(missing) == multiset(Filter(Reported(shardOf, present, done - failing), digests))
  }

  lemma CollectNone(shardOf: Digest -> nat, present: (nat, Digest) -> bool, failing: set<nat>, digests: seq<Digest>)
    ensures Collected(shardOf, present, failing, digests, {}, [], false)
  {
    FilterSame(Nothing(), Reported(shardOf, present, {} - failing), digests);
    NothingSelected(digests);
  }

  lemma CollectOne(shardOf: Digest -> nat, present: (nat, Digest) -> bool, failing: set<nat>,
                   digests: seq<Digest>, done: set<nat>, b: nat, missing: seq<Digest>, failed: bool)
    requires b !in done && Collected(shardOf, present, failing, digests, done, missing, failed)
    ensures if b in failing then Collected(shardOf, present, failing, digests, done + {b}, missing, true)
            else Collected(shardOf, present, failing, digests, done + {b},
                           missing + Filter(Absent(present, b), Filter(Asked(shardOf, b), digests)), failed)
  {
    hide Filter, Reported, Absent, Asked;
    if b in failing {
      assert b in (done + {b}) * failing;
      assert done + {b} - failing == done - failing;
    } else {
      assert (done + {b}) * failing == done * failing;
      assert done + {b} - failing == done - failing + {b};
      Answered(shardOf, present, digests, done - failing, b);
    }
  }

  /** The shards' answers are collected in any order. */
  method Recombine(ghost shardOf: Digest -> nat, present: (nat, Digest) -> bool, failing: set<nat>,
                   perShard: map<nat, seq<Digest>>, ghost digests: seq<Digest>)
    returns (missing: seq<Digest>, failed: bool)
    requires forall b | b in perShard :: perShard[b] == Filter(Asked(shardOf, b), digests)
    ensures Collected(shardOf, present, failing, digests, perShard.Keys, missing, failed)
  {
    hide Collected, Filter, Absent, Asked;
    missing, failed := [], false;
    var waiting: set<nat> := perShard.Keys;
    ghost var done: set<nat> := {};
    CollectNone(shardOf, present, failing, digests);
    while waiting != {}
      invariant waiting <= perShard.Keys && done == perShard.Keys - waiting
      invariant Collected(shardOf, present, failing, digests, done, missing, failed)
      decreases waiting
    {
      var b :| b in waiting;
      CollectOne(shardOf, present, failing, digests, done, b, missing, failed);
      if b in failing {
        failed := true;
      } else {
        missing := missing + Filter(Absent(present, b), perShard[b]);
      }
      waiting, done := waiting - {b}, done + {b};
    }
    assert done == perShard.Keys;
  }

  /**
   * FindMissing over shards that answer truthfully about their own contents, or fail. Exactly the
   * digests that are missing on their own shard are reported, each as often as it was asked for,
   * except those of shards that fail; and a failure is reported if and only if a shard that had to
   * be asked fails.
   */
  method FindMissing(shardOf: Digest -> nat, present: (nat, Digest) -> bool, failing: set<nat>, digests: seq<Digest>)
    returns (missing: seq<Digest>, failed: bool)
    ensures failed <==> exists d :: d in digests && shardOf(d) in failing
    ensures multiset(missing) == multiset(Filter(Missing(shardOf, present, failing), digests))
  {
    var perShard := GroupByShard(shardOf, digests);
    missing, failed := Recombine(shardOf, present, failing, perShard, digests);
    FilterSame(Reported(shardOf, present, perShard.Keys - failing), Missing(shardOf, present, failing), digests);
    assert failed ==> exists b :: b in perShard && b in failing by {
      if failed {
        var b :| b in perShard.Keys * failing;
      }
    }
    forall d | d in digests && shardOf(d) in failing ensures failed {
      assert shardOf(d) in perShard.Keys * failing;
    }
  }

  lemma {:induction false} NothingSelected(digests: seq<Digest>)
    ensures Filter(Nothing(), digests) == []
    decreases |digests|
  {
    if digests != [] {
      NothingSelected(digests[1..]);
    }
  }

  /** What one more answer adds to the digests selected so far. */
  lemma Answered(shardOf: Digest -> nat, present: (nat, Digest) -> bool, digests: seq<Digest>, answered: set<nat>,
                 b: nat)
    requires b !in answered
    ensures multiset(Filter(Reported(shardOf, present, answered + {b}), digests))
         == multiset(Filter(Reported(shardOf, present, answered), digests))
          + multiset(Filter(Absent(present, b), Filter(Asked(shardOf, b), digests)))
  {
    var q := Reported(shardOf, present, {b});
    FilterSplit(Reported(shardOf, present, answered), q, Reported(shardOf, present, answered + {b}), digests);
    FilterFilter(Asked(shardOf, b), Absent(present, b), q, digests);
  }
}
