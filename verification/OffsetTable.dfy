/**
 * The on-disk index of the circular store: an open-addressing table in which newer records push
 * older ones to less preferred slots (file_offset_store.go).
 *
 * A key stands for the 40 bytes of a simple digest read as one number, so the key of a blank slot
 * is 0. The slot hash is an arbitrary function of key and attempt.
 */
module OffsetTable {
  import opened Wrappers
  import opened Cursors

  const MAXIMUM_ITERATIONS: nat := 8

  type Key = nat

  datatype Record = Record(key: Key, attempt: nat, offset: uint64, length: int64)

  /** What a slot that was never written reads as. */
  const BLANK: Record := Record(0, 0, 0, 0)

  type Table = t: seq<Record> | 0 < |t| witness [BLANK]

  type SlotHash = (Key, nat) -> nat

  datatype Location = Location(offset: uint64, length: int64)

  /** The slot, in a table of n slots, where a key is kept at a given attempt. */
  function Position(h: SlotHash, n: nat, key: Key, attempt: nat): (p: nat)
    requires 0 < n
    ensures p < n
  {
    h(key, attempt) % n
  }

  predicate Live(c: Cursors, r: Record) {
    c.Contains(r.offset, r.length)
  }

  /** The record could have been stored at slot p in the first place. */
  predicate InPlace(h: SlotHash, t: Table, p: nat)
    requires p < |t|
  {
    Position(h, |t|, t[p].key, t[p].attempt) == p
  }

  // ---------------------------------------------------------------------------------------------
  // Lookup and insertion
  // ---------------------------------------------------------------------------------------------

  /** Get, from the given attempt on. */
  function Probe(h: SlotHash, t: Table, c: Cursors, key: Key, attempt: nat): Option<Location>
    decreases MAXIMUM_ITERATIONS - attempt
  {
    if attempt + 1 >= MAXIMUM_ITERATIONS then None
    else
      var p := Position(h, |t|, key, attempt);
      if !Live(c, t[p]) then None
      else if t[p].key == key && t[p].attempt == attempt then Some(Location(t[p].offset, t[p].length))
      else if !InPlace(h, t, p) then None
      else Probe(h, t, c, key, attempt + 1)
  }

  function Lookup(h: SlotHash, t: Table, c: Cursors, key: Key): Option<Location> {
    Probe(h, t, c, key, 0)
  }

  /** The table after one putRecord() call, and the record that still needs a place. */
  datatype Step = Step(table: Table, carried: Option<Record>)

  /** The old record is dead, out of place, or has no further slot to go to. */
  predicate Replaceable(h: SlotHash, t: Table, c: Cursors, p: nat)
    requires p < |t|
  {
    !Live(c, t[p]) || t[p].attempt >= MAXIMUM_ITERATIONS - 1 || !InPlace(h, t, p)
  }

  function PutRecord(h: SlotHash, t: Table, c: Cursors, r: Record): Step {
    var p := Position(h, |t|, r.key, r.attempt);
    if Replaceable(h, t, c, p) then
      Step(t[p := r], None)
    else if t[p].offset <= r.offset then
      Step(t[p := r], Some(t[p].(attempt := t[p].attempt + 1)))
    else if r.attempt >= MAXIMUM_ITERATIONS - 1 then
      Step(t, None)
    else
      Step(t, Some(r.(attempt := r.attempt + 1)))
  }

  /** At most `budget` putRecord() calls; a record still carried after that is dropped. */
  function PutChain(h: SlotHash, t: Table, c: Cursors, r: Record, budget: nat): (t': Table)
    ensures |t'| == |t|
    decreases budget, t
  {
    if budget == 0 then t
    else
      var s := PutRecord(h, t, c, r);
      if s.carried.None? then s.table else PutChain(h, s.table, c, s.carried.value, budget - 1)
  }

  function Insert(h: SlotHash, t: Table, c: Cursors, key: Key, at: Location): (t': Table)
    ensures |t'| == |t|
  {
    PutChain(h, t, c, Record(key, 0, at.offset, at.length), MAXIMUM_ITERATIONS)
  }

  // ---------------------------------------------------------------------------------------------
  // No false misses
  // ---------------------------------------------------------------------------------------------

  /** A lookup that comes by slot q goes on past it, for as long as offsets from o up are live. */
  predicate Blocks(h: SlotHash, t: Table, c: Cursors, q: nat, o: int)
    requires q < |t|
  {
    Live(c, t[q]) && InPlace(h, t, q) && o <= t[q].offset
  }

  /** Every slot probed before the record's own holds a live, in-place record at least as new. */
  predicate Supported(h: SlotHash, t: Table, c: Cursors, r: Record) {
    forall j: nat | j < r.attempt :: Blocks(h, t, c, Position(h, |t|, r.key, j), r.offset)
  }

  /** The table invariant: whatever has not been overtaken by the read cursor is supported. */
  predicate Ordered(h: SlotHash, t: Table, c: Cursors) {
    forall p: nat | p < |t| && InPlace(h, t, p) && 0 < t[p].attempt ::
      c.Written(t[p].offset, t[p].length) && (c.read <= t[p].offset ==> Supported(h, t, c, t[p]))
  }

  /** putRecord() replaces a live record that sits at its last slot by an older one. */
  predicate DropsNewer(h: SlotHash, t: Table, c: Cursors, r: Record) {
    var p := Position(h, |t|, r.key, r.attempt);
    Live(c, t[p]) && InPlace(h, t, p) && t[p].attempt >= MAXIMUM_ITERATIONS - 1 && r.offset < t[p].offset
  }

  /** Some putRecord() call of the chain does so. */
  predicate ChainDropsNewer(h: SlotHash, t: Table, c: Cursors, r: Record, budget: nat)
    decreases budget
  {
    0 < budget &&
    (DropsNewer(h, t, c, r) ||
     var s := PutRecord(h, t, c, r);
     s.carried.Some? && ChainDropsNewer(h, s.table, c, s.carried.value, budget - 1))
  }

  /** A slot that blocked before blocks afterwards: putRecord() only makes slots newer. */
  lemma StepKeepsBlocks(h: SlotHash, t: Table, c: Cursors, r: Record, q: nat, o: int)
    requires Live(c, r) && !DropsNewer(h, t, c, r) && q < |t| && Blocks(h, t, c, q, o)
    ensures Blocks(h, PutRecord(h, t, c, r).table, c, q, o)
  {
  }

  lemma StepKeepsSupport(h: SlotHash, t: Table, c: Cursors, r: Record, x: Record)
    requires Live(c, r) && !DropsNewer(h, t, c, r) && Supported(h, t, c, x)
    ensures Supported(h, PutRecord(h, t, c, r).table, c, x)
  {
    forall j: nat | j < x.attempt
      ensures Blocks(h, PutRecord(h, t, c, r).table, c, Position(h, |t|, x.key, j), x.offset)
    {
      StepKeepsBlocks(h, t, c, r, Position(h, |t|, x.key, j), x.offset);
    }
  }

  lemma StepKeepsOrder(h: SlotHash, t: Table, c: Cursors, r: Record)
    requires Ordered(h, t, c) && Live(c, r) && Supported(h, t, c, r) && !DropsNewer(h, t, c, r)
    ensures Ordered(h, PutRecord(h, t, c, r).table, c)
  {
    var t' := PutRecord(h, t, c, r).table;
    forall p: nat | p < |t'| && InPlace(h, t', p) && 0 < t'[p].attempt && c.read <= t'[p].offset
      ensures Supported(h, t', c, t'[p])
    {
      if t'[p] == t[p] {
        assert InPlace(h, t, p);
      }
      StepKeepsSupport(h, t, c, r, t'[p]);
    }
  }

  lemma StepSupportsCarried(h: SlotHash, t: Table, c: Cursors, r: Record)
    requires Ordered(h, t, c) && Live(c, r) && Supported(h, t, c, r) && !DropsNewer(h, t, c, r)
    requires PutRecord(h, t, c, r).carried.Some?
    ensures var s := PutRecord(h, t, c, r);
            Live(c, s.carried.value) && Supported(h, s.table, c, s.carried.value)
  {
    var p := Position(h, |t|, r.key, r.attempt);
    var s := PutRecord(h, t, c, r);
    var x := s.carried.value;
    if s.table == t {
      StepKeepsSupport(h, t, c, r, r);
    } else {
      assert Supported(h, t, c, t[p]);
      StepKeepsSupport(h, t, c, r, t[p]);
    }
    forall j: nat | j < x.attempt
      ensures Blocks(h, s.table, c, Position(h, |t|, x.key, j), x.offset)
    {
      if j == x.attempt - 1 {
        assert Position(h, |t|, x.key, j) == p;
      }
    }
  }

  lemma {:induction false} ChainKeepsOrder(h: SlotHash, t: Table, c: Cursors, r: Record, budget: nat)
    requires Ordered(h, t, c) && Live(c, r) && Supported(h, t, c, r)
    requires !ChainDropsNewer(h, t, c, r, budget)
    ensures Ordered(h, PutChain(h, t, c, r, budget), c)
    decreases budget
  {
    if 0 < budget {
      var s := PutRecord(h, t, c, r);
      StepKeepsOrder(h, t, c, r);
      if s.carried.Some? {
        StepSupportsCarried(h, t, c, r);
        ChainKeepsOrder(h, s.table, c, s.carried.value, budget - 1);
      }
    }
  }

  /** Moving the cursors forward kills oldest records first, so what supports a record outlives it. */
  lemma AdvanceKeepsOrder(h: SlotHash, t: Table, c: Cursors, c': Cursors)
    requires Ordered(h, t, c) && c'.Follows(c)
    ensures Ordered(h, t, c')
  {
    forall p: nat | p < |t| && InPlace(h, t, p) && 0 < t[p].attempt && c'.read <= t[p].offset
      ensures Supported(h, t, c', t[p])
    {
      assert Supported(h, t, c, t[p]);
      forall j: nat | j < t[p].attempt
        ensures Blocks(h, t, c', Position(h, |t|, t[p].key, j), t[p].offset)
      {
        assert Blocks(h, t, c, Position(h, |t|, t[p].key, j), t[p].offset);
      }
    }
  }

  lemma {:induction false} ProbeReaches(h: SlotHash, t: Table, c: Cursors, p: nat, from: nat)
    requires p < |t| && Live(c, t[p]) && InPlace(h, t, p) && Supported(h, t, c, t[p])
    requires from <= t[p].attempt <= MAXIMUM_ITERATIONS - 2
    ensures var found := Probe(h, t, c, t[p].key, from);
            found.Some? && t[p].offset <= found.value.offset
    decreases t[p].attempt - from
  {
    if from < t[p].attempt {
      assert Blocks(h, t, c, Position(h, |t|, t[p].key, from), t[p].offset);
      ProbeReaches(h, t, c, p, from + 1);
    }
  }

  /** A live record in its own slot at attempt 0..6 is found, or a copy of its key at least as new. */
  lemma NoFalseMiss(h: SlotHash, t: Table, c: Cursors, p: nat)
    requires Ordered(h, t, c)
    requires p < |t| && Live(c, t[p]) && InPlace(h, t, p) && t[p].attempt <= MAXIMUM_ITERATIONS - 2
    ensures var found := Lookup(h, t, c, t[p].key);
            found.Some? && t[p].offset <= found.value.offset
  {
    ProbeReaches(h, t, c, p, 0);
  }

  // ---------------------------------------------------------------------------------------------
  // Runs
  // ---------------------------------------------------------------------------------------------

  /** What happens to an index: blobs are stored, and the cursors move. */
  datatype Op = Store(key: Key, at: Location) | Move(to: Cursors)

  datatype Index = Index(table: Table, cursors: Cursors)

  function Apply(h: SlotHash, x: Index, op: Op): Index {
    match op
    case Store(key, at) => x.(table := Insert(h, x.table, x.cursors, key, at))
    case Move(to) => x.(cursors := to)
  }

  /** Only blobs between the cursors are stored, and cursors do not move back. */
  predicate Allowed(x: Index, op: Op) {
    match op
    case Store(key, at) => x.cursors.Contains(at.offset, at.length)
    case Move(to) => to.Follows(x.cursors)
  }

  function Run(h: SlotHash, x: Index, ops: seq<Op>): Index
    decreases |ops|
  {
    if ops == [] then x else Run(h, Apply(h, x, ops[0]), ops[1..])
  }

  predicate AllowedRun(h: SlotHash, x: Index, ops: seq<Op>)
    decreases |ops|
  {
    ops == [] || (Allowed(x, ops[0]) && AllowedRun(h, Apply(h, x, ops[0]), ops[1..]))
  }

  /** Somewhere in the run a record at its last slot is overwritten by an older one. */
  predicate RunDropsNewer(h: SlotHash, x: Index, ops: seq<Op>)
    decreases |ops|
  {
    ops != [] &&
    ((ops[0].Store? &&
      ChainDropsNewer(h, x.table, x.cursors, Record(ops[0].key, 0, ops[0].at.offset, ops[0].at.length),
                      MAXIMUM_ITERATIONS)) ||
     RunDropsNewer(h, Apply(h, x, ops[0]), ops[1..]))
  }

  lemma {:induction false} RunKeepsOrder(h: SlotHash, x: Index, ops: seq<Op>)
    requires Ordered(h, x.table, x.cursors) && AllowedRun(h, x, ops) && !RunDropsNewer(h, x, ops)
    ensures var y := Run(h, x, ops); Ordered(h, y.table, y.cursors)
    decreases |ops|
  {
    if ops != [] {
      match ops[0] {
        case Store(key, at) =>
          ChainKeepsOrder(h, x.table, x.cursors, Record(key, 0, at.offset, at.length), MAXIMUM_ITERATIONS);
        case Move(to) =>
          AdvanceKeepsOrder(h, x.table, x.cursors, to);
      }
      RunKeepsOrder(h, Apply(h, x, ops[0]), ops[1..]);
    }
  }

  predicate Blank(t: Table) {
    forall p | 0 <= p < |t| :: t[p] == BLANK
  }

  /** No live record is missed after any run on a fresh index that never drops a newer record. */
  lemma RunHasNoFalseMisses(h: SlotHash, x: Index, ops: seq<Op>, p: nat)
    requires Blank(x.table) && AllowedRun(h, x, ops) && !RunDropsNewer(h, x, ops)
    requires var y := Run(h, x, ops);
             p < |y.table| && Live(y.cursors, y.table[p]) && InPlace(h, y.table, p) &&
             y.table[p].attempt <= MAXIMUM_ITERATIONS - 2
    ensures var y := Run(h, x, ops);
            var found := Lookup(h, y.table, y.cursors, y.table[p].key);
            found.Some? && y.table[p].offset <= found.value.offset
  {
    RunKeepsOrder(h, x, ops);
    var y := Run(h, x, ops);
    NoFalseMiss(h, y.table, y.cursors, p);
  }

  // ---------------------------------------------------------------------------------------------
  // When a record survives every later move of the read cursor
  // ---------------------------------------------------------------------------------------------

  /** A lookup of the key returns what is in its slot for this attempt, if it gets there. */
  predicate Answers(h: SlotHash, t: Table, key: Key, j: nat) {
    var s := t[Position(h, |t|, key, j)]; s.key == key && s.attempt == j
  }

  /** The key has a record at attempt j, and from there back to attempt 0 all slots last as long as offset o. */
  predicate LastsFrom(h: SlotHash, t: Table, c: Cursors, key: Key, o: int, j: nat) {
    Answers(h, t, key, j) && forall i: nat | i <= j :: Blocks(h, t, c, Position(h, |t|, key, i), o)
  }

  /** Where a successful lookup ended, and what it passed on the way. */
  lemma {:induction false} ProbeEndsAt(h: SlotHash, t: Table, c: Cursors, key: Key, from: nat) returns (j: nat)
    requires Probe(h, t, c, key, from).Some?
    ensures from <= j <= MAXIMUM_ITERATIONS - 2 && Answers(h, t, key, j)
    ensures forall i: nat | from <= i < j :: !Answers(h, t, key, i)
    ensures forall i: nat | from <= i <= j :: var q := Position(h, |t|, key, i); Live(c, t[q]) && InPlace(h, t, q)
    decreases MAXIMUM_ITERATIONS - from
  {
    j := from;
    if !Answers(h, t, key, from) {
      j := ProbeEndsAt(h, t, c, key, from + 1);
    }
  }

  lemma {:induction false} ProbeSucceeds(h: SlotHash, t: Table, c: Cursors, key: Key, from: nat, j: nat)
    requires from <= j <= MAXIMUM_ITERATIONS - 2 && Answers(h, t, key, j)
    requires forall i: nat | i <= j :: var q := Position(h, |t|, key, i); Live(c, t[q]) && InPlace(h, t, q)
    ensures Probe(h, t, c, key, from).Some?
    decreases j - from
  {
    var q := Position(h, |t|, key, from);
    assert Live(c, t[q]) && InPlace(h, t, q);
    if from < j {
      ProbeSucceeds(h, t, c, key, from + 1, j);
    }
  }

  lemma BlocksLater(h: SlotHash, t: Table, c: Cursors, q: nat, o: int, c': Cursors)
    requires q < |t| && c'.Follows(c) && c'.read <= o && Blocks(h, t, c, q, o)
    ensures Live(c', t[q]) && InPlace(h, t, q)
  {
  }

  lemma LastingIsFound(h: SlotHash, t: Table, c: Cursors, key: Key, o: int, j: nat, c': Cursors)
    requires LastsFrom(h, t, c, key, o, j) && j <= MAXIMUM_ITERATIONS - 2 && c'.Follows(c) && c'.read <= o
    ensures Lookup(h, t, c', key).Some?
  {
    hide Position, Live, InPlace, Blocks;
    forall i: nat | i <= j ensures var q := Position(h, |t|, key, i); Live(c', t[q]) && InPlace(h, t, q) {
      assert Blocks(h, t, c, Position(h, |t|, key, i), o);
      BlocksLater(h, t, c, Position(h, |t|, key, i), o, c');
    }
    ProbeSucceeds(h, t, c', key, 0, j);
  }

  /** What is found with Read at offset o lasts as long as offset o. */
  lemma FoundIsLasting(h: SlotHash, t: Table, c: Cursors, key: Key, o: uint64) returns (j: nat)
    requires c.read <= o && Lookup(h, t, Cursors(o, c.write), key).Some?
    ensures LastsFrom(h, t, c, key, o, j) && forall i: nat | i < j :: !Answers(h, t, key, i)
  {
    hide Position, Answers, InPlace, Probe;
    j := ProbeEndsAt(h, t, Cursors(o, c.write), key, 0);
    forall i: nat | i <= j ensures Blocks(h, t, c, Position(h, |t|, key, i), o) {
      var q := Position(h, |t|, key, i);
      assert Live(Cursors(o, c.write), t[q]) && InPlace(h, t, q);
    }
  }

  /**
   * Exactly when the key of a live record at attempt 0..6 is found for as long as that record is live,
   * however far the cursors move: when some record of the key at its attempt or an earlier one, and every
   * slot probed before that, is live, in place and at least as new.
   */
  lemma SurvivesIffSupported(h: SlotHash, t: Table, c: Cursors, p: nat)
    requires p < |t| && Live(c, t[p]) && InPlace(h, t, p) && t[p].attempt <= MAXIMUM_ITERATIONS - 2
    ensures (forall c': Cursors | c'.Follows(c) && Live(c', t[p]) :: Lookup(h, t, c', t[p].key).Some?)
       <==> (exists j: nat :: j <= t[p].attempt && LastsFrom(h, t, c, t[p].key, t[p].offset, j))
  {
    hide Lookup, LastsFrom;
    var r := t[p];
    if j: nat :| j <= r.attempt && LastsFrom(h, t, c, r.key, r.offset, j) {
      forall c': Cursors | c'.Follows(c) && Live(c', r) ensures Lookup(h, t, c', r.key).Some? {
        LastingIsFound(h, t, c, r.key, r.offset, j, c');
      }
    } else {
      var c' := Cursors(r.offset, c.write);
      assert c'.Follows(c) && Live(c', r);
      if Lookup(h, t, c', r.key).Some? {
        var j := FoundIsLasting(h, t, c, r.key, r.offset);
        assert Answers(h, t, r.key, r.attempt);
      }
    }
  }

  // ---------------------------------------------------------------------------------------------
  // Newest wins
  // ---------------------------------------------------------------------------------------------

  lemma {:induction false} ChainSparesNewer(h: SlotHash, t: Table, c: Cursors, r: Record, budget: nat, p: nat)
    requires p < |t| && Live(c, t[p]) && InPlace(h, t, p) && t[p].attempt == 0 && r.offset < t[p].offset
    ensures PutChain(h, t, c, r, budget)[p] == t[p]
    decreases budget
  {
    if 0 < budget {
      var s := PutRecord(h, t, c, r);
      assert s.table[p] == t[p];
      if s.carried.Some? {
        ChainSparesNewer(h, s.table, c, s.carried.value, budget - 1, p);
      }
    }
  }

  /** A blob newer than everything live is kept at its first slot, and the next lookup returns it. */
  lemma NewestWins(h: SlotHash, t: Table, c: Cursors, key: Key, at: Location, c': Cursors)
    requires forall p | 0 <= p < |t| && Live(c, t[p]) :: t[p].offset < at.offset
    requires c.Contains(at.offset, at.length) && c'.Contains(at.offset, at.length)
    ensures Insert(h, t, c, key, at)[Position(h, |t|, key, 0)] == Record(key, 0, at.offset, at.length)
    ensures Lookup(h, Insert(h, t, c, key, at), c', key) == Some(at)
  {
    var r := Record(key, 0, at.offset, at.length);
    var p := Position(h, |t|, key, 0);
    var s := PutRecord(h, t, c, r);
    assert s.table[p] == r;
    if s.carried.Some? {
      ChainSparesNewer(h, s.table, c, s.carried.value, MAXIMUM_ITERATIONS - 1, p);
    }
  }

  // ---------------------------------------------------------------------------------------------
  // Displacement cannot cycle
  // ---------------------------------------------------------------------------------------------

  /** How many more slots a record can be pushed to. */
  function Slack(r: Record): nat {
    if r.attempt < MAXIMUM_ITERATIONS - 1 then MAXIMUM_ITERATIONS - 1 - r.attempt else 0
  }

  /** The slack of the first k slots, counting records that are live and in place. */
  function TableSlack(h: SlotHash, t: Table, c: Cursors, k: nat): (slack: nat)
    requires k <= |t|
    ensures slack <= (MAXIMUM_ITERATIONS - 1) * k
  {
    if k == 0 then 0
    else TableSlack(h, t, c, k - 1) + (if Live(c, t[k - 1]) && InPlace(h, t, k - 1) then Slack(t[k - 1]) else 0)
  }

  function Potential(h: SlotHash, t: Table, c: Cursors, r: Record): (slack: nat)
    ensures slack <= (MAXIMUM_ITERATIONS - 1) * (|t| + 1)
  {
    Slack(r) + TableSlack(h, t, c, |t|)
  }

  lemma {:induction false} UpdateSlack(h: SlotHash, t: Table, c: Cursors, r: Record, k: nat)
    requires Live(c, r) && k <= |t|
    ensures var p := Position(h, |t|, r.key, r.attempt);
            var was := if Live(c, t[p]) && InPlace(h, t, p) then Slack(t[p]) else 0;
            TableSlack(h, t[p := r], c, k) == TableSlack(h, t, c, k) + (if p < k then Slack(r) - was else 0)
    decreases k
  {
    if 0 < k {
      UpdateSlack(h, t, c, r, k - 1);
    }
  }

  /** Every move of a record to a next slot uses up one unit. */
  lemma MoveDropsPotential(h: SlotHash, t: Table, c: Cursors, r: Record)
    requires Live(c, r) && r.attempt < MAXIMUM_ITERATIONS && PutRecord(h, t, c, r).carried.Some?
    ensures var s := PutRecord(h, t, c, r);
            Potential(h, s.table, c, s.carried.value) + 1 == Potential(h, t, c, r) &&
            Live(c, s.carried.value) && s.carried.value.attempt < MAXIMUM_ITERATIONS &&
            s.carried.value.offset <= r.offset
  {
    UpdateSlack(h, t, c, r, |t|);
  }

  datatype Outcome = Outcome(table: Table, moves: nat)

  /** Insertion without the cap on iterations. It ends, within 7 * (slots + 1) moves. */
  function UncappedChain(h: SlotHash, t: Table, c: Cursors, r: Record): (o: Outcome)
    requires Live(c, r) && r.attempt < MAXIMUM_ITERATIONS
    ensures o.moves <= (MAXIMUM_ITERATIONS - 1) * (|t| + 1)
    ensures o.moves <= Potential(h, t, c, r)
    decreases Potential(h, t, c, r)
  {
    var s := PutRecord(h, t, c, r);
    if s.carried.None? then Outcome(s.table, 0)
    else
      MoveDropsPotential(h, t, c, r);
      var o := UncappedChain(h, s.table, c, s.carried.value);
      Outcome(o.table, o.moves + 1)
  }

  /** The cap changes the outcome only for chains of `budget` moves or more. */
  lemma {:induction false} CapIsHarmless(h: SlotHash, t: Table, c: Cursors, r: Record, budget: nat)
    requires Live(c, r) && r.attempt < MAXIMUM_ITERATIONS && UncappedChain(h, t, c, r).moves < budget
    ensures PutChain(h, t, c, r, budget) == UncappedChain(h, t, c, r).table
    decreases budget
  {
    hide PutRecord, Potential;
    var s := PutRecord(h, t, c, r);
    if s.carried.Some? {
      MoveDropsPotential(h, t, c, r);
      CapIsHarmless(h, s.table, c, s.carried.value, budget - 1);
    }
  }

  // ---------------------------------------------------------------------------------------------
  // What an insertion keeps
  // ---------------------------------------------------------------------------------------------

  /** The record is in the table, in a slot of its own. */
  ghost predicate Resident(h: SlotHash, t: Table, x: Record) {
    exists p: nat :: p < |t| && t[p] == x && InPlace(h, t, p)
  }

  /** The same blob, at whatever attempt. */
  predicate SameBlob(x: Record, y: Record) {
    x.key == y.key && x.offset == y.offset && x.length == y.length
  }

  /** The blob is in the table, at the same attempt or a later one. */
  ghost predicate Survives(h: SlotHash, t: Table, x: Record) {
    exists y: Record :: SameBlob(x, y) && x.attempt <= y.attempt && Resident(h, t, y)
  }

  /** Between two live records in place the slot goes to the newer one, and to the one that comes last on a tie. */
  lemma SlotGoesToNewer(h: SlotHash, t: Table, c: Cursors, r: Record)
    requires var p := Position(h, |t|, r.key, r.attempt);
             Live(c, t[p]) && InPlace(h, t, p) && t[p].attempt < MAXIMUM_ITERATIONS - 1
    ensures var p := Position(h, |t|, r.key, r.attempt);
            PutRecord(h, t, c, r).table == if r.offset < t[p].offset then t else t[p := r]
  {
  }

  /** One putRecord() call keeps every live record that has a next slot, or carries it on to that. */
  lemma StepKeepsRecord(h: SlotHash, t: Table, c: Cursors, r: Record, x: Record)
    requires Live(c, x) && x.attempt < MAXIMUM_ITERATIONS - 1 && (x == r || Resident(h, t, x))
    ensures var s := PutRecord(h, t, c, r);
            Resident(h, s.table, x) || s.carried == Some(x.(attempt := x.attempt + 1))
  {
    var s, p := PutRecord(h, t, c, r), Position(h, |t|, r.key, r.attempt);
    if x == r {
      if s.table == t[p := r] {
        assert s.table[p] == x && InPlace(h, s.table, p);
      }
    } else {
      var q: nat :| q < |t| && t[q] == x && InPlace(h, t, q);
      if s.table[q] == x {
        assert InPlace(h, s.table, q);
      }
    }
  }

  /** A live record at its last slot is replaced, or the one that is carried has no next slot. */
  lemma StepMayLose(h: SlotHash, t: Table, c: Cursors, r: Record) returns (lost: Option<Record>)
    ensures var s := PutRecord(h, t, c, r);
            lost.Some? ==> Live(c, r) ==>
              s.carried.None? && Live(c, lost.value) && lost.value.attempt >= MAXIMUM_ITERATIONS - 1
    ensures var s := PutRecord(h, t, c, r);
            forall x: Record | Live(c, x) && MAXIMUM_ITERATIONS - 1 <= x.attempt && (x == r || Resident(h, t, x)) ::
              Resident(h, s.table, x) || lost == Some(x)
  {
    var s, p := PutRecord(h, t, c, r), Position(h, |t|, r.key, r.attempt);
    lost := None;
    if s.table == t {
      if r.attempt >= MAXIMUM_ITERATIONS - 1 && !Resident(h, t, r) {
        lost := Some(r);
      }
    } else if Live(c, t[p]) && t[p].attempt >= MAXIMUM_ITERATIONS - 1 && InPlace(h, t, p) {
      lost := Some(t[p]);
    }
    forall x: Record | Live(c, x) && MAXIMUM_ITERATIONS - 1 <= x.attempt && (x == r || Resident(h, t, x))
      ensures Resident(h, s.table, x) || lost == Some(x)
    {
      if x == r {
        if s.table == t[p := r] {
          assert s.table[p] == x && InPlace(h, s.table, p);
        }
      } else {
        var q: nat :| q < |t| && t[q] == x && InPlace(h, t, q);
        if s.table[q] == x {
          assert InPlace(h, s.table, q);
        }
      }
    }
  }

  /** After that many putRecord() calls a record is still carried. */
  predicate ChainIsCut(h: SlotHash, t: Table, c: Cursors, r: Record, budget: nat)
    decreases budget
  {
    budget == 0 ||
    var s := PutRecord(h, t, c, r);
    s.carried.Some? && ChainIsCut(h, s.table, c, s.carried.value, budget - 1)
  }

  lemma CarriedIsLive(h: SlotHash, t: Table, c: Cursors, r: Record)
    requires Live(c, r) && PutRecord(h, t, c, r).carried.Some?
    ensures Live(c, PutRecord(h, t, c, r).carried.value)
  {
  }

  lemma ResidentSurvives(h: SlotHash, t: Table, x: Record)
    requires Resident(h, t, x)
    ensures Survives(h, t, x)
  {
    assert SameBlob(x, x);
  }

  lemma SurvivesEarlier(h: SlotHash, t: Table, x: Record)
    requires Survives(h, t, x.(attempt := x.attempt + 1))
    ensures Survives(h, t, x)
  {
    var y :| SameBlob(x.(attempt := x.attempt + 1), y) && x.attempt + 1 <= y.attempt && Resident(h, t, y);
    assert SameBlob(x, y);
  }

  /**
   * A chain of putRecord() calls keeps every live record, and the new one, but at most one: a record that
   * has gone through all its slots, or the one that is still carried when the cap cuts the chain off.
   */
  lemma {:induction false} ChainKeepsAllButOne(h: SlotHash, t: Table, c: Cursors, r: Record, budget: nat)
    returns (lost: Option<Record>)
    requires Live(c, r)
    ensures lost.Some? ==>
              Live(c, lost.value) &&
              (lost.value.attempt >= MAXIMUM_ITERATIONS - 1 || ChainIsCut(h, t, c, r, budget))
    ensures forall x: Record | Live(c, x) && (x == r || Resident(h, t, x)) ::
              Survives(h, PutChain(h, t, c, r, budget), x) || (lost.Some? && SameBlob(x, lost.value))
    decreases budget
  {
    hide PutRecord, Live, Resident, Survives;
    var t' := PutChain(h, t, c, r, budget);
    if budget == 0 {
      lost := Some(r);
      forall x: Record | Resident(h, t, x) ensures Survives(h, t, x) {
        ResidentSurvives(h, t, x);
      }
    } else {
      var s := PutRecord(h, t, c, r);
      lost := StepMayLose(h, t, c, r);
      var later := None;
      if s.carried.Some? {
        CarriedIsLive(h, t, c, r);
        later := ChainKeepsAllButOne(h, s.table, c, s.carried.value, budget - 1);
        lost := later;
      }
      forall x: Record | Live(c, x) && (x == r || Resident(h, t, x))
        ensures Survives(h, t', x) || (lost.Some? && SameBlob(x, lost.value))
      {
        if x.attempt < MAXIMUM_ITERATIONS - 1 {
          StepKeepsRecord(h, t, c, r, x);
        }
        if s.carried.None? {
          if Resident(h, t', x) {
            ResidentSurvives(h, t', x);
          }
        } else if !Resident(h, s.table, x) && Survives(h, t', s.carried.value) {
          SurvivesEarlier(h, t', x);
        }
      }
    }
  }

  /** The cap cuts off exactly the chains of that many moves or more. */
  lemma {:induction false} ChainIsCutIff(h: SlotHash, t: Table, c: Cursors, r: Record, budget: nat)
    requires Live(c, r) && r.attempt < MAXIMUM_ITERATIONS
    ensures ChainIsCut(h, t, c, r, budget) <==> budget <= UncappedChain(h, t, c, r).moves
    decreases budget
  {
    hide PutRecord, Potential;
    if budget > 0 && PutRecord(h, t, c, r).carried.Some? {
      MoveDropsPotential(h, t, c, r);
      var s := PutRecord(h, t, c, r);
      ChainIsCutIff(h, s.table, c, s.carried.value, budget - 1);
    }
  }

  /** So an insertion loses nothing live unless a record has no next slot, or it takes eight moves or more. */
  lemma InsertKeepsAllButOne(h: SlotHash, t: Table, c: Cursors, key: Key, at: Location)
    returns (lost: Option<Record>)
    requires c.Contains(at.offset, at.length)
    ensures var r := Record(key, 0, at.offset, at.length);
            lost.Some? ==>
              Live(c, lost.value) &&
              (lost.value.attempt >= MAXIMUM_ITERATIONS - 1 ||
               MAXIMUM_ITERATIONS <= UncappedChain(h, t, c, r).moves)
    ensures var r := Record(key, 0, at.offset, at.length);
            forall x: Record | Live(c, x) && (x == r || Resident(h, t, x)) ::
              Survives(h, Insert(h, t, c, key, at), x) || (lost.Some? && SameBlob(x, lost.value))
  {
    hide PutChain, UncappedChain, ChainIsCut, Survives, Resident;
    var r := Record(key, 0, at.offset, at.length);
    ChainIsCutIff(h, t, c, r, MAXIMUM_ITERATIONS);
    lost := ChainKeepsAllButOne(h, t, c, r, MAXIMUM_ITERATIONS);
  }

  // ---------------------------------------------------------------------------------------------
  // Soundness
  // ---------------------------------------------------------------------------------------------

  type History = set<(Key, Location)>

  /** The pair was stored, or is what a blank slot reads as. */
  predicate Known(stored: History, key: Key, at: Location) {
    (key, at) in stored || (key == BLANK.key && at == Location(BLANK.offset, BLANK.length))
  }

  predicate Recorded(t: Table, stored: History) {
    forall p | 0 <= p < |t| :: Known(stored, t[p].key, Location(t[p].offset, t[p].length))
  }

  lemma {:induction false} ChainKeepsRecorded(h: SlotHash, t: Table, c: Cursors, r: Record, budget: nat,
                                              stored: History)
    requires Recorded(t, stored) && Known(stored, r.key, Location(r.offset, r.length))
    ensures Recorded(PutChain(h, t, c, r, budget), stored)
    decreases budget
  {
    if 0 < budget {
      var s := PutRecord(h, t, c, r);
      if s.carried.Some? {
        ChainKeepsRecorded(h, s.table, c, s.carried.value, budget - 1, stored);
      }
    }
  }

  lemma InsertKeepsRecorded(h: SlotHash, t: Table, c: Cursors, key: Key, at: Location, stored: History)
    requires Recorded(t, stored)
    ensures Recorded(Insert(h, t, c, key, at), stored + {(key, at)})
  {
    ChainKeepsRecorded(h, t, c, Record(key, 0, at.offset, at.length), MAXIMUM_ITERATIONS, stored + {(key, at)});
  }

  /** Whatever a lookup returns was stored under that very key, and lies between the cursors. */
  lemma {:induction false} ProbeIsSound(h: SlotHash, t: Table, c: Cursors, key: Key, attempt: nat, stored: History)
    requires Recorded(t, stored) && Probe(h, t, c, key, attempt).Some?
    ensures var at := Probe(h, t, c, key, attempt).value;
            Known(stored, key, at) && c.Contains(at.offset, at.length)
    decreases MAXIMUM_ITERATIONS - attempt
  {
    var p := Position(h, |t|, key, attempt);
    if !(t[p].key == key && t[p].attempt == attempt) {
      ProbeIsSound(h, t, c, key, attempt + 1, stored);
    }
  }

  /** The exception is real: on a blank table the zero key is found as soon as Write leaves 0. */
  lemma BlankSlotIsFound(h: SlotHash, t: Table, c: Cursors)
    requires Blank(t)
    ensures Lookup(h, t, c, BLANK.key).Some? <==> c.read == 0 < c.write
  {
  }

  // ---------------------------------------------------------------------------------------------
  // A false miss
  // ---------------------------------------------------------------------------------------------

  /**
   * Twelve slots. Keys 4 to 10 push key 3 from slot 0 to slot 7, where it pushes key 2 on to slot
   * 11. Key 11 then pushes key 1 from slot 10 to slot 7, where it replaces key 3, now at its last
   * slot.
   */
  function ExampleHash(key: Key, attempt: nat): nat {
    if key == 1 then (if attempt == 0 then 10 else 7)
    else if key == 2 then (if attempt == 0 then 7 else 11)
    else if key == 3 then attempt
    else if key == 11 then 10
    else if 4 <= key then key - 4
    else 0
  }

  const EXAMPLE_CURSORS: Cursors := Cursors(1, 20)

  /** The table before key k is stored; key k is stored at offset k. */
  function ExampleTable(k: nat): (t: Table)
    requires 1 <= k <= 12
    ensures |t| == 12
  {
    seq(12, i requires 0 <= i < 12 =>
      if 4 <= k && i < k - 4 && i < 7 then Record(i + 4, 0, i + 4, 1)
      else if 4 <= k <= 11 && i == k - 4 then Record(3, k - 4, 3, 1)
      else if i == 7 then (if k < 3 then BLANK else if k <= 10 then Record(2, 0, 2, 1) else Record(1, 1, 1, 1))
      else if i == 10 then (if k < 2 then BLANK else if k <= 11 then Record(1, 0, 1, 1) else Record(11, 0, 11, 1))
      else if i == 11 then (if k <= 10 then BLANK else Record(2, 1, 2, 1))
      else BLANK)
  }

  function ExampleOps(k: nat): seq<Op>
    requires 1 <= k <= 12
    decreases 12 - k
  {
    if k == 12 then [Move(Cursors(2, 20))] else [Store(k, Location(k, 1))] + ExampleOps(k + 1)
  }

  lemma ExampleLands(k: nat)
    requires 1 <= k < 4
    ensures PutRecord(ExampleHash, ExampleTable(k), EXAMPLE_CURSORS, Record(k, 0, k, 1))
         == Step(ExampleTable(k + 1), None)
  {
  }

  lemma ExamplePushes(k: nat)
    requires 4 <= k <= 11
    ensures var p, t := if k == 11 then 10 else k - 4, ExampleTable(k);
            PutRecord(ExampleHash, t, EXAMPLE_CURSORS, Record(k, 0, k, 1)) ==
            Step(t[p := Record(k, 0, k, 1)], Some(t[p].(attempt := t[p].attempt + 1)))
  {
  }

  lemma ExampleSecond(k: nat)
    requires 4 <= k < 10
    ensures PutRecord(ExampleHash, ExampleTable(k)[k - 4 := Record(k, 0, k, 1)], EXAMPLE_CURSORS,
                      Record(3, k - 3, 3, 1)) == Step(ExampleTable(k + 1), None)
  {
    var t := ExampleTable(k);
    assert t[k - 3] == BLANK && Position(ExampleHash, 12, 3, k - 3) == k - 3;
    assert t[k - 4 := Record(k, 0, k, 1)][k - 3 := Record(3, k - 3, 3, 1)] == ExampleTable(k + 1);
    hide ExampleTable, ExampleHash;
  }

  lemma ExampleLast()
    ensures PutRecord(ExampleHash, ExampleTable(11)[10 := Record(11, 0, 11, 1)], EXAMPLE_CURSORS,
                      Record(1, 1, 1, 1)) == Step(ExampleTable(12), None)
  {
  }

  const EXAMPLE_TENTH: Table := ExampleTable(10)[6 := Record(10, 0, 10, 1)]

  lemma ExampleThird()
    ensures PutRecord(ExampleHash, EXAMPLE_TENTH, EXAMPLE_CURSORS, Record(3, 7, 3, 1))
         == Step(EXAMPLE_TENTH[7 := Record(3, 7, 3, 1)], Some(Record(2, 1, 2, 1)))
  {
    var t := EXAMPLE_TENTH;
    assert t[7] == Record(2, 0, 2, 1) && |t| == 12;
    assert Position(ExampleHash, 12, 3, 7) == 7 && Position(ExampleHash, 12, 2, 0) == 7;
    hide ExampleTable, ExampleHash;
  }

  lemma ExampleFourth()
    ensures PutRecord(ExampleHash, EXAMPLE_TENTH[7 := Record(3, 7, 3, 1)], EXAMPLE_CURSORS, Record(2, 1, 2, 1))
         == Step(ExampleTable(11), None)
  {
    var t := EXAMPLE_TENTH[7 := Record(3, 7, 3, 1)];
    assert t[11] == BLANK && Position(ExampleHash, 12, 2, 1) == 11;
    assert t[11 := Record(2, 1, 2, 1)] == ExampleTable(11);
    assert Position(ExampleHash, 12, BLANK.key, BLANK.attempt) != 11;
    hide ExampleTable, ExampleHash;
  }

  /** Chains of two and of three calls. */
  lemma ChainOfThree(h: SlotHash, t: Table, c: Cursors, r: Record, budget: nat)
    requires 3 <= budget
    ensures var s1 := PutRecord(h, t, c, r);
            s1.carried.Some? ==>
              var s2 := PutRecord(h, s1.table, c, s1.carried.value);
              (s2.carried.None? ==> PutChain(h, t, c, r, budget) == s2.table) &&
              (s2.carried.Some? ==>
                 var s3 := PutRecord(h, s2.table, c, s2.carried.value);
                 s3.carried.None? ==> PutChain(h, t, c, r, budget) == s3.table)
  {
    hide PutRecord;
    var s1 := PutRecord(h, t, c, r);
    if s1.carried.Some? {
      var s2 := PutRecord(h, s1.table, c, s1.carried.value);
      if s2.carried.Some? {
        var s3 := PutRecord(h, s2.table, c, s2.carried.value);
        if s3.carried.None? {
          assert PutChain(h, s2.table, c, s2.carried.value, budget - 2) == s3.table;
        }
      }
    }
  }

  lemma ExampleSettles(k: nat)
    requires 4 <= k <= 11
    ensures PutChain(ExampleHash, ExampleTable(k), EXAMPLE_CURSORS, Record(k, 0, k, 1), MAXIMUM_ITERATIONS)
         == ExampleTable(k + 1)
  {
    hide PutRecord, PutChain;
    ExamplePushes(k);
    ChainOfThree(ExampleHash, ExampleTable(k), EXAMPLE_CURSORS, Record(k, 0, k, 1), MAXIMUM_ITERATIONS);
    if k == 10 {
      ExampleThird();
      ExampleFourth();
    } else if k < 10 {
      ExampleSecond(k);
    } else {
      ExampleLast();
    }
  }

  lemma ExampleInsert(k: nat)
    requires 1 <= k <= 11
    ensures Insert(ExampleHash, ExampleTable(k), EXAMPLE_CURSORS, k, Location(k, 1)) == ExampleTable(k + 1)
  {
    if k < 4 {
      ExampleLands(k);
    } else {
      ExampleSettles(k);
    }
  }

  lemma {:induction false} ExampleRun(k: nat)
    requires 1 <= k <= 12
    ensures var x := Index(ExampleTable(k), EXAMPLE_CURSORS);
            AllowedRun(ExampleHash, x, ExampleOps(k)) &&
            Run(ExampleHash, x, ExampleOps(k)) == Index(ExampleTable(12), Cursors(2, 20))
    decreases 12 - k
  {
    hide Insert, ExampleTable;
    var x, ops := Index(ExampleTable(k), EXAMPLE_CURSORS), ExampleOps(k);
    if k < 12 {
      ExampleInsert(k);
      assert ops[1..] == ExampleOps(k + 1);
      ExampleRun(k + 1);
    } else {
      assert ops[1..] == [];
    }
  }

  /** Slot p holds a live record in its place, at an attempt that lookups try, and its key is not found. */
  predicate Missed(h: SlotHash, x: Index, p: nat) {
    p < |x.table| && Live(x.cursors, x.table[p]) && InPlace(h, x.table, p) &&
    x.table[p].attempt <= MAXIMUM_ITERATIONS - 2 && Lookup(h, x.table, x.cursors, x.table[p].key).None?
  }

  lemma ExampleIsMissed()
    ensures Missed(ExampleHash, Index(ExampleTable(12), Cursors(2, 20)), 11)
  {
    assert ExampleTable(12)[11] == Record(2, 1, 2, 1);
    assert ExampleTable(12)[7] == Record(1, 1, 1, 1);
  }

  lemma ExampleIsBlank()
    ensures Blank(ExampleTable(1))
  {
  }

  /**
   * Without its hypothesis RunHasNoFalseMisses is false: eleven blobs stored at growing offsets in
   * a fresh index, and one move of the read cursor.
   */
  lemma FalseMissHappens()
    ensures exists h: SlotHash, x: Index, ops: seq<Op>, p: nat ::
              Blank(x.table) && AllowedRun(h, x, ops) && Missed(h, Run(h, x, ops), p)
  {
    hide ExampleTable, ExampleOps, Blank, AllowedRun, Run, Missed;
    ExampleIsBlank();
    ExampleRun(1);
    ExampleIsMissed();
  }
}
