/**
 * What happens to the index of the concurrent system is a run of the index on its own: cursors that
 * only move forward, and blobs that are live when they are stored.
 */
module CircularIndex {
  import opened Wrappers
  import opened CircularSystem
  import T = OffsetTable

  /** The table and the cursors of the system. */
  function IndexOf(s: System): T.Index {
    T.Index(s.index.table, s.state.cursors)
  }

  /** What a step means for the index. */
  function OpsOfStep(cfg: Config, s: System, e: Event): seq<T.Op>
    requires cfg.geometry.Valid() && Possible(cfg, s, e)
  {
    match e
    case BeginPut(_, _) => [T.Move(Step(cfg, s, e).state.cursors)]
    case Delete(_) => [T.Move(Step(cfg, s, e).state.cursors)]
    case FinishPut(u) =>
      var up := s.uploads[u];
      if s.state.cursors.Contains(up.offset, up.size) then [T.Store(up.key, up.At())] else []
    case _ => []
  }

  function OpsOf(cfg: Config, s: System, events: seq<Event>): seq<T.Op>
    requires CanRun(cfg, s, events)
    decreases |events|
  {
    if events == [] then [] else OpsOfStep(cfg, s, events[0]) + OpsOf(cfg, Step(cfg, s, events[0]), events[1..])
  }

  lemma StepIsIndexRun(cfg: Config, s: System, e: Event)
    requires IndexInv(cfg, s) && Possible(cfg, s, e)
    ensures var ops, h := OpsOfStep(cfg, s, e), cfg.hashes.table;
            |ops| <= 1 && T.AllowedRun(h, IndexOf(s), ops) && T.Run(h, IndexOf(s), ops) == IndexOf(Step(cfg, s, e))
  {
    hide T.Insert;
    StepKeepsIndex(cfg, s, e);
    var ops, h := OpsOfStep(cfg, s, e), cfg.hashes.table;
    if |ops| == 1 {
      assert ops[1..] == [];
      assert T.Run(h, T.Apply(h, IndexOf(s), ops[0]), []) == T.Apply(h, IndexOf(s), ops[0]);
    }
  }

  lemma RunOfCons(h: T.SlotHash, x: T.Index, ops: seq<T.Op>, rest: seq<T.Op>)
    requires |ops| <= 1 && T.AllowedRun(h, x, ops) && T.AllowedRun(h, T.Run(h, x, ops), rest)
    ensures T.AllowedRun(h, x, ops + rest) && T.Run(h, x, ops + rest) == T.Run(h, T.Run(h, x, ops), rest)
  {
    hide T.Apply;
    if ops == [] {
      assert ops + rest == rest;
    } else {
      assert ops[1..] == [] && (ops + rest)[1..] == rest;
    }
  }

  lemma {:induction false} RunIsIndexRun(cfg: Config, s: System, events: seq<Event>)
    requires IndexInv(cfg, s) && CanRun(cfg, s, events)
    ensures var ops, h := OpsOf(cfg, s, events), cfg.hashes.table;
            T.AllowedRun(h, IndexOf(s), ops) && T.Run(h, IndexOf(s), ops) == IndexOf(Run(cfg, s, events))
    decreases |events|
  {
    hide IndexInv, Possible, Step, OpsOfStep, IndexOf;
    if events != [] {
      var s' := Step(cfg, s, events[0]);
      StepKeepsIndex(cfg, s, events[0]);
      StepIsIndexRun(cfg, s, events[0]);
      RunIsIndexRun(cfg, s', events[1..]);
      RunOfCons(cfg.hashes.table, IndexOf(s), OpsOfStep(cfg, s, events[0]), OpsOf(cfg, s', events[1..]));
    }
  }

  /**
   * No false misses under concurrency: after every run of the system on a fresh store, whatever its
   * transfers do, in which no record at its last slot was overwritten by an older one, each live record
   * in its own slot at attempt 0 to 6 makes a lookup of its key succeed.
   */
  lemma NoFalseMissInSystem(cfg: Config, s: System, events: seq<Event>, p: nat)
    requires Fresh(cfg, s) && CanRun(cfg, s, events)
    requires !T.RunDropsNewer(cfg.hashes.table, IndexOf(s), OpsOf(cfg, s, events))
    requires var y := Run(cfg, s, events);
             p < |y.index.table| && T.Live(y.state.cursors, y.index.table[p]) &&
             T.InPlace(cfg.hashes.table, y.index.table, p) &&
             y.index.table[p].attempt <= T.MAXIMUM_ITERATIONS - 2
    ensures var y := Run(cfg, s, events);
            Lookup(cfg, y, y.index.table[p].key).Some? &&
            var found := T.Lookup(cfg.hashes.table, y.index.table, y.state.cursors, y.index.table[p].key);
            found.Some? && y.index.table[p].offset <= found.value.offset
  {
    FreshIsFine(cfg, s);
    RunIsIndexRun(cfg, s, events);
    T.RunHasNoFalseMisses(cfg.hashes.table, IndexOf(s), OpsOf(cfg, s, events), p);
  }
}
