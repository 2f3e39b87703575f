/**
 * The heap of pending jobs (worker_build_queue.go): container/heap's sift operations over the
 * comparison by priority and insertion order.
 */
module JobHeap {

  /** A pending job. The insertion order also identifies it. */
  datatype Entry = Entry(priority: int, order: nat)

  predicate Less(a: Entry, b: Entry) {
    a.priority < b.priority || (a.priority == b.priority && a.order < b.order)
  }

  /** Go truncates (0 - 1) / 2 to 0. */
  function Parent(i: nat): nat {
    if i == 0 then 0 else (i - 1) / 2
  }

  /** The entry is not less than its parent. */
  predicate Settled(h: seq<Entry>, i: nat)
    requires i < |h|
  {
    !Less(h[i], h[Parent(i)])
  }

  /** The entry, a child of k, is not less than the parent of k. */
  predicate Bridged(h: seq<Entry>, i: nat, k: nat)
    requires i < |h| && k < |h|
  {
    Parent(i) == k ==> !Less(h[i], h[Parent(k)])
  }

  predicate Ordered(h: seq<Entry>) {
    forall i: nat | i < |h| :: Settled(h, i)
  }

  function Swapped(h: seq<Entry>, i: nat, j: nat): (r: seq<Entry>)
    requires i < |h| && j < |h|
    ensures |r| == |h| && multiset(r) == multiset(h)
  {
    h[i := h[j]][j := h[i]]
  }

  lemma {:induction false} RootIsLeast(h: seq<Entry>, i: nat)
    requires Ordered(h) && i < |h|
    ensures !Less(h[i], h[0])
    decreases i
  {
    if 0 < i {
      RootIsLeast(h, Parent(i));
      assert Settled(h, i);
    }
  }

  /** Exchanging an entry with its greater parent moves the one possible violation up. */
  lemma SwapUp(h: seq<Entry>, i: nat, j: nat)
    requires j < |h| && i == Parent(j) && i != j && Less(h[j], h[i])
    requires forall k: nat | k < |h| && k != j :: Settled(h, k)
    requires forall k: nat | k < |h| :: Bridged(h, k, j)
    ensures var r := Swapped(h, i, j);
            (forall k: nat | k < |r| && k != i :: Settled(r, k)) && (forall k: nat | k < |r| :: Bridged(r, k, i))
  {
    var r := Swapped(h, i, j);
    forall k: nat | k < |r| && k != i ensures Settled(r, k) {
      assert k == j || Settled(h, k);
      assert Bridged(h, k, j);
    }
    forall k: nat | k < |r| ensures Bridged(r, k, i) {
      assert Settled(h, i);
      assert k == j || Settled(h, k);
    }
  }

  /** Exchanging an entry with its least child, if that is less, moves the violation down. */
  lemma SwapDown(h: seq<Entry>, i: nat, j: nat, n: nat)
    requires j < n <= |h| && i == Parent(j) && i != j && Less(h[j], h[i])
    requires forall k: nat | k < n && Parent(k) == i && k != i :: !Less(h[k], h[j])
    requires forall k: nat | k < n && Parent(k) != i :: Settled(h, k)
    requires forall k: nat | k < n :: 0 < i ==> Bridged(h, k, i)
    ensures var r := Swapped(h, i, j);
            (forall k: nat | k < n && Parent(k) != j :: Settled(r, k)) &&
            (forall k: nat | k < n :: Bridged(r, k, j)) && r[n..] == h[n..]
  {
    var r := Swapped(h, i, j);
    forall k: nat | k < n && Parent(k) != j ensures Settled(r, k) {
      assert Parent(k) == i || Settled(h, k);
      assert 0 < i ==> Bridged(h, j, i);
    }
    forall k: nat | k < n ensures Bridged(r, k, j) {
      assert Parent(k) == i || Settled(h, k);
    }
  }

  class Heap {
    var h: seq<Entry>

    constructor ()
      ensures h == []
    {
      h := [];
    }

    method Up(last: nat)
      requires last < |h|
      requires forall i: nat | i < |h| && i != last :: Settled(h, i)
      requires forall i: nat | i < |h| :: Bridged(h, i, last)
      modifies this
      ensures Ordered(h) && multiset(h) == multiset(old(h))
    {
      var j: nat := last;
      while true
        invariant j < |h| && multiset(h) == multiset(old(h))
        invariant forall i: nat | i < |h| && i != j :: Settled(h, i)
        invariant forall i: nat | i < |h| :: Bridged(h, i, j)
        decreases j
      {
        var i := Parent(j);
        if i == j || !Less(h[j], h[i]) {
          assert Settled(h, j);
          return;
        }
        SwapUp(h, i, j);
        h := Swapped(h, i, j);
        j := i;
      }
    }

    /** Sifts down from the root, within the first n entries. */
    method Down(n: nat)
      requires n <= |h| && forall i: nat | i < n && Parent(i) != 0 :: Settled(h, i)
      modifies this
      ensures |h| == |old(h)| && h[n..] == old(h)[n..] && multiset(h) == multiset(old(h))
      ensures forall i: nat | i < n :: Settled(h, i)
    {
      var i := 0;
      while true
        invariant |h| == |old(h)| && (i < n || n == 0) && h[n..] == old(h)[n..] && multiset(h) == multiset(old(h))
        invariant forall k: nat | k < n && Parent(k) != i :: Settled(h, k)
        invariant n == 0 || (i < n && forall k: nat | k < n :: 0 < i ==> Bridged(h, k, i))
        decreases n - i
      {
        var j1 := 2 * i + 1;
        if j1 >= n {
          break;
        }
        var j := j1;
        if j1 + 1 < n && Less(h[j1 + 1], h[j1]) {
          j := j1 + 1;
        }
        if !Less(h[j], h[i]) {
          break;
        }
        SwapDown(h, i, j, n);
        h := Swapped(h, i, j);
        i := j;
      }
    }

    method Push(e: Entry)
      requires Ordered(h)
      modifies this
      ensures Ordered(h) && multiset(h) == multiset(old(h)) + multiset{e}
    {
      forall i: nat | i < |h| ensures Settled(h + [e], i) {
        assert Settled(h, i);
      }
      h := h + [e];
      Up(|h| - 1);
    }

    /** The least entry of all is removed. */
    method Pop() returns (e: Entry)
      requires Ordered(h) && h != []
      modifies this
      ensures Ordered(h) && multiset(old(h)) == multiset(h) + multiset{e}
      ensures forall x | x in old(h) :: !Less(x, e)
    {
      forall i | 0 <= i < |h| ensures !Less(h[i], h[0]) {
        RootIsLeast(h, i);
      }
      var n := |h| - 1;
      forall i: nat | i < n && Parent(i) != 0 ensures Settled(Swapped(h, 0, n), i) {
        assert Settled(h, i);
      }
      h := Swapped(h, 0, n);
      Down(n);
      e := h[n];
      assert e == h[n..][0];
      assert h == h[..n] + [e];
      h := h[..n];
      forall i: nat | i < |h| ensures Settled(h, i) {
        assert Settled(h + [e], i);
      }
    }
  }
}
