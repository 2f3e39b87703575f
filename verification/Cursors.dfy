/** The read/write cursors of the circular store, with the integer widths of the program. */
module Cursors {
  import opened Arithmetic

  const TWO_63: int := 0x8000_0000_0000_0000
  const TWO_64: int := 0x1_0000_0000_0000_0000

  type uint64 = x: int | 0 <= x < TWO_64
  type int64 = x: int | -TWO_63 <= x < TWO_63

  /** Unsigned 64-bit arithmetic; also the conversion uint64(x) of a signed value. */
  function Wrap(x: int): uint64 {
    x % TWO_64
  }

  lemma WrapIsIdentity(x: int)
    requires 0 <= x < TWO_64
    ensures Wrap(x) == x
  {
  }

  datatype Cursors = Cursors(read: uint64, write: uint64) {

    /** Whether a blob at this offset still corresponds to valid data. */
    predicate Contains(offset: uint64, length: int64) {
      var size := if length < 1 then 1 else length;
      read <= offset && offset <= write && Wrap(offset + size) <= write
    }

    /** The half of Contains that concerns the write cursor. */
    predicate Written(offset: uint64, length: int64) {
      offset <= write && Wrap(offset + (if length < 1 then 1 else length)) <= write
    }

    /** Neither cursor has moved back since `earlier`. */
    predicate Follows(earlier: Cursors) {
      earlier.read <= read && earlier.write <= write
    }

    /** The state every allocation has to leave behind for a data file of this size. */
    predicate InWindow(dataSize: nat) {
      read <= write <= read + dataSize
    }
  }

  /** The linear addresses of a blob lie between the cursors. Empty blobs occupy one byte. */
  predicate Inside(c: Cursors, offset: int, length: int) {
    c.read <= offset && offset + Max(1, length) <= c.write
  }

  /**
   * Contains is the interval test Inside, except for an offset between the cursors whose blob
   * would end at or past 2^64: the wrapped end passes the comparison. This is exact.
   */
  lemma ContainsIsInside(c: Cursors, offset: uint64, length: int64)
    ensures (c.Contains(offset, length) <==> Inside(c, offset, length))
       <==> !(c.read <= offset <= c.write && offset + Max(1, length) >= TWO_64)
  {
    var end := offset + Max(1, length);
    if end >= TWO_64 {
      assert Wrap(end) == end - TWO_64;
      assert Wrap(end) <= offset;
    } else {
      assert Wrap(end) == end;
    }
  }

  /** What the program loses at the wrap: a blob found "contained" although it ends past Write. */
  lemma ContainsWraps()
    ensures Cursors(0, TWO_64 - 1).Contains(TWO_64 - 1, 1)
    ensures !Inside(Cursors(0, TWO_64 - 1), TWO_64 - 1, 1)
  {
  }
}
