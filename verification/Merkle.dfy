/**
 * Validation of size and checksum while data streams through (merkle_blob_access.go). The hash is
 * an arbitrary function.
 */
module Merkle {
  import opened DataStore

  type HashFunction = Bytes -> Bytes

  datatype Digest = Digest(hash: Bytes, size: nat)

  predicate Matches(h: HashFunction, want: Digest, data: Bytes) {
    |data| == want.size && h(data) == want.hash
  }

  /** The reader's state: bytes still expected, what went into the hash, and whether it complained. */
  datatype Checker = Checker(left: int, seen: Bytes, invalidated: bool)

  datatype Checked = Checked(checker: Checker, result: ReadResult)

  function Start(want: Digest): Checker {
    Checker(want.size, [], false)
  }

  /** One Read() call, given what the reader below returned. */
  function CheckRead(h: HashFunction, want: Digest, ck: Checker, inner: ReadResult): Checked {
    match inner
    case Data(b) =>
      var seen := ck.seen + b;
      if |b| > ck.left then Checked(Checker(ck.left, seen, true), Failed)
      else Checked(Checker(ck.left - |b|, seen, ck.invalidated), inner)
    case Eof =>
      if ck.left != 0 || h(ck.seen) != want.hash then Checked(ck.(invalidated := true), Failed)
      else Checked(ck, Eof)
    case Failed => Checked(ck, Failed)
  }

  datatype Validation = Validation(source: Source, invalidated: bool)

  /** What a source looks like through the validating reader, until its end or the first error. */
  function Validate(h: HashFunction, want: Digest, ck: Checker, src: Source): Validation
    decreases |src.chunks|
  {
    if src.chunks == [] then
      var r := CheckRead(h, want, ck, if src.failed then Failed else Eof);
      Validation(Source([], !r.result.Eof?), r.checker.invalidated)
    else
      var r := CheckRead(h, want, ck, Data(src.chunks[0]));
      if !r.result.Data? then Validation(Source([], true), r.checker.invalidated)
      else
        var v := Validate(h, want, r.checker, Source(src.chunks[1..], src.failed));
        Validation(Source([src.chunks[0]] + v.source.chunks, v.source.failed), v.invalidated)
  }

  lemma {:induction false} ValidateFrom(h: HashFunction, want: Digest, ck: Checker, src: Source)
    requires ck.left == want.size - |ck.seen| && 0 <= ck.left && !ck.invalidated
    ensures var v := Validate(h, want, ck, src);
            var data := ck.seen + Concat(src.chunks);
            v.source.chunks <= src.chunks &&
            |ck.seen| + |Concat(v.source.chunks)| <= want.size &&
            (!v.source.failed <==> !src.failed && Matches(h, want, data)) &&
            (!v.source.failed ==> v.source.chunks == src.chunks) &&
            (v.invalidated <==> |data| > want.size || (!src.failed && !Matches(h, want, data)))
    decreases |src.chunks|
  {
    if src.chunks == [] {
      assert ck.seen + Concat(src.chunks) == ck.seen;
    } else {
      var c, rest := src.chunks[0], Source(src.chunks[1..], src.failed);
      var r := CheckRead(h, want, ck, Data(c));
      assert |Concat(src.chunks)| == |c| + |Concat(rest.chunks)|;
      if r.result.Data? {
        ValidateFrom(h, want, r.checker, rest);
        assert ck.seen + Concat(src.chunks) == r.checker.seen + Concat(rest.chunks);
        assert src.chunks == [c] + rest.chunks;
      }
    }
  }

  /**
   * Never more bytes than the digest announces come through. The end of the data is reported if and
   * only if the source ended in order and all of its bytes match size and hash, and then they all
   * came through. Corruption is reported if and only if there is any.
   */
  lemma ValidateIsExact(h: HashFunction, want: Digest, src: Source)
    ensures var v := Validate(h, want, Start(want), src);
            var data := Concat(src.chunks);
            v.source.chunks <= src.chunks &&
            |Concat(v.source.chunks)| <= want.size &&
            (!v.source.failed <==> !src.failed && Matches(h, want, data)) &&
            (!v.source.failed ==> v.source.chunks == src.chunks) &&
            (v.invalidated <==> |data| > want.size || (!src.failed && !Matches(h, want, data)))
  {
    ValidateFrom(h, want, Start(want), src);
    assert [] + Concat(src.chunks) == Concat(src.chunks);
  }

  class ChecksumValidatingReader {
    const hash: HashFunction
    const expected: Digest
    var partialChecksum: Bytes
    var sizeLeft: int
    var invalidated: bool

    ghost function Value(): Checker
      reads this
    {
      Checker(sizeLeft, partialChecksum, invalidated)
    }

    constructor (hash: HashFunction, expected: Digest)
      ensures this.hash == hash && this.expected == expected && Value() == Start(expected)
    {
      this.hash, this.expected := hash, expected;
      partialChecksum, sizeLeft, invalidated := [], expected.size, false;
    }

    /** `inner` is what the reader below returns for this call. */
    method Read(inner: ReadResult) returns (result: ReadResult)
      modifies this
      ensures Checked(Value(), result) == CheckRead(hash, expected, old(Value()), inner)
    {
      if inner.Data? {
        partialChecksum := partialChecksum + inner.bytes;
        if |inner.bytes| > sizeLeft {
          invalidated := true;
          return Failed;
        }
        sizeLeft := sizeLeft - |inner.bytes|;
      }
      if inner.Eof? {
        if sizeLeft != 0 {
          invalidated := true;
          return Failed;
        }
        if hash(partialChecksum) != expected.hash {
          invalidated := true;
          return Failed;
        }
      }
      return inner;
    }
  }
}
