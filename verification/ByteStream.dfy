/**
 * Transfers over a ByteStream connection, in both directions: the client
 * (content_addressable_storage_blob_access.go) and the server (byte_stream_server.go). A source is
 * what successive reads of a blob deliver; a stream is what one side has sent, in order.
 */
module ByteStream {
  import opened Wrappers
  import opened DataStore

  // ---------------------------------------------------------------------------------------------
  // Writing
  // ---------------------------------------------------------------------------------------------

  datatype WriteRequest = WriteRequest(resourceName: string, writeOffset: int, finishWrite: bool, data: Bytes)

  /** The requests for these chunks, the first at the given offset, and the terminating one. */
  function Requests(name: string, offset: int, chunks: seq<Bytes>): seq<WriteRequest>
    decreases |chunks|
  {
    if chunks == [] then [WriteRequest(name, offset, true, [])]
    else [WriteRequest(name, offset, false, chunks[0])] + Requests("", offset + |chunks[0]|, chunks[1..])
  }

  lemma {:induction false} RequestCount(name: string, offset: int, chunks: seq<Bytes>)
    ensures |Requests(name, offset, chunks)| == |chunks| + 1
    decreases |chunks|
  {
    if chunks != [] {
      RequestCount("", offset + |chunks[0]|, chunks[1..]);
    }
  }

  /** What the client sends. A source that fails leaves the stream without the terminating request. */
  function Sent(name: string, r: Source): seq<WriteRequest> {
    RequestCount(name, 0, r.chunks);
    var all := Requests(name, 0, r.chunks);
    if r.failed then all[..|all| - 1] else all
  }

  /** The client's Put. */
  method SendBlob(name: string, r: Source) returns (sent: seq<WriteRequest>, ok: bool)
    ensures ok == !r.failed && sent == Sent(name, r)
  {
    hide Requests, Concat;
    var resourceName, writeOffset := name, 0;
    sent := [];
    var i := 0;
    assert r.chunks[0..] == r.chunks;
    while i < |r.chunks|
      invariant i <= |r.chunks|
      invariant sent + Requests(resourceName, writeOffset, r.chunks[i..]) == Requests(name, 0, r.chunks)
      invariant writeOffset + |Concat(r.chunks[i..])| == |Concat(r.chunks)|
      invariant resourceName == if i == 0 then name else ""
    {
      RequestsStep(resourceName, writeOffset, r.chunks, i);
      sent := sent + [WriteRequest(resourceName, writeOffset, false, r.chunks[i])];
      writeOffset := writeOffset + |r.chunks[i]|;
      resourceName := "";
      i := i + 1;
    }
    LastRequest(resourceName, writeOffset);
    assert r.chunks[i..] == [];
    if !r.failed {
      sent := sent + [WriteRequest(resourceName, writeOffset, true, [])];
    }
    ok := !r.failed;
  }

  lemma RequestsStep(name: string, offset: int, chunks: seq<Bytes>, i: nat)
    requires i < |chunks|
    ensures Requests(name, offset, chunks[i..])
         == [WriteRequest(name, offset, false, chunks[i])] + Requests("", offset + |chunks[i]|, chunks[i + 1..])
    ensures |Concat(chunks[i..])| == |chunks[i]| + |Concat(chunks[i + 1..])|
  {
    assert chunks[i..][1..] == chunks[i + 1..];
  }

  lemma LastRequest(name: string, offset: int)
    ensures Requests(name, offset, []) == [WriteRequest(name, offset, true, [])] && Concat([]) == []
  {
  }

  /** The server's reader: requests that are still to come, and what it keeps of earlier ones. */
  datatype Receiver = Receiver(stream: seq<WriteRequest>, writeOffset: int, data: Bytes, finishedWrite: bool)

  datatype Received = Received(receiver: Receiver, result: ReadResult)

  /** The next request is taken, if it may follow the earlier ones. */
  function NextRequest(r: Receiver): Option<Receiver> {
    if r.stream == [] || r.finishedWrite || r.stream[0].writeOffset != r.writeOffset then None
    else
      var request := r.stream[0];
      Some(Receiver(r.stream[1..], r.writeOffset + |request.data|, request.data, request.finishWrite))
  }

  function Take(data: Bytes, buffer: nat): nat {
    if |data| < buffer then |data| else buffer
  }

  function Deliver(r: Receiver, buffer: nat): Received {
    var n := Take(r.data, buffer);
    Received(r.(data := r.data[n..]), Data(r.data[..n]))
  }

  /** byteStreamWriteServerReader.Read. After an error the reader is not used any more. */
  function Receive(r: Receiver, buffer: nat): Received {
    if r.data != [] then Deliver(r, buffer)
    else if r.stream == [] then Received(r, if r.finishedWrite then Eof else Failed)
    else
      var next := NextRequest(r);
      if next.None? then Received(r.(stream := r.stream[1..]), Failed) else Deliver(next.value, buffer)
  }

  class WriteServerReader {
    var stream: seq<WriteRequest>
    var writeOffset: int
    var data: Bytes
    var finishedWrite: bool

    ghost function Value(): Receiver
      reads this
    {
      Receiver(stream, writeOffset, data, finishedWrite)
    }

    constructor (stream: seq<WriteRequest>)
      ensures Value() == Receiver(stream, 0, [], false)
    {
      this.stream, writeOffset, data, finishedWrite := stream, 0, [], false;
    }

    /** The stream's next request, which the caller has received, is accepted or not. */
    method SetRequest(request: WriteRequest) returns (ok: bool)
      modifies this
      ensures ok <==> !old(finishedWrite) && request.writeOffset == old(writeOffset)
      ensures if ok then
                Value() == Receiver(old(stream), old(writeOffset) + |request.data|, request.data, request.finishWrite)
              else Value() == old(Value())
    {
      if finishedWrite || request.writeOffset != writeOffset {
        return false;
      }
      writeOffset := writeOffset + |request.data|;
      data := request.data;
      finishedWrite := request.finishWrite;
      ok := true;
    }

    method Read(buffer: nat) returns (result: ReadResult)
      modifies this
      ensures Received(Value(), result) == Receive(old(Value()), buffer)
    {
      if |data| == 0 {
        if stream == [] {
          return if finishedWrite then Eof else Failed;
        }
        var request := stream[0];
        stream := stream[1..];
        var ok := SetRequest(request);
        if !ok {
          return Failed;
        }
      }
      var n := Take(data, buffer);
      result := Data(data[..n]);
      data := data[n..];
    }
  }

  /** The rest of the stream is what a client sends for these chunks. */
  predicate Expects(r: Receiver, chunks: seq<Bytes>) {
    if r.finishedWrite then r.stream == [] && chunks == [] else r.stream == Requests("", r.writeOffset, chunks)
  }

  /** Reads until the end, an error, or the buffers are used up. */
  datatype Transfer = Transfer(bytes: Bytes, last: Option<ReadResult>)

  function ReceiveAll(r: Receiver, buffers: seq<nat>): Transfer
    decreases |buffers|
  {
    if buffers == [] then Transfer([], None)
    else
      var first := Receive(r, buffers[0]);
      if !first.result.Data? then Transfer([], Some(first.result))
      else
        var rest := ReceiveAll(first.receiver, buffers[1..]);
        Transfer(first.result.bytes + rest.bytes, rest.last)
  }

  /** Reading from what is kept. */
  lemma DeliverStep(r: Receiver, rest: Bytes, buffer: nat)
    ensures var next := Deliver(r, buffer);
            next.result.bytes + (next.receiver.data + rest) == r.data + rest &&
            next.receiver == r.(data := next.receiver.data) && next.result.Data? &&
            (0 < buffer && r.data != [] ==> next.result.bytes != [])
  {
    assert r.data == r.data[..Take(r.data, buffer)] + r.data[Take(r.data, buffer)..];
  }

  /** A read is only shorter than the buffer if it takes all of a request. */
  lemma ReceiveFillsBuffer(r: Receiver, buffer: nat)
    requires Receive(r, buffer).result.Data?
    ensures var next := Receive(r, buffer);
            var n := |next.result.bytes|;
            n <= buffer && (n == buffer || next.receiver.data == [])
  {
    hide NextRequest;
  }

  /** Taking the next request. */
  lemma NextStep(r: Receiver, chunks: seq<Bytes>) returns (chunks': seq<Bytes>)
    requires Expects(r, chunks) && !r.finishedWrite
    ensures var next := NextRequest(r);
            r.stream != [] && next.Some? && Expects(next.value, chunks') &&
            next.value.data + Concat(chunks') == Concat(chunks) && |next.value.stream| < |r.stream|
  {
    chunks' := if chunks == [] then [] else chunks[1..];
    if chunks != [] {
      assert r.stream[1..] == Requests("", r.writeOffset + |chunks[0]|, chunks');
    }
  }

  lemma ReceiveStep(r: Receiver, chunks: seq<Bytes>, buffer: nat) returns (chunks': seq<Bytes>)
    requires Expects(r, chunks) && 0 < buffer
    ensures var next := Receive(r, buffer);
            if r.data == [] && r.finishedWrite then next.result == Eof
            else next.result.Data? && Expects(next.receiver, chunks') &&
                 next.result.bytes + (next.receiver.data + Concat(chunks')) == r.data + Concat(chunks) &&
                 |next.receiver.data + Concat(chunks')| + |next.receiver.stream|
                 < |r.data + Concat(chunks)| + |r.stream|
  {
    hide Deliver, NextRequest, Concat;
    chunks' := chunks;
    if r.data != [] {
      DeliverStep(r, Concat(chunks), buffer);
    } else if !r.finishedWrite {
      chunks' := NextStep(r, chunks);
      DeliverStep(NextRequest(r).value, Concat(chunks'), buffer);
      assert r.data + Concat(chunks) == Concat(chunks);
    }
  }

  /**
   * Whatever the buffer sizes, the server never sees an error, has read a prefix of the content at
   * any time, and all of it when the end is reported. Enough reads reach the end.
   */
  lemma {:induction false} ReceiveAllDelivers(r: Receiver, chunks: seq<Bytes>, buffers: seq<nat>)
    requires Expects(r, chunks) && forall i | 0 <= i < |buffers| :: 0 < buffers[i]
    ensures var t := ReceiveAll(r, buffers);
            t.bytes <= r.data + Concat(chunks) &&
            (t.last == None || (t.last == Some(Eof) && t.bytes == r.data + Concat(chunks))) &&
            (|r.data + Concat(chunks)| + |r.stream| < |buffers| ==> t.last == Some(Eof))
    decreases |buffers|
  {
    if buffers != [] {
      var chunks' := ReceiveStep(r, chunks, buffers[0]);
      var next := Receive(r, buffers[0]);
      if next.result.Data? {
        ReceiveAllDelivers(next.receiver, chunks', buffers[1..]);
      } else {
        assert r.data + Concat(chunks) == [];
      }
    }
  }

  /**
   * From the client's Put to the server's storage: for every content, every chunking and all buffer
   * sizes, what the server's reader delivers up to its end is the content. The server has taken the
   * first request for its name before reading starts.
   */
  lemma WriteRoundTrip(name: string, chunks: seq<Bytes>, buffers: seq<nat>)
    requires forall i | 0 <= i < |buffers| :: 0 < buffers[i]
    ensures var first := NextRequest(Receiver(Requests(name, 0, chunks), 0, [], false));
            first.Some? && Requests(name, 0, chunks)[0].resourceName == name &&
            var t := ReceiveAll(first.value, buffers);
            t.bytes <= Concat(chunks) &&
            (t.last == None || (t.last == Some(Eof) && t.bytes == Concat(chunks))) &&
            (|Concat(chunks)| + |chunks| + 1 < |buffers| ==> t.last == Some(Eof))
  {
    var all := Requests(name, 0, chunks);
    var first := NextRequest(Receiver(all, 0, [], false)).value;
    RequestCount(name, 0, chunks);
    if chunks == [] {
      ReceiveAllDelivers(first, [], buffers);
      assert first.data + Concat([]) == Concat(chunks);
    } else {
      assert all[1..] == Requests("", |chunks[0]|, chunks[1..]);
      ReceiveAllDelivers(first, chunks[1..], buffers);
      assert first.data + Concat(chunks[1..]) == Concat(chunks);
    }
  }

  /** As long as no terminating request comes, the server's reader does not report the end. */
  lemma {:induction false} UnfinishedWriteFails(r: Receiver, buffers: seq<nat>)
    requires !r.finishedWrite && forall i | 0 <= i < |r.stream| :: !r.stream[i].finishWrite
    ensures ReceiveAll(r, buffers).last != Some(Eof)
    decreases |buffers|
  {
    if buffers != [] {
      var next := Receive(r, buffers[0]);
      if next.result.Data? {
        UnfinishedWriteFails(next.receiver, buffers[1..]);
      }
    }
  }

  lemma {:induction false} OnlyLastFinishes(name: string, offset: int, chunks: seq<Bytes>, i: nat)
    requires i < |Requests(name, offset, chunks)| - 1
    ensures !Requests(name, offset, chunks)[i].finishWrite
    decreases |chunks|
  {
    if chunks != [] && 0 < i {
      OnlyLastFinishes("", offset + |chunks[0]|, chunks[1..], i - 1);
    }
  }

  /** The server takes the first request for its name, and reads on. */
  function Serve(sent: seq<WriteRequest>, buffers: seq<nat>): Transfer {
    var first := NextRequest(Receiver(sent, 0, [], false));
    if first.None? then Transfer([], Some(Failed)) else ReceiveAll(first.value, buffers)
  }

  /**
   * A client whose source fails is told from one that finishes: what it sends never makes the server
   * report the end, and what a client sends that finishes does, with all of the content.
   */
  lemma ServeEndsIff(name: string, r: Source, buffers: seq<nat>)
    requires forall i | 0 <= i < |buffers| :: 0 < buffers[i]
    requires |Concat(r.chunks)| + |r.chunks| + 1 < |buffers|
    ensures Serve(Sent(name, r), buffers).last == Some(Eof) <==> !r.failed
    ensures !r.failed ==> Serve(Sent(name, r), buffers).bytes == Concat(r.chunks)
  {
    if r.failed {
      FailedSourceNeverEnds(name, r, buffers);
    } else {
      WriteRoundTrip(name, r.chunks, buffers);
    }
  }

  lemma FailedSourceNeverEnds(name: string, r: Source, buffers: seq<nat>)
    requires r.failed
    ensures Serve(Sent(name, r), buffers).last != Some(Eof)
  {
    hide Requests, Receive, ReceiveAll;
    var all, sent := Requests(name, 0, r.chunks), Sent(name, r);
    RequestCount(name, 0, r.chunks);
    forall i | 0 <= i < |sent| ensures !sent[i].finishWrite {
      OnlyLastFinishes(name, 0, r.chunks, i);
    }
    var first := NextRequest(Receiver(sent, 0, [], false));
    if first.Some? {
      UnfinishedWriteFails(first.value, buffers);
    }
  }

  // ---------------------------------------------------------------------------------------------
  // Writing, whatever the client sends
  // ---------------------------------------------------------------------------------------------

  /** All data of a stream. */
  function Payload(stream: seq<WriteRequest>): Bytes
    decreases |stream|
  {
    if stream == [] then [] else stream[0].data + Payload(stream[1..])
  }

  /** Each request starts where the data before it ends, and exactly the last one finishes the write. */
  predicate Follows(stream: seq<WriteRequest>, offset: int) {
    forall i | 0 <= i < |stream| ::
      stream[i].writeOffset == offset + |Payload(stream[..i])| && (stream[i].finishWrite <==> i == |stream| - 1)
  }

  lemma FollowsTail(stream: seq<WriteRequest>, offset: int)
    requires stream != []
    ensures Follows(stream, offset) <==>
            stream[0].writeOffset == offset && (stream[0].finishWrite <==> |stream| == 1) &&
            Follows(stream[1..], offset + |stream[0].data|)
  {
    var rest := stream[1..];
    assert Payload(stream[..0]) == [];
    forall i | 0 <= i < |rest| ensures Payload(stream[..i + 1]) == stream[0].data + Payload(rest[..i]) {
      assert stream[..i + 1][1..] == rest[..i];
    }
    if Follows(stream, offset) {
      assert stream[0].writeOffset == offset + |Payload(stream[..0])|;
      forall i | 0 <= i < |rest|
        ensures rest[i].writeOffset == offset + |stream[0].data| + |Payload(rest[..i])|
        ensures rest[i].finishWrite <==> i == |rest| - 1
      {
        assert rest[i] == stream[i + 1];
      }
    } else {
      var i :| 0 <= i < |stream| &&
               !(stream[i].writeOffset == offset + |Payload(stream[..i])| &&
                 (stream[i].finishWrite <==> i == |stream| - 1));
      assert i > 0 ==> rest[i - 1] == stream[i];
    }
  }

  /** What is still to come completes the write. */
  predicate CompletesWrite(r: Receiver) {
    if r.finishedWrite then r.stream == [] else r.stream != [] && Follows(r.stream, r.writeOffset)
  }

  /** Data that is delivered does not matter to that, and neither does taking a request. */
  lemma CompletesStep(r: Receiver, buffer: nat)
    requires 0 < buffer
    ensures var next := Receive(r, buffer);
            if next.result.Data? then
              (CompletesWrite(r) <==> CompletesWrite(next.receiver)) &&
              next.result.bytes + (next.receiver.data + Payload(next.receiver.stream)) == r.data + Payload(r.stream) &&
              |next.receiver.data + Payload(next.receiver.stream)| + |next.receiver.stream|
              < |r.data + Payload(r.stream)| + |r.stream|
            else
              (next.result == Eof <==> CompletesWrite(r)) && (next.result == Eof ==> r.data + Payload(r.stream) == [])
  {
    hide Deliver, Follows;
    if r.data != [] {
      DeliverStep(r, Payload(r.stream), buffer);
    } else if r.stream != [] {
      FollowsTail(r.stream, r.writeOffset);
      if NextRequest(r).Some? {
        NoneFollow(r.writeOffset + |r.stream[0].data|);
        DeliverStep(NextRequest(r).value, Payload(r.stream[1..]), buffer);
        assert r.data + Payload(r.stream) == Payload(r.stream);
      }
    }
  }

  lemma NoneFollow(offset: int)
    ensures Follows([], offset)
  {
  }

  /** The end comes only when the write is complete, with all of its data; and then it comes. */
  lemma {:induction false} ReceiveAllEndsIff(r: Receiver, buffers: seq<nat>)
    requires forall i | 0 <= i < |buffers| :: 0 < buffers[i]
    ensures var t := ReceiveAll(r, buffers);
            (t.last == Some(Eof) ==> CompletesWrite(r) && t.bytes == r.data + Payload(r.stream)) &&
            (CompletesWrite(r) && |r.data + Payload(r.stream)| + |r.stream| < |buffers| ==> t.last == Some(Eof))
    decreases |buffers|
  {
    if buffers != [] {
      hide CompletesWrite, Receive, Payload;
      CompletesStep(r, buffers[0]);
      var next := Receive(r, buffers[0]);
      if next.result.Data? {
        ReceiveAllEndsIff(next.receiver, buffers[1..]);
      }
    }
  }

  /**
   * Whatever client it talks to: the server reports the end if and only if the requests follow each other
   * without gap or overlap and exactly the last one finishes the write, and then has read all of their data.
   */
  lemma ServeAcceptsIff(sent: seq<WriteRequest>, buffers: seq<nat>)
    requires forall i | 0 <= i < |buffers| :: 0 < buffers[i]
    ensures Serve(sent, buffers).last == Some(Eof) ==>
              sent != [] && Follows(sent, 0) && Serve(sent, buffers).bytes == Payload(sent)
    ensures sent != [] && Follows(sent, 0) && |Payload(sent)| + |sent| <= |buffers| ==>
              Serve(sent, buffers).last == Some(Eof)
  {
    hide Follows, ReceiveAll;
    if sent != [] {
      FollowsTail(sent, 0);
      NoneFollow(|sent[0].data|);
      var first := NextRequest(Receiver(sent, 0, [], false));
      if first.Some? {
        ReceiveAllEndsIff(first.value, buffers);
      }
    }
  }

  // ---------------------------------------------------------------------------------------------
  // Reading
  // ---------------------------------------------------------------------------------------------

  predicate NoneEmpty(chunks: seq<Bytes>) {
    forall i | 0 <= i < |chunks| :: chunks[i] != []
  }

  /** The server's responses: the chunks that are not empty. */
  function Responses(chunks: seq<Bytes>): seq<Bytes> {
    if chunks == [] then []
    else (if chunks[0] != [] then [chunks[0]] else []) + Responses(chunks[1..])
  }

  lemma ConcatCons(c: Bytes, rest: seq<Bytes>)
    ensures Concat([c] + rest) == c + Concat(rest)
  {
    assert ([c] + rest)[1..] == rest;
  }

  lemma {:induction false} ResponsesKeepContent(chunks: seq<Bytes>)
    ensures Concat(Responses(chunks)) == Concat(chunks) && NoneEmpty(Responses(chunks))
    decreases |chunks|
  {
    if chunks != [] {
      var c, rest := chunks[0], Responses(chunks[1..]);
      ResponsesKeepContent(chunks[1..]);
      if c != [] {
        assert Responses(chunks) == [c] + rest;
        ConcatCons(c, rest);
      } else {
        assert Responses(chunks) == rest;
        assert Concat(chunks) == Concat(chunks[1..]);
      }
    }
  }

  /** The server's Read loop; the stream ends with the error of the source, if there is one. */
  method SendResponses(r: Source) returns (sent: Source)
    ensures sent == Source(Responses(r.chunks), r.failed)
  {
    var responses: seq<Bytes> := [];
    var i := 0;
    while i < |r.chunks|
      invariant i <= |r.chunks| && responses + Responses(r.chunks[i..]) == Responses(r.chunks)
    {
      assert r.chunks[i..][1..] == r.chunks[i + 1..];
      if r.chunks[i] != [] {
        responses := responses + [r.chunks[i]];
      }
      i := i + 1;
    }
    assert responses + Responses([]) == responses;
    sent := Source(responses, r.failed);
  }

  /** The client's reader: responses to come, and the rest of the last one. */
  datatype BlobReader = BlobReader(stream: Source, partial: Bytes)

  datatype BlobRead = BlobRead(reader: BlobReader, result: ReadResult)

  function DeliverPartial(r: BlobReader, buffer: nat): BlobRead {
    var n := Take(r.partial, buffer);
    BlobRead(r.(partial := r.partial[n..]), Data(r.partial[..n]))
  }

  /** byteStreamBlobReader.Read. */
  function ReadBlob(r: BlobReader, buffer: nat): BlobRead {
    if r.partial != [] then DeliverPartial(r, buffer)
    else if r.stream.chunks == [] then BlobRead(r, if r.stream.failed then Failed else Eof)
    else DeliverPartial(BlobReader(Source(r.stream.chunks[1..], r.stream.failed), r.stream.chunks[0]), buffer)
  }

  /** A read is only shorter than the buffer if it takes all of a response. */
  lemma ReadBlobFillsBuffer(r: BlobReader, buffer: nat)
    requires ReadBlob(r, buffer).result.Data?
    ensures var next := ReadBlob(r, buffer);
            var n := |next.result.bytes|;
            n <= buffer && (n == buffer || next.reader.partial == [])
  {
  }

  class ByteStreamBlobReader {
    var stream: Source
    var partial: Bytes

    ghost function Value(): BlobReader
      reads this
    {
      BlobReader(stream, partial)
    }

    constructor (stream: Source, partial: Bytes)
      ensures Value() == BlobReader(stream, partial)
    {
      this.stream, this.partial := stream, partial;
    }

    method Read(buffer: nat) returns (result: ReadResult)
      modifies this
      ensures BlobRead(Value(), result) == ReadBlob(old(Value()), buffer)
    {
      if |partial| == 0 {
        if stream.chunks == [] {
          return if stream.failed then Failed else Eof;
        }
        partial := stream.chunks[0];
        stream := Source(stream.chunks[1..], stream.failed);
      }
      var n := Take(partial, buffer);
      result := Data(partial[..n]);
      partial := partial[n..];
    }
  }

  /** The client's Get takes the first response at once, to see errors early. */
  function OpenBlob(stream: Source): Option<BlobReader> {
    if stream.chunks == [] then (if stream.failed then None else Some(BlobReader(stream, [])))
    else Some(BlobReader(Source(stream.chunks[1..], stream.failed), stream.chunks[0]))
  }

  function ReadAll(r: BlobReader, buffers: seq<nat>): Transfer
    decreases |buffers|
  {
    if buffers == [] then Transfer([], None)
    else
      var first := ReadBlob(r, buffers[0]);
      if !first.result.Data? then Transfer([], Some(first.result))
      else
        var rest := ReadAll(first.reader, buffers[1..]);
        Transfer(first.result.bytes + rest.bytes, rest.last)
  }

  function Left(r: BlobReader): Bytes {
    r.partial + Concat(r.stream.chunks)
  }

  lemma ReadBlobStep(r: BlobReader, buffer: nat)
    requires 0 < buffer && NoneEmpty(r.stream.chunks)
    ensures var next := ReadBlob(r, buffer);
            next.reader.stream.failed == r.stream.failed &&
            NoneEmpty(next.reader.stream.chunks) &&
            if Left(r) == [] then next.result == (if r.stream.failed then Failed else Eof)
            else next.result.Data? && next.result.bytes != [] && next.result.bytes + Left(next.reader) == Left(r)
  {
    var next := ReadBlob(r, buffer).reader;
    if r.partial != [] {
      assert r.partial == r.partial[..Take(r.partial, buffer)] + next.partial;
    } else if r.stream.chunks != [] {
      var c := r.stream.chunks[0];
      assert c == c[..Take(c, buffer)] + next.partial;
    }
  }

  lemma {:induction false} ReadAllDelivers(r: BlobReader, buffers: seq<nat>)
    requires NoneEmpty(r.stream.chunks)
    requires forall i | 0 <= i < |buffers| :: 0 < buffers[i]
    ensures var t := ReadAll(r, buffers);
            t.bytes <= Left(r) &&
            (t.last == None || (t.last == Some(if r.stream.failed then Failed else Eof) && t.bytes == Left(r))) &&
            (|Left(r)| < |buffers| ==> t.last.Some?)
    decreases |buffers|
  {
    if buffers != [] {
      ReadBlobStep(r, buffers[0]);
      var next := ReadBlob(r, buffers[0]);
      if next.result.Data? {
        ReadAllDelivers(next.reader, buffers[1..]);
      }
    }
  }

  /**
   * From the server's storage to the client: for every content, every chunking and all buffer sizes,
   * the client reads a prefix of the content, all of it when the end is reported, and the end is
   * reported exactly if the server's source had no error.
   */
  lemma ReadRoundTrip(r: Source, buffers: seq<nat>)
    requires forall i | 0 <= i < |buffers| :: 0 < buffers[i]
    ensures var blob := OpenBlob(Source(Responses(r.chunks), r.failed));
            (blob.None? ==> r.failed) &&
            (blob.Some? ==>
               var t := ReadAll(blob.value, buffers);
               t.bytes <= Concat(r.chunks) &&
               (t.last == None || (t.last == Some(if r.failed then Failed else Eof) && t.bytes == Concat(r.chunks))) &&
               (|Concat(r.chunks)| < |buffers| ==> t.last.Some?))
  {
    hide Responses, Concat, ReadAll;
    ResponsesKeepContent(r.chunks);
    OpenBlobLeaves(Source(Responses(r.chunks), r.failed));
    var blob := OpenBlob(Source(Responses(r.chunks), r.failed));
    if blob.Some? {
      ReadAllDelivers(blob.value, buffers);
    }
  }

  lemma OpenBlobLeaves(stream: Source)
    requires NoneEmpty(stream.chunks)
    ensures var blob := OpenBlob(stream);
            if blob.None? then stream.failed
            else Left(blob.value) == Concat(stream.chunks) && NoneEmpty(blob.value.stream.chunks) &&
                 blob.value.stream.failed == stream.failed
  {
  }
}
