/** The Python sender (src/serial_comm.py): the same protocol as the Rust crate, fixed to the 160x80
    landscape display, over a pyserial connection whose calls may raise and whose `write` may be short. */
module SerialComm {
  import opened Wrappers
  import opened Bytes
  import opened Seqs
  import opened Canvas
  import opened Transport
  import Protocol

  /** Four rows of the 160-pixel display. */
  const ChunkSize: nat := DisplayWidth * 4

  /** `create_bitmap_header`: fills a 10-byte buffer field by field. It is the Rust crate's landscape header. */
  method CreateBitmapHeader() returns (header: array<byte>)
    ensures fresh(header)
    ensures header[..] == Protocol.BitmapHeaderOriented(Landscape)
  {
    var x0: u16, y0: u16 := 0, 0;
    var x1: u16, y1: u16 := DisplayWidth - 1, DisplayHeight - 1;
    header := new byte[10];
    header[0] := Protocol.CmdSetBitmap;
    header[1] := x0 % 256;
    header[2] := (x0 / 256) % 256;
    header[3] := y0 % 256;
    header[4] := (y0 / 256) % 256;
    header[5] := x1 % 256;
    header[6] := (x1 / 256) % 256;
    header[7] := y1 % 256;
    header[8] := (y1 / 256) % 256;
    header[9] := Protocol.CmdEnd;
    Protocol.HeaderBytes();
  }

  /** `create_display_command`: the header followed by the pixels. */
  method CreateDisplayCommand(imageData: seq<byte>) returns (command: seq<byte>)
    ensures command == Protocol.BitmapHeaderOriented(Landscape) + imageData
  {
    var header := CreateBitmapHeader();
    command := header[..] + imageData;
  }

  /** `chunked`: the slices `data[i:i + chunkSize]` for `i` in `range(0, len(data), chunkSize)`. A step of
      zero makes `range` raise (`None` here); a negative step yields nothing. */
  method Chunked(data: seq<byte>, chunkSize: int) returns (chunks: Option<seq<seq<byte>>>)
    ensures chunks.None? <==> chunkSize == 0
    ensures chunkSize < 0 ==> chunks == Some([])
    ensures chunkSize > 0 ==> chunks == Some(Chunks(data, chunkSize))
  {
    if chunkSize == 0 {
      return None;
    } else if chunkSize < 0 {
      return Some([]);
    }
    var pieces: seq<seq<byte>> := [];
    var i := 0;
    while i < |data|
      invariant i >= 0
      invariant pieces + SlicesFrom(data, i, chunkSize) == SlicesFrom(data, 0, chunkSize)
      decreases |data| - i
    {
      pieces := pieces + [data[i..Min(i + chunkSize, |data|)]];
      i := i + chunkSize;
    }
    assert pieces + [] == pieces;
    SlicesFromChunks(data, 0, chunkSize);
    assert data[0..] == data;
    return Some(pieces);
  }

  /** The slices `chunked` yields from position `i` on. */
  function SlicesFrom(data: seq<byte>, i: nat, chunkSize: nat): seq<seq<byte>>
    requires chunkSize > 0
    decreases |data| - i
  {
    if i >= |data| then [] else [data[i..Min(i + chunkSize, |data|)]] + SlicesFrom(data, i + chunkSize, chunkSize)
  }

  /** They are the chunks of the data from `i` on. */
  lemma {:induction false} SlicesFromChunks(data: seq<byte>, i: nat, chunkSize: nat)
    requires chunkSize > 0
    ensures SlicesFrom(data, i, chunkSize) == Chunks(data[Min(i, |data|)..], chunkSize)
    decreases |data| - i
  {
    if i < |data| {
      var rest := data[i..];
      var m := Min(chunkSize, |rest|);
      ChunksCons(rest, chunkSize);
      assert rest[..m] == data[i..i + m] && rest[m..] == data[i + m..];
      SlicesFromChunks(data, i + chunkSize, chunkSize);
      assert Min(i + chunkSize, |data|) == i + m;
    } else {
      assert data[|data|..] == [];
    }
  }

  /** `send_bytes`: one `write`. `false` when there is no connection or the write raises; a write that
      accepts only part of the data still counts as sent. */
  method SendBytes(connection: Connection?, data: seq<byte>) returns (ok: bool)
    modifies connection
    ensures connection == null ==> !ok
    ensures connection != null ==> connection.log == old(connection.log) + [Call.Write(data)]
    ensures connection != null ==> (ok <==> |old(connection.log)| !in connection.failing)
    ensures connection != null ==>
              connection.written == old(connection.written) +
                Delivered(connection.failing, connection.short, |old(connection.log)|, [Call.Write(data)])
  {
    if connection == null {
      return false;
    }
    ghost var base := |connection.log|;
    var count;
    ok, count := connection.Write(data);
    assert [Call.Write(data)][..0] == [];
  }

  /** The calls the Python sender makes: reset both buffers, write the header, flush, write the pixels
      chunk by chunk, flush. */
  function FrameCalls(imageData: seq<byte>): seq<Call>
  {
    [Call.ResetInput, Call.ResetOutput, Call.Write(Protocol.BitmapHeaderOriented(Landscape)), Call.Flush] +
    Protocol.Writes(Chunks(imageData, ChunkSize)) + [Call.Flush]
  }

  /** Where each call of a frame sits in its call list. */
  predicate FrameShape(calls: seq<Call>, header: seq<byte>, chunks: seq<seq<byte>>)
  {
    |calls| == |chunks| + 5 &&
    calls[0] == Call.ResetInput && calls[1] == Call.ResetOutput && calls[2] == Call.Write(header) &&
    calls[3] == Call.Flush &&
    (forall i :: 0 <= i < |chunks| ==> calls[4 + i] == Call.Write(chunks[i])) &&
    calls[4 + |chunks|] == Call.Flush
  }

  lemma FrameCallsShape(imageData: seq<byte>)
    ensures FrameShape(FrameCalls(imageData), Protocol.BitmapHeaderOriented(Landscape), Chunks(imageData, ChunkSize))
  {
  }

  /** The pixels' writes carry the pixels, after the header. */
  lemma FramePayload(imageData: seq<byte>)
    ensures Payload(FrameCalls(imageData)) == Protocol.BitmapHeaderOriented(Landscape) + imageData
  {
    var header := Protocol.BitmapHeaderOriented(Landscape);
    var pre := [Call.ResetInput, Call.ResetOutput, Call.Write(header), Call.Flush];
    var body := Protocol.Writes(Chunks(imageData, ChunkSize));
    assert FrameCalls(imageData) == pre + body + [Call.Flush];
    PrefacePayload(header);
    PayloadAppend(pre, body);
    PayloadSnoc(pre + body, Call.Flush);
    Protocol.WritesPayload(Chunks(imageData, ChunkSize));
    ChunksSpec(imageData, ChunkSize);
  }

  /** Resetting both buffers, writing the header and flushing carries the header. */
  lemma PrefacePayload(header: seq<byte>)
    ensures Payload([Call.ResetInput, Call.ResetOutput, Call.Write(header), Call.Flush]) == header
  {
    var s1, s2 := [Call.ResetInput], [Call.ResetInput, Call.ResetOutput];
    var s3 := [Call.ResetInput, Call.ResetOutput, Call.Write(header)];
    PayloadSnoc([], Call.ResetInput);
    assert [] + [Call.ResetInput] == s1;
    PayloadSnoc(s1, Call.ResetOutput);
    assert s1 + [Call.ResetOutput] == s2;
    PayloadSnoc(s2, Call.Write(header));
    assert s2 + [Call.Write(header)] == s3;
    PayloadSnoc(s3, Call.Flush);
    assert s3 + [Call.Flush] == [Call.ResetInput, Call.ResetOutput, Call.Write(header), Call.Flush];
  }

  /** `send_image_to_display`: `false` without a connection. Otherwise the connection sees the frame's calls
      up to and including the first that raises, receives what the writes before it accepted, and the
      result is `true` exactly when nothing raised. */
  method SendImageToDisplay(connection: Connection?, imageData: seq<byte>) returns (ok: bool)
    modifies connection
    ensures connection == null ==> !ok
    ensures connection != null ==>
            connection.log == old(connection.log) + Attempted(connection.failing, |old(connection.log)|, FrameCalls(imageData))
    ensures connection != null ==>
              connection.written == old(connection.written) +
                Delivered(connection.failing, connection.short, |old(connection.log)|, FrameCalls(imageData))
    ensures connection != null ==> (ok <==> Succeeds(connection.failing, |old(connection.log)|, FrameCalls(imageData)))
  {
    if connection == null {
      return false;
    }
    var header := CreateBitmapHeader();
    var pieces := Chunked(imageData, ChunkSize);
    FrameCallsShape(imageData);
    ok := WriteFrame(connection, header[..], pieces.value, FrameCalls(imageData));
  }

  /** The first four calls of the `try`: reset both buffers, write the header, flush. Stops at the first
      call that raises. */
  method WriteHeader(connection: Connection, header: seq<byte>, ghost calls: seq<Call>, ghost log0: seq<Call>,
                     ghost written0: seq<byte>)
    returns (ok: bool)
    requires |calls| >= 4 && calls[0] == Call.ResetInput && calls[1] == Call.ResetOutput
    requires calls[2] == Call.Write(header) && calls[3] == Call.Flush
    requires connection.log == log0 && connection.written == written0
    modifies connection
    ensures ok ==> Progressed(connection.failing, connection.short, log0, written0, |log0|, calls, 4,
                              connection.log, connection.written)
    ensures !ok ==> Stopped(connection.failing, connection.short, log0, written0, |log0|, calls,
                            connection.log, connection.written)
  {
    ghost var failing, short, base := connection.failing, connection.short, |log0|;
    assert Progressed(failing, short, log0, written0, base, calls, 0, log0, written0) by {
      assert calls[..0] == [];
    }

    ok := connection.ResetInputBuffer();
    if !ok {
      StoppedAt(failing, short, log0, written0, base, calls, 0, log0, written0);
      return;
    }
    Advanced(failing, short, log0, written0, base, calls, 0, log0, written0);

    ghost var log, written := connection.log, connection.written;
    ok := connection.ResetOutputBuffer();
    if !ok {
      StoppedAt(failing, short, log0, written0, base, calls, 1, log, written);
      return;
    }
    Advanced(failing, short, log0, written0, base, calls, 1, log, written);

    log, written := connection.log, connection.written;
    var count;
    ok, count := connection.Write(header);
    if !ok {
      StoppedAt(failing, short, log0, written0, base, calls, 2, log, written);
      return;
    }
    Advanced(failing, short, log0, written0, base, calls, 2, log, written);

    log, written := connection.log, connection.written;
    ok := connection.Flush();
    if !ok {
      StoppedAt(failing, short, log0, written0, base, calls, 3, log, written);
      return;
    }
    Advanced(failing, short, log0, written0, base, calls, 3, log, written);
  }

  /** The body of the `try`: makes the calls of a frame laid out as `calls` describes, and returns `false`
      at the first that raises. */
  method WriteFrame(connection: Connection, header: seq<byte>, chunks: seq<seq<byte>>, ghost calls: seq<Call>)
    returns (ok: bool)
    requires FrameShape(calls, header, chunks)
    modifies connection
    ensures connection.log == old(connection.log) + Attempted(connection.failing, |old(connection.log)|, calls)
    ensures connection.written ==
            old(connection.written) + Delivered(connection.failing, connection.short, |old(connection.log)|, calls)
    ensures ok <==> Succeeds(connection.failing, |old(connection.log)|, calls)
  {
    ghost var failing, short := connection.failing, connection.short;
    ghost var base := |connection.log|;
    ghost var log0, written0 := connection.log, connection.written;
    ok := WriteHeader(connection, header, calls, log0, written0);
    if !ok {
      return;
    }

    ghost var log, written;
    var count;
    for i := 0 to |chunks|
      invariant connection.failing == failing && connection.short == short
      invariant Progressed(failing, short, log0, written0, base, calls, 4 + i, connection.log, connection.written)
    {
      log, written := connection.log, connection.written;
      ok, count := connection.Write(chunks[i]);
      if !ok {
        StoppedAt(failing, short, log0, written0, base, calls, 4 + i, log, written);
        return false;
      }
      Advanced(failing, short, log0, written0, base, calls, 4 + i, log, written);
    }

    log, written := connection.log, connection.written;
    ok := connection.Flush();
    if !ok {
      StoppedAt(failing, short, log0, written0, base, calls, 4 + |chunks|, log, written);
      return false;
    }
    Advanced(failing, short, log0, written0, base, calls, 4 + |chunks|, log, written);
    Finished(failing, short, log0, written0, base, calls, connection.log, connection.written);
    return true;
  }

  /** When nothing raises and no write is short, the display receives the header followed by the pixels. */
  lemma SendDeliversFrame(failing: set<nat>, short: map<nat, nat>, base: nat, imageData: seq<byte>)
    requires Succeeds(failing, base, FrameCalls(imageData))
    requires forall n :: base <= n < base + |FrameCalls(imageData)| ==> n !in short
    ensures Delivered(failing, short, base, FrameCalls(imageData)) == Protocol.BitmapHeaderOriented(Landscape) + imageData
  {
    DeliveredAll(failing, short, base, FrameCalls(imageData));
    FramePayload(imageData);
  }
}
