/** The display's bitmap protocol and the Rust senders (src/protocol.rs, and the older rust-src/protocol.rs).
    A frame is a 10-byte header naming the window to fill, followed by the window's RGB565 pixels. */
module Protocol {
  import opened Wrappers
  import opened Bytes
  import opened Seqs
  import opened Canvas
  import opened Transport

  const CmdSetBitmap: byte := 0x05
  const CmdEnd: byte := 0x0A

  /** The inclusive pixel window a bitmap command fills. */
  datatype Window = Window(x0: u16, y0: u16, x1: u16, y1: u16)

  /** The header: the command byte, the four corners little-endian, and the terminator. */
  function EncodeHeader(w: Window): (bs: seq<byte>)
    ensures |bs| == 10 && bs[0] == CmdSetBitmap && bs[9] == CmdEnd
  {
    [CmdSetBitmap] + Le16(w.x0) + Le16(w.y0) + Le16(w.x1) + Le16(w.y1) + [CmdEnd]
  }

  /** Reads a header back; `None` for anything that is not one. */
  function ParseHeader(bs: seq<byte>): Option<Window>
  {
    if |bs| == 10 && bs[0] == CmdSetBitmap && bs[9] == CmdEnd then
      Some(Window(ReadLe16(bs[1], bs[2]), ReadLe16(bs[3], bs[4]), ReadLe16(bs[5], bs[6]), ReadLe16(bs[7], bs[8])))
    else None
  }

  /** A header reads back as the window it was made from, and every 10 bytes that parse are a header. */
  lemma HeaderRoundTrip(w: Window, bs: seq<byte>)
    ensures ParseHeader(EncodeHeader(w)) == Some(w)
    ensures ParseHeader(bs).Some? ==> EncodeHeader(ParseHeader(bs).value) == bs
  {
    Le16RoundTrip(w.x0);
    Le16RoundTrip(w.y0);
    Le16RoundTrip(w.x1);
    Le16RoundTrip(w.y1);
  }

  /** The whole logical canvas of `o`: from (0, 0) to (width - 1, height - 1). */
  function FullCanvas(o: Orientation): (w: Window)
    ensures w.x0 == 0 && w.y0 == 0 && w.x1 + 1 == o.Width() && w.y1 + 1 == o.Height()
  {
    Window(0, 0, o.Width() - 1, o.Height() - 1)
  }

  /** `create_bitmap_header_oriented`. */
  function BitmapHeaderOriented(o: Orientation): seq<byte>
  {
    EncodeHeader(FullCanvas(o))
  }

  /** `create_bitmap_header`: the default (landscape) canvas. */
  function BitmapHeader(): seq<byte>
  {
    BitmapHeaderOriented(Default)
  }

  /** Byte by byte: the command, x0, y0, x1, y1 each low byte first, the terminator. */
  lemma HeaderLayout(w: Window)
    ensures EncodeHeader(w) ==
            [CmdSetBitmap, Lo(w.x0), Hi(w.x0), Lo(w.y0), Hi(w.y0), Lo(w.x1), Hi(w.x1), Lo(w.y1), Hi(w.y1), CmdEnd]
  {
  }

  /** The bytes the unit tests pin: landscape names (0, 0)-(159, 79), portrait (0, 0)-(79, 159). */
  lemma HeaderBytes()
    ensures BitmapHeaderOriented(Landscape) == [0x05, 0, 0, 0, 0, 0x9F, 0, 0x4F, 0, 0x0A]
    ensures BitmapHeaderOriented(Portrait) == [0x05, 0, 0, 0, 0, 0x4F, 0, 0x9F, 0, 0x0A]
    ensures BitmapHeader() == BitmapHeaderOriented(Landscape)
  {
    HeaderLayout(FullCanvas(Landscape));
    HeaderLayout(FullCanvas(Portrait));
  }

  /** Every orientation's header parses back to its whole canvas. */
  lemma HeaderNamesCanvas(o: Orientation)
    ensures ParseHeader(BitmapHeaderOriented(o)) == Some(FullCanvas(o))
  {
    HeaderRoundTrip(FullCanvas(o), []);
  }

  datatype ProtocolError = SendFailed

  /** The number of bytes per `write_all` of pixel data: four rows' worth of the logical width. */
  function ChunkSize(o: Orientation): (n: nat)
    ensures n > 0 && n % 4 == 0
    ensures o == Landscape ==> n == 640
    ensures o == Portrait ==> n == 320
  {
    o.Width() * 4
  }

  /** A `write_all` per piece. */
  function Writes(pieces: seq<seq<byte>>): (calls: seq<Call>)
    ensures |calls| == |pieces|
    ensures forall i :: 0 <= i < |pieces| ==> calls[i] == Call.Write(pieces[i])
  {
    seq(|pieces|, i requires 0 <= i < |pieces| => Call.Write(pieces[i]))
  }

  /** The writes of the pieces carry the pieces' bytes, in order. */
  lemma {:induction false} WritesPayload(pieces: seq<seq<byte>>)
    ensures Payload(Writes(pieces)) == Flatten(pieces)
  {
    if pieces != [] {
      var head, rest := [Call.Write(pieces[0])], Writes(pieces[1..]);
      WritesCons(pieces);
      PayloadAppend(head, rest);
      assert head[..0] == [];
      assert Payload(head) == pieces[0];
      WritesPayload(pieces[1..]);
    }
  }

  /** The writes of a non-empty list of pieces start with the write of the first piece. */
  lemma WritesCons(pieces: seq<seq<byte>>)
    requires pieces != []
    ensures Writes(pieces) == [Call.Write(pieces[0])] + Writes(pieces[1..])
  {
    var w, rest := Writes(pieces), Writes(pieces[1..]);
    assert forall i :: 0 <= i < |rest| ==> w[i + 1] == rest[i];
    assert w == [w[0]] + w[1..];
  }

  /** The calls a frame takes: clear both buffers, write the header, flush, write the pixels chunk by
      chunk, flush. */
  function FrameCalls(header: seq<byte>, imageData: seq<byte>, chunkSize: nat): seq<Call>
    requires chunkSize > 0
  {
    [Call.Clear, Call.Write(header), Call.Flush] + Writes(Chunks(imageData, chunkSize)) + [Call.Flush]
  }

  /** A frame's writes carry the header followed by the pixels. */
  lemma FramePayload(header: seq<byte>, imageData: seq<byte>, chunkSize: nat)
    requires chunkSize > 0
    ensures Payload(FrameCalls(header, imageData, chunkSize)) == header + imageData
  {
    var pre, body := [Call.Clear, Call.Write(header), Call.Flush], Writes(Chunks(imageData, chunkSize));
    assert FrameCalls(header, imageData, chunkSize) == pre + body + [Call.Flush];
    PrefacePayload(header);
    PayloadAppend(pre, body);
    PayloadSnoc(pre + body, Call.Flush);
    WritesPayload(Chunks(imageData, chunkSize));
    ChunksSpec(imageData, chunkSize);
  }

  /** Clearing, writing the header and flushing carries the header. */
  lemma PrefacePayload(header: seq<byte>)
    ensures Payload([Call.Clear, Call.Write(header), Call.Flush]) == header
  {
    var s0: seq<Call> := [];
    var s1 := s0 + [Call.Clear];
    var s2 := s1 + [Call.Write(header)];
    var s3 := s2 + [Call.Flush];
    PayloadSnoc(s0, Call.Clear);
    assert Payload(s1) == [];
    PayloadSnoc(s1, Call.Write(header));
    assert Payload(s2) == header;
    PayloadSnoc(s2, Call.Flush);
    assert Payload(s3) == header + [];
    assert s3 == [Call.Clear, Call.Write(header), Call.Flush];
  }

  /** Where each call of a frame sits in its call list. */
  predicate FrameShape(calls: seq<Call>, header: seq<byte>, chunks: seq<seq<byte>>)
  {
    |calls| == |chunks| + 4 &&
    calls[0] == Call.Clear && calls[1] == Call.Write(header) && calls[2] == Call.Flush &&
    (forall i :: 0 <= i < |chunks| ==> calls[3 + i] == Call.Write(chunks[i])) &&
    calls[3 + |chunks|] == Call.Flush
  }

  lemma FrameCallsShape(header: seq<byte>, imageData: seq<byte>, chunkSize: nat)
    requires chunkSize > 0
    ensures FrameShape(FrameCalls(header, imageData, chunkSize), header, Chunks(imageData, chunkSize))
  {
  }

  /** The first three calls of a frame: clear, write the header, flush. Stops at the first that fails. */
  method WriteHeader(port: SerialPort, header: seq<byte>, ghost calls: seq<Call>, ghost log0: seq<Call>,
                     ghost written0: seq<byte>)
    returns (ok: bool)
    requires |calls| >= 3 && calls[0] == Call.Clear && calls[1] == Call.Write(header) && calls[2] == Call.Flush
    requires port.log == log0 && port.written == written0
    modifies port
    ensures ok ==> Progressed(port.failing, map[], log0, written0, |log0|, calls, 3, port.log, port.written)
    ensures !ok ==> Stopped(port.failing, map[], log0, written0, |log0|, calls, port.log, port.written)
  {
    ghost var failing, base := port.failing, |log0|;
    assert Progressed(failing, map[], log0, written0, base, calls, 0, log0, written0) by {
      assert calls[..0] == [];
    }

    ok := port.ClearAll();
    if !ok {
      StoppedAt(failing, map[], log0, written0, base, calls, 0, log0, written0);
      return;
    }
    Advanced(failing, map[], log0, written0, base, calls, 0, log0, written0);

    ghost var log, written := port.log, port.written;
    ok := port.WriteAll(header);
    if !ok {
      StoppedAt(failing, map[], log0, written0, base, calls, 1, log, written);
      return;
    }
    Advanced(failing, map[], log0, written0, base, calls, 1, log, written);

    log, written := port.log, port.written;
    ok := port.Flush();
    if !ok {
      StoppedAt(failing, map[], log0, written0, base, calls, 2, log, written);
      return;
    }
    Advanced(failing, map[], log0, written0, base, calls, 2, log, written);
  }

  /** Makes the calls of a frame laid out as `calls` describes, stopping at the first that fails. */
  method WriteFrame(port: SerialPort, header: seq<byte>, chunks: seq<seq<byte>>, ghost calls: seq<Call>)
    returns (r: Result<(), ProtocolError>)
    requires FrameShape(calls, header, chunks)
    modifies port
    ensures port.log == old(port.log) + Attempted(port.failing, |old(port.log)|, calls)
    ensures port.written == old(port.written) + Delivered(port.failing, map[], |old(port.log)|, calls)
    ensures r.Ok? <==> Succeeds(port.failing, |old(port.log)|, calls)
  {
    ghost var failing := port.failing;
    ghost var base := |port.log|;
    ghost var log0, written0 := port.log, port.written;
    var ok := WriteHeader(port, header, calls, log0, written0);
    if !ok {
      return Err(SendFailed);
    }

    ghost var log, written;
    for i := 0 to |chunks|
      invariant port.failing == failing
      invariant Progressed(failing, map[], log0, written0, base, calls, 3 + i, port.log, port.written)
    {
      log, written := port.log, port.written;
      ok := port.WriteAll(chunks[i]);
      if !ok {
        StoppedAt(failing, map[], log0, written0, base, calls, 3 + i, log, written);
        return Err(SendFailed);
      }
      Advanced(failing, map[], log0, written0, base, calls, 3 + i, log, written);
    }

    log, written := port.log, port.written;
    ok := port.Flush();
    if !ok {
      StoppedAt(failing, map[], log0, written0, base, calls, 3 + |chunks|, log, written);
      return Err(SendFailed);
    }
    Advanced(failing, map[], log0, written0, base, calls, 3 + |chunks|, log, written);
    Finished(failing, map[], log0, written0, base, calls, port.log, port.written);
    return Ok(());
  }

  /** Sends one frame: the header, then the pixels in chunks of `chunkSize`, stopping at the first call
      that fails. The port sees the frame's calls up to and including the failing one, the display gets
      the bytes of the calls before it, and the result is `Ok` exactly when no call failed. */
  method SendFrame(port: SerialPort, header: seq<byte>, imageData: seq<byte>, chunkSize: nat)
    returns (r: Result<(), ProtocolError>)
    requires chunkSize > 0
    modifies port
    ensures port.log == old(port.log) + Attempted(port.failing, |old(port.log)|, FrameCalls(header, imageData, chunkSize))
    ensures port.written ==
            old(port.written) + Delivered(port.failing, map[], |old(port.log)|, FrameCalls(header, imageData, chunkSize))
    ensures r.Ok? <==> Succeeds(port.failing, |old(port.log)|, FrameCalls(header, imageData, chunkSize))
  {
    FrameCallsShape(header, imageData, chunkSize);
    r := WriteFrame(port, header, Chunks(imageData, chunkSize), FrameCalls(header, imageData, chunkSize));
  }

  /** `send_image_to_display_oriented`: a frame for the canvas of `o`, in chunks of four logical rows. When
      it succeeds the display has received exactly the header and the pixels. */
  method SendImageToDisplayOriented(port: SerialPort, imageData: seq<byte>, o: Orientation)
    returns (r: Result<(), ProtocolError>)
    modifies port
    ensures port.log == old(port.log) +
            Attempted(port.failing, |old(port.log)|, FrameCalls(BitmapHeaderOriented(o), imageData, ChunkSize(o)))
    ensures port.written == old(port.written) +
            Delivered(port.failing, map[], |old(port.log)|, FrameCalls(BitmapHeaderOriented(o), imageData, ChunkSize(o)))
    ensures r.Ok? <==> Succeeds(port.failing, |old(port.log)|, FrameCalls(BitmapHeaderOriented(o), imageData, ChunkSize(o)))
    ensures r.Ok? ==> port.written == old(port.written) + BitmapHeaderOriented(o) + imageData
  {
    ghost var base := |port.log|;
    r := SendFrame(port, BitmapHeaderOriented(o), imageData, ChunkSize(o));
    if r.Ok? {
      DeliveredAll(port.failing, map[], base, FrameCalls(BitmapHeaderOriented(o), imageData, ChunkSize(o)));
      FramePayload(BitmapHeaderOriented(o), imageData, ChunkSize(o));
    }
  }

  /** `send_image_to_display`: the default (landscape) orientation. */
  method SendImageToDisplay(port: SerialPort, imageData: seq<byte>) returns (r: Result<(), ProtocolError>)
    modifies port
    ensures port.log == old(port.log) +
            Attempted(port.failing, |old(port.log)|, FrameCalls(BitmapHeader(), imageData, ChunkSize(Default)))
    ensures port.written == old(port.written) +
            Delivered(port.failing, map[], |old(port.log)|, FrameCalls(BitmapHeader(), imageData, ChunkSize(Default)))
    ensures r.Ok? <==> Succeeds(port.failing, |old(port.log)|, FrameCalls(BitmapHeader(), imageData, ChunkSize(Default)))
    ensures r.Ok? ==> port.written == old(port.written) + BitmapHeader() + imageData
  {
    r := SendImageToDisplayOriented(port, imageData, Default);
  }

  /** The older crate's fixed chunk size: four rows of the 160-pixel display. */
  const LegacyChunkSize: nat := DisplayWidth * 4

  /** The older crate's `create_bitmap_header`, fixed to the 160x80 display. */
  function LegacyBitmapHeader(): (bs: seq<byte>)
    ensures bs == BitmapHeaderOriented(Landscape)
  {
    EncodeHeader(Window(0, 0, DisplayWidth - 1, DisplayHeight - 1))
  }

  /** The older crate's `send_image_to_display`: the same frame as today's landscape sender. */
  method LegacySendImageToDisplay(port: SerialPort, imageData: seq<byte>) returns (r: Result<(), ProtocolError>)
    modifies port
    ensures port.log == old(port.log) +
            Attempted(port.failing, |old(port.log)|, FrameCalls(LegacyBitmapHeader(), imageData, LegacyChunkSize))
    ensures port.written == old(port.written) +
            Delivered(port.failing, map[], |old(port.log)|, FrameCalls(LegacyBitmapHeader(), imageData, LegacyChunkSize))
    ensures r.Ok? <==> Succeeds(port.failing, |old(port.log)|, FrameCalls(LegacyBitmapHeader(), imageData, LegacyChunkSize))
    ensures r.Ok? ==> port.written == old(port.written) + LegacyBitmapHeader() + imageData
  {
    ghost var base := |port.log|;
    r := SendFrame(port, LegacyBitmapHeader(), imageData, LegacyChunkSize);
    if r.Ok? {
      DeliveredAll(port.failing, map[], base, FrameCalls(LegacyBitmapHeader(), imageData, LegacyChunkSize));
      FramePayload(LegacyBitmapHeader(), imageData, LegacyChunkSize);
    }
  }
}
