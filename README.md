# mini_display in Dafny

This project models the core of mini_display. The program draws text for a small 0.96" serial display.
The panel is physically 80 pixels wide and 160 tall. The program lays the text out, packs the pixels into
RGB565 and sends them as one bitmap command over a serial port. Three copies of that pipeline are modelled:

- the current Rust crate (`src/image.rs`, `src/text.rs`, `src/protocol.rs`);
- the older Rust crate (`rust-src/image.rs`, `rust-src/protocol.rs`);
- the Python package (`src/image.py`, `src/serial_comm.py`, `src/com_ports.py`).

Modules:

- `Canvas`: the two logical canvas shapes, Landscape 160x80 and Portrait 80x160.
- `Bytes`: bytes and little-endian 16-bit fields.
- `Raster`: the RGB image.
- `Rgb565`: pixel packing.
- `Encoder`, `Images`, `LegacyImage`, `PyImage`: the frame encoders. Row-major scans, and the 90° rotation
  of Landscape images into the panel's scan order.
- `Glyphs`: text measurement against an abstract font.
- `AutoFit`: the font-size binary search.
- `Placement`: the centring arithmetic of text drawing.
- `TextLayout`: word wrap, truncation and paging.
- `Transport`: the serial port and the pyserial connection, as classes holding a call log, the bytes
  delivered and a script of failing calls.
- `Protocol`: the Rust senders.
- `SerialComm`: the Python sender.
- `ComPorts`: finding the display among the serial ports.
- `Seqs`, `Arith`, `Wrappers`: shared helpers.

Rust's `f32` is modelled as Dafny `real`. The auto-fit search only ever computes multiples of 1/2 between
8 and 72, so there it is exact. Float-to-integer casts (`as u32`, `as usize`, `as i32`) are written out
explicitly: they round toward zero and saturate. The font is two abstract functions:

- the horizontal advance of a character at a size;
- the line height at a size.

`AutoFit` sees the text only through `measure_multiline_text`, given as an oracle from size to
(width, height); `Glyphs.MeasureMultiline` is that oracle for a given font, and `AutoFit.AutoFitFor` runs
the search with it.

A port is modelled as a script of failures. Its calls are numbered from 0 over its life, and call `n`
fails exactly when `n` is in the port's `failing` set. A failing call is modelled as delivering nothing. A pyserial `write`
may also accept only part of its data: `short[n]` says how much call `n` accepts. The senders are proved
against `Attempted` and `Delivered`:

- `Attempted` is the calls a sender makes when it stops at the first failure.
- `Delivered` is the bytes that reach the display before that failure.

Points where the code does something one might not expect:

- `src/protocol.rs` builds its header from the logical canvas. A Landscape frame is announced as
  (0, 0)-(159, 79), although its payload is in the panel's portrait scan order.
- The chunk size is the logical width times 4: 640 bytes in Landscape, 320 in Portrait.
- A Portrait frame is two bytes per pixel of the image's own size. It is not a fixed 25600 bytes.
- `truncate_to_fit` does not shrink a word one character at a time. See "Findings".

## Model

| member | source | states |
|---|---|---|
| Canvas.Orientation.Width | src/image.rs:21-26 | Landscape is 160 (the physical height) wide and Portrait 80 (the physical width) |
| Canvas.Orientation.Height | src/image.rs:29-34 | Landscape is 80 tall and Portrait 160 |
| Canvas.Shapes | src/image.rs:9-39 | the two shapes are each other's transpose, both cover the 80x160 panel, and the default, Landscape, has the legacy 160x80 extents |
| Bytes.Le16 | src/protocol.rs:27-38 | two bytes, low first, whose value is the field |
| Bytes.ReadLe16 | src/protocol.rs:27-38 | reading two bytes back gives a value whose low and high bytes are those two |
| Bytes.Le16RoundTrip | src/protocol.rs:27-38 | splitting a 16-bit field into low and high bytes and reading them back gives the field |
| Raster.Filled | src/image.rs:47-54 | `from_pixel(w, h, c)` is a well-formed w x h image with every pixel c |
| Rgb565.PackFields | src/image.rs:260-264 | bits 15-11 of the packed value are r>>3, bits 10-5 are g>>2 and bits 4-0 are b>>3 |
| Rgb565.PixelBytes | src/image.rs:264-266 | a pixel is pushed as two bytes, low byte then high byte of its RGB565 value |
| Rgb565.PackUnpack | src/image.rs:261-264 | unpacking a packed colour clears exactly the dropped low bits, and a colour without them survives |
| Rgb565.UnpackPack | src/image.rs:261-264 | every 16-bit value is the packing of some colour: packing its unpacking gives it back |
| Rgb565.KnownColours | src/image.rs:309-340 | black 0x0000, white 0xFFFF, red 0xF800, green 0x07E0 and blue 0x001F, each sent low byte first |
| Encoder.SourceInImage | src/image.rs:232-254 | every pixel a scan samples lies inside an image that covers the scan |
| Encoder.ScanBytes | src/image.rs:228-258 | the first n scan positions push 2n bytes |
| Encoder.ScanBytesAt | src/image.rs:236-237 | scan position i occupies bytes 2i and 2i+1, as its pixel's RGB565 |
| Encoder.EncodedPixel | src/image.rs:228-258 | a frame has two bytes per scanned pixel, with pixel i at offset 2i |
| Encoder.RowMajorSourceAt | src/image.rs:234-236 | in row-major order pixel (x, y) is scan position y*w+x |
| Encoder.RowMajorOffset | src/image.rs:232-239 | a row-major frame is w*h*2 bytes long and carries pixel (x, y) at offset 2(y*w+x) |
| Encoder.RotationIsBijective | src/image.rs:244-251 | the Landscape rotation and `RotatedIndex` are inverse maps between the 12800 scan positions and the 160x80 logical pixels |
| Encoder.RotationIsInjective | src/image.rs:244-251 | no two scan positions sample the same logical pixel |
| Encoder.LandscapeOffset | src/image.rs:241-254 | a Landscape frame is 25600 bytes, and offset 2(80py+px) holds logical pixel (py, 79-px) |
| Encoder.RowMajorStep | src/image.rs:234-238 | visiting (x, y) in the nested loops extends the frame by that pixel's two bytes |
| Encoder.EncodeRowMajor | src/image.rs:232-239 | the nested row/column loops produce exactly the row-major frame |
| Encoder.RotatedSourceAt | src/image.rs:246-250 | physical (py, px) is scan position 80py+px and samples logical (py, 79-px) |
| Encoder.RotatedStep | src/image.rs:246-251 | visiting (py, px) extends the frame by logical pixel (py, 79-px) |
| Encoder.EncodeRotated | src/image.rs:241-254 | the py/px loops produce exactly the rotated frame |
| Images.CreateBlankImageOriented | src/image.rs:52-54 | a black canvas of the orientation's logical width and height |
| Images.CreateBlankImage | src/image.rs:47-49 | a black 160x80 canvas |
| Images.ImageToRgb565BytesOriented | src/image.rs:228-258 | Portrait is the row-major frame, w*h*2 bytes; Landscape is the rotated frame, 25600 bytes |
| Images.ImageToRgb565Bytes | src/image.rs:222-224 | the default orientation: the rotated 25600-byte frame |
| Images.BlankFrameIsZero | src/image.rs:52-54 | a blank canvas encodes in either orientation to 12800 pixels of 00 00 |
| Images.BlackFrameIsZero | src/image.rs:260-266 | every pixel of an all-black image's frame is 00 00 |
| LegacyImage.CreateBlankImage | rust-src/image.rs:10-12 | a black 160x80 canvas |
| LegacyImage.ImageToRgb565Bytes | rust-src/image.rs:47-69 | the top-left 160x80 pixels row by row, 25600 bytes, for any image at least that large |
| LegacyImage.FixedOffset | rust-src/image.rs:50-64 | pixel (x, y) is at byte offset 2(160y+x), low byte first |
| LegacyImage.FixedOffsetInjective | rust-src/image.rs:50-51 | distinct canvas pixels land at distinct offsets |
| PyImage.CreateBlankImage | src/image.py:13-25 | a w x h image whose every pixel is the background colour |
| PyImage.DefaultBlankImage | src/image.py:9-13 | the defaults give the 160x80 image in which every pixel is black |
| PyImage.ImageToBytes | src/image.py:101-121 | the row-major frame over the image's own size, w*h*2 bytes |
| PyImage.ImageToBytesPixel | src/image.py:105-119 | pixel (x, y) is at offset 2(y*w+x), as little-endian RGB565 |
| PyImage.SolidImageBytes | src/image.py:105-119 | a single-colour canvas sends its colour's two bytes for every pixel |
| Glyphs.CastFloor | src/image.rs:177 | a float cast to an unsigned integer rounds toward zero, sends negatives to 0 and saturates |
| Glyphs.CastFloorMonotone | src/image.rs:177 | the cast never decreases as its argument grows |
| Glyphs.AdvanceSumAppend | src/image.rs:169-175 | the summed advance of a concatenation is the sum of the parts' |
| Glyphs.AdvanceSumNonNegative | src/image.rs:172-175 | with non-negative advances the sum is non-negative |
| Glyphs.WidthOfExtension | src/image.rs:165-178 | with non-negative advances a text is at least as wide as any prefix of it |
| Glyphs.MeasureText | src/image.rs:165-178 | the loop returns the cast sum of the characters' advances, and a height independent of the text |
| Glyphs.StripCr | src/image.rs:112 | a line loses at most one trailing `\r` |
| Glyphs.Lines | src/image.rs:112 | `lines()` gives no lines exactly for the empty text, and no line holds a `\n` |
| Glyphs.MaxWidth | src/image.rs:117-121 | the maximum bounds every line's width and is one line's width |
| Glyphs.MultilineWidth | src/image.rs:112-125 | (0, 0) exactly for a text without lines; otherwise the width of its widest line |
| Glyphs.SingleLineMeasure | src/image.rs:104-125 | a one-line text measures as `measure_text` does |
| Glyphs.FloorQuotient | src/image.rs:194-198 | 0 when the unit is not positive |
| Glyphs.FloorQuotientBounds | src/image.rs:194-198 | n units fit in the total and, unless n saturated, n+1 do not |
| Glyphs.MaxLinesBounds | src/image.rs:205-219 | 0 for a non-positive line height; otherwise the largest count of lines fitting the canvas height |
| Glyphs.MaxCharsBounds | src/image.rs:184-199 | 0 for a non-positive advance of `x`; otherwise the largest count of `x`s fitting the canvas width |
| AutoFit.SpanTable | src/image.rs:148-151 | the loop test `high - low > 0.5` holds for fewer than 7 halvings and fails after exactly 7, when the width is 0.5 |
| AutoFit.SearchStep | src/image.rs:151-160 | one iteration tests the midpoint and moves `low` up if it fits, `high` down otherwise |
| AutoFit.SearchKeepsBracket | src/image.rs:151-160 | every `low` is 8 or fits, every `high` is 72 or does not, and k iterations halve the width k times |
| AutoFit.AutoFitSizeProperties | src/image.rs:140-163 | 8 for empty text; always in [8, 71.5]; 8 or a size that fits; and half a point more is 72 or does not fit |
| AutoFit.CalculateAutoFitSizeOriented | src/image.rs:140-163 | the while loop returns the size `AutoFitSize` specifies |
| AutoFit.CalculateAutoFitSize | src/image.rs:135-137 | the same search on the default orientation |
| Placement.AsI32 | src/image.rs:89 | `u32 as i32` keeps values up to 2^31-1 and wraps larger ones into the i32 range |
| Placement.TruncHalf | src/image.rs:89 | integer division by 2 rounds toward zero for both signs |
| Placement.CenterOffset | src/image.rs:89 | 0 when the extent is at least the canvas; otherwise the offset that centres it to within one pixel |
| Placement.F32ToI32 | src/image.rs:85 | a float cast to i32 rounds toward zero and saturates at both bounds |
| Placement.StartY | src/image.rs:85 | the block's top is non-negative, 0 when the block is taller than the canvas, and otherwise half the free height, rounded down |
| Placement.LineOrigins | src/image.rs:79-93 | one origin per line |
| Placement.LineOriginsPlacement | src/image.rs:85-90 | every line starts at x >= 0, a narrower line is centred, the first line is at the block's top and no line is above it |
| Placement.DrawTextOriented | src/image.rs:71-94 | the line loop computes each line's origin as `LineOrigins` specifies |
| Placement.DrawText | rust-src/image.rs:20-30 | the legacy origin centres the measured width on 160 and the line height on 80 |
| Placement.DrawTextCentres | rust-src/image.rs:26-27 | the legacy origin is 0 for text at least as wide (tall) as the canvas and centres narrower text to within a pixel |
| Protocol.EncodeHeader | src/protocol.rs:27-38 | a header is 10 bytes starting 0x05 and ending 0x0A |
| Protocol.HeaderRoundTrip | src/protocol.rs:21-39 | a header parses back to its window, and whatever parses is a header |
| Protocol.FullCanvas | src/protocol.rs:22-25 | the window runs from (0, 0) to (logical width - 1, logical height - 1) |
| Protocol.HeaderLayout | src/protocol.rs:27-38 | the command byte, x0, y0, x1, y1 each low byte first, then the terminator |
| Protocol.HeaderBytes | src/protocol.rs:86-110 | Landscape is 05 00 00 00 00 9F 00 4F 00 0A and Portrait 05 00 00 00 00 4F 00 9F 00 0A |
| Protocol.HeaderNamesCanvas | src/protocol.rs:21-39 | every orientation's header names its whole logical canvas |
| Protocol.ChunkSize | src/protocol.rs:60 | four logical rows: 640 bytes in Landscape, 320 in Portrait |
| Protocol.Writes | src/protocol.rs:61-63 | one write call per chunk, in order |
| Protocol.WritesPayload | src/protocol.rs:61-63 | the writes of the chunks carry the chunks' bytes, in order |
| Protocol.PrefacePayload | src/protocol.rs:53-58 | clear, header write and flush carry exactly the header |
| Protocol.FramePayload | src/protocol.rs:53-65 | a frame's calls carry the header followed by the whole payload |
| Protocol.FrameCallsShape | src/protocol.rs:53-65 | the frame is clear, header, flush, one write per chunk, flush |
| Protocol.WriteHeader | src/protocol.rs:53-58 | clear, header write and flush, stopping at the first that fails |
| Protocol.WriteFrame | src/protocol.rs:53-68 | the port sees the frame's calls up to the first failure and receives what the calls before it carried; `Ok` exactly when none failed |
| Protocol.SendFrame | src/protocol.rs:53-68 | the same for a header and a payload chunked at the given size |
| Protocol.SendImageToDisplayOriented | src/protocol.rs:48-69 | the oriented frame; on `Ok` the display has received exactly the header and then the payload |
| Protocol.SendImageToDisplay | src/protocol.rs:41-46 | the default orientation: the port sees the default frame's calls up to the first failure and receives what the calls before it carried; `Ok` exactly when none failed, and then the display has received the header and then the payload |
| Protocol.LegacyBitmapHeader | rust-src/protocol.rs:18-36 | the older header is the current Landscape header |
| Protocol.LegacySendImageToDisplay | rust-src/protocol.rs:38-57 | chunks of 640 bytes; stops at the first failure, and the port receives what the calls before it carried; on `Ok` the display has received the header and then the payload |
| SerialComm.CreateBitmapHeader | src/serial_comm.py:104-128 | the buffer filled field by field is the Rust crate's Landscape header |
| SerialComm.CreateDisplayCommand | src/serial_comm.py:131-150 | the header followed by the pixels, also for empty pixels |
| SerialComm.Chunked | src/serial_comm.py:46-58 | the generator yields the chunks of the data; a zero size raises and a negative one yields nothing |
| SerialComm.SlicesFromChunks | src/serial_comm.py:57-58 | the slices `data[i:i+n]` for i stepping by n are the chunks of the data |
| SerialComm.SendBytes | src/serial_comm.py:23-43 | false without a connection or when `write` raises; true otherwise, even after a partial write |
| SerialComm.FrameCallsShape | src/serial_comm.py:77-92 | the frame is both resets, header, flush, one write per 640-byte chunk, flush |
| SerialComm.PrefacePayload | src/serial_comm.py:79-85 | both resets, the header write and the flush carry exactly the header |
| SerialComm.FramePayload | src/serial_comm.py:77-92 | the frame's writes carry the header followed by the pixels |
| SerialComm.WriteHeader | src/serial_comm.py:79-85 | both resets, header write and flush, stopping at the first that raises |
| SerialComm.WriteFrame | src/serial_comm.py:77-101 | the connection sees the frame's calls up to the first that raises and receives what the writes before it accepted; true exactly when none raised |
| SerialComm.SendImageToDisplay | src/serial_comm.py:61-101 | false without a connection; otherwise as `WriteFrame` for the 160x80 frame |
| SerialComm.SendDeliversFrame | src/serial_comm.py:83-92 | with no exception and no short write the display receives the header then the pixels |
| ComPorts.Candidates | src/com_ports.py:48-49 | the list passed in, or the system's ports when none is passed |
| ComPorts.FormatPortInfo | src/com_ports.py:25-35 | "device: description [hwid]", with device and description at their places |
| ComPorts.IsDisplayFsConnected | src/com_ports.py:38-57 | true exactly when some candidate port has both ids and they are a CH340 or CH341 pair |
| ComPorts.FindDisplayPort | src/com_ports.py:60-79 | the first matching port itself, or None exactly when none matches |
| ComPorts.KnownBridges | src/com_ports.py:9-12 | (0x1A86, 0x7523) and (0x1A86, 0x5523) match; a port missing either id does not |
| Seqs.Split | src/text.rs:35 | at least one piece, none holding the separator, and joined back they give the text |
| Seqs.ChunksSpec | src/protocol.rs:61-63 | the chunks concatenate to the data; each is 1..n long and all but the last are exactly n |
| Transport.Accepted | src/serial_comm.py:84 | a write accepts at most what it was given, and all of it unless scripted short |
| Transport.Transferred | src/serial_comm.py:84 | only writes transfer bytes, and a prefix of their data |
| Transport.AttemptedStopsAt | src/protocol.rs:53-65 | when call k is the first to fail, exactly calls 0..k are made and only calls before k deliver |
| Transport.DeliveredAll | src/protocol.rs:53-68 | without failures or short writes every call is made and every write delivered in full |
| Transport.Advanced | src/protocol.rs:56-63 | a call that does not fail extends the log and the delivered bytes by itself |
| Transport.StoppedAt | src/protocol.rs:56-63 | a call that fails ends the sender with the log and bytes `Attempted` and `Delivered` give |
| Transport.Finished | src/protocol.rs:65-68 | a sender that made every call made all of them and delivered what `Delivered` gives |
| Transport.SerialPort.ClearAll | src/protocol.rs:53-54 | logs a clear, delivers nothing, and fails as scripted |
| Transport.SerialPort.WriteAll | src/protocol.rs:57 | logs the write and delivers all of its data, or nothing when it fails |
| Transport.SerialPort.Flush | src/protocol.rs:58 | logs a flush, delivers nothing, and fails as scripted |
| Transport.Connection.ResetInputBuffer | src/serial_comm.py:79 | logs the reset and raises as scripted |
| Transport.Connection.ResetOutputBuffer | src/serial_comm.py:80 | logs the reset and raises as scripted |
| Transport.Connection.Write | src/serial_comm.py:84 | logs the write; when it does not raise it delivers the accepted prefix and returns its length |
| Transport.Connection.Flush | src/serial_comm.py:85 | logs the flush and raises as scripted |
| TextLayout.WordsAfterSpec | src/text.rs:41 | the pieces are words, and together they are the text's non-whitespace characters in order |
| TextLayout.WordsSpec | src/text.rs:41 | `split_whitespace` gives whitespace-free non-empty words holding every non-whitespace character in order |
| TextLayout.WordsEmpty | src/text.rs:41-45 | a paragraph has no words exactly when it is blank |
| TextLayout.WordsAroundBreak | src/text.rs:35-41 | the words of a text split at a space or newline are the words of each side |
| TextLayout.WordsOfParagraphs | src/text.rs:35-41 | the words of a text are the words of its paragraphs, in order |
| TextLayout.Utf8Len | src/text.rs:96 | `str::len` counts between 1 and 4 bytes per character |
| TextLayout.Take | src/text.rs:99 | `chars().take(n)` is the prefix of min(n, length) characters |
| TextLayout.EmptyFits | src/text.rs:88-91 | the empty line fits |
| TextLayout.TruncateToFit | src/text.rs:94-103 | where the loop returns, it returns the word if it fits, otherwise its first min(max_chars, byte length) - 1 characters |
| TextLayout.TruncateResultFits | src/text.rs:94-103 | that result is a prefix of the word, and it fits whenever the loop returns |
| TextLayout.TruncationHangs | src/text.rs:94-103 | wherever the loop does not return at once or after one cut, the cut is non-empty, still too wide and unchanged by the loop body, so the loop test holds forever |
| TextLayout.TruncationCanHang | src/text.rs:94-103 | a font and a 20-character word on which the loop never returns: its 15-character cut is non-empty, too wide and a fixed point of the loop body |
| TextLayout.TruncateToFitCorrected | src/text.rs:94-103 | the intended loop always returns the longest fitting prefix of at most min(max_chars, byte length) - 1 characters, or the word if it fits |
| TextLayout.WrapWordsLeavesLine | src/text.rs:47-81 | once a word has been seen, a pushed line or a current line is left |
| TextLayout.WrapWordsFit | src/text.rs:49-77 | when truncation returns on every word, every pushed line and the current line fit in 160 |
| TextLayout.PlacedWord | src/text.rs:56-75 | a word that fits on its own is placed whole; any other word leaves only its one cut, a prefix of it, or nothing when the cut is empty |
| TextLayout.PlacedWordsFitting | src/text.rs:56-75 | words that each fit on their own are placed unchanged |
| TextLayout.WrapWordKeepsWords | src/text.rs:49-76 | one iteration puts the word, or its cut when it does not fit alone, after the words already placed; a word that joins a line after a space fits alone |
| TextLayout.WrapWordsKeepsWords | src/text.rs:49-77 | the lines hold the words in order, none split across lines, each whole unless it does not fit alone, then its cut |
| TextLayout.WrapParagraphShape | src/text.rs:35-45 | an empty or blank paragraph gives exactly one empty line; every paragraph gives at least one |
| TextLayout.WrapParagraphFits | src/text.rs:47-81 | a paragraph's lines all fit when truncation returns on its words |
| TextLayout.WrapParagraphKeepsWords | src/text.rs:47-81 | a paragraph comes back as its words in order, each whole or, when it does not fit alone, its cut |
| TextLayout.WrapParagraphLines | src/text.rs:36-81 | the paragraph body of the loop pushes the lines `WrapParagraph` specifies |
| TextLayout.WrapText | src/text.rs:27-85 | the paragraph loop returns the lines `Wrapped` specifies |
| TextLayout.WrapParagraphsProperties | src/text.rs:35-82 | at least one line per paragraph, all fitting when truncation returns, and the paragraphs' words in order, each whole or its cut |
| TextLayout.WrapParagraphsKeepWords | src/text.rs:35-82 | the paragraphs' lines carry the paragraphs' words in order, each whole or, when it does not fit alone, its cut |
| TextLayout.WrappedProperties | src/text.rs:27-85 | no lines exactly for empty text; at least one per paragraph; all fit when truncation returns; the text's words in order, none split, each whole unless it does not fit alone; exactly the text's words when every word fits |
| TextLayout.AllParagraphWordsFit | src/text.rs:35-41 | a word of any paragraph is a word of the whole text |
| TextLayout.PagesJoin | src/text.rs:19-22 | the pages joined with `\n` are all the lines joined with `\n` |
| TextLayout.PagesShape | src/text.rs:19-22 | each page joins 1 to max_lines consecutive lines, the runs in order are the lines, and there are no pages exactly when there are no lines |
| TextLayout.SplitIntoPages | src/text.rs:6-23 | the method returns the pages `PagesOf` specifies |
| TextLayout.PagesOfProperties | src/text.rs:6-23 | no pages for empty text or max_lines 0; otherwise at least one page, and the pages joined are the wrapped lines joined |

## Left out

- Glyph rasterisation and font parsing (`draw_text_mut`, `FontRef`, `h_advance`) are foreign libraries. The font is an abstract advance and line-height function, and `DrawTextOriented` returns the line origins instead of drawing.
- The Python `draw_text` and `create_hello_world_image` (src/image.py:28-77) are PIL calls and are not part of this model.
- IEEE `f32` rounding is not modelled: sizes, advances and line heights are exact reals. Only the casts to integers are written out.
- Glyphs.MeasureText: does not model the rounding of each `f32` addition in the width loop; the width is the exact sum, truncated once.
- Placement.CenterOffset: the subtraction `canvas as i32 - extent as i32` is unbounded here. With text wider than 2^31 pixels, Rust would overflow there; the model does not.
- Placement.LineOrigins: the addition `start_y + (i as f32 * line_height) as i32` (src/image.rs:90) is unbounded here. With enough lines of a large line height, Rust's i32 addition would overflow; the model does not.
- `sleep(100 ms)` and `time.sleep(0.1)` only wait, and are left out.
- Port enumeration and opening (src/port.rs, rust-src/port.rs) are left out. So is `list_com_ports`: the system's port list is the parameter `system`.
- Exceptions from pyserial are the `failing` set of call numbers, and partial writes are the `short` map. The Rust `write_all` is modelled as delivering everything or, when it fails, nothing. A real `write_all` may fail after delivering part of its data.
- Transport.Connection.Write: a `write` that raises is modelled as delivering nothing. pyserial's `write` can raise `SerialTimeoutException`, or another exception inside its write loop, after part of the data has gone out. So `SerialComm.WriteFrame` and `SerialComm.SendImageToDisplay` state the bytes that reach the display before the failing call, not any a raising `write` sent before it raised.
- SerialComm.SendImageToDisplay: `chunked` is evaluated eagerly. The model cuts every chunk before the first write; the generator would cut each chunk just before its write. The bytes and calls are the same.
- PIL's mode conversion in `image_to_bytes` (src/image.py:98-99) is left out: images are RGB.
- TextLayout.TruncateToFit: requires `TruncationSettles`, the words on which the loop as written returns. On other words it loops forever (see Findings).
- TextLayout.WrapText: requires that the loop returns on every word of every paragraph.
- TextLayout.WrappedProperties: word order is stated for fonts whose advances are never negative (as every real font's are), and, for any font, when every word fits on its own. With a negative advance a word could join a line it does not fit alone.
- TextLayout.SplitIntoPages: requires the same, whenever `max_lines` is positive.
- The CLI, orchestration, Spotify integration and library re-exports (src/main.rs, src/spotify.rs, src/lib.rs, hello_world.py, detect_display.py) are not part of this model.

## Findings

| source | as written | input that shows it | evidently intended | confidence | as-written member | corrected member |
|---|---|---|---|---|---|---|
| src/text.rs:94-103 | `limit` never changes inside the loop, so every round takes the same `limit - 1` characters; if that prefix is non-empty and still too wide, the loop never ends | a font where `x` advances 10 px and every other character 20 px (so max_chars = 16) and a word of twenty `W`s: it is cut to 15 characters, 300 px wide, again and again | shrink the word one character per round until it fits | not executed | TextLayout.TruncationCanHang | TextLayout.TruncateToFitCorrected |

`TextLayout.WrapText` and `TextLayout.SplitIntoPages` model the code as written. They use the as-written truncation, restricted to the words on which it returns. `TextLayout.TruncateToFitCorrected` is the intended loop, with its property proved on every word.
