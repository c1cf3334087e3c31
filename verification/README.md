# JPEG data source manager: buffered input and restart resynchronisation

This project models the data source manager of the LibJpeg.NET decompressor
(`jpeg_source_mgr`) in Dafny and proves properties of the model. The manager
has two jobs:

* **Buffered input.** It keeps `m_bytes_in_buffer`, the number of unread bytes
  in the current window. The window is refilled through the pluggable
  `fill_input_buffer`, which may *suspend* by returning false. The operations
  are `initInternalBuffer`, `MakeByteAvailable`, `GetByte`, `GetTwoBytes`,
  `GetBytes` and `skip_input_data`.
* **Restart resynchronisation.** `resync_to_restart` is called when the
  decoder finds a marker other than the restart marker it expected. It
  chooses one of three recovery actions:
  1. discard the marker;
  2. scan forward to the next marker and decide again;
  3. leave the marker unread.

  It issues one warning per call and one trace per decision.

The byte copies of the buffer operations are commented out in the library:
`GetByte` and `GetTwoBytes` set V to 0, and `GetBytes` returns a count and
never writes its destination. The model therefore tracks byte
counts and suspension, not byte values.

## Structure

| file | module | contents |
|---|---|---|
| markers.dfy | `Markers` | SOF0 = 0xC0, RST0..RST7 = 0xD0..0xD7, EOI = 0xD9 (ITU-T T.81, Table B.1) |
| recovery.dfy | `Recovery` | the recovery actions and the pure classifier `ChooseAction`, with its properties |
| resync.dfy | `Resync` | the decision loop of `resync_to_restart` as a function over a scripted marker reader, with its properties |
| window.dfy | `InputWindow` | the buffer state as a value (`Window`) and one function per buffer operation |
| window_properties.dfy | `InputWindowProperties` | properties that span several buffer operations |
| source_manager.dfy | `SourceManager` | the classes `DecompressContext` and `JpegSourceManager`; the `JpegSourceManager` buffer and resync methods are proved against the functions above |

### Modelling choices

* **The data source is a script.** It is the list of window sizes that
  `fill_input_buffer` will load, in order. When the list is used up,
  `fill_input_buffer` suspends and changes nothing. Every scripted window
  holds at least one byte. `fills` counts the calls to `fill_input_buffer`.
* **The stream is accounted for by `Total`.** This is the number of bytes
  the stream still holds: the unread part of the window plus every window
  still to come. Each operation is specified by how much of `Total` it
  consumes.
* **The marker reader is a script too.** `next_marker` is the list of
  markers it will find. When the list is used up, it suspends and leaves the
  pending marker unchanged.
* **Diagnostics become a message log.** `WARNMS2` and `TRACEMS2` append
  messages to `DecompressContext.messages`.
* **Restart numbers use `% 8`.** The library computes `(desired + k) & 7` on
  a 32-bit int. The model uses Dafny's Euclidean `(desired + k) % 8`. The two
  agree for every int: negative values, and values that wrap around, give the
  same result because 2^32 is a multiple of 8.
* **`term_source` does nothing.** It appears as
  `SourceManager.JpegSourceManager.TermSource` with an empty body and no
  contract, so it has no row in the table below.
* **The two-byte read is not atomic.** The comment above `MakeByteAvailable`
  (jpeg_source_mgr.cs:252-258) says the buffer state is updated only at
  points where a suspended read can restart. `GetTwoBytes` does not keep to
  this. It decrements `m_bytes_in_buffer` for the first byte before it asks
  for the second, so if the second byte suspends, the first stays consumed.
  The model follows the code; see
  `InputWindowProperties.GetTwoBytesKeepsFirstByte`.

## Model

| member | source | states |
|---|---|---|
| `Recovery.ChooseAction` | LibJpeg.NET/LibJpeg/jpeg_source_mgr.cs:125-135 | a code below SOF0 is not a legal marker and is scanned past; a legal code outside RST0..RST7 is left unread |
| `Recovery.RestartByDistance` | LibJpeg.NET/LibJpeg/jpeg_source_mgr.cs:136-155 | for a restart marker, in both directions: one or two ahead of the desired number is left unread; one or two behind is scanned past; anything else (the desired one, or 3 to 5 ahead) is discarded |
| `Recovery.ChooseActionCyclic` | LibJpeg.NET/LibJpeg/jpeg_source_mgr.cs:138-145 | the decision depends on the desired number only modulo 8 |
| `Recovery.RestartsLeftUnread` | LibJpeg.NET/LibJpeg/jpeg_source_mgr.cs:138-143 | for every desired number, the restart markers left unread are exactly the next two |
| `Recovery.RestartsScannedPast` | LibJpeg.NET/LibJpeg/jpeg_source_mgr.cs:144-149 | the restart markers scanned past are exactly the two before the desired one |
| `Recovery.RestartsDiscarded` | LibJpeg.NET/LibJpeg/jpeg_source_mgr.cs:150-154 | the other four restart markers are discarded; with the two sets above this is a partition of the eight |
| `Recovery.DecisionTableForThree` | LibJpeg.NET/LibJpeg/jpeg_source_mgr.cs:125-155 | the full decision table for desired number 3, with one bogus code and EOI |
| `Resync.ResyncLoop` | LibJpeg.NET/LibJpeg/jpeg_source_mgr.cs:121-175 | takes at most as many markers as the reader has; one trace per turn; returns false only with the reader exhausted, leaving the last marker found pending; on success the pending marker is 0 or one that is left unread |
| `Resync.ResyncClosedForm` | LibJpeg.NET/LibJpeg/jpeg_source_mgr.cs:123-175 | the loop scans past every marker before the first one not to be scanned past, settles on that one (clearing it on discard, keeping it otherwise), and fails only when there is no such marker |
| `Resync.ResyncFailsOnlyOnSuspension` | LibJpeg.NET/LibJpeg/jpeg_source_mgr.cs:165-168 | returns false exactly when every marker examined must be scanned past, i.e. when next_marker suspends |
| `Resync.ResyncTraceAt` | LibJpeg.NET/LibJpeg/jpeg_source_mgr.cs:157 | the j-th trace carries the j-th marker examined and the number of the action chosen for it |
| `Resync.ResyncMessageCounts` | LibJpeg.NET/LibJpeg/jpeg_source_mgr.cs:119-157 | exactly one warning per call, and one trace per turn of the loop (one more than the markers taken) |
| `Resync.ResyncSettled` | LibJpeg.NET/LibJpeg/jpeg_source_mgr.cs:170-173 | a marker left pending settles again at once on the next call, taking nothing from the reader |
| `Resync.TwoScansThenDiscard` | LibJpeg.NET/LibJpeg/jpeg_source_mgr.cs:116-176 | a bogus code, then RST1, then RST3 with RST3 desired: two scans and a discard, three traces, one warning |
| `InputWindow.Fill` | LibJpeg.NET/LibJpeg/jpeg_source_mgr.cs:25-31 | a successful fill loads the next scripted window in place of the current one (unread bytes of the old window are lost); a suspended fill changes nothing; every call is counted |
| `InputWindow.MakeByteAvailable` | LibJpeg.NET/LibJpeg/jpeg_source_mgr.cs:259-268 | with bytes in the window: true, no fill, nothing changes; with none: exactly one fill and its result; succeeds exactly when the stream holds a byte; loses no byte |
| `InputWindow.GetByte` | LibJpeg.NET/LibJpeg/jpeg_source_mgr.cs:220-234 | consumes exactly one byte on success; the windows still to come are unchanged, or lose only their head when the window was empty; on suspension consumes nothing; V is 0 on every path |
| `InputWindow.GetTwoBytes` | LibJpeg.NET/LibJpeg/jpeg_source_mgr.cs:194-214 | consumes exactly two bytes on success, across at most two fills, and the windows still to come are what is left of the script after those fills; on suspension the first byte, if it was read, stays consumed; V is 0 |
| `InputWindow.GetBytes` | LibJpeg.NET/LibJpeg/jpeg_source_mgr.cs:236-250 | returns min(amount, m_bytes_in_buffer), lowers the count by that much when it is positive, never refills |
| `InputWindow.Skip` | LibJpeg.NET/LibJpeg/jpeg_source_mgr.cs:44-64 | no-op for n <= 0; otherwise consumes exactly n bytes of the stream, leaves the count non-negative, and every fill loads one window |
| `InputWindowProperties.SkipRefillsMinimal` | LibJpeg.NET/LibJpeg/jpeg_source_mgr.cs:52-62 | the skip loads exactly the fewest windows it needs and leaves the rest of the last one unread |
| `InputWindowProperties.SkipLeavesSuffix` | LibJpeg.NET/LibJpeg/jpeg_source_mgr.cs:52-59 | the windows loaded come from the front of the source, and the rest stay in order |
| `InputWindowProperties.SkipAdditive` | LibJpeg.NET/LibJpeg/jpeg_source_mgr.cs:44-64 | skipping n and then m bytes gives the same state as skipping n + m |
| `InputWindowProperties.SkipTenOverWindowsOfFour` | LibJpeg.NET/LibJpeg/jpeg_source_mgr.cs:44-64 | 4 bytes left, windows of 4, 4, 4 to come, skip 10: two refills, 2 bytes left |
| `InputWindowProperties.AvailableThenGetByte` | LibJpeg.NET/LibJpeg/jpeg_source_mgr.cs:220-268 | after MakeByteAvailable succeeds, the next GetByte succeeds without a fill |
| `InputWindowProperties.GetTwoBytesIsTwoGetBytes` | LibJpeg.NET/LibJpeg/jpeg_source_mgr.cs:194-234 | GetTwoBytes is two GetByte calls in a row, stopping at the first suspension with no rollback |
| `InputWindowProperties.GetTwoBytesKeepsFirstByte` | LibJpeg.NET/LibJpeg/jpeg_source_mgr.cs:202-209 | with one byte left and nothing to come, the two-byte read suspends with that byte consumed |
| `InputWindowProperties.ThreeBytesThenRefill` | LibJpeg.NET/LibJpeg/jpeg_source_mgr.cs:220-268 | a window of three bytes gives three reads with no fill; the fourth read calls fill_input_buffer exactly once |
| `SourceManager.DecompressContext.NextMarker` | LibJpeg.NET/LibJpeg/jpeg_source_mgr.cs:167 | the scripted marker reader: finds the next marker and makes it pending, or suspends and changes nothing |
| `SourceManager.DecompressContext.Warn` | LibJpeg.NET/LibJpeg/jpeg_source_mgr.cs:119 | WARNMS2 appends one warning and changes nothing else |
| `SourceManager.DecompressContext.TraceMessage` | LibJpeg.NET/LibJpeg/jpeg_source_mgr.cs:157 | TRACEMS2 appends one trace and changes nothing else |
| `SourceManager.JpegSourceManager.InitInternalBuffer` | LibJpeg.NET/LibJpeg/jpeg_source_mgr.cs:27-31 | the window now holds `size` unread bytes; nothing else changes |
| `SourceManager.JpegSourceManager.FillInputBuffer` | LibJpeg.NET/LibJpeg/jpeg_source_mgr.cs:25 | the scripted source; its new state is `InputWindow.Fill` of the old |
| `SourceManager.JpegSourceManager.MakeByteAvailable` | LibJpeg.NET/LibJpeg/jpeg_source_mgr.cs:259-268 | result and new state are `InputWindow.MakeByteAvailable` of the old state |
| `SourceManager.JpegSourceManager.GetTwoBytes` | LibJpeg.NET/LibJpeg/jpeg_source_mgr.cs:194-214 | result, V and new state are `InputWindow.GetTwoBytes` of the old state |
| `SourceManager.JpegSourceManager.GetByte` | LibJpeg.NET/LibJpeg/jpeg_source_mgr.cs:220-234 | result, V and new state are `InputWindow.GetByte` of the old state |
| `SourceManager.JpegSourceManager.GetBytes` | LibJpeg.NET/LibJpeg/jpeg_source_mgr.cs:236-250 | the decrementing loop returns the count and leaves the state of `InputWindow.GetBytes` |
| `SourceManager.JpegSourceManager.SkipInputData` | LibJpeg.NET/LibJpeg/jpeg_source_mgr.cs:44-64 | the refill loop leaves the state `InputWindow.Skip` of the old state |
| `SourceManager.JpegSourceManager.ResyncToRestart` | LibJpeg.NET/LibJpeg/jpeg_source_mgr.cs:116-176 | return value, pending marker, markers taken from the reader and messages issued are those of `Resync.ResyncLoop`, after one warning |

## Left out

- Byte values, the read pointer `m_next_input_byte` and the destination buffer of `GetBytes`: the copies are commented out in the library, so `GetByte` and `GetTwoBytes` set V to 0 and `GetBytes` leaves its destination as it was.
- Concrete `init_source` and `fill_input_buffer` (file, memory, network input): the source is a script of window sizes. The constructor of `JpegSourceManager` stands for an `init_source` that leaves the window empty.
- Windows of zero bytes: every scripted window holds at least one byte. With an empty window, `GetByte` could drive the count negative.
- `SourceManager.JpegSourceManager.SkipInputData`: requires that the skip not run past the end of the script. The library assumes `fill_input_buffer` never suspends inside `skip_input_data` and ignores its result. If a fill did suspend there, the loop would subtract the stale count again; that behaviour is not modelled.
- 32-bit limits of `m_bytes_in_buffer` and of the skip count: integers are unbounded here. The library never overflows them: it only subtracts non-negative amounts that are at most the current value.
- The internals of `next_marker`, `WARNMS2` and `TRACEMS2`: they are a script of markers and an appended message log. The numeric values of the message codes are not part of this model.
- The `JPEG_MARKER` enumeration is not part of this model: its values come from ITU-T T.81, Table B.1.
- Whether the entropy decoder consumes a discarded marker's bytes: `resync_to_restart` only clears the pending marker, and the model does the same.
- Tiff2PdfLib/Lib.cs: glue around TIFF and PDF libraries and .NET streams, with no decision logic of its own.
