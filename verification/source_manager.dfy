/** The data source manager of the JPEG decompressor and the part of the
    decompressor state its restart resynchronisation works on. Every method
    is proved against the value-level model: InputWindow for the buffer
    counter, Resync for resync_to_restart. */
module SourceManager {
  import opened Recovery
  import opened Resync
  import InputWindow

  /** What resync_to_restart reads and writes of jpeg_decompress_struct:
      the pending marker code (m_unread_marker), the markers the marker
      reader (m_marker.next_marker) will still find, and the diagnostics
      issued through WARNMS2 and TRACEMS2. */
  class DecompressContext {
    var unreadMarker: int
    var upcoming: seq<int>
    var messages: seq<Message>

    constructor (unreadMarker: int, upcoming: seq<int>)
      ensures this.unreadMarker == unreadMarker && this.upcoming == upcoming && messages == []
    {
      this.unreadMarker := unreadMarker;
      this.upcoming := upcoming;
      messages := [];
    }

    /** next_marker: finds the next marker and makes it the pending one, or
        suspends and changes nothing. */
    method NextMarker() returns (found: bool)
      modifies this
      ensures found <==> old(upcoming) != []
      ensures found ==> unreadMarker == old(upcoming)[0] && upcoming == old(upcoming)[1..]
      ensures !found ==> unreadMarker == old(unreadMarker) && upcoming == old(upcoming)
      ensures messages == old(messages)
    {
      found := upcoming != [];
      if found {
        unreadMarker := upcoming[0];
        upcoming := upcoming[1..];
      }
    }

    /** WARNMS2: a warning with two parameters. */
    method Warn(code: MessageCode, p1: int, p2: int)
      modifies this
      ensures messages == old(messages) + [Warning(code, p1, p2)]
      ensures unreadMarker == old(unreadMarker) && upcoming == old(upcoming)
    {
      messages := messages + [Warning(code, p1, p2)];
    }

    /** TRACEMS2: a trace message at `level` with two parameters. */
    method TraceMessage(level: int, code: MessageCode, p1: int, p2: int)
      modifies this
      ensures messages == old(messages) + [Trace(level, code, p1, p2)]
      ensures unreadMarker == old(unreadMarker) && upcoming == old(upcoming)
    {
      messages := messages + [Trace(level, code, p1, p2)];
    }
  }

  /** jpeg_source_mgr with a scripted data source: fill_input_buffer loads
      windows of the sizes in `chunks`, in order, and suspends once they are
      used up. `fills` counts the fill_input_buffer calls. */
  class JpegSourceManager {
    var bytesInBuffer: int
    var chunks: seq<int>
    var fills: nat

    function State(): InputWindow.Window
      reads this
    {
      InputWindow.Window(bytesInBuffer, chunks, fills)
    }

    ghost predicate Valid()
      reads this
    {
      InputWindow.WellFormed(State())
    }

    /** A source whose init_source leaves the buffer empty, so that the
        first read calls fill_input_buffer. */
    constructor (script: seq<int>)
      requires InputWindow.AllPositive(script)
      ensures Valid() && State() == InputWindow.Window(0, script, 0)
    {
      bytesInBuffer := 0;
      chunks := script;
      fills := 0;
    }

    /** initInternalBuffer: a new window of `size` unread bytes. */
    method InitInternalBuffer(size: nat)
      requires Valid()
      modifies this
      ensures Valid()
      ensures State() == old(State()).(remaining := size)
    {
      bytesInBuffer := size;
    }

    /** fill_input_buffer of the scripted source. */
    method FillInputBuffer() returns (ok: bool)
      requires Valid()
      modifies this
      ensures Valid()
      ensures InputWindow.Step(ok, State()) == InputWindow.Fill(old(State()))
    {
      fills := fills + 1;
      if chunks == [] {
        return false;
      }
      var size := chunks[0];
      chunks := chunks[1..];
      InitInternalBuffer(size);
      return true;
    }

    method MakeByteAvailable() returns (ok: bool)
      requires Valid()
      modifies this
      ensures Valid()
      ensures InputWindow.Step(ok, State()) == InputWindow.MakeByteAvailable(old(State()))
    {
      if bytesInBuffer == 0 {
        ok := FillInputBuffer();
        if !ok {
          return false;
        }
      }
      return true;
    }

    method GetTwoBytes() returns (ok: bool, v: int)
      requires Valid()
      modifies this
      ensures Valid()
      ensures InputWindow.Read(ok, v, State()) == InputWindow.GetTwoBytes(old(State()))
    {
      v := 0;
      ok := MakeByteAvailable();
      if !ok {
        return;
      }
      bytesInBuffer := bytesInBuffer - 1;
      ok := MakeByteAvailable();
      if !ok {
        return;
      }
      bytesInBuffer := bytesInBuffer - 1;
    }

    method GetByte() returns (ok: bool, v: int)
      requires Valid()
      modifies this
      ensures Valid()
      ensures InputWindow.Read(ok, v, State()) == InputWindow.GetByte(old(State()))
    {
      v := 0;
      ok := MakeByteAvailable();
      if !ok {
        return;
      }
      bytesInBuffer := bytesInBuffer - 1;
    }

    /** GetBytes: the destination buffer is never written (the copy is
        commented out in the library), so only the count is modelled. */
    method GetBytes(amount: int) returns (avail: int)
      requires Valid()
      modifies this
      ensures Valid()
      ensures InputWindow.Taken(avail, State()) == InputWindow.GetBytes(old(State()), amount)
    {
      avail := amount;
      if avail > bytesInBuffer {
        avail := bytesInBuffer;
      }
      var i := 0;
      while i < avail
        invariant 0 <= i <= avail || (avail < 0 && i == 0)
        invariant bytesInBuffer == old(bytesInBuffer) - i
        invariant chunks == old(chunks) && fills == old(fills)
      {
        bytesInBuffer := bytesInBuffer - 1;
        i := i + 1;
      }
    }

    /** skip_input_data: discards `numBytes` bytes, loading new windows
        while the skip runs past the current one. The caller must not skip
        past the end of the script: the library assumes fill_input_buffer
        does not suspend here. */
    method SkipInputData(numBytes: int)
      requires Valid() && numBytes <= InputWindow.Total(State())
      modifies this
      ensures Valid()
      ensures State() == InputWindow.Skip(old(State()), numBytes)
    {
      if numBytes > 0 {
        var n := numBytes;
        while n > bytesInBuffer
          invariant Valid() && 0 < n <= InputWindow.Total(State())
          invariant InputWindow.Skip(State(), n) == InputWindow.Skip(old(State()), numBytes)
          decreases |chunks|
        {
          n := n - bytesInBuffer;
          var _ := FillInputBuffer();
        }
        bytesInBuffer := bytesInBuffer - n;
      }
    }

    /** The default resync_to_restart: one warning, then the decision loop,
        which traces every decision and repeats only after a successful
        scan to the next marker. */
    method ResyncToRestart(cinfo: DecompressContext, desired: int) returns (ok: bool)
      modifies cinfo
      ensures ok == ResyncLoop(old(cinfo.unreadMarker), desired, old(cinfo.upcoming)).ok
      ensures cinfo.unreadMarker == ResyncLoop(old(cinfo.unreadMarker), desired, old(cinfo.upcoming)).unread
      ensures cinfo.upcoming
                == old(cinfo.upcoming)[ResyncLoop(old(cinfo.unreadMarker), desired, old(cinfo.upcoming)).consumed..]
      ensures cinfo.messages == old(cinfo.messages) + [Warning(MustResync, old(cinfo.unreadMarker), desired)]
                                + ResyncLoop(old(cinfo.unreadMarker), desired, old(cinfo.upcoming)).traces
    {
      ghost var marker0, upcoming0, messages0 := cinfo.unreadMarker, cinfo.upcoming, cinfo.messages;
      ghost var r0 := ResyncLoop(marker0, desired, upcoming0);
      cinfo.Warn(MustResync, cinfo.unreadMarker, desired);
      ghost var k: nat := 0;
      ghost var traced: seq<Message> := [];
      while true
        invariant k <= |upcoming0| && cinfo.upcoming == upcoming0[k..]
        invariant cinfo.messages == messages0 + [Warning(MustResync, marker0, desired)] + traced
        invariant r0 == Resumed(ResyncLoop(cinfo.unreadMarker, desired, cinfo.upcoming), k, traced)
        decreases |cinfo.upcoming|
      {
        ghost var m, u, before := cinfo.unreadMarker, cinfo.upcoming, traced;
        var action := ChooseAction(cinfo.unreadMarker, desired);
        cinfo.TraceMessage(RecoveryTraceLevel, RecoveryActionTrace, cinfo.unreadMarker, Code(action));
        traced := traced + [RecoveryTrace(m, desired)];
        match action
        case Discard =>
          cinfo.unreadMarker := 0;
          ok := true;
          break;
        case ScanForward =>
          var found := cinfo.NextMarker();
          if !found {
            ok := false;
            break;
          }
          ResyncLoopAdvance(m, desired, u, k, before);
          assert upcoming0[k..][1..] == upcoming0[k + 1..];
          k := k + 1;
        case LeaveUnread =>
          ok := true;
          break;
      }
    }

    /** term_source: nothing to release. */
    method TermSource()
    {
    }
  }
}
