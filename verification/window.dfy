/** The byte-count bookkeeping of jpeg_source_mgr, as a value. The library's
    byte copies are commented out and every value it reads is the constant 0,
    so the state that matters is m_bytes_in_buffer together with what the
    data source will still deliver. The data source is a script: the sizes
    of the windows fill_input_buffer will load, in order; once the script is
    exhausted fill_input_buffer suspends (returns false, changing nothing). */
module InputWindow {

  /** `remaining` is m_bytes_in_buffer, `chunks` the sizes of the windows
      still to come, `fills` the number of fill_input_buffer calls so far. */
  datatype Window = Window(remaining: int, chunks: seq<int>, fills: nat)

  /** The result of an operation that may suspend. */
  datatype Step = Step(ok: bool, after: Window)

  /** The result of GetByte and GetTwoBytes: success, the value V, the new state. */
  datatype Read = Read(ok: bool, value: int, after: Window)

  /** The result of GetBytes: the count returned, the new state. */
  datatype Taken = Taken(count: int, after: Window)

  /** The count of unread bytes is never negative and every window the
      source delivers holds at least one byte. */
  predicate WellFormed(w: Window)
  {
    w.remaining >= 0 && AllPositive(w.chunks)
  }

  predicate AllPositive(xs: seq<int>)
  {
    xs == [] || (xs[0] >= 1 && AllPositive(xs[1..]))
  }

  function Sum(xs: seq<int>): int
  {
    if xs == [] then 0 else xs[0] + Sum(xs[1..])
  }

  /** Bytes the stream still holds: the unread part of the current window
      plus every window still to come. */
  function Total(w: Window): int
  {
    w.remaining + Sum(w.chunks)
  }

  /** Fills that suspended: every other fill consumed one window of the script. */
  function Suspensions(before: Window, after: Window): int
  {
    (after.fills - before.fills) - (|before.chunks| - |after.chunks|)
  }

  lemma {:induction false} SumAtLeastLength(w: Window)
    requires WellFormed(w)
    ensures Sum(w.chunks) >= |w.chunks|
    decreases |w.chunks|
  {
    if w.chunks != [] {
      SumAtLeastLength(w.(chunks := w.chunks[1..]));
    }
  }

  /** fill_input_buffer of the scripted source: loads the next window in
      place of the current one (initInternalBuffer), or suspends. Whatever
      was left unread in the replaced window is lost to the reader. */
  function Fill(w: Window): (r: Step)
    requires WellFormed(w)
    ensures WellFormed(r.after) && r.after.fills == w.fills + 1
    ensures r.ok <==> w.chunks != []
    ensures r.ok ==> r.after.remaining >= 1 && r.after.chunks == w.chunks[1..]
    ensures r.ok ==> Total(r.after) == Total(w) - w.remaining
    ensures !r.ok ==> r.after.remaining == w.remaining && r.after.chunks == w.chunks
  {
    if w.chunks == [] then Step(false, w.(fills := w.fills + 1))
    else Step(true, Window(w.chunks[0], w.chunks[1..], w.fills + 1))
  }

  /** MakeByteAvailable: refills only when the window is empty. It succeeds
      exactly when the stream still holds a byte, loses no byte, and calls
      fill_input_buffer exactly once when the window was empty and never
      otherwise. */
  function MakeByteAvailable(w: Window): (r: Step)
    requires WellFormed(w)
    ensures WellFormed(r.after) && Total(r.after) == Total(w)
    ensures r.ok <==> Total(w) > 0
    ensures r.ok ==> r.after.remaining > 0
    ensures r.after.fills == w.fills + (if w.remaining == 0 then 1 else 0)
    ensures w.remaining > 0 ==> r.ok && r.after == w
    ensures w.remaining == 0 ==> r == Fill(w)
    ensures Suspensions(w, r.after) == if r.ok then 0 else 1
  {
    SumAtLeastLength(w);
    if w.remaining == 0 then Fill(w) else Step(true, w)
  }

  /** GetByte: one byte from the stream, or a suspension that consumes
      nothing. The value is always 0. */
  function GetByte(w: Window): (r: Read)
    requires WellFormed(w)
    ensures WellFormed(r.after) && r.value == 0
    ensures r.ok <==> Total(w) > 0
    ensures Total(r.after) == Total(w) - (if r.ok then 1 else 0)
    ensures r.ok ==> r.after.remaining == (if w.remaining > 0 then w.remaining else w.chunks[0]) - 1
    ensures !r.ok ==> r.after.remaining == w.remaining && r.after.chunks == w.chunks
    ensures r.ok ==> r.after.chunks == (if w.remaining > 0 then w.chunks else w.chunks[1..])
    ensures r.after.fills == w.fills + (if w.remaining == 0 then 1 else 0)
    ensures Suspensions(w, r.after) == if r.ok then 0 else 1
  {
    var s := MakeByteAvailable(w);
    if !s.ok then Read(false, 0, s.after)
    else Read(true, 0, s.after.(remaining := s.after.remaining - 1))
  }

  /** GetTwoBytes: two bytes from the stream. When the second byte is not
      available the call suspends with the first byte already consumed:
      nothing is rolled back. The value is always 0. */
  function GetTwoBytes(w: Window): (r: Read)
    requires WellFormed(w)
    ensures WellFormed(r.after) && r.value == 0
    ensures r.ok <==> Total(w) >= 2
    ensures Total(r.after) == Total(w) - (if r.ok then 2 else if Total(w) == 1 then 1 else 0)
    ensures 0 <= |w.chunks| - |r.after.chunks| <= 2
    ensures r.after.chunks == w.chunks[|w.chunks| - |r.after.chunks|..]
    ensures Suspensions(w, r.after) == if r.ok then 0 else 1
  {
    var s1 := MakeByteAvailable(w);
    if !s1.ok then Read(false, 0, s1.after)
    else
      var s2 := MakeByteAvailable(s1.after.(remaining := s1.after.remaining - 1));
      if !s2.ok then Read(false, 0, s2.after)
      else Read(true, 0, s2.after.(remaining := s2.after.remaining - 1))
  }

  /** GetBytes: takes what the current window holds, up to `amount`, and
      never refills. A negative `amount` is returned as it is and takes
      nothing. */
  function GetBytes(w: Window, amount: int): (r: Taken)
    requires WellFormed(w)
    ensures WellFormed(r.after)
    ensures r.count <= amount && r.count <= w.remaining
    ensures r.count == amount || r.count == w.remaining
    ensures r.after.remaining == w.remaining - (if r.count > 0 then r.count else 0)
    ensures r.after.chunks == w.chunks && r.after.fills == w.fills
  {
    var avail := if amount > w.remaining then w.remaining else amount;
    Taken(avail, w.(remaining := w.remaining - (if avail > 0 then avail else 0)))
  }

  /** skip_input_data: discards `n` bytes of the stream, refilling as often
      as the skip runs past the window. The caller must not skip past the end
      of the script: the library assumes fill_input_buffer never suspends
      here. Exactly `n` bytes are consumed and every fill loads a window. */
  function Skip(w: Window, n: int): (r: Window)
    requires WellFormed(w) && n <= Total(w)
    ensures WellFormed(r)
    ensures n <= 0 ==> r == w
    ensures Total(r) == Total(w) - (if n > 0 then n else 0)
    ensures |r.chunks| <= |w.chunks|
    ensures r.fills == w.fills + (|w.chunks| - |r.chunks|)
    decreases |w.chunks|
  {
    if n <= 0 then w
    else if n > w.remaining then Skip(Fill(w).after, n - w.remaining)
    else w.(remaining := w.remaining - n)
  }
}
