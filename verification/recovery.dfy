/** The decision at the heart of resync_to_restart: which of the three
    recovery actions to take for the pending marker, given the number
    (0..7, cyclic) of the restart marker the decoder expected. */
module Recovery {
  import opened Markers

  /** The three actions, numbered 1, 2 and 3 as in the library. */
  datatype Action =
    | Discard      // 1: drop the marker, the entropy decoder resumes at the next byte
    | ScanForward  // 2: read forward to the next marker and decide again
    | LeaveUnread  // 3: keep the marker pending; an empty segment is decoded first

  /** The action number the library reports in its recovery trace. */
  function Code(a: Action): (n: int)
    ensures 1 <= n <= 3
  {
    match a
    case Discard => 1
    case ScanForward => 2
    case LeaveUnread => 3
  }

  /** How many restart intervals the restart marker `marker` lies ahead of
      the desired one, counted cyclically modulo 8 (7 means one behind). */
  function Ahead(marker: int, desired: int): int
  {
    (marker - RST0 - desired) % 8
  }

  /** The classification of jpeg_source_mgr.resync_to_restart. The
      library's `(desired + k) & 7` on a two's-complement int equals the
      Euclidean `(desired + k) % 8` used here for every int, including
      negative values and values that wrap around. */
  function ChooseAction(marker: int, desired: int): (a: Action)
    ensures marker < SOF0 ==> a == ScanForward
    ensures SOF0 <= marker && !IsRestart(marker) ==> a == LeaveUnread
  {
    if marker < SOF0 then
      ScanForward   // not a legal marker code: bogus data
    else if marker < RST0 || marker > RST7 then
      LeaveUnread   // a valid marker that is not a restart marker
    else if marker == RST0 + (desired + 1) % 8 || marker == RST0 + (desired + 2) % 8 then
      LeaveUnread   // one of the next two expected restarts
    else if marker == RST0 + (desired - 1) % 8 || marker == RST0 + (desired - 2) % 8 then
      ScanForward   // a prior restart: advance
    else
      Discard       // the desired restart, or one too far away to trust
  }

  /** `r` is restart number `desired + k` exactly when it lies `k` ahead of
      `desired`, cyclically. */
  lemma OffsetMatch(r: int, desired: int, k: int)
    requires 0 <= r < 8
    ensures (r == (desired + k) % 8) <==> ((r - desired) % 8 == k % 8)
  {
    var q := (desired + k) / 8;
    var p := (r - desired) / 8;
    var s := k / 8;
    assert desired + k == 8 * q + (desired + k) % 8;
    assert r - desired == 8 * p + (r - desired) % 8;
    assert k == 8 * s + k % 8;
  }

  /** For a restart marker, the action depends only on how far ahead of the
      desired restart it lies: one or two ahead is left unread, one or two
      behind is scanned past, anything else is discarded. */
  lemma RestartByDistance(marker: int, desired: int)
    requires IsRestart(marker)
    ensures ChooseAction(marker, desired) == LeaveUnread <==> Ahead(marker, desired) in {1, 2}
    ensures ChooseAction(marker, desired) == ScanForward <==> Ahead(marker, desired) in {6, 7}
    ensures ChooseAction(marker, desired) == Discard <==> Ahead(marker, desired) in {0, 3, 4, 5}
  {
    var r := marker - RST0;
    OffsetMatch(r, desired, 1);
    OffsetMatch(r, desired, 2);
    OffsetMatch(r, desired, -1);
    OffsetMatch(r, desired, -2);
  }

  /** Only the desired number modulo 8 matters. */
  lemma ChooseActionCyclic(marker: int, desired: int)
    ensures ChooseAction(marker, desired + 8) == ChooseAction(marker, desired)
  {
    if IsRestart(marker) {
      assert Ahead(marker, desired + 8) == Ahead(marker, desired);
      RestartByDistance(marker, desired);
      RestartByDistance(marker, desired + 8);
    }
  }

  /** For any desired number, exactly two of the eight restart markers are
      left unread: the next two expected. */
  lemma RestartsLeftUnread(desired: int)
    ensures (set m | RST0 <= m <= RST7 && ChooseAction(m, desired) == LeaveUnread)
            == {RST0 + (desired + 1) % 8, RST0 + (desired + 2) % 8}
  {
    forall m | RST0 <= m <= RST7
      ensures ChooseAction(m, desired) == LeaveUnread <==>
                m == RST0 + (desired + 1) % 8 || m == RST0 + (desired + 2) % 8
    {
      RestartByDistance(m, desired);
      OffsetMatch(m - RST0, desired, 1);
      OffsetMatch(m - RST0, desired, 2);
    }
  }

  /** Exactly two restart markers are scanned past: the two before the
      desired one. */
  lemma RestartsScannedPast(desired: int)
    ensures (set m | RST0 <= m <= RST7 && ChooseAction(m, desired) == ScanForward)
            == {RST0 + (desired + 6) % 8, RST0 + (desired + 7) % 8}
  {
    forall m | RST0 <= m <= RST7
      ensures ChooseAction(m, desired) == ScanForward <==>
                m == RST0 + (desired + 6) % 8 || m == RST0 + (desired + 7) % 8
    {
      RestartByDistance(m, desired);
      OffsetMatch(m - RST0, desired, 6);
      OffsetMatch(m - RST0, desired, 7);
    }
  }

  /** The other four restart markers are discarded: the desired one and
      those three to five ahead of it. */
  lemma RestartsDiscarded(desired: int)
    ensures (set m | RST0 <= m <= RST7 && ChooseAction(m, desired) == Discard)
            == {RST0 + desired % 8, RST0 + (desired + 3) % 8, RST0 + (desired + 4) % 8, RST0 + (desired + 5) % 8}
  {
    forall m | RST0 <= m <= RST7
      ensures ChooseAction(m, desired) == Discard <==>
                m == RST0 + desired % 8 || m == RST0 + (desired + 3) % 8 ||
                m == RST0 + (desired + 4) % 8 || m == RST0 + (desired + 5) % 8
    {
      RestartByDistance(m, desired);
      OffsetMatch(m - RST0, desired, 0);
      OffsetMatch(m - RST0, desired, 3);
      OffsetMatch(m - RST0, desired, 4);
      OffsetMatch(m - RST0, desired, 5);
    }
  }

  /** The decision table for desired restart number 3. */
  lemma DecisionTableForThree()
    ensures ChooseAction(RST0 + 4, 3) == LeaveUnread
    ensures ChooseAction(RST0 + 5, 3) == LeaveUnread
    ensures ChooseAction(RST0 + 2, 3) == ScanForward
    ensures ChooseAction(RST0 + 1, 3) == ScanForward
    ensures ChooseAction(RST0 + 3, 3) == Discard
    ensures ChooseAction(RST0 + 0, 3) == Discard
    ensures ChooseAction(RST0 + 6, 3) == Discard
    ensures ChooseAction(RST0 + 7, 3) == Discard
    ensures ChooseAction(0x01, 3) == ScanForward
    ensures ChooseAction(EOI, 3) == LeaveUnread
  {
  }
}
