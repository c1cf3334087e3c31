/** What the buffer operations of InputWindow promise across several calls. */
module InputWindowProperties {
  import opened InputWindow

  lemma SumPrefixCons(xs: seq<int>, j: nat)
    requires j < |xs|
    ensures Sum(xs[..j + 1]) == xs[0] + Sum(xs[1..][..j])
  {
    assert xs[..j + 1][1..] == xs[1..][..j];
  }

  /** skip_input_data refills exactly as often as needed: with k the number
      of windows it loaded, the skip does not fit in the first k - 1 of them
      together with the current one, fits once the k-th is loaded, and
      leaves the rest of that window unread. */
  lemma {:induction false} SkipRefillsMinimal(w: Window, n: int)
    requires WellFormed(w) && 0 < n <= Total(w)
    ensures var r := Skip(w, n);
            var k := |w.chunks| - |r.chunks|;
            && n <= w.remaining + Sum(w.chunks[..k])
            && (forall j | 0 <= j < k :: w.remaining + Sum(w.chunks[..j]) < n)
            && r.remaining == w.remaining + Sum(w.chunks[..k]) - n
    decreases |w.chunks|
  {
    var r := Skip(w, n);
    var k := |w.chunks| - |r.chunks|;
    if n > w.remaining {
      var w1 := Fill(w).after;
      SkipRefillsMinimal(w1, n - w.remaining);
      assert r == Skip(w1, n - w.remaining);
      SumPrefixCons(w.chunks, k - 1);
      forall j | 0 <= j < k ensures w.remaining + Sum(w.chunks[..j]) < n {
        if j > 0 {
          SumPrefixCons(w.chunks, j - 1);
        }
      }
    } else {
      assert k == 0 && w.chunks[..0] == [];
    }
  }

  /** skip_input_data takes the windows it loads from the front of the
      script and leaves the rest in order. */
  lemma {:induction false} SkipLeavesSuffix(w: Window, n: int)
    requires WellFormed(w) && n <= Total(w)
    ensures var r := Skip(w, n);
            r.chunks == w.chunks[|w.chunks| - |r.chunks|..]
    decreases |w.chunks|
  {
    if n > 0 && n > w.remaining {
      SkipLeavesSuffix(Fill(w).after, n - w.remaining);
    }
  }

  /** Two skips in a row consume the same bytes, and leave the same state,
      as one skip of their sum. */
  lemma {:induction false} SkipAdditive(w: Window, n: int, m: int)
    requires WellFormed(w) && 0 <= n && 0 <= m && n + m <= Total(w)
    ensures Skip(Skip(w, n), m) == Skip(w, n + m)
    decreases |w.chunks|
  {
    if n > 0 && n > w.remaining {
      SkipPastWindow(w, n);
      SkipPastWindow(w, n + m);
      SkipAdditive(Fill(w).after, n - w.remaining, m);
    } else if n > 0 && m > 0 {
      SkipAdditiveInWindow(w, n, m);
    }
  }

  /** A skip that runs past the window is the rest of the skip over the
      next window. */
  lemma SkipPastWindow(w: Window, n: int)
    requires WellFormed(w) && w.remaining < n <= Total(w)
    ensures Skip(w, n) == Skip(Fill(w).after, n - w.remaining)
  {
  }

  /** SkipAdditive when the first skip ends inside the current window. */
  lemma SkipAdditiveInWindow(w: Window, n: int, m: int)
    requires WellFormed(w) && 0 < n <= w.remaining && 0 < m && n + m <= Total(w)
    ensures Skip(Skip(w, n), m) == Skip(w, n + m)
  {
    var w' := w.(remaining := w.remaining - n);
    assert Skip(w, n) == w';
    if m <= w'.remaining {
      assert Skip(w', m) == w.(remaining := w.remaining - n - m);
      assert Skip(w, n + m) == w.(remaining := w.remaining - n - m);
    } else {
      assert Fill(w').after == Fill(w).after;
      assert Skip(w', m) == Skip(Fill(w).after, m - w'.remaining);
      assert Skip(w, n + m) == Skip(Fill(w).after, n + m - w.remaining);
    }
  }

  /** A window with 4 bytes left, windows of 4, 4 and 4 to come, and a skip
      of 10: two refills, 2 bytes of the third window left unread. */
  lemma SkipTenOverWindowsOfFour()
    ensures Skip(Window(4, [4, 4, 4], 0), 10) == Window(2, [4], 2)
  {
    var w0 := Window(4, [4, 4, 4], 0);
    var w1 := Window(4, [4, 4], 1);
    var w2 := Window(4, [4], 2);
    assert [4, 4, 4][1..] == [4, 4] && [4, 4][1..] == [4];
    assert Fill(w0).after == w1;
    assert Fill(w1).after == w2;
    assert Skip(w2, 2) == Window(2, [4], 2);
    assert Skip(w1, 6) == Skip(w2, 2);
    assert Skip(w0, 10) == Skip(w1, 6);
  }

  /** Once MakeByteAvailable succeeds, the next GetByte succeeds without
      calling fill_input_buffer. */
  lemma AvailableThenGetByte(w: Window)
    requires WellFormed(w) && MakeByteAvailable(w).ok
    ensures var a := MakeByteAvailable(w).after;
            GetByte(a).ok && GetByte(a).after.fills == a.fills && Total(GetByte(a).after) == Total(w) - 1
  {
  }

  /** GetTwoBytes is two GetByte calls in a row, stopping at the first
      suspension: the state after a suspended second byte is the state after
      the first byte was consumed and the second suspended. */
  lemma GetTwoBytesIsTwoGetBytes(w: Window)
    requires WellFormed(w)
    ensures var first := GetByte(w);
            var both := if first.ok then GetByte(first.after) else first;
            GetTwoBytes(w) == Read(first.ok && both.ok, 0, both.after)
  {
  }

  /** One byte left in the window and nothing more from the source: the
      two-byte read suspends with that byte consumed, so a retry starts one
      byte later. */
  lemma GetTwoBytesKeepsFirstByte()
    ensures GetTwoBytes(Window(1, [], 0)) == Read(false, 0, Window(0, [], 1))
  {
  }

  /** A window of three bytes is read by three GetByte calls without a
      refill; the fourth calls fill_input_buffer exactly once. */
  lemma ThreeBytesThenRefill(chunks: seq<int>)
    requires WellFormed(Window(3, chunks, 0))
    ensures var r1 := GetByte(Window(3, chunks, 0));
            var r2 := GetByte(r1.after);
            var r3 := GetByte(r2.after);
            var r4 := GetByte(r3.after);
            && r1.ok && r2.ok && r3.ok
            && r3.after == Window(0, chunks, 0)
            && r4.after.fills == 1
            && r4.ok == (chunks != [])
  {
  }
}
