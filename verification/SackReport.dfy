/** The SACK a receiver builds (section 3.3.4 of RFC 9260): its Gap Ack Blocks, walked in
    TSN order from the reorder buffer, report exactly what was received. */
module SackReport {
  import opened Serial
  import opened ReceiveSpec

  /** The blocks with one more held TSN, `n` above the cumulative point. */
  function Extended(gaps: seq<GapBlock>, n: U16): seq<GapBlock> {
    if gaps != [] && gaps[|gaps| - 1].end + 1 == n
    then gaps[|gaps| - 1 := GapBlock(gaps[|gaps| - 1].start, n)]
    else gaps + [GapBlock(n, n)]
  }

  /** The blocks for the held TSNs up to `n` above the cumulative point. */
  function Gaps(cum: int, ooo: Reorder, n: nat): seq<GapBlock>
    requires n <= UINT16_MAX
  {
    if n == 0 then []
    else if cum + n in ooo then Extended(Gaps(cum, ooo, n - 1), n)
    else Gaps(cum, ooo, n - 1)
  }

  /** Ascending, disjoint, non-adjacent blocks. */
  predicate Separate(gaps: seq<GapBlock>, n: nat) {
    && (forall b :: 0 <= b < |gaps| ==> 0 < gaps[b].start <= gaps[b].end <= n)
    && (forall b, c :: 0 <= b < c < |gaps| ==> gaps[b].end + 1 < gaps[c].start)
  }

  lemma ExtendedSeparate(gaps: seq<GapBlock>, n: U16)
    requires n > 0 && Separate(gaps, n - 1)
    ensures Separate(Extended(gaps, n), n)
  {
  }

  lemma ExtendedCovers(gaps: seq<GapBlock>, n: U16, offset: int)
    requires n > 0 && forall b :: 0 <= b < |gaps| ==> gaps[b].start <= gaps[b].end
    ensures InSomeBlock(Extended(gaps, n), offset) <==> InSomeBlock(gaps, offset) || offset == n
  {
    var longer := Extended(gaps, n);
    var last := |longer| - 1;
    assert longer[last].end == n;
    if InSomeBlock(gaps, offset) {
      var b :| 0 <= b < |gaps| && gaps[b].start <= offset <= gaps[b].end;
      assert longer[b].start <= offset <= longer[b].end;
    }
    if InSomeBlock(longer, offset) && offset != n {
      var b :| 0 <= b < |longer| && longer[b].start <= offset <= longer[b].end;
      assert gaps[b].start <= offset <= gaps[b].end;
    }
    if offset == n {
      assert longer[last].start <= offset <= longer[last].end;
    }
  }

  /** The blocks cover exactly the held TSNs, and the decoder accepts them. */
  lemma {:induction false} GapsReport(cum: int, ooo: Reorder, n: nat, offset: int)
    requires n <= UINT16_MAX
    ensures Separate(Gaps(cum, ooo, n), n) && BlocksDecode(Gaps(cum, ooo, n))
    ensures InSomeBlock(Gaps(cum, ooo, n), offset) <==> 1 <= offset <= n && cum + offset in ooo
    decreases n
  {
    if n > 0 {
      GapsReport(cum, ooo, n - 1, offset);
      if cum + n in ooo {
        ExtendedSeparate(Gaps(cum, ooo, n - 1), n);
        ExtendedCovers(Gaps(cum, ooo, n - 1), n, offset);
      }
    }
  }

  function SackOf(t0: Tsn, rx: Rx, window: nat, duplicates: seq<Tsn>): SackChunk {
    SackChunk(Wire(t0, rx.cum), window, Gaps(rx.cum, rx.ooo, UINT16_MAX), duplicates)
  }

  /** A SACK acknowledges a TSN within half the TSN space exactly if that TSN is at or below
      the cumulative point or in the reorder buffer. */
  lemma SackIsExact(t0: Tsn, rx: Rx, window: nat, duplicates: seq<Tsn>, i: int)
    requires InReach(rx.cum, rx.ooo)
    requires -HALF_TSN_SPACE < i - rx.cum < HALF_TSN_SPACE
    ensures SackAcknowledges(SackOf(t0, rx, window, duplicates), Wire(t0, i)) <==> i <= rx.cum || i in rx.ooo
    ensures var sack := SackOf(t0, rx, window, duplicates);
            BlocksDecode(sack.gaps) && sack.cumulativeTsnAck == Wire(t0, rx.cum) && sack.aRwnd == window && sack.duplicates == duplicates
  {
    hide Gaps;
    GapsReport(rx.cum, rx.ooo, UINT16_MAX, i - rx.cum);
    UnwrapOfWire(t0, rx.cum, i);
    UnwrapClassifies(t0, rx.cum, Wire(t0, i));
    hide Wire, Unwrap;
  }
}
