/** Section 7.2.4 of RFC 9260: which SACKs count a chunk as missing, when a chunk is marked
    for fast retransmission, and when fast recovery begins and ends; stated of the whole
    handling of a SACK in terms of what it reports and of what was outstanding. */
module FastRetransmission {
  import opened Serial
  import opened ReceiveSpec
  import opened Cutting
  import opened SendSpec
  import opened Transmission
  import opened FlightLedger
  import opened MessageLog
  import opened NoLoss

  /** The outstanding chunks are in TSN order, within half the TSN space of each other. */
  predicate InTsnOrder(outs: seq<Outstanding>) {
    forall i, j :: 0 <= i < j < |outs| ==> TsnLt(outs[i].chunk.tsn, outs[j].chunk.tsn)
  }

  /** A sender that accounts for every TSN, as it does in every reachable state, has its
      outstanding chunks in TSN order. */
  lemma AccountedInOrder(t0: Tsn, log: Log, tx: Tx, base: int)
    requires Accounted(t0, log, tx, base)
    ensures InTsnOrder(tx.outs)
  {
    hide TsnLt, Wire;
    forall i, j | 0 <= i < j < |tx.outs|
      ensures TsnLt(tx.outs[i].chunk.tsn, tx.outs[j].chunk.tsn)
    {
      assert Chunks(tx.outs)[i] == tx.outs[i].chunk && Chunks(tx.outs)[j] == tx.outs[j].chunk;
      TsnLtIsIndexOrder(t0, base + 1 + i, base + 1 + j);
    }
  }

  lemma OrderIsPosition(outs: seq<Outstanding>, i: nat, j: nat)
    requires InTsnOrder(outs) && i < |outs| && j < |outs|
    ensures TsnLt(outs[i].chunk.tsn, outs[j].chunk.tsn) <==> i < j
    ensures outs[i].chunk.tsn == outs[j].chunk.tsn <==> i == j
  {
    if j < i {
      assert TsnLt(outs[j].chunk.tsn, outs[i].chunk.tsn);
      Asymmetric(outs[j].chunk.tsn, outs[i].chunk.tsn);
    }
  }

  lemma Asymmetric(a: Tsn, b: Tsn)
    ensures TsnLt(a, b) ==> !TsnLt(b, a) && a != b
  {
  }

  // ----- The highest TSN reported -----

  /** What counts towards the highest TSN: all that is reported, or only what is new. */
  predicate Counts(sack: SackChunk, all: bool, o: Outstanding) {
    Acked(sack, o) && (all || !o.gapAcked)
  }

  function HighestOf(sack: SackChunk, all: bool, outs: seq<Outstanding>, n: nat): Highest
    requires n <= |outs|
  {
    if all then HighestReported(sack, outs, n) else HighestNewlyAcked(sack, outs, n)
  }

  /** Among chunks in TSN order the highest is the last that counts. */
  lemma {:induction false} HighestIsLast(sack: SackChunk, all: bool, outs: seq<Outstanding>, n: nat)
    requires InTsnOrder(outs) && n <= |outs|
    ensures var h := HighestOf(sack, all, outs, n);
            && (h.NoTsn? ==> forall q :: 0 <= q < n ==> !Counts(sack, all, outs[q]))
            && (h.Highest? ==> exists q :: 0 <= q < n && LastToCount(sack, all, outs, n, q) && h.tsn == outs[q].chunk.tsn)
    decreases n
  {
    hide SackAcknowledges, TsnLt;
    if n > 0 {
      HighestIsLast(sack, all, outs, n - 1);
      var h := HighestOf(sack, all, outs, n - 1);
      if Counts(sack, all, outs[n - 1]) {
        if h.Highest? {
          var q :| 0 <= q < n - 1 && LastToCount(sack, all, outs, n - 1, q) && h.tsn == outs[q].chunk.tsn;
          OrderIsPosition(outs, q, n - 1);
        }
        assert LastToCount(sack, all, outs, n, n - 1);
      } else if h.Highest? {
        var q :| 0 <= q < n - 1 && LastToCount(sack, all, outs, n - 1, q) && h.tsn == outs[q].chunk.tsn;
        assert LastToCount(sack, all, outs, n, q);
      }
    }
  }

  predicate LastToCount(sack: SackChunk, all: bool, outs: seq<Outstanding>, n: nat, q: nat)
    requires q < n <= |outs|
  {
    Counts(sack, all, outs[q]) && forall r :: q < r < n ==> !Counts(sack, all, outs[r])
  }

  // ----- One chunk -----

  /** In fast recovery, once the cumulative point moves, everything reported counts. */
  predicate AllCount(tx: Tx, sack: SackChunk) {
    tx.inFastRecovery && TsnLt(tx.cum, sack.cumulativeTsnAck)
  }

  /** The SACK tells of a chunk above `o`: one that it newly acknowledges or, if everything
      reported counts, any. */
  ghost predicate TellsOfHigher(tx: Tx, sack: SackChunk, o: Outstanding) {
    exists q :: 0 <= q < |tx.outs| && TsnLt(o.chunk.tsn, tx.outs[q].chunk.tsn) && Counts(sack, AllCount(tx, sack), tx.outs[q])
  }

  /** The SACK counts as a report that `o` is missing. */
  ghost predicate ReportsMissing(tx: Tx, sack: SackChunk, o: Outstanding) {
    !Acked(sack, o) && !o.fastRetransmitted && (o.gapAcked || TellsOfHigher(tx, sack, o))
  }

  /** This SACK brings the reports that `o` is missing to three. */
  ghost predicate Marks(tx: Tx, sack: SackChunk, o: Outstanding) {
    !Acked(sack, o) && !o.fastRetransmitted && o.missingReports + (if ReportsMissing(tx, sack, o) then 1 else 0) >= 3
  }

  lemma BelowIsTold(tx: Tx, sack: SackChunk, o: Outstanding)
    requires InTsnOrder(tx.outs) && o in tx.outs
    ensures ReportedMissing(MissingBelow(tx, sack), o.chunk.tsn) <==> TellsOfHigher(tx, sack, o)
  {
    hide SackAcknowledges, TsnLt, HighestReported, HighestNewlyAcked;
    var outs, all := tx.outs, AllCount(tx, sack);
    var j :| 0 <= j < |outs| && outs[j] == o;
    HighestIsLast(sack, all, outs, |outs|);
    var h := HighestOf(sack, all, outs, |outs|);
    assert h == MissingBelow(tx, sack);
    if h.Highest? {
      var last :| 0 <= last < |outs| && LastToCount(sack, all, outs, |outs|, last) && h.tsn == outs[last].chunk.tsn;
      OrderIsPosition(outs, j, last);
      if TellsOfHigher(tx, sack, o) {
        var q :| 0 <= q < |outs| && TsnLt(o.chunk.tsn, outs[q].chunk.tsn) && Counts(sack, all, outs[q]);
        OrderIsPosition(outs, j, q);
        assert q <= last;
      }
    }
  }

  /** One chunk after the SACK: its reports and its mark. */
  lemma ChunkAfterSack(tx: Tx, sack: SackChunk, o: Outstanding)
    requires InTsnOrder(tx.outs) && o in tx.outs
    ensures var p := AfterSack(sack, MissingBelow(tx, sack), o);
            && p.chunk == o.chunk
            && p.missingReports == o.missingReports + (if ReportsMissing(tx, sack, o) then 1 else 0)
            && (p.fastRetransmitted <==> o.fastRetransmitted || Marks(tx, sack, o))
            && (p.pending <==> !Acked(sack, o) && (o.pending || Marks(tx, sack, o)))
  {
    BelowIsTold(tx, sack, o);
    hide SackAcknowledges, TsnLt, MissingBelow, ReportedMissing, TellsOfHigher;
  }

  // ----- The whole SACK -----

  lemma {:induction false} ProcessedFrom(sack: SackChunk, below: Highest, outs: seq<Outstanding>, p: Outstanding)
    requires p in ProcessSack(sack, below, outs)
    ensures exists j :: 0 <= j < |outs| && Survives(sack, outs[j]) && p == AfterSack(sack, below, outs[j])
  {
    hide AfterSack, Survives;
    if outs != [] && p in ProcessSack(sack, below, outs[1..]) {
      ProcessedFrom(sack, below, outs[1..], p);
      var j :| 0 <= j < |outs[1..]| && Survives(sack, outs[1..][j]) && p == AfterSack(sack, below, outs[1..][j]);
      assert p == AfterSack(sack, below, outs[j + 1]);
    }
  }

  /** Packing clears marks and changes nothing else. */
  lemma {:induction false} PackedFrom(peer: Peer, to: Addr, pmdcs: nat, outs: seq<Outstanding>, size: nat, any: bool, j: nat)
    requires peer.paths != [] && j < |outs|
    ensures var p := Pack(peer, to, pmdcs, outs, size, any).outs[j];
            p == outs[j] || (outs[j].pending && p == outs[j].(pending := false))
    decreases |outs|
  {
    hide DestinationOf, ChunkSize;
    if j > 0 {
      PackedFrom(peer, to, pmdcs, outs[1..], size, any, j - 1);
      PackedFrom(peer, to, pmdcs, outs[1..], size + ChunkSize(outs[0].chunk), true, j - 1);
    }
  }

  lemma ScheduledFrom(tx: Tx, j: nat)
    requires tx.peer.paths != [] && j < |SchedulePending(tx).outs|
    ensures |SchedulePending(tx).outs| == |tx.outs|
    ensures var p := SchedulePending(tx).outs[j];
            p == tx.outs[j] || (tx.outs[j].pending && p == tx.outs[j].(pending := false))
  {
    hide Pack;
    var w := FirstWanted(tx.outs, 0);
    if w < |tx.outs| {
      var to := DestinationOf(tx.peer, tx.outs[w].destination);
      assert |Pack(tx.peer, to, tx.pmdcs, tx.outs, 0, false).outs| == |tx.outs|;
      PackedFrom(tx.peer, to, tx.pmdcs, tx.outs, 0, false, j);
    }
  }

  /** What a SACK leaves outstanding comes from one chunk, up to its mark. */
  lemma LeftBySack(tx: Tx, sack: SackChunk, p: Outstanding)
    requires tx.peer.paths != [] && AcceptsSack(tx, sack) && p in HandleSack(tx, sack).outs
    ensures exists j :: 0 <= j < |tx.outs| && Survives(sack, tx.outs[j]) && Leaves(tx, sack, tx.outs[j], p)
  {
    hide ProcessSack, HandleSack, AfterSack, MissingBelow, SchedulePending, Enters, Survives, AcceptsSack;
    SackOuts(tx, sack);
    var applied := AppliedTo(tx, sack);
    var k :| 0 <= k < |HandleSack(tx, sack).outs| && HandleSack(tx, sack).outs[k] == p;
    var p0 := p;
    if Enters(tx, sack) {
      ScheduledFrom(applied, k);
      p0 := applied.outs[k];
    }
    ProcessedFrom(sack, MissingBelow(tx, sack), tx.outs, p0);
    var j :| 0 <= j < |tx.outs| && Survives(sack, tx.outs[j]) && p0 == AfterSack(sack, MissingBelow(tx, sack), tx.outs[j]);
    assert Leaves(tx, sack, tx.outs[j], p);
  }

  predicate Leaves(tx: Tx, sack: SackChunk, o: Outstanding, p: Outstanding) {
    var q := AfterSack(sack, MissingBelow(tx, sack), o);
    p == q || (Enters(tx, sack) && q.pending && p == q.(pending := false))
  }

  /** Counting missing reports, for every chunk a SACK leaves outstanding: one that is not
      acknowledged and has not been fast retransmitted gains a report if and only if the
      peer has dropped it or the SACK tells of a chunk above it; the third marks it, for
      good; and a mark is cleared only by an acknowledgement or by the retransmission that
      entering fast recovery schedules. */
  lemma MissingIsCounted(tx: Tx, sack: SackChunk, o: Outstanding, p: Outstanding)
    requires tx.peer.paths != [] && AcceptsSack(tx, sack) && InTsnOrder(tx.outs)
    requires o in tx.outs && p in HandleSack(tx, sack).outs && p.chunk.tsn == o.chunk.tsn
    ensures p.missingReports == o.missingReports + (if ReportsMissing(tx, sack, o) then 1 else 0)
    ensures p.fastRetransmitted <==> o.fastRetransmitted || Marks(tx, sack, o)
    ensures !Enters(tx, sack) ==> (p.pending <==> !Acked(sack, o) && (o.pending || Marks(tx, sack, o)))
    ensures p.pending ==> !Acked(sack, o) && (o.pending || Marks(tx, sack, o))
  {
    hide HandleSack, AfterSack, MissingBelow, ReportsMissing, Marks, Enters, AcceptsSack, Acked, Survives;
    LeftBySack(tx, sack, p);
    var j :| 0 <= j < |tx.outs| && Survives(sack, tx.outs[j]) && Leaves(tx, sack, tx.outs[j], p);
    var i :| 0 <= i < |tx.outs| && tx.outs[i] == o;
    ChunkAfterSack(tx, sack, tx.outs[j]);
    OrderIsPosition(tx.outs, i, j);
  }

  // ----- Fast recovery -----

  /** Some chunk that stays outstanding reaches three reports. */
  ghost predicate SomeMarked(tx: Tx, sack: SackChunk) {
    exists j :: 0 <= j < |tx.outs| && Survives(sack, tx.outs[j]) && Marks(tx, sack, tx.outs[j])
  }

  lemma FastIsMarked(tx: Tx, sack: SackChunk)
    requires InTsnOrder(tx.outs)
    ensures FastRetransmits(sack, MissingBelow(tx, sack), tx.outs) <==> SomeMarked(tx, sack)
  {
    hide AfterSack, MissingBelow, Marks, Survives;
    var below := MissingBelow(tx, sack);
    forall j | 0 <= j < |tx.outs|
      ensures !tx.outs[j].fastRetransmitted && AfterSack(sack, below, tx.outs[j]).fastRetransmitted <==> Marks(tx, sack, tx.outs[j])
    {
      ChunkAfterSack(tx, sack, tx.outs[j]);
      MarksOnce(tx, sack, tx.outs[j]);
    }
  }

  lemma MarksOnce(tx: Tx, sack: SackChunk, o: Outstanding)
    ensures Marks(tx, sack, o) ==> !o.fastRetransmitted
  {
  }

  /** The highest TSN outstanding. */
  ghost predicate IsHighest(outs: seq<Outstanding>, tsn: Tsn) {
    outs != [] && tsn == outs[|outs| - 1].chunk.tsn && forall j :: 0 <= j < |outs| ==> TsnLte(outs[j].chunk.tsn, tsn)
  }

  lemma {:induction false} ProcessedInOrder(sack: SackChunk, below: Highest, outs: seq<Outstanding>)
    requires InTsnOrder(outs)
    ensures InTsnOrder(ProcessSack(sack, below, outs))
  {
    hide AfterSack, Survives, TsnLt;
    if outs != [] {
      ProcessedInOrder(sack, below, outs[1..]);
      var rest := ProcessSack(sack, below, outs[1..]);
      var after := ProcessSack(sack, below, outs);
      if Survives(sack, outs[0]) {
        SameChunk(sack, below, outs[0]);
        forall k | 0 <= k < |rest|
          ensures TsnLt(outs[0].chunk.tsn, rest[k].chunk.tsn)
        {
          ProcessedFrom(sack, below, outs[1..], rest[k]);
          var j :| 0 <= j < |outs[1..]| && rest[k] == AfterSack(sack, below, outs[1..][j]);
          SameChunk(sack, below, outs[1..][j]);
          assert outs[1..][j] == outs[j + 1];
        }
        assert after == [AfterSack(sack, below, outs[0])] + rest;
      } else {
        assert after == rest;
      }
    }
  }

  lemma SameChunk(sack: SackChunk, below: Highest, o: Outstanding)
    ensures AfterSack(sack, below, o).chunk == o.chunk
  {
    hide SackAcknowledges;
  }

  /** What marks is left outstanding. */
  lemma {:induction false} SurvivorIsLeft(sack: SackChunk, below: Highest, outs: seq<Outstanding>, j: nat)
    requires j < |outs| && Survives(sack, outs[j])
    ensures ProcessSack(sack, below, outs) != []
  {
    hide AfterSack, Survives;
    if j > 0 {
      SurvivorIsLeft(sack, below, outs[1..], j - 1);
    }
  }

  /** Fast recovery begins with the first mark made outside it, and then lasts until the
      cumulative point reaches the highest TSN outstanding when it began; only its beginning
      schedules a retransmission at once. */
  lemma RecoveryIsBounded(tx: Tx, sack: SackChunk)
    requires tx.peer.paths != [] && AcceptsSack(tx, sack) && InTsnOrder(tx.outs)
    ensures var r := HandleSack(tx, sack);
            && (Enters(tx, sack) <==> SomeMarked(tx, sack) && !tx.inFastRecovery)
            && (r.inFastRecovery <==> (tx.inFastRecovery || SomeMarked(tx, sack)) && !TsnLte(r.exitTsn, sack.cumulativeTsnAck))
            && (if Enters(tx, sack) then IsHighest(AppliedTo(tx, sack).outs, r.exitTsn) && r.inFastRecovery else r.exitTsn == tx.exitTsn)
            && (!Enters(tx, sack) ==> r.queue == Trimmed(sack, tx.queue))
            && (Enters(tx, sack) ==> Trimmed(sack, tx.queue) <= r.queue && |r.queue| <= |Trimmed(sack, tx.queue)| + 1)
  {
    hide HandleSack, ProcessSack, MissingBelow, SomeMarked, IsHighest, AcceptsSack, TsnLte, Trimmed, FastRetransmits;
    FastIsMarked(tx, sack);
    RecoveryUnfolds(tx, sack);
    var after := AppliedTo(tx, sack).outs;
    MarkedIsLeft(tx, sack);
    if after != [] {
      ProcessedInOrder(sack, MissingBelow(tx, sack), tx.outs);
      LastIsHighest(after);
      LastSurvives(sack, MissingBelow(tx, sack), tx.outs);
    }
  }

  lemma MarkedIsLeft(tx: Tx, sack: SackChunk)
    ensures FastRetransmits(sack, MissingBelow(tx, sack), tx.outs) ==> AppliedTo(tx, sack).outs != []
  {
    hide MissingBelow, AfterSack, ProcessSack;
    var below := MissingBelow(tx, sack);
    if FastRetransmits(sack, below, tx.outs) {
      var j :| 0 <= j < |tx.outs| && Survives(sack, tx.outs[j]) && AfterSack(sack, below, tx.outs[j]).fastRetransmitted;
      SurvivorIsLeft(sack, below, tx.outs, j);
    }
  }

  lemma RecoveryUnfolds(tx: Tx, sack: SackChunk)
    requires tx.peer.paths != [] && AcceptsSack(tx, sack)
    ensures var r, after := HandleSack(tx, sack), AppliedTo(tx, sack).outs;
            && r.exitTsn == (if Enters(tx, sack) then after[|after| - 1].chunk.tsn else tx.exitTsn)
            && (r.inFastRecovery <==> (tx.inFastRecovery || Enters(tx, sack)) && !TsnLte(r.exitTsn, sack.cumulativeTsnAck))
            && (!Enters(tx, sack) ==> r.queue == Trimmed(sack, tx.queue))
            && (Enters(tx, sack) ==> Trimmed(sack, tx.queue) <= r.queue && |r.queue| <= |Trimmed(sack, tx.queue)| + 1)
  {
    hide ProcessSack, MissingBelow, FastRetransmits, T3AfterSack, Trimmed, Pack, FirstWanted, TsnLt, TsnLte, AcceptsSack;
  }

  lemma LastIsHighest(outs: seq<Outstanding>)
    requires InTsnOrder(outs) && outs != []
    ensures IsHighest(outs, outs[|outs| - 1].chunk.tsn)
  {
  }

  lemma LastSurvives(sack: SackChunk, below: Highest, outs: seq<Outstanding>)
    requires ProcessSack(sack, below, outs) != []
    ensures var after := ProcessSack(sack, below, outs); !TsnLte(after[|after| - 1].chunk.tsn, sack.cumulativeTsnAck)
  {
    hide AfterSack;
    var after := ProcessSack(sack, below, outs);
    ProcessedFrom(sack, below, outs, after[|after| - 1]);
    var j :| 0 <= j < |outs| && Survives(sack, outs[j]) && after[|after| - 1] == AfterSack(sack, below, outs[j]);
    SameChunk(sack, below, outs[j]);
  }

  /** A SACK is a violation exactly if its point, or the end of one of its blocks, is at or
      above the next TSN to be assigned. */
  lemma UnsentIsViolation(t0: Tsn, next: int, sack: SackChunk, c: int)
    requires sack.cumulativeTsnAck == Wire(t0, c) && -HALF_TSN_SPACE < c - next < HALF_TSN_SPACE - UINT16_MAX
    ensures AcksUnsent(sack, Wire(t0, next)) <==> c >= next || exists b :: 0 <= b < |sack.gaps| && c + sack.gaps[b].end >= next
  {
    TsnLtIsIndexOrder(t0, c, next);
    forall b | 0 <= b < |sack.gaps|
      ensures TsnLt((sack.cumulativeTsnAck + sack.gaps[b].end) % TSN_SPACE, Wire(t0, next)) <==> c + sack.gaps[b].end < next
    {
      EndOnWire(t0, c, sack.gaps[b].end);
      TsnLtIsIndexOrder(t0, c + sack.gaps[b].end, next);
    }
    hide Wire, TsnLt;
  }

  lemma EndOnWire(t0: Tsn, c: int, end: int)
    ensures (Wire(t0, c) + end) % TSN_SPACE == Wire(t0, c + end)
  {
  }

  /** A SHUTDOWN ends fast recovery as a SACK does, and never begins it. */
  lemma ShutdownEndsRecovery(tx: Tx, cum: Tsn)
    requires tx.peer.paths != [] && TransmitsData(tx.state)
    ensures var r := HandleShutdown(tx, cum);
            && r.exitTsn == tx.exitTsn
            && (r.inFastRecovery <==> tx.inFastRecovery && !(TsnLt(tx.cum, cum) && TsnLte(tx.exitTsn, cum)))
  {
    hide TsnLt, TsnLte, Above, Trimmed, T3AfterShutdown;
  }
}
