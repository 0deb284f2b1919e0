/** Section 6.3.2 of RFC 9260: on which paths T3-rtx runs once a SACK, a SHUTDOWN or the
    sending of a packet has been dealt with, told by what is outstanding. */
module RetransmissionTimers {
  import opened Serial
  import opened ReceiveSpec
  import opened MessageLog
  import opened Cutting
  import opened SendSpec
  import opened Transmission
  import opened NoLoss
  import opened FastRetransmission

  predicate UnackedOn(peer: Peer, o: Outstanding, a: Addr)
    requires peer.paths != []
  {
    !o.gapAcked && DestinationOf(peer, o.destination) == a
  }

  /** How far a TSN lies above the cumulative point. */
  function Offset(cum: Tsn, tsn: Tsn): int {
    (tsn - cum) % TSN_SPACE
  }

  /** The outstanding chunks stand in the order of their distance from the point. */
  predicate Rising(cum: Tsn, outs: seq<Outstanding>) {
    forall i, j :: 0 <= i < j < |outs| ==> Offset(cum, outs[i].chunk.tsn) < Offset(cum, outs[j].chunk.tsn)
  }

  lemma AccountedRises(t0: Tsn, log: Log, tx: Tx, base: int)
    requires Accounted(t0, log, tx, base)
    ensures Rising(tx.cum, tx.outs)
  {
    hide Accounted, Offset;
    forall i | 0 <= i < |tx.outs|
      ensures Offset(tx.cum, tx.outs[i].chunk.tsn) == i + 1
    {
      OffsetIs(t0, log, tx, base, i);
    }
  }

  lemma OffsetIs(t0: Tsn, log: Log, tx: Tx, base: int, i: nat)
    requires Accounted(t0, log, tx, base) && i < |tx.outs|
    ensures Offset(tx.cum, tx.outs[i].chunk.tsn) == i + 1
  {
    hide QueueHeld, Wire;
    assert Chunks(tx.outs)[i] == tx.outs[i].chunk;
    WireDistance(t0, base, base + 1 + i);
  }

  /** Chunk `i` is the lowest unacknowledged one bound for `a`. */
  predicate LowestOn(peer: Peer, outs: seq<Outstanding>, a: Addr, i: nat)
    requires peer.paths != [] && i < |outs|
  {
    UnackedOn(peer, outs[i], a) && forall j :: 0 <= j < i ==> !UnackedOn(peer, outs[j], a)
  }

  lemma {:induction false} EarliestIsLowest(peer: Peer, cum: Tsn, outs: seq<Outstanding>, a: Addr, n: nat)
    requires peer.paths != [] && Rising(cum, outs) && n <= |outs|
    ensures var e := Earliest(peer, cum, outs, a, n);
            && (e.NoTsn? ==> forall j :: 0 <= j < n ==> !UnackedOn(peer, outs[j], a))
            && (e.Highest? ==> exists i :: 0 <= i < n && LowestOn(peer, outs, a, i) && e.tsn == outs[i].chunk.tsn)
    decreases n
  {
    hide DestinationOf, Offset, LowestOn, Rising;
    if n > 0 {
      EarliestIsLowest(peer, cum, outs, a, n - 1);
      var e := Earliest(peer, cum, outs, a, n - 1);
      if e.Highest? {
        var i :| 0 <= i < n - 1 && LowestOn(peer, outs, a, i) && e.tsn == outs[i].chunk.tsn;
        NotNearer(cum, outs, i, n - 1);
        assert Earliest(peer, cum, outs, a, n) == e;
      } else if UnackedOn(peer, outs[n - 1], a) {
        FirstIsLowest(peer, outs, a, n - 1);
      }
    }
  }

  lemma FirstIsLowest(peer: Peer, outs: seq<Outstanding>, a: Addr, i: nat)
    requires peer.paths != [] && i < |outs| && UnackedOn(peer, outs[i], a) && forall j :: 0 <= j < i ==> !UnackedOn(peer, outs[j], a)
    ensures LowestOn(peer, outs, a, i)
  {
  }

  lemma NotNearer(cum: Tsn, outs: seq<Outstanding>, i: nat, j: nat)
    requires Rising(cum, outs) && i < j < |outs|
    ensures !((outs[j].chunk.tsn - cum) % TSN_SPACE < (outs[i].chunk.tsn - cum) % TSN_SPACE)
  {
    assert Offset(cum, outs[i].chunk.tsn) < Offset(cum, outs[j].chunk.tsn);
  }

  /** The lowest unacknowledged chunk bound for `a` is acknowledged, or marked by this SACK's
      being the third to miss some chunk. */
  ghost predicate LowestIsSettled(tx: Tx, sack: SackChunk, after: seq<Outstanding>, a: Addr)
    requires tx.peer.paths != []
  {
    exists i :: 0 <= i < |tx.outs| && LowestOn(tx.peer, tx.outs, a, i)
                && (Acked(sack, tx.outs[i]) || (SomeMarked(tx, sack) && PendingAt(after, tx.outs[i].chunk.tsn)))
  }

  lemma OnlyOneLowest(peer: Peer, outs: seq<Outstanding>, a: Addr, i: nat, j: nat)
    requires peer.paths != [] && i < |outs| && j < |outs| && LowestOn(peer, outs, a, i) && LowestOn(peer, outs, a, j)
    ensures i == j
  {
  }

  lemma RestartsWhenSettled(tx: Tx, sack: SackChunk, after: seq<Outstanding>, a: Addr)
    requires tx.peer.paths != [] && Rising(tx.cum, tx.outs)
    ensures RestartsT3(tx, sack, after, SomeMarked(tx, sack), a) <==> LowestIsSettled(tx, sack, after, a)
  {
    hide SackAcknowledges, PendingAt, SomeMarked, LowestOn, Earliest, Rising;
    EarliestIsLowest(tx.peer, tx.cum, tx.outs, a, |tx.outs|);
    var e := Earliest(tx.peer, tx.cum, tx.outs, a, |tx.outs|);
    if e.Highest? {
      var i :| 0 <= i < |tx.outs| && LowestOn(tx.peer, tx.outs, a, i) && e.tsn == tx.outs[i].chunk.tsn;
      if LowestIsSettled(tx, sack, after, a) {
        var j :| 0 <= j < |tx.outs| && LowestOn(tx.peer, tx.outs, a, j)
                 && (Acked(sack, tx.outs[j]) || (SomeMarked(tx, sack) && PendingAt(after, tx.outs[j].chunk.tsn)));
        OnlyOneLowest(tx.peer, tx.outs, a, i, j);
      }
    } else {
      NoneLowest(tx.peer, tx.outs, a);
    }
  }

  lemma NoneLowest(peer: Peer, outs: seq<Outstanding>, a: Addr)
    requires peer.paths != []
    ensures (forall j :: 0 <= j < |outs| ==> !UnackedOn(peer, outs[j], a)) ==> forall i :: 0 <= i < |outs| ==> !LowestOn(peer, outs, a, i)
  {
    hide DestinationOf;
  }

  /** The peer has dropped a chunk bound for `a` that it had reported. */
  ghost predicate DroppedOn(tx: Tx, sack: SackChunk, a: Addr)
    requires tx.peer.paths != []
  {
    exists j :: 0 <= j < |tx.outs| && tx.outs[j].gapAcked && !Acked(sack, tx.outs[j]) && DestinationOf(tx.peer, tx.outs[j].destination) == a
  }

  /** After a SACK, T3-rtx of a known path runs if and only if something there is still
      unacknowledged and the timer ran before, or the lowest chunk there was settled, or the
      peer dropped one there; unless the association has gone on to shut down. */
  lemma SackDecidesTimer(tx: Tx, sack: SackChunk, a: Addr)
    requires tx.peer.paths != [] && AcceptsSack(tx, sack) && Knows(tx.peer, a) && InTsnOrder(tx.outs) && Rising(tx.cum, tx.outs)
    ensures var r, after := HandleSack(tx, sack), ProcessSack(sack, MissingBelow(tx, sack), tx.outs);
            a in r.t3 <==>
              && !r.state.ShutdownSent? && !r.state.ShutdownAckSent?
              && HasUnacked(tx.peer, after, a)
              && (a in tx.t3 || LowestIsSettled(tx, sack, after, a) || DroppedOn(tx, sack, a))
  {
    hide SackAcknowledges, Earliest, HasUnacked, ProcessSack, MissingBelow, SomeMarked, LowestIsSettled, FastRetransmits, DestinationOf, SchedulePending, Rising, RestartsT3;
    var after := ProcessSack(sack, MissingBelow(tx, sack), tx.outs);
    FastIsMarked(tx, sack);
    RestartsWhenSettled(tx, sack, after, a);
    DroppedIsReneged(tx, sack, a);
    KnownTimer(tx, sack, after, SomeMarked(tx, sack), a);
    AfterScheduling(tx, sack);
    hide T3AfterSack, RenegedOn, DroppedOn, AcceptsSack;
  }

  lemma AfterScheduling(tx: Tx, sack: SackChunk)
    requires tx.peer.paths != [] && AcceptsSack(tx, sack)
    ensures var r, after := HandleSack(tx, sack), ProcessSack(sack, MissingBelow(tx, sack), tx.outs);
            r.t3 == if r.state.ShutdownSent? || r.state.ShutdownAckSent? then {} else T3AfterSack(tx, sack, after, FastRetransmits(sack, MissingBelow(tx, sack), tx.outs))
  {
    hide T3AfterSack, ProcessSack, MissingBelow, FastRetransmits, Trimmed, Pack, FirstWanted, TsnLt;
  }

  lemma KnownTimer(tx: Tx, sack: SackChunk, after: seq<Outstanding>, fast: bool, a: Addr)
    requires tx.peer.paths != [] && Knows(tx.peer, a)
    ensures a in T3AfterSack(tx, sack, after, fast) <==> T3RunsAfter(tx, sack, after, fast, a)
  {
    hide T3RunsAfter;
    var i :| 0 <= i < |tx.peer.paths| && tx.peer.paths[i].address == a;
  }

  /** A chunk no longer reported survives the SACK. */
  lemma DroppedIsReneged(tx: Tx, sack: SackChunk, a: Addr)
    requires tx.peer.paths != []
    ensures RenegedOn(tx, sack, a) <==> DroppedOn(tx, sack, a)
  {
    hide DestinationOf, InSomeBlock;
    if DroppedOn(tx, sack, a) {
      var j :| 0 <= j < |tx.outs| && tx.outs[j].gapAcked && !Acked(sack, tx.outs[j]) && DestinationOf(tx.peer, tx.outs[j].destination) == a;
      assert Survives(sack, tx.outs[j]);
    }
  }

  /** Sending starts the timer of the packet's destination, unless it runs or is not known,
      and touches no other. */
  lemma SendingStartsTimer(tx: Tx, b: Bundle, a: Addr)
    requires tx.peer.paths != []
    ensures a in Sent(tx, b).t3 <==>
              a in tx.t3 || (a == b.destination && b.chunks != [] && Knows(tx.peer, a) && HasUnacked(tx.peer, Sent(tx, b).outs, a))
  {
    hide HasUnacked, Knows, RecordAllSent;
  }

  /** A SHUTDOWN that moves the point restarts the timer of a known path where it acknowledges
      something, if anything there is left unacknowledged, and stops it if not; elsewhere it
      leaves the timer alone; unless the association goes on to the next step. */
  lemma ShutdownDecidesTimer(tx: Tx, cum: Tsn, a: Addr)
    requires tx.peer.paths != [] && TransmitsData(tx.state) && TsnLt(tx.cum, cum) && Knows(tx.peer, a)
    ensures var r := HandleShutdown(tx, cum);
            var acked := exists j :: 0 <= j < |tx.outs| && UnackedOn(tx.peer, tx.outs[j], a) && TsnLte(tx.outs[j].chunk.tsn, cum);
            a in r.t3 <==>
              !r.state.ShutdownAckSent? && if acked then HasUnacked(tx.peer, Above(cum, tx.outs), a) else a in tx.t3
  {
    hide TsnLt, TsnLte, HasUnacked, Above, Trimmed, DestinationOf;
    var i :| 0 <= i < |tx.peer.paths| && tx.peer.paths[i].address == a;
    assert AckedOn(tx.peer, cum, tx.outs, a) <==> exists j :: 0 <= j < |tx.outs| && UnackedOn(tx.peer, tx.outs[j], a) && TsnLte(tx.outs[j].chunk.tsn, cum);
  }
}
