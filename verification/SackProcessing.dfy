/** Section 6.2.1 of RFC 9260: what a SACK does to the outstanding chunks is exactly what
    it reports, and the bytes in flight change by exactly what it acknowledges, takes back
    and marks for fast retransmission. */
module SackProcessing {
  import opened Serial
  import opened ReceiveSpec
  import opened Cutting
  import opened SendSpec

  /** No chunk is both gap-acked and marked for retransmission. */
  predicate NeverBoth(outs: seq<Outstanding>) {
    forall j :: 0 <= j < |outs| ==> !(outs[j].gapAcked && outs[j].pending)
  }

  /** One chunk before and after: it stays outstanding, and its flag is the SACK's report. */
  ghost predicate Carried(sack: SackChunk, o: Outstanding, p: Outstanding) {
    && Survives(sack, o)
    && p.chunk == o.chunk && p.destination == o.destination && p.retransmitted == o.retransmitted
    && (p.gapAcked <==> SackAcknowledges(sack, p.chunk.tsn))
    && (o.pending && !p.gapAcked ==> p.pending)
  }

  lemma SurvivorIsCarried(sack: SackChunk, below: Highest, o: Outstanding)
    requires Survives(sack, o)
    ensures Carried(sack, o, AfterSack(sack, below, o))
  {
    hide SackAcknowledges, TsnLte, ReportedMissing;
  }

  ghost predicate CarriedInto(sack: SackChunk, o: Outstanding, after: seq<Outstanding>) {
    exists j :: 0 <= j < |after| && Carried(sack, o, after[j])
  }

  ghost predicate CarriedFrom(sack: SackChunk, outs: seq<Outstanding>, p: Outstanding) {
    exists i :: 0 <= i < |outs| && Carried(sack, outs[i], p)
  }

  /** The surviving outstanding chunks are those above the new cumulative point, each with
      the flag the SACK gives it. */
  lemma {:induction false} SackIsApplied(sack: SackChunk, below: Highest, outs: seq<Outstanding>)
    ensures forall o :: o in outs && Survives(sack, o) ==> CarriedInto(sack, o, ProcessSack(sack, below, outs))
    ensures forall p :: p in ProcessSack(sack, below, outs) ==> CarriedFrom(sack, outs, p)
  {
    hide AfterSack, Carried, Survives;
    if outs != [] {
      var after, rest := ProcessSack(sack, below, outs), ProcessSack(sack, below, outs[1..]);
      SackIsApplied(sack, below, outs[1..]);
      var first := outs[0];
      if Survives(sack, first) {
        SurvivorIsCarried(sack, below, first);
        assert Carried(sack, first, after[0]);
      }
      forall o | o in outs && Survives(sack, o)
        ensures CarriedInto(sack, o, after)
      {
        if o != first {
          assert o in outs[1..];
          var j :| 0 <= j < |rest| && Carried(sack, o, rest[j]);
          assert Carried(sack, o, after[j + |after| - |rest|]);
        }
      }
      forall p | p in after
        ensures CarriedFrom(sack, outs, p)
      {
        if p in rest {
          var i :| 0 <= i < |outs[1..]| && Carried(sack, outs[1..][i], p);
          assert Carried(sack, outs[i + 1], p);
        }
      }
    }
  }

  /** Whatever the state before, a SACK leaves no chunk both gap-acked and marked. */
  lemma {:induction false} SackKeepsNeverBoth(sack: SackChunk, below: Highest, outs: seq<Outstanding>)
    ensures NeverBoth(ProcessSack(sack, below, outs))
  {
    hide SackAcknowledges, TsnLte, ReportedMissing;
    if outs != [] {
      SackKeepsNeverBoth(sack, below, outs[1..]);
    }
  }

  // ----- Flight -----

  function SizeIf(b: bool, o: Outstanding): nat {
    if b then ChunkSize(o.chunk) else 0
  }

  predicate Bound(peer: Peer, o: Outstanding, a: Addr)
    requires peer.paths != []
  {
    DestinationOf(peer, o.destination) == a
  }

  /** Bytes that were in flight to `a` and are now acknowledged. */
  function AckedBytes(peer: Peer, sack: SackChunk, outs: seq<Outstanding>, a: Addr): nat
    requires peer.paths != []
  {
    if outs == [] then 0
    else SizeIf(Bound(peer, outs[0], a) && NewlyAcked(sack, outs[0]) && !outs[0].pending, outs[0]) + AckedBytes(peer, sack, outs[1..], a)
  }

  /** Bytes reported received before that the peer has since dropped. */
  function RenegedBytes(peer: Peer, sack: SackChunk, outs: seq<Outstanding>, a: Addr): nat
    requires peer.paths != []
  {
    if outs == [] then 0
    else SizeIf(Bound(peer, outs[0], a) && Reneged(sack, outs[0]), outs[0]) + RenegedBytes(peer, sack, outs[1..], a)
  }

  /** This SACK was the third report that the chunk is missing. */
  predicate NewlyMarked(sack: SackChunk, below: Highest, o: Outstanding) {
    Survives(sack, o) && !o.fastRetransmitted && AfterSack(sack, below, o).fastRetransmitted && !o.pending
  }

  function MarkedBytes(peer: Peer, sack: SackChunk, below: Highest, outs: seq<Outstanding>, a: Addr): nat
    requires peer.paths != []
  {
    if outs == [] then 0
    else SizeIf(Bound(peer, outs[0], a) && NewlyMarked(sack, below, outs[0]), outs[0]) + MarkedBytes(peer, sack, below, outs[1..], a)
  }

  lemma FlightAppend(peer: Peer, outs: seq<Outstanding>, more: seq<Outstanding>, a: Addr)
    requires peer.paths != [] && |outs| <= 1
    ensures Flight(peer, outs + more, a) == Flight(peer, outs, a) + Flight(peer, more, a)
  {
    if outs == [] {
      assert outs + more == more;
    } else {
      assert (outs + more)[1..] == more;
      assert outs[1..] == [];
    }
  }

  /** Per path, flight loses what is acknowledged and what is marked, and gains back what
      was reneged. */
  lemma {:induction false} SackConservesFlight(peer: Peer, sack: SackChunk, below: Highest, outs: seq<Outstanding>, a: Addr)
    requires peer.paths != [] && NeverBoth(outs)
    ensures Flight(peer, ProcessSack(sack, below, outs), a) + AckedBytes(peer, sack, outs, a) + MarkedBytes(peer, sack, below, outs, a)
            == Flight(peer, outs, a) + RenegedBytes(peer, sack, outs, a)
  {
    hide Survives, AfterSack, NewlyAcked, NewlyMarked, Reneged, InFlight, Bound, SizeIf, ChunkSize;
    if outs != [] {
      SackConservesFlight(peer, sack, below, outs[1..], a);
      var o := outs[0];
      var mine := if Survives(sack, o) then [AfterSack(sack, below, o)] else [];
      FlightAppend(peer, mine, ProcessSack(sack, below, outs[1..]), a);
      OneConservesFlight(peer, sack, below, o, a);
    }
  }

  /** The same for one chunk. */
  lemma OneConservesFlight(peer: Peer, sack: SackChunk, below: Highest, o: Outstanding, a: Addr)
    requires peer.paths != [] && !(o.gapAcked && o.pending)
    ensures Flight(peer, if Survives(sack, o) then [AfterSack(sack, below, o)] else [], a)
            + SizeIf(Bound(peer, o, a) && NewlyAcked(sack, o) && !o.pending, o) + SizeIf(Bound(peer, o, a) && NewlyMarked(sack, below, o), o)
            == (if InFlight(peer, o, a) then ChunkSize(o.chunk) else 0) + SizeIf(Bound(peer, o, a) && Reneged(sack, o), o)
  {
    CumulativeIsAcked(sack, o);
    hide SackAcknowledges, TsnLte, ReportedMissing, DestinationOf, ChunkSize;
  }

  lemma CumulativeIsAcked(sack: SackChunk, o: Outstanding)
    ensures !Survives(sack, o) ==> Acked(sack, o)
  {
  }

  /** A chunk after SACKs that each report it missing, one after another. */
  function ReportedTimes(below: Highest, o: Outstanding, n: nat): Outstanding {
    if n == 0 then o else Counted(below, false, ReportedTimes(below, o, n - 1))
  }

  /** The third report marks a chunk for fast retransmission, and only once. */
  lemma {:induction false} ThirdReportMarks(below: Highest, o: Outstanding, n: nat)
    requires ReportedMissing(below, o.chunk.tsn) && !o.gapAcked && !o.pending && !o.fastRetransmitted && o.missingReports == 0
    ensures var r := ReportedTimes(below, o, n);
            && r.chunk == o.chunk && !r.gapAcked
            && r.missingReports == (if n < 3 then n else 3)
            && (r.pending <==> n >= 3) && (r.fastRetransmitted <==> n >= 3)
  {
    if n > 0 {
      ThirdReportMarks(below, o, n - 1);
    }
  }
}
