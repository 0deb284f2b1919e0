/** Flight accounting over runs of the sender: no chunk is ever both gap-acked and marked
    for retransmission, so that every SACK of every run changes the bytes in flight on a
    path by exactly what it acknowledges, takes back and marks, and by what is put into
    the packet it schedules. */
module FlightLedger {
  import opened Serial
  import opened ReceiveSpec
  import opened Cutting
  import opened SendSpec
  import opened SackProcessing
  import opened Transmission
  import opened NoStuckChunk

  // ----- Never both -----

  lemma {:induction false} PackNeverBoth(peer: Peer, to: Addr, pmdcs: nat, outs: seq<Outstanding>, size: nat, any: bool)
    requires peer.paths != [] && NeverBoth(outs)
    ensures NeverBoth(Pack(peer, to, pmdcs, outs, size, any).outs)
    decreases |outs|
  {
    hide DestinationOf, ChunkSize;
    if outs != [] {
      PackNeverBoth(peer, to, pmdcs, outs[1..], size, any);
      PackNeverBoth(peer, to, pmdcs, outs[1..], size + ChunkSize(outs[0].chunk), true);
    }
  }

  lemma SchedulingNeverBoth(tx: Tx)
    requires tx.peer.paths != [] && NeverBoth(tx.outs)
    ensures NeverBoth(SchedulePending(tx).outs)
  {
    var w := FirstWanted(tx.outs, 0);
    if w < |tx.outs| {
      PackNeverBoth(tx.peer, DestinationOf(tx.peer, tx.outs[w].destination), tx.pmdcs, tx.outs, 0, false);
    }
  }

  lemma {:induction false} RecordNeverBoth(peer: Peer, outs: seq<Outstanding>, a: Addr, chunks: seq<DataChunk>)
    requires peer.paths != [] && NeverBoth(outs)
    ensures NeverBoth(RecordAllSent(peer, outs, a, chunks))
    decreases |chunks|
  {
    if chunks != [] {
      RecordNeverBoth(peer, RecordSent(peer, outs, a, chunks[0]), a, chunks[1..]);
    }
  }

  lemma {:induction false} TimedOutNeverBoth(peer: Peer, outs: seq<Outstanding>, a: Addr, target: Addr)
    requires peer.paths != [] && NeverBoth(outs)
    ensures NeverBoth(TimedOut(peer, outs, a, target))
  {
    if outs != [] {
      TimedOutNeverBoth(peer, outs[1..], a, target);
    }
  }

  lemma {:induction false} AboveNeverBoth(cum: Tsn, outs: seq<Outstanding>)
    requires NeverBoth(outs)
    ensures NeverBoth(Above(cum, outs))
  {
    hide TsnLte;
    if outs != [] {
      AboveNeverBoth(cum, outs[1..]);
    }
  }

  lemma SentNeverBoth(tx: Tx, b: Bundle)
    requires tx.peer.paths != [] && NeverBoth(tx.outs)
    ensures NeverBoth(Sent(tx, b).outs)
  {
    RecordNeverBoth(tx.peer, tx.outs, b.destination, b.chunks);
  }

  lemma SackNeverBoth(tx: Tx, sack: SackChunk)
    requires tx.peer.paths != [] && AcceptsSack(tx, sack)
    ensures NeverBoth(HandleSack(tx, sack).outs)
  {
    hide ProcessSack, Trimmed, T3AfterSack, MissingBelow, FastRetransmits, SchedulePending, NeverBoth;
    var below := MissingBelow(tx, sack);
    SackKeepsNeverBoth(sack, below, tx.outs);
    var after := ProcessSack(sack, below, tx.outs);
    var fast := FastRetransmits(sack, below, tx.outs);
    var entered := fast && !tx.inFastRecovery && after != [];
    var exitTsn := if entered then after[|after| - 1].chunk.tsn else tx.exitTsn;
    var recovering := (tx.inFastRecovery || entered) && !TsnLte(exitTsn, sack.cumulativeTsnAck);
    SchedulingNeverBoth(tx.(outs := after, cum := sack.cumulativeTsnAck, queue := Trimmed(sack, tx.queue), inFastRecovery := recovering, exitTsn := exitTsn));
  }

  lemma ShutdownNeverBoth(tx: Tx, cum: Tsn)
    requires tx.peer.paths != [] && NeverBoth(tx.outs)
    ensures NeverBoth(HandleShutdown(tx, cum).outs)
  {
    hide Above, Trimmed, T3AfterShutdown, NeverBoth, TsnLt, TsnLte;
    AboveNeverBoth(cum, tx.outs);
  }

  lemma ExpiryNeverBoth(tx: Tx, a: Addr, peer: Peer)
    requires tx.peer.paths != [] && peer.paths != [] && NeverBoth(tx.outs)
    ensures NeverBoth(ExpireT3(tx, a, peer).outs)
  {
    hide TimedOut, SchedulePending, NeverBoth, Without, RetransmissionPath, HasUnacked, Knows;
    var target := peer.paths[RetransmissionPath(peer, a)].address;
    TimedOutNeverBoth(peer, tx.outs, a, target);
    SchedulingNeverBoth(tx.(t3 := tx.t3 - {a}, peer := peer, outs := TimedOut(peer, tx.outs, a, target), queue := Without(tx.queue, a)));
  }

  lemma StepKeepsNeverBoth(tx: Tx, s: SenderStep)
    requires NeverBoth(tx.outs) && Enabled(tx, s)
    ensures NeverBoth(Next(tx, s).outs)
  {
    hide HandleSack, HandleShutdown, ExpireT3, SchedulePending, Sent, NeverBoth, CutFrom;
    match s
    case SendsRetransmission => SentNeverBoth(tx.(queue := tx.queue[1..]), tx.queue[0]);
    case SendsNewData => SentNeverBoth(tx.(newData := tx.newData[1..]), tx.newData[0]);
    case Refills => SchedulingNeverBoth(tx);
    case GetsSack(sack) => SackNeverBoth(tx, sack);
    case GetsShutdown(cum) => ShutdownNeverBoth(tx, cum);
    case T3Expires(a, after) => ExpiryNeverBoth(tx, a, after);
    case _ =>
  }

  lemma {:induction false} NeverBothInRuns(steps: seq<SenderStep>, states: seq<Tx>, j: nat)
    requires IsRun(steps, states) && j < |states|
    ensures NeverBoth(states[j].outs)
    decreases j
  {
    if j > 0 {
      hide NeverBoth, Enabled, Next;
      NeverBothInRuns(steps, states, j - 1);
      StepKeepsNeverBoth(states[j - 1], steps[j - 1]);
    }
  }

  // ----- What a SACK step does to flight -----

  function Bytes(chunks: seq<DataChunk>): nat {
    if chunks == [] then 0 else ChunkSize(chunks[0]) + Bytes(chunks[1..])
  }

  /** What is packed for retransmission is in flight again. */
  lemma {:induction false} PackFlight(peer: Peer, to: Addr, pmdcs: nat, outs: seq<Outstanding>, size: nat, any: bool, a: Addr)
    requires peer.paths != []
    ensures var p := Pack(peer, to, pmdcs, outs, size, any);
            Flight(peer, p.outs, a) == Flight(peer, outs, a) + (if a == to then Bytes(p.chunks) else 0)
    decreases |outs|
  {
    hide DestinationOf, ChunkSize;
    if outs != [] {
      var o := outs[0];
      if !Wanted(o) || DestinationOf(peer, o.destination) != to {
        PackFlight(peer, to, pmdcs, outs[1..], size, any, a);
        var p := Pack(peer, to, pmdcs, outs[1..], size, any);
        assert ([o] + p.outs)[1..] == p.outs;
      } else if !(any && size + ChunkSize(o.chunk) > pmdcs) {
        PackFlight(peer, to, pmdcs, outs[1..], size + ChunkSize(o.chunk), true, a);
        var p := Pack(peer, to, pmdcs, outs[1..], size + ChunkSize(o.chunk), true);
        assert ([o.(pending := false)] + p.outs)[1..] == p.outs && ([o.chunk] + p.chunks)[1..] == p.chunks;
      }
    }
  }

  /** The bytes that scheduling a retransmission puts into a packet bound for `a`. */
  function ScheduledBytes(tx: Tx, a: Addr): nat
    requires tx.peer.paths != []
  {
    var queue := SchedulePending(tx).queue;
    if |queue| > |tx.queue| && queue[|queue| - 1].destination == a then Bytes(queue[|queue| - 1].chunks) else 0
  }

  lemma SchedulingFlight(tx: Tx, a: Addr)
    requires tx.peer.paths != []
    ensures Flight(tx.peer, SchedulePending(tx).outs, a) == Flight(tx.peer, tx.outs, a) + ScheduledBytes(tx, a)
  {
    hide Pack, Flight;
    var w := FirstWanted(tx.outs, 0);
    if w < |tx.outs| {
      PackFlight(tx.peer, DestinationOf(tx.peer, tx.outs[w].destination), tx.pmdcs, tx.outs, 0, false, a);
    }
  }

  /** The sender once a SACK has been applied and before anything is scheduled. */
  function AppliedTo(tx: Tx, sack: SackChunk): Tx {
    tx.(outs := ProcessSack(sack, MissingBelow(tx, sack), tx.outs), queue := Trimmed(sack, tx.queue))
  }

  /** Whether the SACK starts fast recovery, and with it a retransmission. */
  predicate Enters(tx: Tx, sack: SackChunk) {
    FastRetransmits(sack, MissingBelow(tx, sack), tx.outs) && !tx.inFastRecovery && AppliedTo(tx, sack).outs != []
  }

  lemma SackOuts(tx: Tx, sack: SackChunk)
    requires tx.peer.paths != [] && AcceptsSack(tx, sack)
    ensures HandleSack(tx, sack).outs == if Enters(tx, sack) then SchedulePending(AppliedTo(tx, sack)).outs else AppliedTo(tx, sack).outs
  {
    hide ProcessSack, Trimmed, T3AfterSack, MissingBelow, FastRetransmits, Pack, FirstWanted;
  }

  /** Conservation of flight: every SACK of every run changes the flight of a path by minus
      what it newly acknowledges, plus what the peer took back, minus what it newly marks,
      plus what it schedules for retransmission there. */
  lemma SacksConserveFlight(steps: seq<SenderStep>, states: seq<Tx>, j: nat, a: Addr)
    requires IsRun(steps, states) && j < |steps| && steps[j].GetsSack?
    ensures var tx, sack := states[j], steps[j].sack;
            && tx.peer.paths != [] && AcceptsSack(tx, sack)
            && Flight(tx.peer, states[j + 1].outs, a)
               + AckedBytes(tx.peer, sack, tx.outs, a) + MarkedBytes(tx.peer, sack, MissingBelow(tx, sack), tx.outs, a)
               == Flight(tx.peer, tx.outs, a) + RenegedBytes(tx.peer, sack, tx.outs, a)
                  + (if Enters(tx, sack) then ScheduledBytes(AppliedTo(tx, sack), a) else 0)
  {
    hide Flight, AckedBytes, MarkedBytes, RenegedBytes, ProcessSack, MissingBelow, HandleSack, NeverBoth, Enters, ScheduledBytes, SchedulePending, AcceptsSack, Trimmed;
    var tx, sack := states[j], steps[j].sack;
    assert Enabled(tx, steps[j]) && states[j + 1] == Next(tx, steps[j]);
    NeverBothInRuns(steps, states, j);
    SackConservesFlight(tx.peer, sack, MissingBelow(tx, sack), tx.outs, a);
    SackOuts(tx, sack);
    SchedulingFlight(AppliedTo(tx, sack), a);
  }
}
