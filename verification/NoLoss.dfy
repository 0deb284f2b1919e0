/** The sender holds on to everything: each TSN ever assigned is at or below its
    cumulative point, outstanding, or cut and not yet sent, and what it holds under a TSN
    is what it cut for it. A shutdown that has been announced leaves nothing behind. */
module NoLoss {
  import opened Serial
  import opened ReceiveSpec
  import opened MessageLog
  import opened Cutting
  import opened SendSpec
  import opened Transmission
  import opened NoStuckChunk

  function Chunks(outs: seq<Outstanding>): seq<DataChunk> {
    seq(|outs|, j requires 0 <= j < |outs| => outs[j].chunk)
  }

  /** Chunks `first`, `first + 1`, ... of the log, as they look on the wire. */
  ghost predicate Holds(t0: Tsn, log: Log, first: int, chunks: seq<DataChunk>) {
    && 0 <= first && first + |chunks| <= |log|
    && forall j :: 0 <= j < |chunks| ==> chunks[j] == DataChunk(Wire(t0, first + j), log[first + j])
  }

  /** The packet cut and not yet sent. */
  function Unsent(tx: Tx): seq<DataChunk> {
    if tx.newData == [] then [] else tx.newData[0].chunks
  }

  ghost predicate QueueHeld(outs: seq<Outstanding>, queue: seq<Bundle>) {
    forall b <- queue :: forall c <- b.chunks :: c in Chunks(outs)
  }

  /** Everything above `base`, the cumulative point, is accounted for, in TSN order. */
  ghost predicate Accounted(t0: Tsn, log: Log, tx: Tx, base: int) {
    && -1 <= base && |log| - base < HALF_TSN_SPACE
    && base + 1 + |tx.outs| + |Unsent(tx)| == |log|
    && tx.cum == Wire(t0, base) && tx.next == Wire(t0, |log|)
    && |tx.newData| <= 1
    && Holds(t0, log, base + 1, Chunks(tx.outs))
    && Holds(t0, log, base + 1 + |tx.outs|, Unsent(tx))
    && QueueHeld(tx.outs, tx.queue)
  }

  /** Once SHUTDOWN or SHUTDOWN ACK is out, everything queued was sent and acked. */
  ghost predicate Quiet(log: Log, tx: Tx, base: int) {
    tx.state.ShutdownSent? || tx.state.ShutdownAckSent? ==> tx.outbound == [] && base == |log| - 1
  }

  predicate ShuttingDown(state: AssociationState) {
    state.ShutdownPending? || state.ShutdownSent? || state.ShutdownReceived? || state.ShutdownAckSent?
  }

  /** A step that sends, or sends again, and otherwise leaves the association as it was. */
  predicate Steady(tx: Tx, tx': Tx) {
    tx'.pmdcs == tx.pmdcs && |tx'.outs| >= |tx.outs| && tx'.state == tx.state && tx'.outbound == tx.outbound
    && (tx'.newData == tx.newData || tx'.newData == [])
  }

  // ----- Lookups by TSN -----

  /** A chunk of the next index is not outstanding yet. */
  lemma NotOutstandingYet(t0: Tsn, log: Log, first: int, outs: seq<Outstanding>, tsn: Tsn)
    requires Holds(t0, log, first, Chunks(outs)) && |outs| < HALF_TSN_SPACE && tsn == Wire(t0, first + |outs|)
    ensures FindOutstanding(outs, tsn, 0) == |outs|
  {
    forall j | 0 <= j < |outs|
      ensures outs[j].chunk.tsn != tsn
    {
      assert Chunks(outs)[j] == outs[j].chunk;
      WireInjective(t0, first + j, first + |outs|);
    }
    hide Wire;
  }

  lemma RecordNew(t0: Tsn, log: Log, first: int, peer: Peer, outs: seq<Outstanding>, a: Addr, c: DataChunk)
    requires peer.paths != []
    requires Holds(t0, log, first, Chunks(outs)) && |outs| < HALF_TSN_SPACE - 1
    requires first + |outs| < |log| && c == DataChunk(Wire(t0, first + |outs|), log[first + |outs|])
    ensures Chunks(RecordSent(peer, outs, a, c)) == Chunks(outs) + [c]
    ensures Holds(t0, log, first, Chunks(RecordSent(peer, outs, a, c)))
  {
    NotOutstandingYet(t0, log, first, outs, c.tsn);
    hide Wire, FindOutstanding;
  }

  lemma {:induction false} RecordAllNew(t0: Tsn, log: Log, first: int, peer: Peer, outs: seq<Outstanding>, a: Addr, chunks: seq<DataChunk>)
    requires peer.paths != []
    requires Holds(t0, log, first, Chunks(outs)) && Holds(t0, log, first + |outs|, chunks) && |outs| + |chunks| < HALF_TSN_SPACE
    ensures Chunks(RecordAllSent(peer, outs, a, chunks)) == Chunks(outs) + chunks
    ensures Holds(t0, log, first, Chunks(RecordAllSent(peer, outs, a, chunks)))
    decreases |chunks|
  {
    hide Wire, RecordSent;
    if chunks == [] {
      assert Chunks(outs) + chunks == Chunks(outs);
    } else {
      var more := RecordSent(peer, outs, a, chunks[0]);
      RecordNew(t0, log, first, peer, outs, a, chunks[0]);
      assert |more| == |Chunks(more)| == |outs| + 1;
      RecordAllNew(t0, log, first, peer, more, a, chunks[1..]);
      assert Chunks(outs) + [chunks[0]] + chunks[1..] == Chunks(outs) + chunks;
    }
  }

  lemma RecordOld(peer: Peer, outs: seq<Outstanding>, a: Addr, c: DataChunk)
    requires peer.paths != [] && c in Chunks(outs)
    ensures Chunks(RecordSent(peer, outs, a, c)) == Chunks(outs)
  {
    var j :| 0 <= j < |outs| && outs[j].chunk == c;
    hide DestinationOf;
  }

  lemma {:induction false} RecordAllOld(peer: Peer, outs: seq<Outstanding>, a: Addr, chunks: seq<DataChunk>)
    requires peer.paths != [] && forall c :: c in chunks ==> c in Chunks(outs)
    ensures Chunks(RecordAllSent(peer, outs, a, chunks)) == Chunks(outs)
    decreases |chunks|
  {
    hide RecordSent;
    if chunks != [] {
      RecordOld(peer, outs, a, chunks[0]);
      RecordAllOld(peer, RecordSent(peer, outs, a, chunks[0]), a, chunks[1..]);
    }
  }

  // ----- Steps that only change flags and destinations -----

  lemma {:induction false} PackChunks(peer: Peer, to: Addr, pmdcs: nat, outs: seq<Outstanding>, size: nat, any: bool)
    requires peer.paths != []
    ensures var r := Pack(peer, to, pmdcs, outs, size, any);
            Chunks(r.outs) == Chunks(outs) && forall c :: c in r.chunks ==> c in Chunks(outs)
    decreases |outs|
  {
    hide ChunkSize, DestinationOf;
    if outs != [] {
      var o := outs[0];
      assert Chunks(outs) == [o.chunk] + Chunks(outs[1..]);
      if !Wanted(o) || DestinationOf(peer, o.destination) != to {
        PackChunks(peer, to, pmdcs, outs[1..], size, any);
        var rest := Pack(peer, to, pmdcs, outs[1..], size, any);
        assert Chunks([o] + rest.outs) == [o.chunk] + Chunks(rest.outs);
      } else if !(any && size + ChunkSize(o.chunk) > pmdcs) {
        PackChunks(peer, to, pmdcs, outs[1..], size + ChunkSize(o.chunk), true);
        var rest := Pack(peer, to, pmdcs, outs[1..], size + ChunkSize(o.chunk), true);
        assert Chunks([o.(pending := false)] + rest.outs) == [o.chunk] + Chunks(rest.outs);
      }
    }
  }

  lemma TimedOutChunks(peer: Peer, outs: seq<Outstanding>, a: Addr, target: Addr)
    requires peer.paths != []
    ensures Chunks(TimedOut(peer, outs, a, target)) == Chunks(outs)
  {
    forall j | 0 <= j < |outs|
      ensures TimedOut(peer, outs, a, target)[j].chunk == outs[j].chunk
    {
      TimedOutAt(peer, outs, a, target, j);
    }
    hide TimedOut;
  }

  lemma SchedulingAccounted(t0: Tsn, log: Log, tx: Tx, base: int)
    requires tx.peer.paths != [] && Accounted(t0, log, tx, base)
    ensures Accounted(t0, log, SchedulePending(tx), base)
    ensures Steady(tx, SchedulePending(tx)) && SchedulePending(tx).newData == tx.newData
  {
    var w := FirstWanted(tx.outs, 0);
    if w < |tx.outs| {
      var to := DestinationOf(tx.peer, tx.outs[w].destination);
      PackChunks(tx.peer, to, tx.pmdcs, tx.outs, 0, false);
      hide Wire, Pack, FirstWanted;
    }
  }

  lemma {:induction false} WithoutHeld(outs: seq<Outstanding>, queue: seq<Bundle>, a: Addr)
    requires QueueHeld(outs, queue)
    ensures QueueHeld(outs, Without(queue, a))
  {
    hide Without;
    forall b | b in Without(queue, a)
      ensures forall c <- b.chunks :: c in Chunks(outs)
    {
      WithoutKeeps(queue, a, b);
    }
  }

  lemma ExpiryAccounted(t0: Tsn, log: Log, tx: Tx, base: int, a: Addr, peer: Peer)
    requires tx.peer.paths != [] && peer.paths != [] && Accounted(t0, log, tx, base)
    ensures var tx' := ExpireT3(tx, a, peer);
            Accounted(t0, log, tx', base) && Steady(tx, tx')
  {
    hide Wire, TimedOut, Without, RetransmissionPath, SchedulePending;
    if TransmitsData(tx.state) && Knows(tx.peer, a) && HasUnacked(tx.peer, tx.outs, a) {
      var target := peer.paths[RetransmissionPath(peer, a)].address;
      TimedOutChunks(peer, tx.outs, a, target);
      WithoutHeld(tx.outs, tx.queue, a);
      var moved := tx.(t3 := tx.t3 - {a}, peer := peer, outs := TimedOut(peer, tx.outs, a, target), queue := Without(tx.queue, a));
      SchedulingAccounted(t0, log, moved, base);
    }
  }

  // ----- Cumulative acknowledgement -----

  function Clamp(n: int, max: nat): nat {
    if n < 0 then 0 else if n > max then max else n
  }

  lemma FirstSurvives(t0: Tsn, log: Log, first: int, outs: seq<Outstanding>, a: int)
    requires outs != [] && Holds(t0, log, first, Chunks(outs)) && -HALF_TSN_SPACE < first - a < HALF_TSN_SPACE
    ensures TsnLte(outs[0].chunk.tsn, Wire(t0, a)) <==> first <= a
    ensures Holds(t0, log, first + 1, Chunks(outs[1..]))
    ensures Chunks(outs) == [outs[0].chunk] + Chunks(outs[1..])
  {
    assert Chunks(outs)[0] == outs[0].chunk;
    TsnLtIsIndexOrder(t0, first, a);
    assert Chunks(outs) == [outs[0].chunk] + Chunks(outs[1..]);
    hide Wire, TsnLte;
    forall j | 0 <= j < |outs| - 1
      ensures Chunks(outs[1..])[j] == DataChunk(Wire(t0, first + 1 + j), log[first + 1 + j])
    {
      assert Chunks(outs)[j + 1] == Chunks(outs[1..])[j];
    }
  }

  /** A SACK removes the chunks up to its cumulative point and no others. */
  lemma {:induction false} SurvivorsAreTheRest(t0: Tsn, log: Log, first: int, outs: seq<Outstanding>, sack: SackChunk, below: Highest, a: int)
    requires Holds(t0, log, first, Chunks(outs)) && sack.cumulativeTsnAck == Wire(t0, a)
    requires -HALF_TSN_SPACE < first - a && first + |outs| - a < HALF_TSN_SPACE
    ensures Chunks(ProcessSack(sack, below, outs)) == Chunks(outs)[Clamp(a + 1 - first, |outs|)..]
    decreases |outs|
  {
    hide Wire, TsnLte, AfterSack;
    if outs != [] {
      FirstSurvives(t0, log, first, outs, a);
      SurvivorsAreTheRest(t0, log, first + 1, outs[1..], sack, below, a);
      var rest := ProcessSack(sack, below, outs[1..]);
      if first > a {
        AfterSackKeepsChunk(sack, below, outs[0]);
        assert Chunks([AfterSack(sack, below, outs[0])] + rest) == [outs[0].chunk] + Chunks(rest);
      } else {
        assert [] + rest == rest;
      }
    }
  }

  lemma AfterSackKeepsChunk(sack: SackChunk, below: Highest, o: Outstanding)
    ensures AfterSack(sack, below, o).chunk == o.chunk
  {
    hide SackAcknowledges, ReportedMissing;
  }

  lemma {:induction false} AboveIsTheRest(t0: Tsn, log: Log, first: int, outs: seq<Outstanding>, a: int)
    requires Holds(t0, log, first, Chunks(outs))
    requires -HALF_TSN_SPACE < first - a && first + |outs| - a < HALF_TSN_SPACE
    ensures Chunks(Above(Wire(t0, a), outs)) == Chunks(outs)[Clamp(a + 1 - first, |outs|)..]
    decreases |outs|
  {
    hide Wire, TsnLte;
    if outs != [] {
      FirstSurvives(t0, log, first, outs, a);
      AboveIsTheRest(t0, log, first + 1, outs[1..], a);
      var rest := Above(Wire(t0, a), outs[1..]);
      if first > a {
        assert Chunks([outs[0]] + rest) == [outs[0].chunk] + Chunks(rest);
      } else {
        assert [] + rest == rest;
      }
    }
  }

  lemma {:induction false} UnackedFrom(sack: SackChunk, chunks: seq<DataChunk>, c: DataChunk)
    requires c in Unacked(sack, chunks)
    ensures c in chunks && !SackAcknowledges(sack, c.tsn)
  {
    hide SackAcknowledges;
    if !(chunks[0] == c && !SackAcknowledges(sack, c.tsn)) {
      UnackedFrom(sack, chunks[1..], c);
    }
  }

  lemma {:induction false} TrimmedFrom(sack: SackChunk, queue: seq<Bundle>, b: Bundle, c: DataChunk)
    requires b in Trimmed(sack, queue) && c in b.chunks
    ensures !SackAcknowledges(sack, c.tsn) && exists d :: d in queue && c in d.chunks
    decreases |queue|
  {
    hide SackAcknowledges, Unacked;
    var kept := Unacked(sack, queue[0].chunks);
    if b in Trimmed(sack, queue[1..]) {
      TrimmedFrom(sack, queue[1..], b, c);
      var d :| d in queue[1..] && c in d.chunks;
      assert d in queue;
    } else {
      UnackedFrom(sack, queue[0].chunks, c);
      assert queue[0] in queue;
    }
  }

  /** Queued retransmissions left after a SACK are of chunks still outstanding. */
  lemma TrimmedHeld(t0: Tsn, log: Log, first: int, outs: seq<Outstanding>, rest: seq<Outstanding>, queue: seq<Bundle>, sack: SackChunk, a: int)
    requires Holds(t0, log, first, Chunks(outs)) && QueueHeld(outs, queue) && sack.cumulativeTsnAck == Wire(t0, a)
    requires -HALF_TSN_SPACE < first - a && first + |outs| - a < HALF_TSN_SPACE
    requires Chunks(rest) == Chunks(outs)[Clamp(a + 1 - first, |outs|)..]
    ensures QueueHeld(rest, Trimmed(sack, queue))
  {
    hide Wire, TsnLte, Trimmed, SackAcknowledges;
    forall b, c | b in Trimmed(sack, queue) && c in b.chunks
      ensures c in Chunks(rest)
    {
      TrimmedFrom(sack, queue, b, c);
      NotYetAcked(sack, c);
      var d :| d in queue && c in d.chunks;
      assert c in Chunks(outs);
      var j :| 0 <= j < |outs| && Chunks(outs)[j] == c;
      AboveCumulative(t0, first + j, a);
      assert c == Chunks(rest)[j - Clamp(a + 1 - first, |outs|)];
    }
  }

  lemma NotYetAcked(sack: SackChunk, c: DataChunk)
    requires !SackAcknowledges(sack, c.tsn)
    ensures !TsnLte(c.tsn, sack.cumulativeTsnAck)
  {
    hide TsnLte;
  }

  lemma AboveCumulative(t0: Tsn, i: int, a: int)
    requires !TsnLte(Wire(t0, i), Wire(t0, a)) && -HALF_TSN_SPACE < i - a < HALF_TSN_SPACE
    ensures i > a
  {
    TsnLtIsIndexOrder(t0, i, a);
  }

  /** The sender's state once everything up to index `a` is acknowledged. */
  lemma AckedUpTo(t0: Tsn, log: Log, tx: Tx, base: int, a: int, outs: seq<Outstanding>, queue: seq<Bundle>, tx': Tx)
    requires Accounted(t0, log, tx, base) && base <= a <= base + |tx.outs|
    requires Chunks(outs) == Chunks(tx.outs)[a - base..] && QueueHeld(outs, queue)
    requires tx'.outs == outs && tx'.queue == queue && tx'.newData == tx.newData && tx'.next == tx.next && tx'.cum == Wire(t0, a)
    ensures Accounted(t0, log, tx', a)
  {
    hide Wire, QueueHeld;
    assert |outs| == |Chunks(outs)| == |tx.outs| - (a - base);
    forall j | 0 <= j < |outs|
      ensures Chunks(outs)[j] == DataChunk(Wire(t0, a + 1 + j), log[a + 1 + j])
    {
      assert Chunks(outs)[j] == Chunks(tx.outs)[a - base + j];
    }
  }

  /** What an accepted cumulative point stands for. */
  lemma AcceptedIndex(t0: Tsn, base: int, length: int, cum: Tsn)
    requires -1 <= base < length && length - base < HALF_TSN_SPACE
    requires !TsnLt(cum, Wire(t0, base)) && TsnLt(cum, Wire(t0, length))
    ensures base <= Unwrap(t0, base, cum) < length
    ensures Wire(t0, Unwrap(t0, base, cum)) == cum
  {
    var a := Unwrap(t0, base, cum);
    WireOfUnwrap(t0, base, cum);
    if a < base + HALF_TSN_SPACE {
      TsnLtIsIndexOrder(t0, a, base);
      if -HALF_TSN_SPACE < a - length < HALF_TSN_SPACE {
        TsnLtIsIndexOrder(t0, a, length);
      }
    } else {
      TsnLtIsIndexOrder(t0, a, length);
    }
  }

  lemma NextStepAccounted(t0: Tsn, log: Log, tx: Tx, base: int)
    requires Accounted(t0, log, tx, base) && Quiet(log, tx, base)
    ensures Accounted(t0, log, NextShutdownStep(tx), base) && Quiet(log, NextShutdownStep(tx), base)
    ensures ShuttingDown(tx.state) ==> ShuttingDown(NextShutdownStep(tx).state)
  {
    WireStep(t0, |log|);
    WireInjective(t0, base, |log| - 1);
    hide Wire, Holds, QueueHeld;
  }

  lemma SackIndex(t0: Tsn, log: Log, tx: Tx, base: int, sack: SackChunk)
    requires AcceptsSack(tx, sack) && Accounted(t0, log, tx, base) && base < |log|
    ensures base <= Unwrap(t0, base, sack.cumulativeTsnAck) < |log|
    ensures Wire(t0, Unwrap(t0, base, sack.cumulativeTsnAck)) == sack.cumulativeTsnAck
    ensures TransmitsData(tx.state)
  {
    hide Wire, Unwrap, TsnLt, Holds, QueueHeld;
    AcceptedIndex(t0, base, |log|, sack.cumulativeTsnAck);
  }

  lemma SackAccounted(t0: Tsn, log: Log, tx: Tx, base: int, sack: SackChunk)
    requires tx.peer.paths != [] && AcceptsSack(tx, sack) && Accounted(t0, log, tx, base) && Quiet(log, tx, base)
    requires base < |log|
    requires Unwrap(t0, base, sack.cumulativeTsnAck) <= base + |tx.outs|
    ensures var a := Unwrap(t0, base, sack.cumulativeTsnAck);
            && base <= a && Accounted(t0, log, HandleSack(tx, sack), a) && Quiet(log, HandleSack(tx, sack), a)
            && (ShuttingDown(tx.state) ==> ShuttingDown(HandleSack(tx, sack).state))
  {
    hide Unwrap, TsnLte, ProcessSack, Trimmed, T3AfterSack, FastRetransmits, MissingBelow, SchedulePending, AcceptsSack, NextShutdownStep, Accounted;
    var a := Unwrap(t0, base, sack.cumulativeTsnAck);
    SackIndex(t0, log, tx, base, sack);
    var below := MissingBelow(tx, sack);
    var after := ProcessSack(sack, below, tx.outs);
    var fast := FastRetransmits(sack, below, tx.outs);
    var entered := fast && !tx.inFastRecovery && after != [];
    var exitTsn := if entered then after[|after| - 1].chunk.tsn else tx.exitTsn;
    var recovering := (tx.inFastRecovery || entered) && !TsnLte(exitTsn, sack.cumulativeTsnAck);
    var applied := tx.(outs := after, cum := sack.cumulativeTsnAck, queue := Trimmed(sack, tx.queue), inFastRecovery := recovering, exitTsn := exitTsn);
    AppliedAccounted(t0, log, tx, base, sack, below, applied);
    SchedulingAccounted(t0, log, applied, a);
    var scheduled := if entered then SchedulePending(applied) else applied;
    var timed := scheduled.(t3 := T3AfterSack(tx, sack, after, fast));
    TimersAside(t0, log, scheduled, a, timed.t3);
    NextStepAccounted(t0, log, timed, a);
  }

  lemma TimersAside(t0: Tsn, log: Log, tx: Tx, base: int, t3: set<Addr>)
    requires Accounted(t0, log, tx, base)
    ensures Accounted(t0, log, tx.(t3 := t3), base)
  {
    hide Wire, Holds, QueueHeld;
  }

  lemma AppliedAccounted(t0: Tsn, log: Log, tx: Tx, base: int, sack: SackChunk, below: Highest, tx': Tx)
    requires AcceptsSack(tx, sack) && Accounted(t0, log, tx, base) && base < |log|
    requires Unwrap(t0, base, sack.cumulativeTsnAck) <= base + |tx.outs|
    requires tx'.outs == ProcessSack(sack, below, tx.outs) && tx'.queue == Trimmed(sack, tx.queue)
    requires tx'.newData == tx.newData && tx'.next == tx.next && tx'.cum == sack.cumulativeTsnAck
    ensures Accounted(t0, log, tx', Unwrap(t0, base, sack.cumulativeTsnAck))
  {
    hide Wire, Unwrap, TsnLt, TsnLte, ProcessSack, Trimmed, AcceptsSack, QueueHeld;
    var a := Unwrap(t0, base, sack.cumulativeTsnAck);
    SackIndex(t0, log, tx, base, sack);
    SurvivorsAreTheRest(t0, log, base + 1, tx.outs, sack, below, a);
    TrimmedHeld(t0, log, base + 1, tx.outs, tx'.outs, tx.queue, sack, a);
    AckedUpTo(t0, log, tx, base, a, tx'.outs, tx'.queue, tx');
  }

  lemma ShutdownAccounted(t0: Tsn, log: Log, tx: Tx, base: int, cum: Tsn)
    requires tx.peer.paths != [] && Accounted(t0, log, tx, base) && Quiet(log, tx, base) && base < |log|
    requires TransmitsData(tx.state) ==> TsnLt(cum, tx.next)
    requires TransmitsData(tx.state) && TsnLt(tx.cum, cum) ==> Unwrap(t0, base, cum) <= base + |tx.outs|
    ensures var a := if TransmitsData(tx.state) && TsnLt(tx.cum, cum) then Unwrap(t0, base, cum) else base;
            && base <= a && Accounted(t0, log, HandleShutdown(tx, cum), a) && Quiet(log, HandleShutdown(tx, cum), a)
            && (ShuttingDown(tx.state) ==> ShuttingDown(HandleShutdown(tx, cum).state))
  {
    if TransmitsData(tx.state) {
      if TsnLt(tx.cum, cum) {
        var a := Unwrap(t0, base, cum);
        TsnAsymmetric(tx.cum, cum);
        AcceptedIndex(t0, base, |log|, cum);
        var sack := SackChunk(cum, 0, [], []);
        var outs := Above(cum, tx.outs);
        hide Wire, Unwrap, TsnLt, TsnLte, Above, Trimmed;
        AboveIsTheRest(t0, log, base + 1, tx.outs, a);
        TrimmedHeld(t0, log, base + 1, tx.outs, outs, tx.queue, sack, a);
        var acked := tx.(state := ShutdownReceived, outs := outs, cum := cum, queue := Trimmed(sack, tx.queue));
        AckedUpTo(t0, log, tx, base, a, outs, Trimmed(sack, tx.queue), acked);
        ShutdownInParts(t0, log, tx, cum, a);
      } else {
        NextStepAccounted(t0, log, tx.(state := ShutdownReceived), base);
      }
    }
  }

  lemma TsnAsymmetric(a: Tsn, b: Tsn)
    requires TsnLt(a, b)
    ensures !TsnLt(b, a)
  {
  }

  lemma ShutdownInParts(t0: Tsn, log: Log, tx: Tx, cum: Tsn, a: int)
    requires tx.peer.paths != [] && TransmitsData(tx.state) && TsnLt(tx.cum, cum)
    requires Accounted(t0, log, tx.(state := ShutdownReceived, outs := Above(cum, tx.outs), cum := cum, queue := Trimmed(SackChunk(cum, 0, [], []), tx.queue)), a)
    ensures Accounted(t0, log, HandleShutdown(tx, cum), a) && Quiet(log, HandleShutdown(tx, cum), a)
    ensures ShuttingDown(HandleShutdown(tx, cum).state)
  {
    hide Wire, TsnLte, Above, Trimmed, Holds, QueueHeld, NextShutdownStep, T3AfterShutdown;
    NextStepAccounted(t0, log, tx.(
      state := ShutdownReceived, outs := Above(cum, tx.outs), cum := cum,
      inFastRecovery := tx.inFastRecovery && !TsnLte(tx.exitTsn, cum),
      queue := Trimmed(SackChunk(cum, 0, [], []), tx.queue),
      t3 := T3AfterShutdown(tx, cum)), a);
  }

  // ----- Sending and cutting -----

  lemma SentNewAccounted(t0: Tsn, log: Log, tx: Tx, base: int)
    requires tx.peer.paths != [] && Accounted(t0, log, tx, base) && tx.newData != [] && TransmitsData(tx.state)
    ensures Accounted(t0, log, SendNewData(tx), base) && Steady(tx, SendNewData(tx))
  {
    hide Wire, RecordAllSent, HasUnacked, Knows;
    var b := tx.newData[0];
    var outs := RecordAllSent(tx.peer, tx.outs, b.destination, b.chunks);
    RecordAllNew(t0, log, base + 1, tx.peer, tx.outs, b.destination, b.chunks);
    assert |outs| == |Chunks(outs)|;
    forall q, c | q in tx.queue && c in q.chunks
      ensures c in Chunks(outs)
    {
      assert c in Chunks(tx.outs);
    }
  }

  lemma SentAgainAccounted(t0: Tsn, log: Log, tx: Tx, base: int)
    requires tx.peer.paths != [] && Accounted(t0, log, tx, base) && tx.queue != []
    ensures Accounted(t0, log, SendRetransmission(tx), base) && Steady(tx, SendRetransmission(tx))
  {
    hide Wire, RecordAllSent, HasUnacked, Knows, Holds;
    var b := tx.queue[0];
    assert b in tx.queue;
    var outs := RecordAllSent(tx.peer, tx.outs, b.destination, b.chunks);
    RecordAllOld(tx.peer, tx.outs, b.destination, b.chunks);
    assert |outs| == |Chunks(outs)| == |Chunks(tx.outs)|;
  }

  lemma CutAccounted(t0: Tsn, log: Log, tx: Tx, base: int, limits: Limits)
    requires tx.peer.paths != [] && ValidQueue(tx.outbound) && limits.pmdcs >= 20
    requires Accounted(t0, log, tx, base) && tx.newData == []
    requires |log| + |CutFrom(limits, tx.outbound, 0, true).fragments| - base < HALF_TSN_SPACE
    ensures Accounted(t0, log + CutFrom(limits, tx.outbound, 0, true).fragments, CutNewData(tx, limits), base)
    ensures CutNewData(tx, limits).newData != [] ==> Unsent(CutNewData(tx, limits)) != []
    ensures CutNewData(tx, limits).outs == tx.outs && CutNewData(tx, limits).state == tx.state && CutNewData(tx, limits).pmdcs == tx.pmdcs
  {
    hide Wire, CutFrom, DataPath, QueueHeld, Holds, Numbered;
    var fragments := CutFrom(limits, tx.outbound, 0, true).fragments;
    if fragments == [] {
      assert log + fragments == log;
    } else {
      HoldsExtends(t0, log, fragments, base + 1, Chunks(tx.outs));
      NumberedHolds(t0, log, fragments);
      WirePlus(t0, |log|, |fragments|);
    }
  }

  lemma HoldsExtends(t0: Tsn, log: Log, more: Log, first: int, chunks: seq<DataChunk>)
    requires Holds(t0, log, first, chunks)
    ensures Holds(t0, log + more, first, chunks)
  {
    hide Wire;
  }

  lemma NumberedHolds(t0: Tsn, log: Log, fragments: seq<Fragment>)
    ensures Holds(t0, log + fragments, |log|, Numbered(Wire(t0, |log|), fragments))
    ensures |Numbered(Wire(t0, |log|), fragments)| == |fragments|
  {
    forall j | 0 <= j < |fragments|
      ensures Numbered(Wire(t0, |log|), fragments)[j] == DataChunk(Wire(t0, |log| + j), (log + fragments)[|log| + j])
    {
      WirePlus(t0, |log|, j);
    }
  }

  lemma WirePlus(t0: Tsn, i: int, j: int)
    ensures (Wire(t0, i) + j) % TSN_SPACE == Wire(t0, i + j)
  {
  }
}
