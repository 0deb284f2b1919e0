/** No stuck chunk: in every transmitting state, each outstanding chunk that the peer has
    not reported received has its destination's T3-rtx running, or is marked for
    retransmission, or sits in a queued retransmission bound for its destination. Every
    step of the sender keeps this. */
module NoStuckChunk {
  import opened Serial
  import opened ReceiveSpec
  import opened Cutting
  import opened SendSpec
  import opened Transmission
  import opened SackProcessing

  predicate InQueue(queue: seq<Bundle>, a: Addr, c: DataChunk) {
    exists b :: b in queue && b.destination == a && c in b.chunks
  }

  /** Something will send the chunk again unless it is acknowledged first. */
  predicate Covered(t3: set<Addr>, queue: seq<Bundle>, o: Outstanding) {
    o.gapAcked || o.pending || o.destination in t3 || InQueue(queue, o.destination, o.chunk)
  }

  ghost predicate AllCovered(t3: set<Addr>, queue: seq<Bundle>, outs: seq<Outstanding>) {
    forall o <- outs :: Covered(t3, queue, o)
  }

  /** Everything is bound for an address of the peer. */
  ghost predicate AllKnown(peer: Peer, outs: seq<Outstanding>, queue: seq<Bundle>, newData: seq<Bundle>) {
    && ValidPeer(peer)
    && (forall o <- outs :: Knows(peer, o.destination))
    && (forall b <- queue :: Knows(peer, b.destination))
    && (forall b <- newData :: Knows(peer, b.destination))
  }

  ghost predicate NoneStuck(tx: Tx) {
    && AllKnown(tx.peer, tx.outs, tx.queue, tx.newData)
    && (TransmitsData(tx.state) ==> AllCovered(tx.t3, tx.queue, tx.outs))
  }

  // ----- Scheduling a retransmission -----

  /** A chunk that packing unmarks is in the packet, which goes where the chunk goes. */
  predicate Packed(peer: Peer, to: Addr, chunks: seq<DataChunk>, o: Outstanding, p: Outstanding)
    requires peer.paths != []
  {
    && p.chunk == o.chunk && p.destination == o.destination && p.gapAcked == o.gapAcked
    && (p.pending == o.pending || (!p.pending && p.chunk in chunks && DestinationOf(peer, p.destination) == to))
  }

  lemma {:induction false} PackKeeps(peer: Peer, to: Addr, pmdcs: nat, outs: seq<Outstanding>, size: nat, any: bool, j: nat)
    requires peer.paths != [] && j < |outs|
    ensures var r := Pack(peer, to, pmdcs, outs, size, any);
            Packed(peer, to, r.chunks, outs[j], r.outs[j])
    decreases |outs|
  {
    hide DestinationOf, ChunkSize;
    var o := outs[0];
    if !Wanted(o) || DestinationOf(peer, o.destination) != to {
      if j > 0 {
        PackKeeps(peer, to, pmdcs, outs[1..], size, any, j - 1);
      }
    } else if !(any && size + ChunkSize(o.chunk) > pmdcs) {
      if j > 0 {
        PackKeeps(peer, to, pmdcs, outs[1..], size + ChunkSize(o.chunk), true, j - 1);
      }
    }
  }

  lemma InQueueGrows(queue: seq<Bundle>, more: seq<Bundle>, a: Addr, c: DataChunk)
    ensures InQueue(queue, a, c) ==> InQueue(queue + more, a, c)
    ensures InQueue(more, a, c) ==> InQueue(queue + more, a, c)
  {
    if InQueue(queue, a, c) {
      var b :| b in queue && b.destination == a && c in b.chunks;
      assert b in queue + more;
    }
    if InQueue(more, a, c) {
      var b :| b in more && b.destination == a && c in b.chunks;
      assert b in queue + more;
    }
  }

  lemma SchedulingKeeps(tx: Tx)
    requires NoneStuck(tx)
    ensures NoneStuck(SchedulePending(tx))
  {
    var w := FirstWanted(tx.outs, 0);
    if w < |tx.outs| {
      var to := DestinationOf(tx.peer, tx.outs[w].destination);
      assert tx.outs[w] in tx.outs;
      var p := Pack(tx.peer, to, tx.pmdcs, tx.outs, 0, false);
      var packet := Bundle(to, p.chunks);
      forall q | q in p.outs
        ensures Knows(tx.peer, q.destination)
        ensures TransmitsData(tx.state) ==> Covered(tx.t3, tx.queue + [packet], q)
      {
        var j :| 0 <= j < |p.outs| && p.outs[j] == q;
        hide Pack, FirstWanted;
        PackKeeps(tx.peer, to, tx.pmdcs, tx.outs, 0, false, j);
        assert tx.outs[j] in tx.outs;
        InQueueGrows(tx.queue, [packet], q.destination, q.chunk);
        assert packet in [packet];
      }
    }
  }

  // ----- Sending -----

  lemma {:induction false} RecordAllKeeps(peer: Peer, outs: seq<Outstanding>, a: Addr, chunks: seq<DataChunk>)
    requires peer.paths != [] && Knows(peer, a)
    ensures forall o :: o in RecordAllSent(peer, outs, a, chunks) ==> o in outs || o.destination == a
    decreases |chunks|
  {
    if chunks != [] {
      RecordAllKeeps(peer, RecordSent(peer, outs, a, chunks[0]), a, chunks[1..]);
    }
  }

  /** After a packet is sent, T3-rtx of its destination covers all that is bound there. */
  lemma SentKeeps(tx: Tx, b: Bundle, queue: seq<Bundle>)
    requires AllKnown(tx.peer, tx.outs, tx.queue, tx.newData) && Knows(tx.peer, b.destination)
    requires TransmitsData(tx.state) ==> AllCovered(tx.t3, queue, tx.outs)
    requires forall q :: q in queue ==> q in tx.queue || q == b
    ensures NoneStuck(Sent(tx, b))
  {
    if TransmitsData(tx.state) {
      var a := b.destination;
      var outs := RecordAllSent(tx.peer, tx.outs, a, b.chunks);
      RecordAllKeeps(tx.peer, tx.outs, a, b.chunks);
      hide RecordAllSent, ValidPeer;
      var after := Sent(tx, b);
      forall o | o in outs
        ensures Covered(after.t3, tx.queue, o)
      {
        if !o.gapAcked && o.destination == a {
          var j :| 0 <= j < |outs| && outs[j] == o;
          assert HasUnacked(tx.peer, outs, a);
        } else if o.destination != a {
          assert o in tx.outs;
          assert Covered(tx.t3, queue, o);
          if InQueue(queue, o.destination, o.chunk) {
            var q :| q in queue && q.destination == o.destination && o.chunk in q.chunks;
            assert q in tx.queue;
          }
        }
      }
    }
  }

  lemma SendRetransmissionKeeps(tx: Tx)
    requires NoneStuck(tx) && tx.queue != []
    ensures NoneStuck(SendRetransmission(tx))
  {
    assert tx.queue[0] in tx.queue;
    SentKeeps(tx.(queue := tx.queue[1..]), tx.queue[0], tx.queue);
  }

  lemma SendNewDataKeeps(tx: Tx)
    requires NoneStuck(tx) && tx.newData != []
    ensures NoneStuck(SendNewData(tx))
  {
    assert tx.newData[0] in tx.newData;
    SentKeeps(tx.(newData := tx.newData[1..]), tx.newData[0], tx.queue);
  }

  // ----- SACK -----

  lemma {:induction false} UnackedKeeps(sack: SackChunk, chunks: seq<DataChunk>, c: DataChunk)
    requires c in chunks && !SackAcknowledges(sack, c.tsn)
    ensures c in Unacked(sack, chunks)
  {
    hide SackAcknowledges;
    if c != chunks[0] {
      UnackedKeeps(sack, chunks[1..], c);
    }
  }

  lemma {:induction false} TrimmedKeeps(sack: SackChunk, queue: seq<Bundle>, a: Addr, c: DataChunk)
    requires InQueue(queue, a, c) && !SackAcknowledges(sack, c.tsn)
    ensures InQueue(Trimmed(sack, queue), a, c)
    decreases |queue|
  {
    hide SackAcknowledges, Unacked;
    var b :| b in queue && b.destination == a && c in b.chunks;
    var trimmed := Trimmed(sack, queue);
    if b == queue[0] {
      UnackedKeeps(sack, b.chunks, c);
      assert b.(chunks := Unacked(sack, b.chunks)) in trimmed;
    } else {
      assert b in queue[1..];
      TrimmedKeeps(sack, queue[1..], a, c);
      var d :| d in Trimmed(sack, queue[1..]) && d.destination == a && c in d.chunks;
      assert d in trimmed;
    }
  }

  lemma {:induction false} TrimmedBound(sack: SackChunk, queue: seq<Bundle>, peer: Peer)
    requires forall b :: b in queue ==> Knows(peer, b.destination)
    ensures forall b :: b in Trimmed(sack, queue) ==> Knows(peer, b.destination)
    decreases |queue|
  {
    hide Knows, Unacked;
    if queue != [] {
      TrimmedBound(sack, queue[1..], peer);
    }
  }

  /** A chunk the SACK leaves unacknowledged is covered afterwards. */
  lemma SackCovers(tx: Tx, sack: SackChunk, below: Highest, fast: bool, p: Outstanding)
    requires NoneStuck(tx) && TransmitsData(tx.state)
    requires p in ProcessSack(sack, below, tx.outs)
    ensures Knows(tx.peer, p.destination)
    ensures Covered(T3AfterSack(tx, sack, ProcessSack(sack, below, tx.outs), fast), Trimmed(sack, tx.queue), p)
  {
    hide SackAcknowledges, ProcessSack, Trimmed, ValidPeer, RestartsT3, Survives;
    var after := ProcessSack(sack, below, tx.outs);
    SackIsApplied(sack, below, tx.outs);
    assert CarriedFrom(sack, tx.outs, p);
    var i :| 0 <= i < |tx.outs| && Carried(sack, tx.outs[i], p);
    var o := tx.outs[i];
    assert o in tx.outs;
    var a := p.destination;
    if !p.gapAcked && !p.pending {
      var j :| 0 <= j < |after| && after[j] == p;
      assert HasUnacked(tx.peer, after, a);
      if o.gapAcked || a in tx.t3 {
        assert o.gapAcked ==> RenegedOn(tx, sack, a);
        var k :| 0 <= k < |tx.peer.paths| && tx.peer.paths[k].address == a;
        assert T3RunsAfter(tx, sack, after, fast, tx.peer.paths[k].address);
      } else {
        assert Covered(tx.t3, tx.queue, o);
        TrimmedKeeps(sack, tx.queue, a, o.chunk);
      }
    }
  }

  lemma NextShutdownStepKeeps(tx: Tx)
    requires NoneStuck(tx)
    ensures NoneStuck(NextShutdownStep(tx))
  {
    hide AllKnown, AllCovered;
  }

  lemma SackKeeps(tx: Tx, sack: SackChunk)
    requires NoneStuck(tx) && AcceptsSack(tx, sack)
    ensures NoneStuck(HandleSack(tx, sack))
  {
    var below := MissingBelow(tx, sack);
    var after := ProcessSack(sack, below, tx.outs);
    var fast := FastRetransmits(sack, below, tx.outs);
    var t3 := T3AfterSack(tx, sack, after, fast);
    hide ProcessSack, Trimmed, ValidPeer, MissingBelow, FastRetransmits, T3AfterSack, Covered, AcceptsSack, Pack;
    forall p | p in after
      ensures Knows(tx.peer, p.destination) && Covered(t3, Trimmed(sack, tx.queue), p)
    {
      SackCovers(tx, sack, below, fast, p);
    }
    TrimmedBound(sack, tx.queue, tx.peer);
    var applied := tx.(outs := after, cum := sack.cumulativeTsnAck, queue := Trimmed(sack, tx.queue), t3 := t3);
    assert NoneStuck(applied);
    SchedulingKeeps(applied);
    SackInParts(tx, sack);
  }

  /** The pieces of `HandleSack` that matter here, in the order that is easiest to read. */
  lemma SackInParts(tx: Tx, sack: SackChunk)
    requires tx.peer.paths != [] && AcceptsSack(tx, sack)
    requires var below := MissingBelow(tx, sack);
             var after := ProcessSack(sack, below, tx.outs);
             var t3 := T3AfterSack(tx, sack, after, FastRetransmits(sack, below, tx.outs));
             var applied := tx.(outs := after, cum := sack.cumulativeTsnAck, queue := Trimmed(sack, tx.queue), t3 := t3);
             NoneStuck(applied) && NoneStuck(SchedulePending(applied))
    ensures NoneStuck(HandleSack(tx, sack))
  {
    hide ProcessSack, Trimmed, MissingBelow, FastRetransmits, T3AfterSack, AcceptsSack, Pack, AllKnown, AllCovered;
  }

  // ----- T3-rtx expiry -----

  ghost predicate SameAddresses(peer: Peer, peer': Peer) {
    |peer.paths| == |peer'.paths| && forall i :: 0 <= i < |peer.paths| ==> peer.paths[i].address == peer'.paths[i].address
  }

  lemma {:induction false} TimedOutAt(peer: Peer, outs: seq<Outstanding>, a: Addr, target: Addr, j: nat)
    requires peer.paths != [] && j < |outs|
    ensures TimedOut(peer, outs, a, target)[j] ==
            if InFlight(peer, outs[j], a) then outs[j].(pending := true, destination := target) else outs[j]
    decreases j
  {
    hide InFlight;
    if j > 0 {
      TimedOutAt(peer, outs[1..], a, target, j - 1);
    }
  }

  lemma {:induction false} WithoutKeeps(queue: seq<Bundle>, a: Addr, b: Bundle)
    ensures b in Without(queue, a) <==> b in queue && b.destination != a
  {
    if queue != [] {
      WithoutKeeps(queue[1..], a, b);
    }
  }

  /** What was in flight to the failed path is marked; the rest has another destination. */
  lemma TimedOutCovers(tx: Tx, a: Addr, peer: Peer, target: Addr, p: Outstanding)
    requires NoneStuck(tx) && TransmitsData(tx.state) && SameAddresses(tx.peer, peer) && Knows(peer, target)
    requires p in TimedOut(peer, tx.outs, a, target)
    ensures Knows(peer, p.destination) && Covered(tx.t3 - {a}, Without(tx.queue, a), p)
  {
    hide TimedOut, Without;
    var j :| 0 <= j < |TimedOut(peer, tx.outs, a, target)| && TimedOut(peer, tx.outs, a, target)[j] == p;
    TimedOutAt(peer, tx.outs, a, target, j);
    var o := tx.outs[j];
    assert o in tx.outs;
    var k :| 0 <= k < |tx.peer.paths| && tx.peer.paths[k].address == o.destination;
    assert peer.paths[k].address == o.destination;
    if !InFlight(peer, o, a) && InQueue(tx.queue, o.destination, o.chunk) {
      var b :| b in tx.queue && b.destination == o.destination && o.chunk in b.chunks;
      WithoutKeeps(tx.queue, a, b);
    }
  }

  lemma ExpiryKeeps(tx: Tx, a: Addr, peer: Peer)
    requires NoneStuck(tx) && SameAddresses(tx.peer, peer)
    ensures NoneStuck(ExpireT3(tx, a, peer))
  {
    var stopped := tx.(t3 := tx.t3 - {a});
    if !TransmitsData(tx.state) {
    } else if !Knows(tx.peer, a) || !HasUnacked(tx.peer, tx.outs, a) {
      forall o | o in tx.outs
        ensures Covered(stopped.t3, tx.queue, o)
      {
        var j :| 0 <= j < |tx.outs| && tx.outs[j] == o;
        assert Covered(tx.t3, tx.queue, o);
      }
    } else {
      var target := peer.paths[RetransmissionPath(peer, a)].address;
      hide RetransmissionPath, TimedOut, Without, Covered, Pack;
      forall p | p in TimedOut(peer, tx.outs, a, target)
        ensures Knows(peer, p.destination) && Covered(stopped.t3, Without(tx.queue, a), p)
      {
        TimedOutCovers(tx, a, peer, target, p);
      }
      forall b | b in Without(tx.queue, a)
        ensures Knows(peer, b.destination)
      {
        WithoutKeeps(tx.queue, a, b);
        SameAddressesKnow(tx.peer, peer, b.destination);
      }
      forall b | b in tx.newData
        ensures Knows(peer, b.destination)
      {
        SameAddressesKnow(tx.peer, peer, b.destination);
      }
      SchedulingKeeps(stopped.(peer := peer, outs := TimedOut(peer, tx.outs, a, target), queue := Without(tx.queue, a)));
    }
  }

  lemma SameAddressesKnow(peer: Peer, peer': Peer, a: Addr)
    requires SameAddresses(peer, peer') && Knows(peer, a)
    ensures Knows(peer', a)
  {
    var k :| 0 <= k < |peer.paths| && peer.paths[k].address == a;
    assert peer'.paths[k].address == a;
  }

  // ----- SHUTDOWN, and steps that do not touch what is outstanding -----

  lemma {:induction false} AboveKeeps(cum: Tsn, outs: seq<Outstanding>, o: Outstanding)
    ensures o in Above(cum, outs) <==> o in outs && !TsnLte(o.chunk.tsn, cum)
  {
    hide TsnLte;
    if outs != [] {
      AboveKeeps(cum, outs[1..], o);
    }
  }

  lemma ShutdownCovers(tx: Tx, cum: Tsn, o: Outstanding)
    requires NoneStuck(tx) && TransmitsData(tx.state) && o in Above(cum, tx.outs)
    ensures Knows(tx.peer, o.destination)
    ensures Covered(T3AfterShutdown(tx, cum), Trimmed(SackChunk(cum, 0, [], []), tx.queue), o)
  {
    hide TsnLte, Above, Trimmed, AckedOn, ValidPeer;
    var outs := Above(cum, tx.outs);
    AboveKeeps(cum, tx.outs, o);
    assert Covered(tx.t3, tx.queue, o);
    var j :| 0 <= j < |outs| && outs[j] == o;
    if !o.gapAcked && !o.pending {
      assert HasUnacked(tx.peer, outs, o.destination);
      if o.destination !in tx.t3 {
        TrimmedKeeps(SackChunk(cum, 0, [], []), tx.queue, o.destination, o.chunk);
      }
    }
  }

  lemma ShutdownKeeps(tx: Tx, cum: Tsn)
    requires NoneStuck(tx)
    ensures NoneStuck(HandleShutdown(tx, cum))
  {
    hide Above, Trimmed, AckedOn, ValidPeer, Covered;
    if TransmitsData(tx.state) && TsnLt(tx.cum, cum) {
      forall o | o in Above(cum, tx.outs)
        ensures Knows(tx.peer, o.destination)
        ensures Covered(T3AfterShutdown(tx, cum), Trimmed(SackChunk(cum, 0, [], []), tx.queue), o)
      {
        ShutdownCovers(tx, cum, o);
      }
      TrimmedBound(SackChunk(cum, 0, [], []), tx.queue, tx.peer);
    }
  }

  lemma CutKeeps(tx: Tx, limits: Limits)
    requires NoneStuck(tx) && ValidQueue(tx.outbound) && limits.pmdcs >= 20
    ensures NoneStuck(CutNewData(tx, limits))
  {
    hide CutFrom, AllCovered, DataPath, ValidQueue;
    assert tx.peer.paths[DataPath(tx.peer)].address == tx.peer.paths[DataPath(tx.peer)].address;
  }

  /** Failover, confirmation, a new primary: addresses stay, or more are learned. */
  ghost predicate Extends(peer: Peer, peer': Peer) {
    ValidPeer(peer') && forall a :: Knows(peer, a) ==> Knows(peer', a)
  }

  lemma PeerChangeKeeps(tx: Tx, peer: Peer)
    requires NoneStuck(tx) && Extends(tx.peer, peer)
    ensures NoneStuck(tx.(peer := peer))
  {
    hide Knows, AllCovered;
  }

  // ----- Every run -----

  /** A step of the sender, whatever causes it. */
  datatype SenderStep =
    | SendsRetransmission
    | SendsNewData
    | Refills
    | Cuts(limits: Limits)
    | Queues(m: Outbound)
    | GetsSack(sack: SackChunk)
    | GetsShutdown(cum: Tsn)
    | BeginsShutdown
    | T3Expires(a: Addr, after: Peer)
    | PeerChanges(peer: Peer)

  ghost predicate Enabled(tx: Tx, s: SenderStep) {
    && tx.peer.paths != [] && ValidQueue(tx.outbound)
    && match s
       case SendsRetransmission => tx.queue != []
       case SendsNewData => tx.newData != []
       case Refills => TransmitsData(tx.state)
       case Cuts(limits) => TransmitsData(tx.state) && limits.pmdcs >= 20 && tx.newData == []
       case Queues(m) => tx.state.Established? && m.offset == 0 && m.bytes != []
       case GetsSack(sack) => AcceptsSack(tx, sack)
       case GetsShutdown(cum) => TransmitsData(tx.state) ==> TsnLt(cum, tx.next)
       case BeginsShutdown => tx.state.Established?
       case T3Expires(a, after) => a in tx.t3 && SameAddresses(tx.peer, after)
       case PeerChanges(peer) => Extends(tx.peer, peer)
  }

  ghost function Next(tx: Tx, s: SenderStep): Tx
    requires Enabled(tx, s)
  {
    match s
    case SendsRetransmission => SendRetransmission(tx)
    case SendsNewData => SendNewData(tx)
    case Refills => SchedulePending(tx)
    case Cuts(limits) => CutNewData(tx, limits)
    case Queues(m) => QueueMessage(tx, m)
    case GetsSack(sack) => HandleSack(tx, sack)
    case GetsShutdown(cum) => HandleShutdown(tx, cum)
    case BeginsShutdown => BeginShutdown(tx)
    case T3Expires(a, after) => ExpireT3(tx, a, after)
    case PeerChanges(peer) => tx.(peer := peer)
  }

  /** Every step keeps every unacknowledged chunk covered. */
  lemma StepKeepsNoneStuck(tx: Tx, s: SenderStep)
    requires NoneStuck(tx) && Enabled(tx, s)
    ensures NoneStuck(Next(tx, s))
  {
    hide HandleSack, HandleShutdown, ExpireT3, CutNewData, SchedulePending, Sent, ValidQueue, AcceptsSack, Extends, SameAddresses;
    match s
    case SendsRetransmission => SendRetransmissionKeeps(tx);
    case SendsNewData => SendNewDataKeeps(tx);
    case Refills => SchedulingKeeps(tx);
    case Cuts(limits) => CutKeeps(tx, limits);
    case Queues(m) =>
    case GetsSack(sack) => SackKeeps(tx, sack);
    case GetsShutdown(cum) => ShutdownKeeps(tx, cum);
    case BeginsShutdown => NextShutdownStepKeeps(tx.(state := ShutdownPending));
    case T3Expires(a, after) => ExpiryKeeps(tx, a, after);
    case PeerChanges(peer) => PeerChangeKeeps(tx, peer);
  }

  /** A new association, with nothing sent. */
  predicate NewSender(tx: Tx) {
    && ValidPeer(tx.peer) && tx.outs == [] && tx.queue == [] && tx.newData == [] && tx.outbound == []
    && tx.cum == (tx.next - 1) % TSN_SPACE && tx.state.Established? && tx.t3 == {}
  }

  ghost predicate IsRun(steps: seq<SenderStep>, states: seq<Tx>) {
    && |states| == |steps| + 1
    && NewSender(states[0])
    && forall j :: 0 <= j < |steps| ==> Enabled(states[j], steps[j]) && states[j + 1] == Next(states[j], steps[j])
  }

  /** No stuck chunk, in every reachable state. */
  lemma {:induction false} NeverStuck(steps: seq<SenderStep>, states: seq<Tx>, j: nat)
    requires IsRun(steps, states) && j < |states|
    ensures NoneStuck(states[j])
    decreases j
  {
    if j > 0 {
      hide NoneStuck, Enabled, Next;
      NeverStuck(steps, states, j - 1);
      StepKeepsNoneStuck(states[j - 1], steps[j - 1]);
    }
  }
}
