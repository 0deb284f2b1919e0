/** Sender, network and receiver together. The network keeps every DATA chunk and every
    SACK ever sent and delivers any of them, any number of times, in any order, or never.
    Over every run: nothing that was acknowledged is lost, though the receiver may evict
    chunks it has gap-acked; the sender never finds the receiver in violation, nor the
    receiver the sender while the SSNs under way can be told apart; and the messages queued
    at one end come up at the other, whole, once each and in order. */
module Reliability {
  import opened Serial
  import opened ReceiveSpec
  import opened SackReport
  import opened MessageLog
  import opened Tracking
  import opened Cutting
  import opened Tiling
  import opened SendSpec
  import opened Transmission
  import opened NoStuckChunk
  import opened NoLoss
  import E = EndToEnd

  /** A SACK in the network, with the index its cumulative point stands for. */
  datatype Report = Report(cum: int, sack: SackChunk)

  datatype World = World(
    tx: Tx, base: int,
    log: Log,                // every chunk cut so far
    messages: seq<Outbound>, // every message queued so far
    rx: Rx, delivered: seq<Delivery>,
    aborted: bool,           // the receiver found a protocol violation
    reports: seq<Report>)

  /** How many chunks have been put on the wire. */
  function SentCount(w: World): int {
    w.base + 1 + |w.tx.outs|
  }

  function EndpointOf(w: World): E.Endpoint {
    E.Endpoint(w.rx, w.delivered, w.aborted)
  }

  datatype WorldStep =
    | SenderActs(s: SenderStep)
    | DataArrives(arrival: E.Arrival)
    | SackIsBuilt(window: nat, duplicates: seq<Tsn>)
    | SackArrives(k: nat)
    | ShutdownArrives(k: nat)

  /** The log after a sender's step. */
  ghost function LogAfter(w: World, s: SenderStep): Log
    requires Enabled(w.tx, s)
  {
    match s
    case Cuts(limits) => w.log + CutFrom(limits, w.tx.outbound, 0, true).fragments
    case _ => w.log
  }

  /** The SSN `sctp_send_data` gives a message. */
  ghost predicate SsnInTurn(messages: seq<Outbound>, m: Outbound) {
    !m.unordered ==> m.ssn == Queued(messages, m.stream, |messages|) % SSN_SPACE
  }

  /** One step. What arrives is within half the TSN space, as section 1.6 of RFC 9260 asks
      of serial numbers. `sctp_send_data` refuses a stream beyond what the ends agreed on. */
  ghost predicate Takes(setup: E.Setup, w: World, step: WorldStep, w': World) {
    && !w.aborted && w.tx.peer.paths != []
    && match step
       case SenderActs(s) =>
         && !s.GetsSack? && !s.GetsShutdown? && Enabled(w.tx, s)
         && (s.Cuts? ==> s.limits.pmdcs == w.tx.pmdcs)
         && (s.Queues? ==> SsnInTurn(w.messages, s.m) && s.m.stream < setup.inStreams)
         && |LogAfter(w, s)| - w.base < HALF_TSN_SPACE
         && w'.tx == Next(w.tx, s) && w'.log == LogAfter(w, s)
         && w'.messages == (if s.Queues? then w.messages + [s.m] else w.messages)
         && (w'.base, w'.rx, w'.delivered, w'.aborted, w'.reports) == (w.base, w.rx, w.delivered, false, w.reports)
       case DataArrives(arrival) =>
         && (forall j :: 0 <= j < |arrival.indices| ==> 0 <= arrival.indices[j] < SentCount(w))
         && E.Possible(setup, w.log, EndpointOf(w), arrival)
         && var e := E.Receive(setup, w.log, EndpointOf(w), arrival);
            w' == w.(rx := e.rx, delivered := e.delivered, aborted := e.aborted)
       case SackIsBuilt(window, duplicates) =>
         w' == w.(reports := w.reports + [Report(w.rx.cum, SackOf(setup.t0, w.rx, window, duplicates))])
       case SackArrives(k) =>
         && k < |w.reports| && |w.log| - w.reports[k].cum < HALF_TSN_SPACE
         && w' == (if AcceptsSack(w.tx, w.reports[k].sack)
                   then w.(tx := HandleSack(w.tx, w.reports[k].sack), base := w.reports[k].cum) else w)
       case ShutdownArrives(k) =>
         && k < |w.reports| && |w.log| - w.reports[k].cum < HALF_TSN_SPACE
         && w' == w.(tx := HandleShutdown(w.tx, w.reports[k].sack.cumulativeTsnAck),
                     base := if TransmitsData(w.tx.state) && w.reports[k].cum > w.base then w.reports[k].cum else w.base)
  }

  // ----- The receiver has only what was sent -----

  ghost predicate Below(rx: Rx, n: int) {
    rx.cum < n && InReach(rx.cum, rx.ooo) && forall k <- rx.ooo :: k < n
  }

  lemma {:induction false} ReadBufferBelow(rx: Rx, n: int)
    requires Below(rx, n)
    ensures ReadBuffer(rx).ok ==> Below(ReadBuffer(rx).rx, n)
    decreases |rx.ooo|
  {
    hide Reassemble;
    var i := rx.cum + 1;
    if i in rx.ooo {
      assert rx.ooo.Keys == (rx.ooo - {i}).Keys + {i};
      assert |rx.ooo.Keys| == |(rx.ooo - {i}).Keys| + 1;
      var o := Reassemble(rx.a, rx.ooo[i].data, !rx.ooo[i].assembled && rx.ooo[i].data.bytes != []);
      if o.ok {
        ReadBufferBelow(Rx(i, rx.ooo - {i}, o.a), n);
      }
    }
  }

  lemma ChunkBelow(rx: Rx, used: int, inStreams: nat, i: int, f: Fragment, n: int)
    requires Below(rx, n) && i < n
    ensures var s := HandleChunk(rx, used, inStreams, i, f);
            !s.verdict.Violation? ==> Below(s.rx, n)
  {
    hide ReadBuffer, FirstFragment, LastFragment, OrderMessage, Reassemble, BlockedOnCumulative, HighestEvictable, Gather;
    if !(i <= rx.cum || i in rx.ooo || i > rx.cum + UINT16_MAX) {
      var room := MadeRoom(rx, used, i);
      if room.verdict != Dropped && i == rx.cum + 1 {
        var o := Reassemble(room.rx.a, f, f.stream < inStreams);
        if o.ok {
          ReadBufferBelow(room.rx.(cum := i, a := o.a), n);
        }
      }
    }
  }

  lemma {:induction false} ChunksBelow(t0: Tsn, log: Log, rx: Rx, used: int, inStreams: nat, indices: seq<int>, n: int)
    requires Below(rx, n) && n <= |log| && forall j :: 0 <= j < |indices| ==> 0 <= indices[j] < n
    requires E.InHalfSpace(log, rx, used, inStreams, indices)
    ensures var r := HandleChunks(t0, rx, used, inStreams, E.Carrying(t0, log, indices));
            !r.violation ==> Below(r.rx, n)
    decreases |indices|
  {
    hide HandleChunk, Wire, Unwrap;
    if indices != [] {
      var i := indices[0];
      UnwrapOfWire(t0, rx.cum, i);
      ChunkBelow(rx, used, inStreams, i, log[i], n);
      var s := HandleChunk(rx, used, inStreams, i, log[i]);
      assert E.Carrying(t0, log, indices)[1..] == E.Carrying(t0, log, indices[1..]);
      if !s.verdict.Violation? {
        ChunksBelow(t0, log, s.rx, s.used, inStreams, indices[1..], n);
      }
    }
  }

  lemma ArrivalBelow(setup: E.Setup, w: World, arrival: E.Arrival, n: int)
    requires Below(w.rx, n) && n <= |w.log| && forall j :: 0 <= j < |arrival.indices| ==> 0 <= arrival.indices[j] < n
    requires E.Possible(setup, w.log, EndpointOf(w), arrival)
    ensures var e := E.Receive(setup, w.log, EndpointOf(w), arrival);
            !e.aborted ==> Below(e.rx, n) && w.rx.cum <= e.rx.cum
  {
    hide HandleChunks, HeldBytes, E.InHalfSpace, DeliverPartially;
    var start := w.rx.(a := w.rx.a.(up := []));
    ChunksBelow(setup.t0, w.log, start, arrival.buffered + HeldBytes(w.rx), setup.inStreams, arrival.indices, n);
    ChunksMoveUp(setup.t0, start, arrival.buffered + HeldBytes(w.rx), setup.inStreams, E.Carrying(setup.t0, w.log, arrival.indices));
  }

  lemma {:induction false} ChunksMoveUp(t0: Tsn, rx: Rx, used: int, inStreams: nat, chunks: seq<DataChunk>)
    requires InReach(rx.cum, rx.ooo)
    ensures var r := HandleChunks(t0, rx, used, inStreams, chunks);
            !r.violation ==> rx.cum <= r.rx.cum
    decreases |chunks|
  {
    hide HandleChunk, Unwrap;
    if chunks != [] {
      var s := HandleChunk(rx, used, inStreams, Unwrap(t0, rx.cum, chunks[0].tsn), chunks[0].data);
      if !s.verdict.Violation? {
        ChunksMoveUp(t0, s.rx, s.used, inStreams, chunks[1..]);
      }
    }
  }

  // ----- The invariant -----

  /** A SACK in the network tells of nothing that was not sent. */
  ghost predicate Honest(t0: Tsn, w: World, r: Report) {
    && -1 <= r.cum <= w.rx.cum
    && r.sack.cumulativeTsnAck == Wire(t0, r.cum)
    && forall b :: 0 <= b < |r.sack.gaps| ==> r.cum + r.sack.gaps[b].end < SentCount(w)
  }

  ghost predicate Reports(t0: Tsn, w: World) {
    forall r <- w.reports :: Honest(t0, w, r)
  }

  ghost predicate TiledSomehow(pmdcs: nat, messages: seq<Outbound>, log: Log, outbound: seq<Outbound>)
    requires pmdcs >= 20
  {
    exists starts :: Tiled(messages, log, outbound, starts) && Unsplit(pmdcs, messages, log, starts)
  }

  ghost predicate WorldInv(setup: E.Setup, w: World) {
    && w.tx.pmdcs >= 20
    && Accounted(setup.t0, w.log, w.tx, w.base) && w.base < |w.log|
    && Quiet(w.log, w.tx, w.base)
    && NoneStuck(w.tx)
    && TiledSomehow(w.tx.pmdcs, w.messages, w.log, w.tx.outbound)
    && w.base <= w.rx.cum && Below(w.rx, SentCount(w))
    && Reports(setup.t0, w)
    && (w.tx.newData != [] ==> Unsent(w.tx) != [])
    && !w.tx.state.CookieWait? && !w.tx.state.CookieEchoed?
  }

  /** Each TSN assigned is at or below the receiver's cumulative point, or the sender still
      holds its chunk, outstanding or cut and unsent. */
  ghost predicate NothingLost(t0: Tsn, w: World) {
    forall i :: 0 <= i < |w.log| ==>
      i <= w.rx.cum || DataChunk(Wire(t0, i), w.log[i]) in Chunks(w.tx.outs) + Unsent(w.tx)
  }

  lemma InvMeansNothingLost(setup: E.Setup, w: World)
    requires WorldInv(setup, w)
    ensures NothingLost(setup.t0, w)
  {
    hide Wire, Quiet, NoneStuck, TiledSomehow, Below, Reports, QueueHeld;
    forall i | 0 <= i < |w.log| && i > w.rx.cum
      ensures DataChunk(Wire(setup.t0, i), w.log[i]) in Chunks(w.tx.outs) + Unsent(w.tx)
    {
      var held := Chunks(w.tx.outs) + Unsent(w.tx);
      assert held[i - w.base - 1] == DataChunk(Wire(setup.t0, i), w.log[i]);
    }
  }

  /** The sender never finds a SACK of this network in violation. */
  lemma NoViolation(setup: E.Setup, w: World, r: Report)
    requires WorldInv(setup, w) && r in w.reports && |w.log| - r.cum < HALF_TSN_SPACE
    ensures !AcksUnsent(r.sack, w.tx.next)
    ensures Unwrap(setup.t0, w.base, r.sack.cumulativeTsnAck) <= w.base + |w.tx.outs|
    ensures TsnLt(w.tx.cum, r.sack.cumulativeTsnAck) <==> r.cum > w.base
    ensures AcceptsSack(w.tx, r.sack) || TsnLt(w.tx.cum, r.sack.cumulativeTsnAck) ==> Unwrap(setup.t0, w.base, r.sack.cumulativeTsnAck) == r.cum
    ensures AcceptsSack(w.tx, r.sack) ==> r.cum >= w.base
  {
    hide NoneStuck, TiledSomehow, Quiet, Holds, QueueHeld;
    assert Honest(setup.t0, w, r);
    assert SentCount(w) <= |w.log|;
    TsnLtIsIndexOrder(setup.t0, r.cum, |w.log|);
    TsnLtIsIndexOrder(setup.t0, r.cum, w.base);
    TsnLtIsIndexOrder(setup.t0, w.base, r.cum);
    UnwrapOfWire(setup.t0, w.base, r.cum);
    forall b | 0 <= b < |r.sack.gaps|
      ensures TsnLt((r.sack.cumulativeTsnAck + r.sack.gaps[b].end) % TSN_SPACE, w.tx.next)
    {
      WirePlus(setup.t0, r.cum, r.sack.gaps[b].end);
      TsnLtIsIndexOrder(setup.t0, r.cum + r.sack.gaps[b].end, |w.log|);
    }
    hide Wire, Unwrap;
  }

  // ----- Every step -----

  /** With more sent and more received, what was true of the network stays true. */
  lemma NetworkKeeps(setup: E.Setup, w: World, w': World)
    requires Reports(setup.t0, w) && w'.reports == w.reports
    requires SentCount(w) <= SentCount(w') && w.rx.cum <= w'.rx.cum
    ensures Reports(setup.t0, w')
  {
    hide Wire, SentCount;
    forall r <- w'.reports
      ensures Honest(setup.t0, w', r)
    {
      assert Honest(setup.t0, w, r);
    }
  }

  lemma TilingAfter(w: World, s: SenderStep)
    requires w.tx.pmdcs >= 20 && Enabled(w.tx, s) && TiledSomehow(w.tx.pmdcs, w.messages, w.log, w.tx.outbound)
    requires s.Cuts? ==> s.limits.pmdcs == w.tx.pmdcs
    requires s.Queues? ==> SsnInTurn(w.messages, s.m)
    ensures s.Cuts? ==> TiledSomehow(w.tx.pmdcs, w.messages, LogAfter(w, s), CutNewData(w.tx, s.limits).outbound)
    ensures s.Queues? ==> TiledSomehow(w.tx.pmdcs, w.messages + [s.m], w.log, w.tx.outbound + [s.m])
  {
    hide Tiled, CutFrom, Queued, ValidQueue;
    var starts :| Tiled(w.messages, w.log, w.tx.outbound, starts) && Unsplit(w.tx.pmdcs, w.messages, w.log, starts);
    if s.Cuts? {
      var r := CutFrom(s.limits, w.tx.outbound, 0, true);
      var starts' := CutKeepsTiled(s.limits, w.messages, w.log, w.tx.outbound, starts, 0, true);
      if r.fragments == [] {
        NothingCut(s.limits, w.tx.outbound);
      }
    } else if s.Queues? {
      QueueKeepsTiled(w.messages, w.log, w.tx.outbound, starts, s.m);
      StartsWithinQueue(w.messages, w.log, w.tx.outbound, starts);
      assert Unsplit(w.tx.pmdcs, w.messages + [s.m], w.log, starts);
    }
  }

  lemma NothingCut(limits: Limits, outbound: seq<Outbound>)
    requires limits.pmdcs >= 20 && ValidQueue(outbound) && CutFrom(limits, outbound, 0, true).fragments == []
    ensures CutFrom(limits, outbound, 0, true).outbound == outbound
  {
  }

  lemma StartsWithinQueue(messages: seq<Outbound>, log: Log, outbound: seq<Outbound>, starts: seq<int>)
    requires Tiled(messages, log, outbound, starts)
    ensures |starts| <= |messages|
  {
    hide WellCut, WellQueued, Ordinal, Queued, Whole, Message;
  }

  /** The sender's bookkeeping after one of its own steps. */
  lemma SenderAccounted(setup: E.Setup, w: World, s: SenderStep)
    requires WorldInv(setup, w) && Enabled(w.tx, s) && !s.GetsSack? && !s.GetsShutdown?
    requires |LogAfter(w, s)| - w.base < HALF_TSN_SPACE
    ensures var tx' := Next(w.tx, s);
            && Accounted(setup.t0, LogAfter(w, s), tx', w.base) && Quiet(LogAfter(w, s), tx', w.base)
            && (tx'.newData != [] ==> Unsent(tx') != [])
            && tx'.pmdcs == w.tx.pmdcs && |tx'.outs| >= |w.tx.outs|
            && !tx'.state.CookieWait? && !tx'.state.CookieEchoed?
            && (!s.Cuts? && !s.Queues? ==> tx'.outbound == w.tx.outbound)
            && (ShuttingDown(w.tx.state) ==> ShuttingDown(tx'.state))
  {
    hide NoneStuck, TiledSomehow, Below, Reports, Holds, QueueHeld, Wire, ValidQueue, SendRetransmission, SendNewData, SchedulePending, CutNewData, ExpireT3, CutFrom, NextShutdownStep, Extends;
    match s
    case SendsRetransmission => SentAgainAccounted(setup.t0, w.log, w.tx, w.base);
    case SendsNewData => SentNewAccounted(setup.t0, w.log, w.tx, w.base);
    case Refills => SchedulingAccounted(setup.t0, w.log, w.tx, w.base);
    case Cuts(limits) => CutAccounted(setup.t0, w.log, w.tx, w.base, limits);
    case Queues(m) =>
    case BeginsShutdown =>
      NextStepAccounted(setup.t0, w.log, w.tx.(state := ShutdownPending), w.base);
      NextStepSteady(w.tx.(state := ShutdownPending));
    case T3Expires(a, after) => ExpiryAccounted(setup.t0, w.log, w.tx, w.base, a, after);
    case PeerChanges(peer) =>
  }

  lemma NextStepSteady(tx: Tx)
    ensures var tx' := NextShutdownStep(tx);
            && tx'.newData == tx.newData && tx'.pmdcs == tx.pmdcs && tx'.outs == tx.outs && tx'.outbound == tx.outbound
            && (tx'.state == tx.state || ShuttingDown(tx'.state))
  {
  }

  lemma SenderStepKeeps(setup: E.Setup, w: World, s: SenderStep, w': World)
    requires WorldInv(setup, w) && Takes(setup, w, SenderActs(s), w')
    ensures WorldInv(setup, w')
    ensures ShuttingDown(w.tx.state) ==> ShuttingDown(w'.tx.state)
  {
    SenderAccounted(setup, w, s);
    hide Accounted, Quiet, NoneStuck, Honest, TiledSomehow, LogAfter, CutFrom, SsnInTurn, InReach;
    StepKeepsNoneStuck(w.tx, s);
    TilingAfter(w, s);
    if s.Cuts? {
      CutOutbound(w, s);
    } else if !s.Queues? {
      LogUnchanged(w, s);
    } else {
      LogUnchanged(w, s);
    }
    hide Next, Enabled;
    NetworkKeeps(setup, w, w');
    LogBounds(setup, w, s);
  }

  lemma CutOutbound(w: World, s: SenderStep)
    requires Enabled(w.tx, s) && s.Cuts?
    ensures Next(w.tx, s) == CutNewData(w.tx, s.limits)
  {
  }

  lemma LogUnchanged(w: World, s: SenderStep)
    requires Enabled(w.tx, s) && !s.Cuts?
    ensures LogAfter(w, s) == w.log
    ensures s.Queues? ==> Next(w.tx, s).outbound == w.tx.outbound + [s.m]
  {
  }

  lemma LogBounds(setup: E.Setup, w: World, s: SenderStep)
    requires WorldInv(setup, w) && Enabled(w.tx, s)
    ensures |LogAfter(w, s)| >= |w.log|
  {
    hide CutFrom, WorldInv;
  }

  // ----- Steps across the network -----

  lemma ArrivalKeeps(setup: E.Setup, w: World, arrival: E.Arrival, w': World)
    requires WorldInv(setup, w) && Takes(setup, w, DataArrives(arrival), w')
    ensures WorldInv(setup, w')
  {
    hide Accounted, Quiet, NoneStuck, Honest, TiledSomehow, E.Possible, E.Receive, InReach;
    SentWithinLog(setup, w);
    ArrivalBelow(setup, w, arrival, SentCount(w));
    GivingUpKeeps(setup, w, arrival);
    NetworkKeeps(setup, w, w');
  }

  /** A receiver that finds a violation keeps what it had. */
  lemma GivingUpKeeps(setup: E.Setup, w: World, arrival: E.Arrival)
    requires E.Possible(setup, w.log, EndpointOf(w), arrival)
    ensures var e := E.Receive(setup, w.log, EndpointOf(w), arrival);
            e.aborted ==> e.rx == w.rx && e.delivered == w.delivered
  {
    hide HandlePacket;
  }

  lemma SentWithinLog(setup: E.Setup, w: World)
    requires WorldInv(setup, w)
    ensures SentCount(w) <= |w.log| && -1 <= w.base
  {
    hide Quiet, NoneStuck, Honest, TiledSomehow, Below, Holds, QueueHeld, Wire;
  }

  /** A SACK the receiver builds tells only of what it received. */
  lemma BuiltIsHonest(setup: E.Setup, w: World, window: nat, duplicates: seq<Tsn>)
    requires WorldInv(setup, w)
    ensures Honest(setup.t0, w, Report(w.rx.cum, SackOf(setup.t0, w.rx, window, duplicates)))
  {
    hide Accounted, Quiet, NoneStuck, Reports, TiledSomehow, Wire, Gaps;
    SentWithinLog(setup, w);
    var gaps := Gaps(w.rx.cum, w.rx.ooo, UINT16_MAX);
    forall b | 0 <= b < |gaps|
      ensures w.rx.cum + gaps[b].end < SentCount(w)
    {
      GapsReport(w.rx.cum, w.rx.ooo, UINT16_MAX, gaps[b].end);
      assert gaps[b].start <= gaps[b].end <= gaps[b].end;
      assert InSomeBlock(gaps, gaps[b].end);
    }
  }

  lemma BuildKeeps(setup: E.Setup, w: World, window: nat, duplicates: seq<Tsn>, w': World)
    requires WorldInv(setup, w) && Takes(setup, w, SackIsBuilt(window, duplicates), w')
    ensures WorldInv(setup, w')
  {
    BuiltIsHonest(setup, w, window, duplicates);
    hide Accounted, Quiet, NoneStuck, TiledSomehow, Wire, SackOf, InReach;
    forall r <- w'.reports
      ensures Honest(setup.t0, w', r)
    {
      assert r in w.reports ==> Honest(setup.t0, w, r);
    }
  }

  lemma SackArrivalKeeps(setup: E.Setup, w: World, k: nat, w': World)
    requires WorldInv(setup, w) && Takes(setup, w, SackArrives(k), w')
    ensures WorldInv(setup, w')
    ensures ShuttingDown(w.tx.state) ==> ShuttingDown(w'.tx.state)
    ensures !AcksUnsent(w.reports[k].sack, w.tx.next)
  {
    hide Accounted, Quiet, NoneStuck, TiledSomehow, AcceptsSack, HandleSack, Wire, Unwrap, TsnLt, AcksUnsent, InReach;
    var r := w.reports[k];
    assert r in w.reports;
    NoViolation(setup, w, r);
    SentWithinLog(setup, w);
    if AcceptsSack(w.tx, r.sack) {
      SackAccounted(setup.t0, w.log, w.tx, w.base, r.sack);
      SackKeeps(w.tx, r.sack);
      SackSteady(w.tx, r.sack);
      SentStays(setup, w, w');
      assert Honest(setup.t0, w, r);
      NetworkKeeps(setup, w, w');
    }
  }

  lemma SackSteady(tx: Tx, sack: SackChunk)
    requires tx.peer.paths != [] && AcceptsSack(tx, sack)
    ensures var tx' := HandleSack(tx, sack);
            && tx'.newData == tx.newData && tx'.pmdcs == tx.pmdcs && tx'.outbound == tx.outbound
            && !tx'.state.CookieWait? && !tx'.state.CookieEchoed?
  {
    hide ProcessSack, Trimmed, T3AfterSack, MissingBelow, FastRetransmits, Pack, FirstWanted;
  }

  /** Acknowledgement does not change how much was sent. */
  lemma SentStays(setup: E.Setup, w: World, w': World)
    requires Accounted(setup.t0, w.log, w.tx, w.base) && Accounted(setup.t0, w'.log, w'.tx, w'.base)
    requires w'.log == w.log && w'.tx.newData == w.tx.newData
    ensures SentCount(w') == SentCount(w)
  {
    hide Wire, Holds, QueueHeld;
  }

  lemma ShutdownArrivalKeeps(setup: E.Setup, w: World, k: nat, w': World)
    requires WorldInv(setup, w) && Takes(setup, w, ShutdownArrives(k), w')
    ensures WorldInv(setup, w')
    ensures ShuttingDown(w'.tx.state)
  {
    hide Accounted, Quiet, NoneStuck, TiledSomehow, HandleShutdown, Wire, Unwrap, TsnLt, InReach;
    var r := w.reports[k];
    assert r in w.reports;
    NoViolation(setup, w, r);
    SentWithinLog(setup, w);
    NextAbove(setup, w, r);
    ShutdownAccounted(setup.t0, w.log, w.tx, w.base, r.sack.cumulativeTsnAck);
    ShutdownKeeps(w.tx, r.sack.cumulativeTsnAck);
    ShutdownSteady(w.tx, r.sack.cumulativeTsnAck);
    SentStays(setup, w, w');
    assert Honest(setup.t0, w, r);
    NetworkKeeps(setup, w, w');
  }

  lemma NextAbove(setup: E.Setup, w: World, r: Report)
    requires !AcksUnsent(r.sack, w.tx.next)
    ensures TsnLt(r.sack.cumulativeTsnAck, w.tx.next)
  {
  }

  lemma ShutdownSteady(tx: Tx, cum: Tsn)
    requires tx.peer.paths != [] && !tx.state.CookieWait? && !tx.state.CookieEchoed?
    ensures var tx' := HandleShutdown(tx, cum);
            && tx'.newData == tx.newData && tx'.pmdcs == tx.pmdcs && tx'.outbound == tx.outbound
            && ShuttingDown(tx'.state)
  {
    hide Above, Trimmed, T3AfterShutdown;
  }

  // ----- Runs -----

  ghost predicate NewWorld(setup: E.Setup, w: World) {
    && NewSender(w.tx) && w.tx.pmdcs >= 20 && w.tx.next == setup.t0
    && w.base == -1 && w.log == [] && w.messages == [] && w.reports == []
    && EndpointOf(w) == E.NEW_ENDPOINT
  }

  ghost predicate IsWorldRun(setup: E.Setup, steps: seq<WorldStep>, worlds: seq<World>) {
    && |worlds| == |steps| + 1
    && NewWorld(setup, worlds[0])
    && forall j :: 0 <= j < |steps| ==> Takes(setup, worlds[j], steps[j], worlds[j + 1])
  }

  lemma NewWorldInv(setup: E.Setup, w: World)
    requires NewWorld(setup, w)
    ensures WorldInv(setup, w)
  {
    NothingTiled();
    assert Tiled(w.messages, w.log, w.tx.outbound, []) && Unsplit(w.tx.pmdcs, w.messages, w.log, []);
  }

  lemma LogGrows(setup: E.Setup, w: World, step: WorldStep, w': World)
    requires Takes(setup, w, step, w')
    ensures w.log <= w'.log
  {
    hide CutFrom, Enabled, Next, E.Possible, E.Receive, HandleSack, HandleShutdown, SackOf;
  }

  /** A receiver run over a log is the same over a longer one. */
  lemma {:induction false} SameHalfSpace(log: Log, longer: Log, rx: Rx, used: int, inStreams: nat, indices: seq<int>)
    requires log <= longer && E.InHalfSpace(log, rx, used, inStreams, indices)
    ensures E.InHalfSpace(longer, rx, used, inStreams, indices)
    decreases |indices|
  {
    hide HandleChunk;
    if indices != [] {
      var s := HandleChunk(rx, used, inStreams, indices[0], log[indices[0]]);
      assert longer[indices[0]] == log[indices[0]];
      SameHalfSpace(log, longer, s.rx, s.used, inStreams, indices[1..]);
    }
  }

  lemma SameArrival(setup: E.Setup, log: Log, longer: Log, e: E.Endpoint, arrival: E.Arrival)
    requires log <= longer && E.Possible(setup, log, e, arrival)
    ensures E.Possible(setup, longer, e, arrival) && E.Receive(setup, longer, e, arrival) == E.Receive(setup, log, e, arrival)
  {
    hide HandlePacket, HeldBytes, E.InHalfSpace, Wire;
    SameHalfSpace(log, longer, e.rx.(a := e.rx.a.(up := [])), arrival.buffered + HeldBytes(e.rx), setup.inStreams, arrival.indices);
    assert E.Carrying(setup.t0, longer, arrival.indices) == E.Carrying(setup.t0, log, arrival.indices);
  }

  lemma StepAt(setup: E.Setup, steps: seq<WorldStep>, worlds: seq<World>, j: nat)
    requires IsWorldRun(setup, steps, worlds) && j + 1 < |worlds|
    ensures j < |steps| && Takes(setup, worlds[j], steps[j], worlds[j + 1])
  {
    hide Takes, NewWorld;
  }

  lemma RunBegins(setup: E.Setup, steps: seq<WorldStep>, worlds: seq<World>, log: Log)
    requires IsWorldRun(setup, steps, worlds)
    ensures NewWorld(setup, worlds[0])
    ensures E.IsRun(setup, log, [], [E.NEW_ENDPOINT]) && EndpointOf(worlds[0]) == E.NEW_ENDPOINT
  {
    hide Takes;
  }

  /** The receiver's part of a run is a run of `EndToEnd`. */
  lemma {:induction false} Project(setup: E.Setup, steps: seq<WorldStep>, worlds: seq<World>, j: nat, log: Log)
    returns (arrivals: seq<E.Arrival>, states: seq<E.Endpoint>)
    requires IsWorldRun(setup, steps, worlds) && j < |worlds| && worlds[j].log <= log
    ensures E.IsRun(setup, log, arrivals, states)
    ensures states[|states| - 1] == EndpointOf(worlds[j])
    decreases j
  {
    hide IsWorldRun, Takes, E.IsRun, E.Possible, E.Receive;
    if j == 0 {
      RunBegins(setup, steps, worlds, log);
      return [], [E.NEW_ENDPOINT];
    }
    StepAt(setup, steps, worlds, j - 1);
    var w, step, w' := worlds[j - 1], steps[j - 1], worlds[j];
    LogGrows(setup, w, step, w');
    arrivals, states := Project(setup, steps, worlds, j - 1, log);
    if step.DataArrives? {
      ArrivalOf(setup, w, step.arrival, w');
      SameArrival(setup, w.log, log, EndpointOf(w), step.arrival);
      RunExtends(setup, log, arrivals, states, step.arrival);
      arrivals, states := arrivals + [step.arrival], states + [EndpointOf(w')];
    } else {
      EndpointUnchanged(setup, w, step, w');
    }
  }

  lemma ArrivalOf(setup: E.Setup, w: World, arrival: E.Arrival, w': World)
    requires Takes(setup, w, DataArrives(arrival), w')
    ensures E.Possible(setup, w.log, EndpointOf(w), arrival) && EndpointOf(w') == E.Receive(setup, w.log, EndpointOf(w), arrival)
  {
    hide E.Possible, E.Receive;
    ReceiveShape(setup, w.log, EndpointOf(w), arrival);
  }

  lemma ReceiveShape(setup: E.Setup, log: Log, e: E.Endpoint, arrival: E.Arrival)
    requires E.Possible(setup, log, e, arrival)
    ensures var f := E.Receive(setup, log, e, arrival); f == E.Endpoint(f.rx, f.delivered, f.aborted)
  {
  }

  lemma RunExtends(setup: E.Setup, log: Log, arrivals: seq<E.Arrival>, states: seq<E.Endpoint>, arrival: E.Arrival)
    requires E.IsRun(setup, log, arrivals, states) && E.Possible(setup, log, states[|states| - 1], arrival)
    ensures E.IsRun(setup, log, arrivals + [arrival], states + [E.Receive(setup, log, states[|states| - 1], arrival)])
  {
    hide E.Possible, E.Receive;
  }

  lemma EndpointUnchanged(setup: E.Setup, w: World, step: WorldStep, w': World)
    requires Takes(setup, w, step, w') && !step.DataArrives?
    ensures EndpointOf(w') == EndpointOf(w)
  {
    hide CutFrom, Enabled, Next, HandleSack, HandleShutdown, SackOf;
  }

  lemma InvIsWellCut(setup: E.Setup, w: World)
    requires WorldInv(setup, w)
    ensures WellCut(w.log)
  {
    hide Accounted, Quiet, NoneStuck, Reports, Below, WellCut, Tiling.Placed, Stands, Remains, WellQueued;
    var starts :| Tiled(w.messages, w.log, w.tx.outbound, starts) && Unsplit(w.tx.pmdcs, w.messages, w.log, starts);
  }

  // ----- Streams -----

  lemma {:induction false} QueuedStreams(setup: E.Setup, steps: seq<WorldStep>, worlds: seq<World>, j: nat)
    requires IsWorldRun(setup, steps, worlds) && j < |worlds|
    ensures forall m <- worlds[j].messages :: m.stream < setup.inStreams
    decreases j
  {
    hide IsWorldRun, Takes, E.IsRun;
    if j == 0 {
      RunBegins(setup, steps, worlds, []);
    } else {
      QueuedStreams(setup, steps, worlds, j - 1);
      StepAt(setup, steps, worlds, j - 1);
      MessagesGrow(setup, worlds[j - 1], steps[j - 1], worlds[j]);
    }
  }

  lemma MessagesGrow(setup: E.Setup, w: World, step: WorldStep, w': World)
    requires Takes(setup, w, step, w')
    ensures forall m <- w'.messages :: m in w.messages || m.stream < setup.inStreams
  {
    hide CutFrom, Enabled, Next, E.Possible, E.Receive, HandleSack, HandleShutdown, SackOf, SsnInTurn;
  }

  /** What was queued on valid streams is cut on valid streams. */
  lemma CutStreams(messages: seq<Outbound>, log: Log, outbound: seq<Outbound>, starts: seq<int>, inStreams: nat)
    requires Tiled(messages, log, outbound, starts) && forall m <- messages :: m.stream < inStreams
    ensures E.ValidStreams(log, inStreams)
  {
    hide WellQueued, Stands, Ordinal, Queued, Message, Whole, First, WellCut;
    forall i | 0 <= i < |log|
      ensures log[i].stream < inStreams
    {
      FirstOfMessage(log, i);
      var f := First(log, i);
      assert Start(log, f);
      var m :| 0 <= m < |starts| && starts[m] == f;
      assert Heads(log, starts[m], messages[m]);
      assert messages[m] in messages;
    }
  }

  lemma RunStreams(setup: E.Setup, steps: seq<WorldStep>, worlds: seq<World>, j: nat)
    requires IsWorldRun(setup, steps, worlds) && j < |worlds| && WorldInv(setup, worlds[j])
    ensures E.ValidStreams(worlds[j].log, setup.inStreams)
  {
    hide IsWorldRun, Accounted, Quiet, NoneStuck, Reports, Below, Tiled, Unsplit, E.ValidStreams;
    var w := worlds[j];
    QueuedStreams(setup, steps, worlds, j);
    var starts :| Tiled(w.messages, w.log, w.tx.outbound, starts) && Unsplit(w.tx.pmdcs, w.messages, w.log, starts);
    CutStreams(w.messages, w.log, w.tx.outbound, starts, setup.inStreams);
  }

  // ----- When the receiver finds no violation -----

  /** At most 2^15 ordered messages of a stream have been sent and are not acknowledged
      whole: the SSNs under way can be told apart. */
  ghost predicate SsnsApart(w: World) {
    forall id: U16 :: Ordinal(w.log, id, SentCount(w)) - Ordinal(w.log, id, First(w.log, w.base + 1)) <= HALF_SSN_SPACE
  }

  lemma FirstMonotone(log: Log, i: int, j: int)
    requires WellCut(log) && 0 <= i <= j < |log|
    ensures First(log, i) <= First(log, j)
  {
    FirstOfMessage(log, i);
    FirstOfMessage(log, j);
  }

  lemma NearWhenApart(log: Log, base: int, sent: int, cum: int, i: int)
    requires WellCut(log) && -1 <= base <= cum && 0 <= i < sent <= |log|
    requires forall id: U16 :: Ordinal(log, id, sent) - Ordinal(log, id, First(log, base + 1)) <= HALF_SSN_SPACE
    ensures Near(log, cum, i)
  {
    hide WellCut, First, Ordinal;
    if cum < i && !log[i].unordered {
      var id := log[i].stream;
      FirstOfMessage(log, i);
      FirstMonotone(log, base + 1, cum + 1);
      OrdinalMonotone(log, id, First(log, base + 1), First(log, cum + 1));
      assert OrderedStart(log, id, First(log, i));
      OrdinalMonotone(log, id, First(log, i), sent);
      assert Ordinal(log, id, sent) - Ordinal(log, id, First(log, base + 1)) <= HALF_SSN_SPACE;
    }
  }

  lemma {:induction false} AllNearWhenApart(log: Log, base: int, sent: int, rx: Rx, used: int, inStreams: nat, indices: seq<int>)
    requires WellCut(log) && -1 <= base <= rx.cum && sent <= |log|
    requires forall id: U16 :: Ordinal(log, id, sent) - Ordinal(log, id, First(log, base + 1)) <= HALF_SSN_SPACE
    requires forall j :: 0 <= j < |indices| ==> 0 <= indices[j] < sent
    requires E.InHalfSpace(log, rx, used, inStreams, indices)
    ensures E.AllNear(log, rx, used, inStreams, indices)
    decreases |indices|
  {
    hide WellCut, First, Ordinal, HandleChunk, Near;
    if indices != [] {
      NearWhenApart(log, base, sent, rx.cum, indices[0]);
      var s := HandleChunk(rx, used, inStreams, indices[0], log[indices[0]]);
      if !s.verdict.Violation? {
        AllNearWhenApart(log, base, sent, s.rx, s.used, inStreams, indices[1..]);
      }
    }
  }

  /** While the SSNs under way can be told apart, no receiver aborts. */
  lemma NeverAborts(setup: E.Setup, steps: seq<WorldStep>, worlds: seq<World>, j: nat)
    requires IsWorldRun(setup, steps, worlds) && j + 1 < |worlds| && SsnsApart(worlds[j])
    ensures !worlds[j + 1].aborted
  {
    hide WorldInv, SsnsApart, E.ValidStreams, WellCut, E.EndpointInv, E.Possible, E.Receive, E.Legible, IsWorldRun, Takes;
    StepAt(setup, steps, worlds, j);
    var w, step, w' := worlds[j], steps[j], worlds[j + 1];
    NotAborted(setup, w, step, w');
    if step.DataArrives? {
      EveryRunKeeps(setup, steps, worlds, j);
      RunStreams(setup, steps, worlds, j);
      InvIsWellCut(setup, w);
      var arrivals, states := Project(setup, steps, worlds, j, w.log);
      var order := E.RunKeeps(setup, w.log, arrivals, states, |states| - 1);
      ArrivalOf(setup, w, step.arrival, w');
      ArrivalIsLegible(setup, w, step.arrival, w');
      order := E.PacketKeeps(setup, w.log, EndpointOf(w), order, step.arrival);
    }
  }

  lemma NotAborted(setup: E.Setup, w: World, step: WorldStep, w': World)
    requires Takes(setup, w, step, w')
    ensures !w.aborted && (!step.DataArrives? ==> !w'.aborted)
  {
    hide CutFrom, Enabled, Next, HandleSack, HandleShutdown, SackOf, E.Possible, E.Receive;
  }

  lemma ArrivalIsLegible(setup: E.Setup, w: World, arrival: E.Arrival, w': World)
    requires WorldInv(setup, w) && SsnsApart(w) && WellCut(w.log) && Takes(setup, w, DataArrives(arrival), w')
    ensures E.Possible(setup, w.log, EndpointOf(w), arrival) && E.Legible(setup, w.log, EndpointOf(w), arrival)
  {
    hide Accounted, Quiet, NoneStuck, TiledSomehow, Reports, WellCut, HeldBytes, E.InHalfSpace, E.AllNear, E.Receive, First, Ordinal;
    SentWithinLog(setup, w);
    var start := w.rx.(a := w.rx.a.(up := []));
    AllNearWhenApart(w.log, w.base, SentCount(w), start, arrival.buffered + HeldBytes(w.rx), setup.inStreams, arrival.indices);
  }

  lemma WorldStepKeeps(setup: E.Setup, w: World, step: WorldStep, w': World)
    requires WorldInv(setup, w) && Takes(setup, w, step, w')
    ensures WorldInv(setup, w')
  {
    hide WorldInv, Takes;
    match step
    case SenderActs(s) => SenderStepKeeps(setup, w, s, w');
    case DataArrives(arrival) => ArrivalKeeps(setup, w, arrival, w');
    case SackIsBuilt(window, duplicates) => BuildKeeps(setup, w, window, duplicates, w');
    case SackArrives(k) => SackArrivalKeeps(setup, w, k, w');
    case ShutdownArrives(k) => ShutdownArrivalKeeps(setup, w, k, w');
  }

  /** The invariant, in every reachable state of sender, network and receiver. */
  lemma {:induction false} EveryRunKeeps(setup: E.Setup, steps: seq<WorldStep>, worlds: seq<World>, j: nat)
    requires IsWorldRun(setup, steps, worlds) && j < |worlds|
    ensures WorldInv(setup, worlds[j])
    decreases j
  {
    hide WorldInv, Takes, IsWorldRun, E.IsRun;
    if j == 0 {
      RunBegins(setup, steps, worlds, []);
      NewWorldInv(setup, worlds[0]);
    } else {
      StepAt(setup, steps, worlds, j - 1);
      EveryRunKeeps(setup, steps, worlds, j - 1);
      WorldStepKeeps(setup, worlds[j - 1], steps[j - 1], worlds[j]);
    }
  }

  /** No acknowledged loss and no stuck chunk, in every reachable state. */
  lemma NoAcknowledgedLoss(setup: E.Setup, steps: seq<WorldStep>, worlds: seq<World>, j: nat)
    requires IsWorldRun(setup, steps, worlds) && j < |worlds|
    ensures NothingLost(setup.t0, worlds[j]) && NoneStuck(worlds[j].tx)
  {
    hide IsWorldRun;
    EveryRunKeeps(setup, steps, worlds, j);
    InvMeansNothingLost(setup, worlds[j]);
  }

  /** Graceful shutdown drops nothing: once SHUTDOWN or SHUTDOWN ACK is sent, every message
      queued was cut, sent and acknowledged, and the receiver has all of it. */
  lemma ShutdownDropsNothing(setup: E.Setup, steps: seq<WorldStep>, worlds: seq<World>, j: nat)
    requires IsWorldRun(setup, steps, worlds) && j < |worlds|
    requires worlds[j].tx.state.ShutdownSent? || worlds[j].tx.state.ShutdownAckSent?
    ensures var w := worlds[j];
            && w.tx.outbound == [] && w.tx.outs == [] && w.tx.newData == [] && w.rx.cum == |w.log| - 1
            && exists starts :: Tiled(w.messages, w.log, [], starts)
  {
    EveryRunKeeps(setup, steps, worlds, j);
    ShutdownIsQuiet(setup, worlds[j]);
  }

  lemma ShutdownIsQuiet(setup: E.Setup, w: World)
    requires WorldInv(setup, w) && (w.tx.state.ShutdownSent? || w.tx.state.ShutdownAckSent?)
    ensures w.tx.outbound == [] && w.tx.outs == [] && w.tx.newData == [] && w.rx.cum == |w.log| - 1
    ensures exists starts :: Tiled(w.messages, w.log, [], starts)
  {
    hide NoneStuck, Reports, Tiled, Holds, QueueHeld, Wire;
    var starts :| Tiled(w.messages, w.log, w.tx.outbound, starts) && Unsplit(w.tx.pmdcs, w.messages, w.log, starts);
  }

  /** No step of sender or network takes an association out of shutting down. */
  lemma StepKeepsShutdown(setup: E.Setup, w: World, step: WorldStep, w': World)
    requires Takes(setup, w, step, w') && ShuttingDown(w.tx.state)
    ensures ShuttingDown(w'.tx.state)
  {
    hide CutFrom, SackOf, E.Possible, E.Receive, ProcessSack, Trimmed, T3AfterSack, MissingBelow, FastRetransmits,
         Pack, FirstWanted, AcceptsSack, RecordAllSent, TimedOut, Above, T3AfterShutdown, HasUnacked, TsnLt, Without;
  }

  lemma {:induction false} ShutdownIsNotUndone(setup: E.Setup, steps: seq<WorldStep>, worlds: seq<World>, i: nat, j: nat)
    requires IsWorldRun(setup, steps, worlds) && i <= j < |worlds| && ShuttingDown(worlds[i].tx.state)
    ensures ShuttingDown(worlds[j].tx.state)
    decreases j - i
  {
    hide IsWorldRun, Takes, ShuttingDown;
    if i < j {
      ShutdownIsNotUndone(setup, steps, worlds, i, j - 1);
      StepAt(setup, steps, worlds, j - 1);
      StepKeepsShutdown(setup, worlds[j - 1], steps[j - 1], worlds[j]);
    }
  }
}
