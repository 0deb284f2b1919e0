/** A shutdown waits for nothing but DATA (section 9.2 of RFC 9260): in every reachable state
    an association in SHUTDOWN-PENDING or SHUTDOWN-RECEIVED still has something queued, unsent
    or unacknowledged. With the last acknowledgement it moves on. */
module ShutdownProgress {
  import opened Serial
  import opened ReceiveSpec
  import opened MessageLog
  import opened Cutting
  import opened SendSpec
  import opened Transmission
  import opened NoStuckChunk
  import opened NoLoss
  import opened Reliability
  import opened Tiling
  import opened SackReport
  import E = EndToEnd

  /** SHUTDOWN or SHUTDOWN ACK is still to be sent. */
  predicate Waits(state: AssociationState) {
    state.ShutdownPending? || state.ShutdownReceived?
  }

  /** If a shutdown waits, something is assigned and not acknowledged, or queued. */
  predicate WaitsForData(tx: Tx) {
    Waits(tx.state) ==> tx.cum != (tx.next - 1) % TSN_SPACE || tx.outbound != []
  }

  lemma NextStepWaits(tx: Tx)
    ensures WaitsForData(NextShutdownStep(tx))
  {
  }

  lemma SackWaits(tx: Tx, sack: SackChunk)
    requires tx.peer.paths != [] && AcceptsSack(tx, sack)
    ensures WaitsForData(HandleSack(tx, sack))
  {
    hide ProcessSack, MissingBelow, FastRetransmits, T3AfterSack, Trimmed, SchedulePending, TsnLt, TsnLte, AcceptsSack;
  }

  lemma ShutdownWaits(tx: Tx, cum: Tsn)
    requires tx.peer.paths != [] && WaitsForData(tx)
    ensures WaitsForData(HandleShutdown(tx, cum))
  {
    hide Above, Trimmed, T3AfterShutdown, TsnLt, TsnLte;
  }

  /** What was cut is not acknowledged yet. */
  lemma CutIsUnacked(setup: E.Setup, w: World, limits: Limits)
    requires WorldInv(setup, w) && Enabled(w.tx, Cuts(limits)) && limits.pmdcs == w.tx.pmdcs
    requires |LogAfter(w, Cuts(limits))| - w.base < HALF_TSN_SPACE && WaitsForData(w.tx)
    ensures WaitsForData(CutNewData(w.tx, limits))
  {
    hide WorldInv, Accounted, CutFrom, Numbered, DataPath, Quiet, Unsent;
    SenderAccounted(setup, w, Cuts(limits));
    BelowTheEnd(setup, w);
    if CutFrom(limits, w.tx.outbound, 0, true).fragments != [] {
      UnackedAbove(setup.t0, LogAfter(w, Cuts(limits)), CutNewData(w.tx, limits), w.base);
    }
  }

  lemma BelowTheEnd(setup: E.Setup, w: World)
    requires WorldInv(setup, w)
    ensures w.base < |w.log|
  {
    hide Accounted, NoneStuck, TiledSomehow, Reports, Below, Quiet;
  }

  lemma UnackedAbove(t0: Tsn, log: Log, tx: Tx, base: int)
    requires Accounted(t0, log, tx, base) && base < |log| - 1
    ensures tx.cum != (tx.next - 1) % TSN_SPACE
  {
    hide Holds, QueueHeld;
    WireInjective(t0, base, |log| - 1);
    WireStep(t0, |log|);
    hide Wire;
  }

  lemma SenderStepWaits(setup: E.Setup, w: World, s: SenderStep, w': World)
    requires WorldInv(setup, w) && Takes(setup, w, SenderActs(s), w') && WaitsForData(w.tx)
    ensures WaitsForData(w'.tx)
  {
    hide WorldInv, CutNewData, CutFrom, RecordAllSent, Pack, FirstWanted, TimedOut, Without, HasUnacked, Extends, SameAddresses, NextShutdownStep, Queued, LogAfter;
    match s
    case Cuts(limits) => CutIsUnacked(setup, w, limits);
    case BeginsShutdown => NextStepWaits(w.tx.(state := ShutdownPending));
    case _ =>
  }

  lemma StepWaits(setup: E.Setup, w: World, step: WorldStep, w': World)
    requires WorldInv(setup, w) && Takes(setup, w, step, w') && WaitsForData(w.tx)
    ensures WaitsForData(w'.tx)
  {
    hide WorldInv, E.Possible, E.Receive, SackOf, HandleSack, HandleShutdown, WaitsForData, AcceptsSack, Enabled;
    match step
    case SenderActs(s) => SenderStepWaits(setup, w, s, w');
    case SackArrives(k) =>
      if AcceptsSack(w.tx, w.reports[k].sack) {
        SackWaits(w.tx, w.reports[k].sack);
      }
    case ShutdownArrives(k) => ShutdownWaits(w.tx, w.reports[k].sack.cumulativeTsnAck);
    case _ =>
  }

  lemma {:induction false} EveryRunWaits(setup: E.Setup, steps: seq<WorldStep>, worlds: seq<World>, j: nat)
    requires IsWorldRun(setup, steps, worlds) && j < |worlds|
    ensures WaitsForData(worlds[j].tx)
    decreases j
  {
    hide *;
    if j == 0 {
      NewWaits(setup, steps, worlds);
    } else {
      StepAt(setup, steps, worlds, j - 1);
      EveryRunKeeps(setup, steps, worlds, j - 1);
      EveryRunWaits(setup, steps, worlds, j - 1);
      StepWaits(setup, worlds[j - 1], steps[j - 1], worlds[j]);
    }
  }

  lemma NewWaits(setup: E.Setup, steps: seq<WorldStep>, worlds: seq<World>)
    requires IsWorldRun(setup, steps, worlds)
    ensures WaitsForData(worlds[0].tx)
  {
  }

  /** No shutdown stalls, in any reachable state: while SHUTDOWN or SHUTDOWN ACK is still to
      be sent there is DATA queued, cut and unsent, or outstanding. */
  lemma ShutdownNeverStalls(setup: E.Setup, steps: seq<WorldStep>, worlds: seq<World>, j: nat)
    requires IsWorldRun(setup, steps, worlds) && j < |worlds| && Waits(worlds[j].tx.state)
    ensures var tx := worlds[j].tx; tx.outbound != [] || tx.newData != [] || tx.outs != []
  {
    hide IsWorldRun;
    EveryRunKeeps(setup, steps, worlds, j);
    EveryRunWaits(setup, steps, worlds, j);
    if worlds[j].tx.outs == [] && worlds[j].tx.newData == [] {
      AllAcked(setup, worlds[j]);
    }
  }

  lemma AllAcked(setup: E.Setup, w: World)
    requires WorldInv(setup, w) && w.tx.outs == [] && w.tx.newData == []
    ensures w.tx.cum == (w.tx.next - 1) % TSN_SPACE
  {
    hide NoneStuck, TiledSomehow, Reports, Below, Holds, QueueHeld, Quiet;
    WireStep(setup.t0, |w.log|);
    hide Wire;
  }

  /** The ULP's shutdown and the peer's both begin one, and with nothing left to send or to be
      acknowledged they go on to the next step at once. */
  lemma ShutdownBegins(tx: Tx, cum: Tsn)
    requires tx.peer.paths != [] && TransmitsData(tx.state)
    ensures ShuttingDown(BeginShutdown(tx).state) && ShuttingDown(HandleShutdown(tx, cum).state)
    ensures tx.cum == (tx.next - 1) % TSN_SPACE && tx.outbound == [] ==> BeginShutdown(tx).state.ShutdownSent?
    ensures tx.cum == (tx.next - 1) % TSN_SPACE && tx.outbound == [] && !TsnLt(tx.cum, cum) ==> HandleShutdown(tx, cum).state.ShutdownAckSent?
  {
    hide Above, Trimmed, T3AfterShutdown, TsnLt, TsnLte;
  }
}
