/** The steps of the sending half of an association, on values: sending, SACKs, T3-rtx
    expiry, retransmission, cutting new DATA, queueing messages and shutting down
    (src/socket_handlers.cpp, src/socket_timers.cpp, src/socket_event_loop.cpp,
    src/socket_api.cpp). The class `SendPath.Sender` is the code proved against them. */
module Transmission {
  import opened Serial
  import opened ReceiveSpec
  import opened Cutting
  import opened SendSpec

  datatype AssociationState =
    CookieWait | CookieEchoed | Established | ShutdownPending | ShutdownSent | ShutdownReceived | ShutdownAckSent

  predicate TransmitsData(state: AssociationState) {
    state.Established? || state.ShutdownPending? || state.ShutdownReceived?
  }

  datatype Tx = Tx(
    state: AssociationState, peer: Peer, pmdcs: nat,
    cum: Tsn,                // cumulative_tsn_ack
    next: Tsn,               // next_tsn
    outs: seq<Outstanding>,  // outstanding_data, in TSN order
    t3: set<Addr>,           // destinations whose T3-rtx runs
    queue: seq<Bundle>,      // queued retransmissions
    newData: seq<Bundle>,    // queued new DATA
    outbound: seq<Outbound>,
    inFastRecovery: bool, exitTsn: Tsn)

  // ----- T3-rtx -----

  function RestartT3(tx: Tx, a: Addr): Tx
    requires tx.peer.paths != []
  {
    tx.(t3 := if Knows(tx.peer, a) && HasUnacked(tx.peer, tx.outs, a) then tx.t3 + {a} else tx.t3 - {a})
  }

  function StartT3IfStopped(tx: Tx, a: Addr): Tx
    requires tx.peer.paths != []
  {
    if a in tx.t3 then tx else RestartT3(tx, a)
  }

  // ----- Sending -----

  function FindOutstanding(outs: seq<Outstanding>, tsn: Tsn, i: nat): (r: nat)
    requires i <= |outs|
    ensures i <= r <= |outs|
    ensures r < |outs| ==> outs[r].chunk.tsn == tsn
    ensures forall j :: i <= j < r ==> outs[j].chunk.tsn != tsn
    decreases |outs| - i
  {
    if i == |outs| || outs[i].chunk.tsn == tsn then i else FindOutstanding(outs, tsn, i + 1)
  }

  /** A chunk reached the wire: it is outstanding, or was sent again. */
  function RecordSent(peer: Peer, outs: seq<Outstanding>, a: Addr, c: DataChunk): seq<Outstanding>
    requires peer.paths != []
  {
    var sentOn := DestinationOf(peer, a);
    var i := FindOutstanding(outs, c.tsn, 0);
    if i == |outs| then outs + [Outstanding(c, false, false, 0, false, false, sentOn)]
    else outs[i := outs[i].(retransmitted := true, gapAcked := false, destination := sentOn)]
  }

  function RecordAllSent(peer: Peer, outs: seq<Outstanding>, a: Addr, chunks: seq<DataChunk>): seq<Outstanding>
    requires peer.paths != []
    decreases |chunks|
  {
    if chunks == [] then outs else RecordAllSent(peer, RecordSent(peer, outs, a, chunks[0]), a, chunks[1..])
  }

  function Sent(tx: Tx, b: Bundle): Tx
    requires tx.peer.paths != []
  {
    var recorded := if TransmitsData(tx.state) then tx.(outs := RecordAllSent(tx.peer, tx.outs, b.destination, b.chunks)) else tx;
    if b.chunks == [] then recorded else StartT3IfStopped(recorded, b.destination)
  }

  function SendRetransmission(tx: Tx): Tx
    requires tx.peer.paths != [] && tx.queue != []
  {
    Sent(tx.(queue := tx.queue[1..]), tx.queue[0])
  }

  function SendNewData(tx: Tx): Tx
    requires tx.peer.paths != [] && tx.newData != []
  {
    Sent(tx.(newData := tx.newData[1..]), tx.newData[0])
  }

  /** One packet of the lowest marked TSNs that share a destination. */
  function SchedulePending(tx: Tx): Tx
    requires tx.peer.paths != []
  {
    var w := FirstWanted(tx.outs, 0);
    if w == |tx.outs| then tx else
      var to := DestinationOf(tx.peer, tx.outs[w].destination);
      var p := Pack(tx.peer, to, tx.pmdcs, tx.outs, 0, false);
      tx.(outs := p.outs, queue := tx.queue + [Bundle(to, p.chunks)])
  }

  /** Numbers the fragments of a packet. */
  function Numbered(next: Tsn, fragments: seq<Fragment>): (r: seq<DataChunk>)
    ensures |r| == |fragments|
  {
    seq(|fragments|, j requires 0 <= j < |fragments| => DataChunk((next + j) % TSN_SPACE, fragments[j]))
  }

  /** Cuts one packet of new DATA, if nothing cut is waiting. */
  function CutNewData(tx: Tx, limits: Limits): Tx
    requires tx.peer.paths != [] && ValidQueue(tx.outbound) && limits.pmdcs >= 20
  {
    var r := CutFrom(limits, tx.outbound, 0, true);
    if r.fragments == [] then tx else
      tx.(outbound := r.outbound, next := (tx.next + |r.fragments|) % TSN_SPACE,
          newData := tx.newData + [Bundle(tx.peer.paths[DataPath(tx.peer)].address, Numbered(tx.next, r.fragments))])
  }

  // ----- Shutdown -----

  /** A shutdown proceeds once everything assigned is acked and nothing is queued. */
  function NextShutdownStep(tx: Tx): Tx {
    if tx.cum != (tx.next - 1) % TSN_SPACE || tx.outbound != [] then tx
    else if tx.state.ShutdownPending? then tx.(state := ShutdownSent, t3 := {})
    else if tx.state.ShutdownReceived? then tx.(state := ShutdownAckSent, t3 := {})
    else tx
  }

  // ----- SACK -----

  /** The reference below which an unacknowledged chunk counts as missing. */
  function MissingBelow(tx: Tx, sack: SackChunk): Highest {
    if tx.inFastRecovery && TsnLt(tx.cum, sack.cumulativeTsnAck)
    then HighestReported(sack, tx.outs, |tx.outs|)
    else HighestNewlyAcked(sack, tx.outs, |tx.outs|)
  }

  predicate FastRetransmits(sack: SackChunk, below: Highest, outs: seq<Outstanding>) {
    exists j :: 0 <= j < |outs| && Survives(sack, outs[j]) && !outs[j].fastRetransmitted && AfterSack(sack, below, outs[j]).fastRetransmitted
  }

  /** The unacknowledged chunk bound for `a` that is nearest the cumulative point. */
  function Earliest(peer: Peer, cum: Tsn, outs: seq<Outstanding>, a: Addr, n: nat): Highest
    requires peer.paths != [] && n <= |outs|
  {
    if n == 0 then NoTsn else
      var e := Earliest(peer, cum, outs, a, n - 1);
      var o := outs[n - 1];
      if !o.gapAcked && DestinationOf(peer, o.destination) == a
         && (e.NoTsn? || (o.chunk.tsn - cum) % TSN_SPACE < (e.tsn - cum) % TSN_SPACE) then Highest(o.chunk.tsn) else e
  }

  predicate PendingAt(outs: seq<Outstanding>, tsn: Tsn) {
    var i := FindOutstanding(outs, tsn, 0);
    i < |outs| && outs[i].pending
  }

  /** The earliest chunk bound for `a` was acknowledged or is being fast retransmitted. */
  predicate RestartsT3(tx: Tx, sack: SackChunk, after: seq<Outstanding>, fast: bool, a: Addr)
    requires tx.peer.paths != []
  {
    var e := Earliest(tx.peer, tx.cum, tx.outs, a, |tx.outs|);
    e.Highest? && (SackAcknowledges(sack, e.tsn) || (fast && PendingAt(after, e.tsn)))
  }

  predicate RenegedOn(tx: Tx, sack: SackChunk, a: Addr)
    requires tx.peer.paths != []
  {
    exists j :: 0 <= j < |tx.outs| && Survives(sack, tx.outs[j]) && Reneged(sack, tx.outs[j])
                && DestinationOf(tx.peer, tx.outs[j].destination) == a
  }

  /** Whether T3-rtx of `a` runs once a SACK has been processed. */
  predicate T3RunsAfter(tx: Tx, sack: SackChunk, after: seq<Outstanding>, fast: bool, a: Addr)
    requires tx.peer.paths != []
  {
    && HasUnacked(tx.peer, after, a)
    && (a in tx.t3 || RestartsT3(tx, sack, after, fast, a) || RenegedOn(tx, sack, a))
  }

  ghost function T3AfterSack(tx: Tx, sack: SackChunk, after: seq<Outstanding>, fast: bool): set<Addr>
    requires tx.peer.paths != []
  {
    (set a | a in tx.t3 && !Knows(tx.peer, a))
    + (set i | 0 <= i < |tx.peer.paths| && T3RunsAfter(tx, sack, after, fast, tx.peer.paths[i].address) :: tx.peer.paths[i].address)
  }

  predicate AcceptsSack(tx: Tx, sack: SackChunk) {
    TransmitsData(tx.state) && !AcksUnsent(sack, tx.next) && !TsnLt(sack.cumulativeTsnAck, tx.cum)
  }

  /** A SACK that is neither refused nor out of date. */
  ghost function HandleSack(tx: Tx, sack: SackChunk): Tx
    requires tx.peer.paths != [] && AcceptsSack(tx, sack)
  {
    var below := MissingBelow(tx, sack);
    var after := ProcessSack(sack, below, tx.outs);
    var fast := FastRetransmits(sack, below, tx.outs);
    var entered := fast && !tx.inFastRecovery && after != [];
    var exitTsn := if entered then after[|after| - 1].chunk.tsn else tx.exitTsn;
    var recovering := (tx.inFastRecovery || entered) && !TsnLte(exitTsn, sack.cumulativeTsnAck);
    var applied := tx.(outs := after, cum := sack.cumulativeTsnAck, queue := Trimmed(sack, tx.queue), inFastRecovery := recovering, exitTsn := exitTsn);
    var scheduled := if entered then SchedulePending(applied) else applied;
    NextShutdownStep(scheduled.(t3 := T3AfterSack(tx, sack, after, fast)))
  }

  // ----- T3-rtx expiry -----

  /** Chunks in flight to the failed path are marked, and bound for the next one. */
  function TimedOut(peer: Peer, outs: seq<Outstanding>, a: Addr, target: Addr): (r: seq<Outstanding>)
    requires peer.paths != []
    ensures |r| == |outs|
  {
    if outs == [] then [] else
      [if InFlight(peer, outs[0], a) then outs[0].(pending := true, destination := target) else outs[0]] + TimedOut(peer, outs[1..], a, target)
  }

  /** The timer of `a` goes off; `peer` is as counting the error leaves it. */
  function ExpireT3(tx: Tx, a: Addr, peer: Peer): Tx
    requires tx.peer.paths != [] && peer.paths != []
  {
    var stopped := tx.(t3 := tx.t3 - {a});
    if !TransmitsData(tx.state) || !Knows(tx.peer, a) || !HasUnacked(tx.peer, tx.outs, a) then stopped else
      var target := peer.paths[RetransmissionPath(peer, a)].address;
      SchedulePending(stopped.(peer := peer, outs := TimedOut(peer, tx.outs, a, target), queue := Without(tx.queue, a)))
  }

  // ----- SHUTDOWN -----

  function Above(cum: Tsn, outs: seq<Outstanding>): seq<Outstanding> {
    if outs == [] then [] else (if TsnLte(outs[0].chunk.tsn, cum) then [] else [outs[0]]) + Above(cum, outs[1..])
  }

  predicate AckedOn(peer: Peer, cum: Tsn, outs: seq<Outstanding>, a: Addr)
    requires peer.paths != []
  {
    exists j :: 0 <= j < |outs| && TsnLte(outs[j].chunk.tsn, cum) && !outs[j].gapAcked && DestinationOf(peer, outs[j].destination) == a
  }

  /** T3-rtx is restarted on the paths whose DATA a SHUTDOWN acknowledges. */
  ghost function T3AfterShutdown(tx: Tx, cum: Tsn): set<Addr>
    requires tx.peer.paths != []
  {
    var outs := Above(cum, tx.outs);
    (set a | a in tx.t3 && !(Knows(tx.peer, a) && AckedOn(tx.peer, cum, tx.outs, a) && !HasUnacked(tx.peer, outs, a)))
    + (set i | 0 <= i < |tx.peer.paths| && AckedOn(tx.peer, cum, tx.outs, tx.peer.paths[i].address)
               && HasUnacked(tx.peer, outs, tx.peer.paths[i].address) :: tx.peer.paths[i].address)
  }

  /** A SHUTDOWN acknowledges cumulatively, and leaves gap-acked chunks as they are. */
  ghost function HandleShutdown(tx: Tx, cum: Tsn): Tx
    requires tx.peer.paths != []
  {
    match tx.state
    case CookieWait => tx
    case CookieEchoed => tx
    case ShutdownSent => tx.(state := ShutdownAckSent)
    case ShutdownAckSent => tx
    case _ =>
      if !TsnLt(tx.cum, cum) then
        NextShutdownStep(tx.(state := ShutdownReceived))
      else
        NextShutdownStep(tx.(
          state := ShutdownReceived, outs := Above(cum, tx.outs), cum := cum,
          inFastRecovery := tx.inFastRecovery && !TsnLte(tx.exitTsn, cum),
          queue := Trimmed(SackChunk(cum, 0, [], []), tx.queue),
          t3 := T3AfterShutdown(tx, cum)))
  }

  // ----- The ULP -----

  /** `sctp_send_data`, once it has decided to queue. */
  function QueueMessage(tx: Tx, m: Outbound): Tx {
    tx.(outbound := tx.outbound + [m])
  }

  /** `sctp_shutdown` on an established association. */
  function BeginShutdown(tx: Tx): Tx {
    NextShutdownStep(tx.(state := ShutdownPending))
  }
}
