/** The sending half of an association as functions on values: what is outstanding, where
    it goes, what a SACK does to it, and how it is retransmitted (src/socket_handlers.cpp,
    src/socket_timers.cpp, src/socket_internal.hpp, src/send_queue.cpp). A destination is
    an abstract address; congestion windows are in PathControl. */
module SendSpec {
  import opened Serial
  import opened ReceiveSpec
  import opened Cutting

  type Addr = nat

  datatype Path = Path(address: Addr, confirmed: bool, active: bool)

  datatype Outstanding = Outstanding(
    chunk: DataChunk, retransmitted: bool, gapAcked: bool, missingReports: nat,
    fastRetransmitted: bool, pending: bool, destination: Addr)

  /** A DATA packet in the send queue. */
  datatype Bundle = Bundle(destination: Addr, chunks: seq<DataChunk>)

  /** The peer's addresses; the primary is the one the ULP prefers. */
  datatype Peer = Peer(paths: seq<Path>, primary: Addr)

  function ChunkSize(c: DataChunk): nat {
    WireSize(|c.data.bytes|)
  }

  // ----- Choosing a destination -----

  predicate ValidPeer(peer: Peer) {
    && peer.paths != []
    && forall i, j :: 0 <= i < j < |peer.paths| ==> peer.paths[i].address != peer.paths[j].address
  }

  predicate Knows(peer: Peer, a: Addr) {
    exists i :: 0 <= i < |peer.paths| && peer.paths[i].address == a
  }

  /** The index of an address from `i` on, or the number of paths. */
  function FindPath(paths: seq<Path>, a: Addr, i: nat): (r: nat)
    requires i <= |paths|
    ensures i <= r <= |paths|
    ensures r < |paths| ==> paths[r].address == a
    ensures forall j :: i <= j < r ==> paths[j].address != a
    decreases |paths| - i
  {
    if i == |paths| || paths[i].address == a then i else FindPath(paths, a, i + 1)
  }

  function Primary(peer: Peer): (r: nat)
    requires peer.paths != []
    ensures r < |peer.paths|
  {
    var i := FindPath(peer.paths, peer.primary, 0);
    if i < |peer.paths| then i else 0
  }

  predicate Usable(p: Path) {
    p.confirmed && p.active
  }

  function FirstUsable(paths: seq<Path>, i: nat): (r: nat)
    requires i <= |paths|
    ensures i <= r <= |paths| && (r < |paths| ==> Usable(paths[r]))
    ensures forall j :: i <= j < r ==> !Usable(paths[j])
    decreases |paths| - i
  {
    if i == |paths| || Usable(paths[i]) then i else FirstUsable(paths, i + 1)
  }

  /** Where new DATA goes. */
  function DataPath(peer: Peer): (r: nat)
    requires peer.paths != []
    ensures r < |peer.paths|
  {
    var preferred := Primary(peer);
    var alternate := FirstUsable(peer.paths, 0);
    if peer.paths[preferred].active || alternate == |peer.paths| then preferred else alternate
  }

  /** The first usable path `step` or more places after `from`, in list order. */
  function NextUsable(paths: seq<Path>, from: nat, step: nat): (r: nat)
    requires from < |paths| && 1 <= step <= |paths|
    ensures r < |paths| && (r == from || Usable(paths[r]))
    decreases |paths| - step
  {
    if step == |paths| then from
    else if Usable(paths[(from + step) % |paths|]) then (from + step) % |paths|
    else NextUsable(paths, from, step + 1)
  }

  /** Where DATA that timed out at `last` goes. */
  function RetransmissionPath(peer: Peer, last: Addr): (r: nat)
    requires peer.paths != []
    ensures r < |peer.paths|
  {
    var preferred := DataPath(peer);
    if peer.paths[preferred].address != last then preferred else NextUsable(peer.paths, preferred, 1)
  }

  /** The address a chunk counts against: its own, or the primary's if that is gone. */
  function DestinationOf(peer: Peer, a: Addr): Addr
    requires peer.paths != []
  {
    if Knows(peer, a) then a else peer.paths[Primary(peer)].address
  }

  // ----- Bytes in flight -----

  predicate InFlight(peer: Peer, o: Outstanding, a: Addr)
    requires peer.paths != []
  {
    !o.gapAcked && !o.pending && DestinationOf(peer, o.destination) == a
  }

  function Flight(peer: Peer, outs: seq<Outstanding>, a: Addr): nat
    requires peer.paths != []
  {
    if outs == [] then 0
    else (if InFlight(peer, outs[0], a) then ChunkSize(outs[0].chunk) else 0) + Flight(peer, outs[1..], a)
  }

  predicate HasUnacked(peer: Peer, outs: seq<Outstanding>, a: Addr)
    requires peer.paths != []
  {
    exists j :: 0 <= j < |outs| && !outs[j].gapAcked && DestinationOf(peer, outs[j].destination) == a
  }

  // ----- SACK -----

  predicate Acked(sack: SackChunk, o: Outstanding) {
    SackAcknowledges(sack, o.chunk.tsn)
  }

  predicate Survives(sack: SackChunk, o: Outstanding) {
    !TsnLte(o.chunk.tsn, sack.cumulativeTsnAck)
  }

  /** Reported received before and not any more: the peer has dropped it. */
  predicate Reneged(sack: SackChunk, o: Outstanding) {
    o.gapAcked && !Acked(sack, o)
  }

  predicate NewlyAcked(sack: SackChunk, o: Outstanding) {
    !o.gapAcked && Acked(sack, o)
  }

  function Applied(sack: SackChunk, o: Outstanding): Outstanding {
    if Acked(sack, o) then o.(gapAcked := true, pending := false)
    else if o.gapAcked then o.(gapAcked := false, missingReports := o.missingReports + (if o.fastRetransmitted then 0 else 1))
    else o
  }

  datatype Highest = NoTsn | Highest(tsn: Tsn)

  function Higher(h: Highest, tsn: Tsn): Highest {
    if h.NoTsn? || TsnLt(h.tsn, tsn) then Highest(tsn) else h
  }

  /** The highest TSN newly acknowledged among the first `n`. */
  function HighestNewlyAcked(sack: SackChunk, outs: seq<Outstanding>, n: nat): Highest
    requires n <= |outs|
  {
    if n == 0 then NoTsn
    else if NewlyAcked(sack, outs[n - 1]) then Higher(HighestNewlyAcked(sack, outs, n - 1), outs[n - 1].chunk.tsn)
    else HighestNewlyAcked(sack, outs, n - 1)
  }

  /** The highest TSN the SACK reports at all. */
  function HighestReported(sack: SackChunk, outs: seq<Outstanding>, n: nat): Highest
    requires n <= |outs|
  {
    if n == 0 then NoTsn
    else if Acked(sack, outs[n - 1]) then Higher(HighestReported(sack, outs, n - 1), outs[n - 1].chunk.tsn)
    else HighestReported(sack, outs, n - 1)
  }

  predicate ReportedMissing(below: Highest, tsn: Tsn) {
    below.Highest? && TsnLt(tsn, below.tsn)
  }

  /** The third report that a chunk is missing marks it for fast retransmission. */
  function Counted(below: Highest, reneged: bool, o: Outstanding): Outstanding {
    if o.gapAcked || o.fastRetransmitted then o else
      var missing := o.missingReports + (if ReportedMissing(below, o.chunk.tsn) && !reneged then 1 else 0);
      if missing >= 3 then o.(missingReports := missing, fastRetransmitted := true, pending := true) else o.(missingReports := missing)
  }

  function AfterSack(sack: SackChunk, below: Highest, o: Outstanding): Outstanding {
    Counted(below, Reneged(sack, o), Applied(sack, o))
  }

  /** What is left outstanding, and in what state. */
  function ProcessSack(sack: SackChunk, below: Highest, outs: seq<Outstanding>): seq<Outstanding> {
    if outs == [] then []
    else (if Survives(sack, outs[0]) then [AfterSack(sack, below, outs[0])] else []) + ProcessSack(sack, below, outs[1..])
  }

  /** A SACK for something that was never sent. */
  predicate AcksUnsent(sack: SackChunk, next: Tsn) {
    || !TsnLt(sack.cumulativeTsnAck, next)
    || exists b :: 0 <= b < |sack.gaps| && !TsnLt((sack.cumulativeTsnAck + sack.gaps[b].end) % TSN_SPACE, next)
  }

  // ----- The queue of retransmissions -----

  function Unacked(sack: SackChunk, chunks: seq<DataChunk>): seq<DataChunk> {
    if chunks == [] then []
    else (if SackAcknowledges(sack, chunks[0].tsn) then [] else [chunks[0]]) + Unacked(sack, chunks[1..])
  }

  /** Drops acked chunks from queued retransmissions, and packets left empty. */
  function Trimmed(sack: SackChunk, queue: seq<Bundle>): seq<Bundle> {
    if queue == [] then [] else
      var kept := Unacked(sack, queue[0].chunks);
      (if kept == [] then [] else [queue[0].(chunks := kept)]) + Trimmed(sack, queue[1..])
  }

  /** Drops the retransmissions bound for an address. */
  function Without(queue: seq<Bundle>, a: Addr): seq<Bundle> {
    if queue == [] then [] else (if queue[0].destination == a then [] else [queue[0]]) + Without(queue[1..], a)
  }

  predicate Wanted(o: Outstanding) {
    o.pending && !o.gapAcked
  }

  datatype Packing = Packing(outs: seq<Outstanding>, chunks: seq<DataChunk>)

  /** Bundles the lowest marked chunks bound for `to` until one does not fit. */
  function Pack(peer: Peer, to: Addr, pmdcs: nat, outs: seq<Outstanding>, size: nat, any: bool): (r: Packing)
    requires peer.paths != []
    ensures |r.outs| == |outs|
  {
    if outs == [] then
      Packing([], [])
    else if !Wanted(outs[0]) || DestinationOf(peer, outs[0].destination) != to then
      var rest := Pack(peer, to, pmdcs, outs[1..], size, any);
      rest.(outs := [outs[0]] + rest.outs)
    else if any && size + ChunkSize(outs[0].chunk) > pmdcs then
      Packing(outs, [])
    else
      var rest := Pack(peer, to, pmdcs, outs[1..], size + ChunkSize(outs[0].chunk), true);
      Packing([outs[0].(pending := false)] + rest.outs, [outs[0].chunk] + rest.chunks)
  }

  /** The first chunk marked for retransmission, or the number of chunks. */
  function FirstWanted(outs: seq<Outstanding>, i: nat): (r: nat)
    requires i <= |outs|
    ensures i <= r <= |outs| && (r < |outs| ==> Wanted(outs[r]))
    ensures forall j :: i <= j < r ==> !Wanted(outs[j])
    decreases |outs| - i
  {
    if i == |outs| || Wanted(outs[i]) then i else FirstWanted(outs, i + 1)
  }
}
