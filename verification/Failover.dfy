/** Where DATA goes and what a retransmission carries (sections 6.3.3, 6.4 and 8.2 of RFC
    9260): the path new DATA takes, the path timed-out DATA moves to, the packet that
    carries it, and what SACKs and expiries remove from the retransmissions queued. */
module Failover {
  import opened Serial
  import opened ReceiveSpec
  import opened Cutting
  import opened SendSpec
  import opened Transmission
  import opened FlightLedger

  // ----- Paths -----

  /** New DATA takes the primary while it is active, else the first usable path, else the
      primary. */
  predicate TakesNewData(peer: Peer, d: nat)
    requires d < |peer.paths|
  {
    var p := Primary(peer);
    if peer.paths[p].active || forall i :: 0 <= i < |peer.paths| ==> !SendSpec.Usable(peer.paths[i]) then d == p
    else SendSpec.Usable(peer.paths[d]) && forall i :: 0 <= i < d ==> !SendSpec.Usable(peer.paths[i])
  }

  lemma PrimaryIs(peer: Peer)
    requires peer.paths != []
    ensures if Knows(peer, peer.primary) then peer.paths[Primary(peer)].address == peer.primary else Primary(peer) == 0
  {
  }

  lemma DataPathIs(peer: Peer)
    requires peer.paths != []
    ensures TakesNewData(peer, DataPath(peer))
  {
  }

  /** A known address stands for itself, and any other for the primary path. */
  lemma DestinationIs(peer: Peer, a: Addr)
    requires peer.paths != []
    ensures Knows(peer, DestinationOf(peer, a))
    ensures Knows(peer, a) ==> DestinationOf(peer, a) == a
    ensures !Knows(peer, a) ==> DestinationOf(peer, a) == peer.paths[Primary(peer)].address
  {
  }

  lemma NumberedFrom(next: Tsn, fragments: seq<Fragment>)
    ensures |Numbered(next, fragments)| == |fragments|
    ensures forall j :: 0 <= j < |fragments| ==> Numbered(next, fragments)[j].tsn == (next + j) % TSN_SPACE
  {
  }

  /** With the window open or to be probed, a queue is cut into one packet more, for the path
      that takes new DATA, under consecutive TSNs from the next on. */
  lemma NewDataIsSent(tx: Tx, limits: Limits)
    requires tx.peer.paths != [] && ValidQueue(tx.outbound) && limits.pmdcs >= 20
    requires tx.outbound != [] && (limits.probe || limits.rwnd >= limits.pmdcs)
    ensures var r := CutNewData(tx, limits);
            && |r.newData| == |tx.newData| + 1 && tx.newData <= r.newData
            && var b := r.newData[|tx.newData|];
            && b.chunks != [] && (exists d :: 0 <= d < |tx.peer.paths| && TakesNewData(tx.peer, d) && b.destination == tx.peer.paths[d].address)
            && (forall j :: 0 <= j < |b.chunks| ==> b.chunks[j].tsn == (tx.next + j) % TSN_SPACE)
            && r.next == (tx.next + |b.chunks|) % TSN_SPACE
  {
    hide CutFrom, TakesNewData, DataPath, ValidQueue, Numbered;
    SomethingIsCut(limits, tx.outbound);
    DataPathIs(tx.peer);
    var fragments := CutFrom(limits, tx.outbound, 0, true).fragments;
    NumberedFrom(tx.next, fragments);
    assert CutNewData(tx, limits).newData[|tx.newData|].chunks == Numbered(tx.next, fragments);
  }

  /** A usable path other than `a`. */
  predicate HasAlternate(peer: Peer, a: Addr) {
    exists i :: 0 <= i < |peer.paths| && SendSpec.Usable(peer.paths[i]) && peer.paths[i].address != a
  }

  /** `i` is usable and the nearest such path after `d` in the cyclic order of the list. */
  predicate NearestAfter(paths: seq<Path>, d: nat, i: nat)
    requires d < |paths| && i < |paths|
  {
    SendSpec.Usable(paths[i]) && exists s :: 1 <= s < |paths| && IsAfter(paths, d, s, i)
  }

  /** The path `s` places after `d`, going round the list. */
  function After(paths: seq<Path>, d: nat, s: nat): Path
    requires d < |paths|
  {
    paths[(d + s) % |paths|]
  }

  predicate IsAfter(paths: seq<Path>, d: nat, s: nat, i: nat)
    requires d < |paths|
  {
    i == (d + s) % |paths| && NoneBefore(paths, d, s)
  }

  predicate NoneBefore(paths: seq<Path>, d: nat, s: nat)
    requires d < |paths|
  {
    forall t :: 1 <= t < s ==> !SendSpec.Usable(After(paths, d, t))
  }

  lemma {:induction false} NextUsableIs(paths: seq<Path>, d: nat, s: nat)
    requires d < |paths| && 1 <= s <= |paths| && NoneBefore(paths, d, s)
    ensures var r := NextUsable(paths, d, s);
            (r != d && NearestAfter(paths, d, r)) || (r == d && NoneBefore(paths, d, |paths|))
    decreases |paths| - s
  {
    hide SendSpec.Usable;
    if s < |paths| {
      if SendSpec.Usable(After(paths, d, s)) {
        Elsewhere(d, s, |paths|);
        assert IsAfter(paths, d, s, (d + s) % |paths|);
      } else {
        NextUsableIs(paths, d, s + 1);
      }
    }
  }

  lemma Elsewhere(d: nat, s: nat, n: nat)
    requires d < n && 1 <= s < n
    ensures (d + s) % n != d && (d + s) % n == if d + s < n then d + s else d + s - n
  {
    if d + s >= n {
      assert d + s == n + (d + s - n);
      assert (n + (d + s - n)) % n == d + s - n;
    }
  }

  /** Going round the list from `d` reaches every other path. */
  lemma Reaches(d: nat, i: nat, n: nat) returns (t: nat)
    requires d < n && i < n && i != d
    ensures 1 <= t < n && (d + t) % n == i
  {
    t := if d < i then i - d else i - d + n;
    Elsewhere(d, t, n);
  }

  /** Where DATA that timed out at `a` goes: with new DATA if that goes elsewhere, and
      otherwise to the nearest usable path after it, if there is another. */
  predicate TakesTimedOut(peer: Peer, a: Addr, i: nat)
    requires peer.paths != [] && i < |peer.paths|
  {
    var d := DataPath(peer);
    if peer.paths[d].address != a || !HasAlternate(peer, a) then i == d else i != d && NearestAfter(peer.paths, d, i)
  }

  lemma RetransmissionPathIs(peer: Peer, a: Addr)
    requires ValidPeer(peer)
    ensures TakesTimedOut(peer, a, RetransmissionPath(peer, a))
    ensures HasAlternate(peer, a) ==> peer.paths[RetransmissionPath(peer, a)].address != a
    ensures peer.paths[RetransmissionPath(peer, a)].address == a <==> peer.paths[DataPath(peer)].address == a && !HasAlternate(peer, a)
  {
    hide DataPath, NextUsable, SendSpec.Usable;
    var paths, d := peer.paths, DataPath(peer);
    if paths[d].address == a {
      NextUsableIs(paths, d, 1);
      var r := NextUsable(paths, d, 1);
      if HasAlternate(peer, a) {
        var i :| 0 <= i < |paths| && SendSpec.Usable(paths[i]) && paths[i].address != a;
        var t := Reaches(d, i, |paths|);
        assert SendSpec.Usable(After(paths, d, t));
      }
    }
  }

  // ----- T3-rtx expiry -----

  lemma {:induction false} TimedOutAt(peer: Peer, outs: seq<Outstanding>, a: Addr, target: Addr, j: nat)
    requires peer.paths != [] && j < |outs|
    ensures TimedOut(peer, outs, a, target)[j] == if InFlight(peer, outs[j], a) then outs[j].(pending := true, destination := target) else outs[j]
  {
    hide InFlight;
    if j > 0 {
      TimedOutAt(peer, outs[1..], a, target, j - 1);
    }
  }

  /** The expiry is about DATA: the association transmits and some is unacknowledged there. */
  predicate Expires(tx: Tx, a: Addr)
    requires tx.peer.paths != []
  {
    TransmitsData(tx.state) && Knows(tx.peer, a) && HasUnacked(tx.peer, tx.outs, a)
  }

  /** An expiry moves what was in flight to `a`, and nothing else, to the path that takes
      timed-out DATA: away from `a` whenever there is another usable path. It waits there to
      be sent again, or is in the packet queued last. */
  lemma ExpiryMovesData(tx: Tx, a: Addr, peer: Peer, j: nat)
    requires tx.peer.paths != [] && ValidPeer(peer) && Expires(tx, a) && j < |tx.outs|
    ensures var r, i, o := ExpireT3(tx, a, peer), RetransmissionPath(peer, a), tx.outs[j];
            && |r.outs| == |tx.outs| && r.outs[j].chunk == o.chunk && r.outs[j].gapAcked == o.gapAcked
            && TakesTimedOut(peer, a, i)
            && r.outs[j].destination == (if InFlight(peer, o, a) then peer.paths[i].address else o.destination)
            && (HasAlternate(peer, a) && InFlight(peer, o, a) ==> r.outs[j].destination != a)
            && (r.outs[j].pending ==> o.pending || InFlight(peer, o, a))
            && ((o.pending && !o.gapAcked) || InFlight(peer, o, a) ==>
                  r.outs[j].pending || (r.queue != [] && r.outs[j].chunk in r.queue[|r.queue| - 1].chunks))
  {
    hide TimedOut, Without, HasUnacked, Knows, InFlight, TakesTimedOut, HasAlternate, RetransmissionPath, SchedulePending;
    RetransmissionPathIs(peer, a);
    var target := peer.paths[RetransmissionPath(peer, a)].address;
    var marked := tx.(t3 := tx.t3 - {a}, peer := peer, outs := TimedOut(peer, tx.outs, a, target), queue := Without(tx.queue, a));
    TimedOutAt(peer, tx.outs, a, target, j);
    FlightIsUnacked(peer, tx.outs[j], a);
    ScheduledAt(marked, j);
  }

  lemma FlightIsUnacked(peer: Peer, o: Outstanding, a: Addr)
    requires peer.paths != []
    ensures InFlight(peer, o, a) ==> !o.gapAcked
  {
  }

  // ----- The packet of a retransmission -----

  /** Marked for retransmission, and bound for `to`. */
  predicate MarkedFor(peer: Peer, to: Addr, o: Outstanding)
    requires peer.paths != []
  {
    Wanted(o) && DestinationOf(peer, o.destination) == to
  }

  function ChunksFor(peer: Peer, to: Addr, outs: seq<Outstanding>): seq<DataChunk>
    requires peer.paths != []
  {
    if outs == [] then [] else (if MarkedFor(peer, to, outs[0]) then [outs[0].chunk] else []) + ChunksFor(peer, to, outs[1..])
  }

  /** A packet made of the marked chunks among the first `k`: those and no others lose their
      mark, it fits unless it is a single chunk, and the chunk at `k` would not have. */
  ghost predicate IsPacked(peer: Peer, to: Addr, pmdcs: nat, outs: seq<Outstanding>, size: nat, any: bool, r: Packing, k: nat)
    requires peer.paths != []
  {
    && k <= |outs| == |r.outs|
    && r.chunks == ChunksFor(peer, to, outs[..k])
    && (forall j :: 0 <= j < |outs| ==> r.outs[j] == if j < k && MarkedFor(peer, to, outs[j]) then outs[j].(pending := false) else outs[j])
    && ((if any then |r.chunks| > 0 else |r.chunks| > 1) ==> size + FlightLedger.Bytes(r.chunks) <= pmdcs)
    && (k < |outs| ==> MarkedFor(peer, to, outs[k]) && (any || r.chunks != []) && size + FlightLedger.Bytes(r.chunks) + ChunkSize(outs[k].chunk) > pmdcs)
  }

  lemma {:induction false} PackIs(peer: Peer, to: Addr, pmdcs: nat, outs: seq<Outstanding>, size: nat, any: bool) returns (k: nat)
    requires peer.paths != []
    ensures IsPacked(peer, to, pmdcs, outs, size, any, Pack(peer, to, pmdcs, outs, size, any), k)
    decreases |outs|
  {
    hide DestinationOf, ChunkSize, Wanted, IsPacked;
    k := 0;
    var r := Pack(peer, to, pmdcs, outs, size, any);
    if outs == [] || (MarkedFor(peer, to, outs[0]) && any && size + ChunkSize(outs[0].chunk) > pmdcs) {
      NothingPacked(peer, to, pmdcs, outs, size, any);
    } else if MarkedFor(peer, to, outs[0]) {
      k := PackIs(peer, to, pmdcs, outs[1..], size + ChunkSize(outs[0].chunk), true);
      OneTaken(peer, to, pmdcs, outs, size, any, Pack(peer, to, pmdcs, outs[1..], size + ChunkSize(outs[0].chunk), true), k);
      k := k + 1;
    } else {
      k := PackIs(peer, to, pmdcs, outs[1..], size, any);
      OneSkipped(peer, to, pmdcs, outs, size, any, Pack(peer, to, pmdcs, outs[1..], size, any), k);
      k := k + 1;
    }
  }

  lemma NothingPacked(peer: Peer, to: Addr, pmdcs: nat, outs: seq<Outstanding>, size: nat, any: bool)
    requires peer.paths != []
    requires outs == [] || (MarkedFor(peer, to, outs[0]) && any && size + ChunkSize(outs[0].chunk) > pmdcs)
    ensures IsPacked(peer, to, pmdcs, outs, size, any, Packing(outs, []), 0)
  {
    hide DestinationOf, ChunkSize, Wanted;
    assert outs[..0] == [];
  }

  lemma OneSkipped(peer: Peer, to: Addr, pmdcs: nat, outs: seq<Outstanding>, size: nat, any: bool, rest: Packing, k: nat)
    requires peer.paths != [] && outs != [] && !MarkedFor(peer, to, outs[0])
    requires IsPacked(peer, to, pmdcs, outs[1..], size, any, rest, k)
    ensures IsPacked(peer, to, pmdcs, outs, size, any, rest.(outs := [outs[0]] + rest.outs), k + 1)
  {
    hide MarkedFor, ChunkSize, ChunksFor, FlightLedger.Bytes;
    Longer(peer, to, outs, k);
  }

  lemma OneTaken(peer: Peer, to: Addr, pmdcs: nat, outs: seq<Outstanding>, size: nat, any: bool, rest: Packing, k: nat)
    requires peer.paths != [] && outs != [] && MarkedFor(peer, to, outs[0]) && (any ==> size + ChunkSize(outs[0].chunk) <= pmdcs)
    requires IsPacked(peer, to, pmdcs, outs[1..], size + ChunkSize(outs[0].chunk), true, rest, k)
    ensures IsPacked(peer, to, pmdcs, outs, size, any, Packing([outs[0].(pending := false)] + rest.outs, [outs[0].chunk] + rest.chunks), k + 1)
  {
    hide MarkedFor, ChunkSize, ChunksFor;
    Longer(peer, to, outs, k);
    var chunks := [outs[0].chunk] + rest.chunks;
    assert chunks[1..] == rest.chunks;
    hide FlightLedger.Bytes;
  }

  lemma Longer(peer: Peer, to: Addr, outs: seq<Outstanding>, k: nat)
    requires peer.paths != [] && outs != [] && k <= |outs[1..]|
    ensures ChunksFor(peer, to, outs[..k + 1]) == (if MarkedFor(peer, to, outs[0]) then [outs[0].chunk] else []) + ChunksFor(peer, to, outs[1..][..k])
  {
    assert outs[..k + 1][1..] == outs[1..][..k];
  }

  /** One retransmission is scheduled, if anything is marked: a packet for the destination of
      the lowest marked chunk, led by that chunk, with all marked chunks of that destination
      in TSN order up to the first that does not fit. */
  lemma RetransmissionIsFull(tx: Tx)
    requires tx.peer.paths != []
    ensures var r := SchedulePending(tx);
            if forall j :: 0 <= j < |tx.outs| ==> !Wanted(tx.outs[j]) then r == tx
            else exists w, k, b ::
                   && 0 <= w < |tx.outs| && Wanted(tx.outs[w]) && (forall j :: 0 <= j < w ==> !Wanted(tx.outs[j]))
                   && r == tx.(outs := r.outs, queue := tx.queue + [b]) && b.destination == DestinationOf(tx.peer, tx.outs[w].destination)
                   && IsPacked(tx.peer, b.destination, tx.pmdcs, tx.outs, 0, false, Packing(r.outs, b.chunks), k)
                   && b.chunks != [] && b.chunks[0] == tx.outs[w].chunk
  {
    hide DestinationOf, Pack, IsPacked;
    var w := FirstWanted(tx.outs, 0);
    if w < |tx.outs| {
      var to := DestinationOf(tx.peer, tx.outs[w].destination);
      var p := Pack(tx.peer, to, tx.pmdcs, tx.outs, 0, false);
      var k := PackIs(tx.peer, to, tx.pmdcs, tx.outs, 0, false);
      FirstIsPacked(tx.peer, to, tx.pmdcs, tx.outs, p, k, w);
      assert Packing(p.outs, p.chunks) == p;
      assert Bundle(to, p.chunks).destination == to;
    }
  }

  lemma FirstIsPacked(peer: Peer, to: Addr, pmdcs: nat, outs: seq<Outstanding>, p: Packing, k: nat, w: nat)
    requires peer.paths != [] && w < |outs| && MarkedFor(peer, to, outs[w]) && forall j :: 0 <= j < w ==> !Wanted(outs[j])
    requires IsPacked(peer, to, pmdcs, outs, 0, false, p, k)
    ensures p.chunks != [] && p.chunks[0] == outs[w].chunk
  {
    hide DestinationOf, ChunkSize, FlightLedger.Bytes;
    if k <= w {
      NoneFor(peer, to, outs[..k]);
    } else {
      LeadsWith(peer, to, outs[..k], w);
    }
  }

  lemma {:induction false} NoneFor(peer: Peer, to: Addr, outs: seq<Outstanding>)
    requires peer.paths != [] && forall j :: 0 <= j < |outs| ==> !Wanted(outs[j])
    ensures ChunksFor(peer, to, outs) == []
  {
    if outs != [] {
      NoneFor(peer, to, outs[1..]);
    }
  }

  lemma {:induction false} LeadsWith(peer: Peer, to: Addr, outs: seq<Outstanding>, w: nat)
    requires peer.paths != [] && w < |outs| && MarkedFor(peer, to, outs[w]) && forall j :: 0 <= j < w ==> !Wanted(outs[j])
    ensures ChunksFor(peer, to, outs) != [] && ChunksFor(peer, to, outs)[0] == outs[w].chunk
  {
    hide DestinationOf;
    if w > 0 {
      LeadsWith(peer, to, outs[1..], w - 1);
    }
  }

  lemma {:induction false} IsAmong(peer: Peer, to: Addr, outs: seq<Outstanding>, j: nat)
    requires peer.paths != [] && j < |outs| && MarkedFor(peer, to, outs[j])
    ensures outs[j].chunk in ChunksFor(peer, to, outs)
  {
    hide DestinationOf;
    if j > 0 {
      IsAmong(peer, to, outs[1..], j - 1);
    }
  }

  /** Scheduling leaves a marked chunk marked, or puts it into the packet. */
  lemma ScheduledAt(tx: Tx, j: nat)
    requires tx.peer.paths != [] && j < |tx.outs|
    ensures var r := SchedulePending(tx);
            && |r.outs| == |tx.outs|
            && (r.outs[j] == tx.outs[j]
                || (r.outs[j] == tx.outs[j].(pending := false) && r.queue != [] && tx.outs[j].chunk in r.queue[|r.queue| - 1].chunks))
  {
    hide DestinationOf, Pack;
    var w := FirstWanted(tx.outs, 0);
    if w < |tx.outs| {
      var to := DestinationOf(tx.peer, tx.outs[w].destination);
      var k := PackIs(tx.peer, to, tx.pmdcs, tx.outs, 0, false);
      if j < k && MarkedFor(tx.peer, to, tx.outs[j]) {
        IsAmong(tx.peer, to, tx.outs[..k], j);
      }
    }
  }

  // ----- The queue of retransmissions -----

  /** A packet bound for `a` carries `c`. */
  predicate Queued(queue: seq<Bundle>, a: Addr, c: DataChunk) {
    exists b :: 0 <= b < |queue| && queue[b].destination == a && c in queue[b].chunks
  }

  lemma {:induction false} UnackedIs(sack: SackChunk, chunks: seq<DataChunk>, c: DataChunk)
    ensures c in Unacked(sack, chunks) <==> c in chunks && !SackAcknowledges(sack, c.tsn)
  {
    hide SackAcknowledges;
    if chunks != [] {
      UnackedIs(sack, chunks[1..], c);
      assert c in chunks <==> c == chunks[0] || c in chunks[1..];
    }
  }

  lemma QueuedSplits(queue: seq<Bundle>, a: Addr, c: DataChunk)
    requires queue != []
    ensures Queued(queue, a, c) <==> (queue[0].destination == a && c in queue[0].chunks) || Queued(queue[1..], a, c)
  {
    if Queued(queue, a, c) && !(queue[0].destination == a && c in queue[0].chunks) {
      var b :| 0 <= b < |queue| && queue[b].destination == a && c in queue[b].chunks;
      assert queue[1..][b - 1] == queue[b];
    }
    if Queued(queue[1..], a, c) {
      var b :| 0 <= b < |queue[1..]| && queue[1..][b].destination == a && c in queue[1..][b].chunks;
      assert queue[b + 1] == queue[1..][b];
    }
  }

  /** After a SACK the retransmissions queued are exactly those it does not acknowledge, for
      the destinations they had, and no packet is left empty. */
  lemma {:induction false} TrimmedIs(sack: SackChunk, queue: seq<Bundle>, a: Addr, c: DataChunk)
    ensures Queued(Trimmed(sack, queue), a, c) <==> Queued(queue, a, c) && !SackAcknowledges(sack, c.tsn)
    ensures forall b <- Trimmed(sack, queue) :: b.chunks != []
  {
    hide SackAcknowledges, Unacked, Queued;
    if queue == [] {
      NoneQueued(a, c);
    } else {
      var rest := Trimmed(sack, queue[1..]);
      var kept := Unacked(sack, queue[0].chunks);
      TrimmedIs(sack, queue[1..], a, c);
      UnackedIs(sack, queue[0].chunks, c);
      QueuedSplits(queue, a, c);
      if kept != [] {
        QueuedSplits([queue[0].(chunks := kept)] + rest, a, c);
        assert ([queue[0].(chunks := kept)] + rest)[1..] == rest;
      } else {
        assert Trimmed(sack, queue) == rest;
      }
    }
  }

  lemma NoneQueued(a: Addr, c: DataChunk)
    ensures !Queued([], a, c)
  {
  }

  /** An expiry drops the retransmissions bound for the failed path, and no others. */
  lemma {:induction false} WithoutIs(queue: seq<Bundle>, failed: Addr, a: Addr, c: DataChunk)
    ensures Queued(Without(queue, failed), a, c) <==> Queued(queue, a, c) && a != failed
  {
    hide Queued;
    if queue == [] {
      NoneQueued(a, c);
    } else {
      var rest := Without(queue[1..], failed);
      WithoutIs(queue[1..], failed, a, c);
      QueuedSplits(queue, a, c);
      if queue[0].destination != failed {
        QueuedSplits([queue[0]] + rest, a, c);
        assert ([queue[0]] + rest)[1..] == rest;
      } else {
        assert Without(queue, failed) == rest;
      }
    }
  }

  /** The queue after an expiry: what was bound for the failed path is gone, the rest stays,
      and at most one packet is added behind it. */
  lemma ExpiryPurges(tx: Tx, a: Addr, peer: Peer)
    requires tx.peer.paths != [] && ValidPeer(peer) && Expires(tx, a)
    ensures var r := ExpireT3(tx, a, peer);
            exists kept: seq<Bundle> ::
              && kept <= r.queue && |r.queue| <= |kept| + 1
              && forall to, c :: Queued(kept, to, c) <==> Queued(tx.queue, to, c) && to != a
  {
    hide TimedOut, Without, HasUnacked, Knows, RetransmissionPath, Pack, Queued;
    var kept := Without(tx.queue, a);
    forall to, c
      ensures Queued(kept, to, c) <==> Queued(tx.queue, to, c) && to != a
    {
      WithoutIs(tx.queue, a, to, c);
    }
  }

  /** A SHUTDOWN that moves the point takes what it acknowledges out of the queue as well. */
  lemma ShutdownTrims(tx: Tx, cum: Tsn, a: Addr, c: DataChunk)
    requires tx.peer.paths != [] && TransmitsData(tx.state) && TsnLt(tx.cum, cum)
    ensures Queued(HandleShutdown(tx, cum).queue, a, c) <==> Queued(tx.queue, a, c) && !TsnLte(c.tsn, cum)
  {
    hide Queued, Trimmed, Above, T3AfterShutdown;
    TrimmedIs(SackChunk(cum, 0, [], []), tx.queue, a, c);
  }

  // ----- Sending -----

  /** A chunk that reached the wire is outstanding where it was sent, unacknowledged, and
      counts as retransmitted exactly if it was outstanding before; no other chunk changes. */
  lemma SentIsRecorded(peer: Peer, outs: seq<Outstanding>, a: Addr, c: DataChunk)
    requires peer.paths != []
    ensures var r := RecordSent(peer, outs, a, c);
            var was := exists j :: 0 <= j < |outs| && outs[j].chunk.tsn == c.tsn;
            && (exists j :: 0 <= j < |r| && r[j].chunk.tsn == c.tsn && !r[j].gapAcked && r[j].destination == DestinationOf(peer, a)
                            && r[j].retransmitted == was && (!was ==> r[j].chunk == c && !r[j].pending && r[j].missingReports == 0 && !r[j].fastRetransmitted))
            && |r| == |outs| + (if was then 0 else 1)
            && (forall j :: 0 <= j < |outs| ==> r[j] == outs[j] || (outs[j].chunk.tsn == c.tsn && r[j].chunk == outs[j].chunk && r[j].pending == outs[j].pending))
  {
    hide DestinationOf;
    var i := FindOutstanding(outs, c.tsn, 0);
    var r := RecordSent(peer, outs, a, c);
    assert r[i].chunk.tsn == c.tsn;
  }
}
