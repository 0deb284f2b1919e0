/** The sending half of an association as the code keeps it: fields updated in place, loops
    over the outstanding chunks, the paths and the send queue. Each method is proved to
    take the association from one state of `Transmission` to the next. */
module SendPath {
  import opened Serial
  import opened ReceiveSpec
  import opened Cutting
  import opened Tiling
  import opened SendSpec
  import opened Transmission
  import opened NoStuckChunk

  const SEND_BUFFER: nat := 256 * 1024

  datatype Status = Ok | NotEstablished | ShuttingDown | EmptyMessage | InvalidStream | QueueFull

  datatype T3Action = Keep | Stop | Restart | Start

  // ----- The two passes of a SACK over the outstanding chunks -----

  /** The first pass: acknowledged chunks go, flags follow the report. */
  function AppliedAll(sack: SackChunk, outs: seq<Outstanding>): seq<Outstanding> {
    if outs == [] then []
    else (if Survives(sack, outs[0]) then [Applied(sack, outs[0])] else []) + AppliedAll(sack, outs[1..])
  }

  /** The second pass: missing reports are counted, those just taken back excepted. */
  function CountedAll(below: Highest, reneged: seq<Tsn>, outs: seq<Outstanding>): (r: seq<Outstanding>)
    ensures |r| == |outs|
  {
    if outs == [] then []
    else [Counted(below, outs[0].chunk.tsn in reneged, outs[0])] + CountedAll(below, reneged, outs[1..])
  }

  predicate Marks(below: Highest, reneged: seq<Tsn>, o: Outstanding) {
    !o.fastRetransmitted && Counted(below, o.chunk.tsn in reneged, o).fastRetransmitted
  }

  predicate AnyMarked(below: Highest, reneged: seq<Tsn>, outs: seq<Outstanding>) {
    outs != [] && (Marks(below, reneged, outs[0]) || AnyMarked(below, reneged, outs[1..]))
  }

  predicate Distinct(outs: seq<Outstanding>) {
    forall i, j :: 0 <= i < j < |outs| ==> outs[i].chunk.tsn != outs[j].chunk.tsn
  }

  /** `reneged` lists the chunks the peer took back. */
  ghost predicate ListsReneged(sack: SackChunk, outs: seq<Outstanding>, reneged: seq<Tsn>) {
    forall j :: 0 <= j < |outs| && Survives(sack, outs[j]) ==> (outs[j].chunk.tsn in reneged <==> Reneged(sack, outs[j]))
  }

  lemma {:induction false} TwoPasses(sack: SackChunk, below: Highest, outs: seq<Outstanding>, reneged: seq<Tsn>)
    requires ListsReneged(sack, outs, reneged)
    ensures CountedAll(below, reneged, AppliedAll(sack, outs)) == ProcessSack(sack, below, outs)
    ensures AnyMarked(below, reneged, AppliedAll(sack, outs)) <==> FastRetransmits(sack, below, outs)
  {
    hide Survives, Reneged, Counted, Applied, FastRetransmits;
    if outs == [] {
      NoFastRetransmit(sack, below);
    } else {
      TwoPasses(sack, below, outs[1..], reneged);
      FastRetransmitStep(sack, below, outs);
      if Survives(sack, outs[0]) {
        AppliedSame(sack, outs[0]);
        assert AppliedAll(sack, outs)[1..] == AppliedAll(sack, outs[1..]);
        assert Reneged(sack, outs[0]) <==> AppliedAll(sack, outs)[0].chunk.tsn in reneged;
      } else {
        assert AppliedAll(sack, outs) == AppliedAll(sack, outs[1..]);
        assert ProcessSack(sack, below, outs) == ProcessSack(sack, below, outs[1..]);
      }
    }
  }

  lemma AppliedSame(sack: SackChunk, o: Outstanding)
    ensures Applied(sack, o).chunk == o.chunk && Applied(sack, o).fastRetransmitted == o.fastRetransmitted
  {
  }

  lemma NoFastRetransmit(sack: SackChunk, below: Highest)
    ensures !FastRetransmits(sack, below, [])
  {
  }

  lemma FastRetransmitStep(sack: SackChunk, below: Highest, outs: seq<Outstanding>)
    requires outs != []
    ensures FastRetransmits(sack, below, outs) <==>
              || (Survives(sack, outs[0]) && !outs[0].fastRetransmitted && AfterSack(sack, below, outs[0]).fastRetransmitted)
              || FastRetransmits(sack, below, outs[1..])
  {
    hide Survives, AfterSack;
    if FastRetransmits(sack, below, outs[1..]) {
      var j :| 0 <= j < |outs[1..]| && Survives(sack, outs[1..][j]) && !outs[1..][j].fastRetransmitted
               && AfterSack(sack, below, outs[1..][j]).fastRetransmitted;
      assert outs[1..][j] == outs[j + 1];
    }
    if FastRetransmits(sack, below, outs) {
      var j :| 0 <= j < |outs| && Survives(sack, outs[j]) && !outs[j].fastRetransmitted && AfterSack(sack, below, outs[j]).fastRetransmitted;
      if j > 0 {
        assert outs[1..][j - 1] == outs[j];
      }
    }
  }

  lemma {:induction false} AppliedDistinct(sack: SackChunk, outs: seq<Outstanding>)
    requires Distinct(outs)
    ensures Distinct(AppliedAll(sack, outs))
    ensures forall p <- AppliedAll(sack, outs) :: exists j :: 0 <= j < |outs| && outs[j].chunk == p.chunk
  {
    hide Survives, Applied;
    if outs != [] {
      AppliedDistinct(sack, outs[1..]);
      AppliedSame(sack, outs[0]);
      var rest := AppliedAll(sack, outs[1..]);
      forall p <- rest
        ensures p.chunk.tsn != outs[0].chunk.tsn && exists j :: 0 <= j < |outs| && outs[j].chunk == p.chunk
      {
        var j :| 0 <= j < |outs[1..]| && outs[1..][j].chunk == p.chunk;
        assert outs[j + 1].chunk == p.chunk;
      }
      forall p <- AppliedAll(sack, outs)
        ensures exists j :: 0 <= j < |outs| && outs[j].chunk == p.chunk
      {
        if p !in rest {
          assert outs[0].chunk == p.chunk;
        }
      }
    }
  }

  lemma {:induction false} SameChunks(below: Highest, reneged: seq<Tsn>, outs: seq<Outstanding>)
    ensures var r := CountedAll(below, reneged, outs);
            forall j :: 0 <= j < |outs| ==> r[j].chunk == outs[j].chunk
  {
    if outs != [] {
      SameChunks(below, reneged, outs[1..]);
    }
  }

  /** Every chunk the sender keeps is told from the others by its TSN. */
  lemma RecordDistinct(peer: Peer, outs: seq<Outstanding>, a: Addr, c: DataChunk)
    requires peer.paths != [] && Distinct(outs)
    ensures Distinct(RecordSent(peer, outs, a, c))
  {
  }

  lemma PackDistinct(outs: seq<Outstanding>, after: seq<Outstanding>)
    requires Distinct(outs) && |after| == |outs| && forall j :: 0 <= j < |outs| ==> after[j].chunk == outs[j].chunk
    ensures Distinct(after)
  {
  }

  lemma Regroup<T>(a: seq<T>, x: T, b: seq<T>)
    ensures a + ([x] + b) == (a + [x]) + b
  {
  }

  /** Where a packing stands after `i` chunks. */
  ghost predicate PackedSoFar(peer: Peer, to: Addr, pmdcs: nat, marked: seq<Outstanding>, i: nat, outs: seq<Outstanding>, bundle: seq<DataChunk>, size: nat)
    requires peer.paths != [] && i <= |marked|
  {
    var rest := Pack(peer, to, pmdcs, marked[i..], size, bundle != []);
    Pack(peer, to, pmdcs, marked, 0, false) == Packing(outs + rest.outs, bundle + rest.chunks)
  }

  lemma PackOne(peer: Peer, to: Addr, pmdcs: nat, marked: seq<Outstanding>, i: nat, outs: seq<Outstanding>, bundle: seq<DataChunk>, size: nat)
    requires peer.paths != [] && i < |marked| && PackedSoFar(peer, to, pmdcs, marked, i, outs, bundle, size)
    ensures var o := marked[i];
            if Wanted(o) && DestinationOf(peer, o.destination) == to then
              if bundle != [] && size + ChunkSize(o.chunk) > pmdcs
              then Pack(peer, to, pmdcs, marked, 0, false) == Packing(outs + marked[i..], bundle)
              else PackedSoFar(peer, to, pmdcs, marked, i + 1, outs + [o.(pending := false)], bundle + [o.chunk], size + ChunkSize(o.chunk))
            else PackedSoFar(peer, to, pmdcs, marked, i + 1, outs + [o], bundle, size)
  {
    hide DestinationOf, ChunkSize, Wanted;
    var o := marked[i];
    assert marked[i..] == [o] + marked[i + 1..];
    if Wanted(o) && DestinationOf(peer, o.destination) == to {
      if !(bundle != [] && size + ChunkSize(o.chunk) > pmdcs) {
        var rest := Pack(peer, to, pmdcs, marked[i + 1..], size + ChunkSize(o.chunk), true);
        Regroup(outs, o.(pending := false), rest.outs);
        Regroup(bundle, o.chunk, rest.chunks);
      }
    } else {
      Regroup(outs, o, Pack(peer, to, pmdcs, marked[i + 1..], size, bundle != []).outs);
    }
  }

  /** The loop of `schedule_pending_retransmission` that fills a packet. */
  method PackPending(peer: Peer, to: Addr, pmdcs: nat, marked: seq<Outstanding>) returns (outs: seq<Outstanding>, bundle: seq<DataChunk>)
    requires peer.paths != []
    ensures Packing(outs, bundle) == Pack(peer, to, pmdcs, marked, 0, false)
    ensures forall j :: 0 <= j < |marked| ==> outs[j].chunk == marked[j].chunk
  {
    hide DestinationOf, ChunkSize, Wanted, Pack, PackedSoFar;
    outs, bundle := [], [];
    var size: nat := 0;
    var i := 0;
    PackingBegins(peer, to, pmdcs, marked);
    while i < |marked|
      invariant 0 <= i <= |marked| && |outs| == i
      invariant forall j :: 0 <= j < i ==> outs[j].chunk == marked[j].chunk
      invariant PackedSoFar(peer, to, pmdcs, marked, i, outs, bundle, size)
    {
      var o := marked[i];
      PackOne(peer, to, pmdcs, marked, i, outs, bundle, size);
      if Wanted(o) && DestinationOf(peer, o.destination) == to {
        if bundle != [] && size + ChunkSize(o.chunk) > pmdcs {
          outs := outs + marked[i..];
          return;
        }
        bundle := bundle + [o.chunk];
        size := size + ChunkSize(o.chunk);
        o := o.(pending := false);
      }
      outs := outs + [o];
      i := i + 1;
    }
    PackingEnds(peer, to, pmdcs, marked, outs, bundle, size);
  }

  lemma PackingBegins(peer: Peer, to: Addr, pmdcs: nat, marked: seq<Outstanding>)
    requires peer.paths != []
    ensures PackedSoFar(peer, to, pmdcs, marked, 0, [], [], 0)
  {
    hide Pack;
    assert marked[0..] == marked;
  }

  lemma PackingEnds(peer: Peer, to: Addr, pmdcs: nat, marked: seq<Outstanding>, outs: seq<Outstanding>, bundle: seq<DataChunk>, size: nat)
    requires peer.paths != [] && PackedSoFar(peer, to, pmdcs, marked, |marked|, outs, bundle, size)
    ensures Pack(peer, to, pmdcs, marked, 0, false) == Packing(outs, bundle)
  {
    assert Pack(peer, to, pmdcs, [], size, bundle != []) == Packing([], []);
    hide Pack;
    assert outs + [] == outs && bundle + [] == bundle;
  }

  lemma CutFromStep(limits: Limits, outbound: seq<Outbound>, packetBytes: nat, first: bool)
    requires limits.pmdcs >= 20 && packetBytes <= limits.pmdcs && ValidQueue(outbound) && outbound != []
    ensures var m := outbound[0];
            var take := Take(limits, m, packetBytes, first);
            var r := CutFrom(limits, outbound, packetBytes, first);
            if take == 0 then r == Cut([], outbound, packetBytes) else
              && take <= |m.bytes| - m.offset && packetBytes + WireSize(take) <= limits.pmdcs
              && ValidQueue(Advance(outbound, take)) && BytesLeft(Advance(outbound, take)) == BytesLeft(outbound) - take
              && (if limits.probe && first then r == Cut([NextFragment(m, take)], Advance(outbound, take), packetBytes + WireSize(take))
                  else var more := CutFrom(limits, Advance(outbound, take), packetBytes + WireSize(take), false);
                       r == more.(fragments := [NextFragment(m, take)] + more.fragments))
  {
    hide Take, WireSize, Advance, BytesLeft;
    var m := outbound[0];
    var take := Take(limits, m, packetBytes, first);
    TakeFits(limits, m, packetBytes, first);
    if take > 0 {
      AdvanceLeaves(outbound, take);
    }
  }

  lemma CutNothing(limits: Limits, packetBytes: nat, first: bool)
    requires limits.pmdcs >= 20 && packetBytes <= limits.pmdcs
    ensures CutFrom(limits, [], packetBytes, first) == Cut([], [], packetBytes)
  {
  }

  lemma NumberedMore(next: Tsn, fragments: seq<Fragment>, x: Fragment)
    ensures Numbered(next, fragments + [x]) == Numbered(next, fragments) + [DataChunk((next + |fragments|) % TSN_SPACE, x)]
  {
  }

  lemma NextOne(next: Tsn, n: nat)
    ensures ((next + n) % TSN_SPACE + 1) % TSN_SPACE == (next + n + 1) % TSN_SPACE
  {
  }

  // ----- What a SACK says of each path -----

  function PathIndex(peer: Peer, a: Addr): (p: nat)
    requires peer.paths != []
    ensures p < |peer.paths| && peer.paths[p].address == DestinationOf(peer, a)
  {
    var p := FindPath(peer.paths, a, 0);
    if p < |peer.paths| then p else Primary(peer)
  }

  /** With no address twice, an index names a path as well as an address does. */
  lemma OnlyPath(peer: Peer, a: Addr)
    requires ValidPeer(peer)
    ensures forall p :: 0 <= p < |peer.paths| ==> (peer.paths[p].address == DestinationOf(peer, a) <==> p == PathIndex(peer, a))
  {
  }

  /** The chunk each path has had in flight the longest. */
  method EarliestOnPaths(peer: Peer, cum: Tsn, outs: seq<Outstanding>) returns (earliest: seq<Highest>)
    requires ValidPeer(peer)
    ensures |earliest| == |peer.paths|
    ensures forall p :: 0 <= p < |earliest| ==> earliest[p] == Earliest(peer, cum, outs, peer.paths[p].address, |outs|)
  {
    hide DestinationOf, PathIndex;
    earliest := seq(|peer.paths|, _ => NoTsn);
    var i := 0;
    while i < |outs|
      invariant 0 <= i <= |outs| && |earliest| == |peer.paths|
      invariant forall p :: 0 <= p < |earliest| ==> earliest[p] == Earliest(peer, cum, outs, peer.paths[p].address, i)
    {
      var o := outs[i];
      if !o.gapAcked {
        var q := PathIndex(peer, o.destination);
        OnlyPath(peer, o.destination);
        var tsn := o.chunk.tsn;
        if earliest[q].NoTsn? || (tsn - cum) % TSN_SPACE < (earliest[q].tsn - cum) % TSN_SPACE {
          earliest := earliest[q := Highest(tsn)];
        }
      }
      i := i + 1;
    }
  }

  /** The highest TSN newly acknowledged, and the highest reported at all. */
  method HighestTsns(sack: SackChunk, outs: seq<Outstanding>) returns (htna: Highest, reported: Highest)
    ensures htna == HighestNewlyAcked(sack, outs, |outs|) && reported == HighestReported(sack, outs, |outs|)
  {
    htna, reported := NoTsn, NoTsn;
    var i := 0;
    while i < |outs|
      invariant 0 <= i <= |outs|
      invariant htna == HighestNewlyAcked(sack, outs, i) && reported == HighestReported(sack, outs, i)
    {
      var tsn, acknowledged := outs[i].chunk.tsn, SackAcknowledges(sack, outs[i].chunk.tsn);
      if acknowledged && !outs[i].gapAcked && (htna.NoTsn? || TsnLt(htna.tsn, tsn)) {
        htna := Highest(tsn);
      }
      if acknowledged && (reported.NoTsn? || TsnLt(reported.tsn, tsn)) {
        reported := Highest(tsn);
      }
      i := i + 1;
    }
  }

  predicate TakenBack(sack: SackChunk, o: Outstanding) {
    Survives(sack, o) && Reneged(sack, o)
  }

  /** The TSNs taken back among the first `n` chunks, and whether one was bound for `a`. */
  function TsnsTakenBack(sack: SackChunk, outs: seq<Outstanding>, n: nat): seq<Tsn>
    requires n <= |outs|
  {
    if n == 0 then [] else TsnsTakenBack(sack, outs, n - 1) + (if TakenBack(sack, outs[n - 1]) then [outs[n - 1].chunk.tsn] else [])
  }

  predicate TakenBackOn(peer: Peer, sack: SackChunk, outs: seq<Outstanding>, n: nat, a: Addr)
    requires n <= |outs| && peer.paths != []
  {
    n > 0 && ((TakenBack(sack, outs[n - 1]) && DestinationOf(peer, outs[n - 1].destination) == a) || TakenBackOn(peer, sack, outs, n - 1, a))
  }

  lemma {:induction false} TakenBackMeans(peer: Peer, sack: SackChunk, outs: seq<Outstanding>, n: nat, a: Addr)
    requires n <= |outs| && peer.paths != []
    ensures TakenBackOn(peer, sack, outs, n, a) <==>
              exists j :: 0 <= j < n && Survives(sack, outs[j]) && Reneged(sack, outs[j]) && DestinationOf(peer, outs[j].destination) == a
  {
    hide Survives, Reneged, DestinationOf;
    if n > 0 {
      TakenBackMeans(peer, sack, outs, n - 1, a);
    }
  }

  lemma AppliedOne(sack: SackChunk, outs: seq<Outstanding>, i: nat, after: seq<Outstanding>)
    requires i < |outs| && after + AppliedAll(sack, outs[i..]) == AppliedAll(sack, outs)
    ensures var more := if Survives(sack, outs[i]) then after + [Applied(sack, outs[i])] else after;
            more + AppliedAll(sack, outs[i + 1..]) == AppliedAll(sack, outs)
  {
    hide Survives, Applied;
    assert outs[i..] == [outs[i]] + outs[i + 1..];
    Regroup(after, Applied(sack, outs[i]), AppliedAll(sack, outs[i + 1..]));
  }

  lemma CountedOne(below: Highest, reneged: seq<Tsn>, outs: seq<Outstanding>, i: nat, after: seq<Outstanding>, marked: bool)
    requires i < |outs| && after + CountedAll(below, reneged, outs[i..]) == CountedAll(below, reneged, outs)
    requires marked || AnyMarked(below, reneged, outs[i..]) <==> AnyMarked(below, reneged, outs)
    ensures after + [Counted(below, outs[i].chunk.tsn in reneged, outs[i])] + CountedAll(below, reneged, outs[i + 1..]) == CountedAll(below, reneged, outs)
    ensures marked || Marks(below, reneged, outs[i]) || AnyMarked(below, reneged, outs[i + 1..]) <==> AnyMarked(below, reneged, outs)
  {
    hide Counted, Marks;
    assert outs[i..] == [outs[i]] + outs[i + 1..];
    Regroup(after, Counted(below, outs[i].chunk.tsn in reneged, outs[i]), CountedAll(below, reneged, outs[i + 1..]));
  }

  lemma {:induction false} TakenBackListed(sack: SackChunk, outs: seq<Outstanding>, n: nat)
    requires n <= |outs| && Distinct(outs)
    ensures forall j :: 0 <= j < n ==> (outs[j].chunk.tsn in TsnsTakenBack(sack, outs, n) <==> TakenBack(sack, outs[j]))
    ensures forall j :: n <= j < |outs| ==> outs[j].chunk.tsn !in TsnsTakenBack(sack, outs, n)
  {
    hide TakenBack;
    if n > 0 {
      TakenBackListed(sack, outs, n - 1);
    }
  }

  /** The first pass over the outstanding chunks. */
  method ApplySack(peer: Peer, sack: SackChunk, outs: seq<Outstanding>)
    returns (after: seq<Outstanding>, renegedTsns: seq<Tsn>, renegedOn: seq<bool>)
    requires ValidPeer(peer) && Distinct(outs)
    ensures after == AppliedAll(sack, outs) && ListsReneged(sack, outs, renegedTsns)
    ensures |renegedOn| == |peer.paths|
    ensures forall p :: 0 <= p < |renegedOn| ==> (renegedOn[p] <==> TakenBackOn(peer, sack, outs, |outs|, peer.paths[p].address))
  {
    hide DestinationOf, PathIndex, SackAcknowledges, TsnLte, Distinct, AppliedAll;
    after, renegedTsns, renegedOn := [], [], seq(|peer.paths|, _ => false);
    var i := 0;
    assert outs[0..] == outs;
    while i < |outs|
      invariant 0 <= i <= |outs| && |renegedOn| == |peer.paths|
      invariant after + AppliedAll(sack, outs[i..]) == AppliedAll(sack, outs)
      invariant renegedTsns == TsnsTakenBack(sack, outs, i)
      invariant forall p :: 0 <= p < |renegedOn| ==> (renegedOn[p] <==> TakenBackOn(peer, sack, outs, i, peer.paths[p].address))
    {
      var o := outs[i];
      AppliedOne(sack, outs, i, after);
      if !TsnLte(o.chunk.tsn, sack.cumulativeTsnAck) {
        if SackAcknowledges(sack, o.chunk.tsn) {
          after := after + [o.(gapAcked := true, pending := false)];
        } else if o.gapAcked {
          var q := PathIndex(peer, o.destination);
          OnlyPath(peer, o.destination);
          renegedTsns, renegedOn := renegedTsns + [o.chunk.tsn], renegedOn[q := true];
          after := after + [o.(gapAcked := false, missingReports := if o.fastRetransmitted then o.missingReports else o.missingReports + 1)];
        } else {
          after := after + [o];
        }
      }
      i := i + 1;
    }
    AppliedNone(sack);
    assert outs[i..] == [] && after + [] == after;
    TakenBackListed(sack, outs, |outs|);
  }

  lemma AppliedNone(sack: SackChunk)
    ensures AppliedAll(sack, []) == []
  {
  }

  lemma CountedNone(below: Highest, reneged: seq<Tsn>)
    ensures CountedAll(below, reneged, []) == [] && !AnyMarked(below, reneged, [])
  {
  }

  /** The second pass: the third report marks a chunk for fast retransmission. */
  method CountMissing(below: Highest, renegedTsns: seq<Tsn>, outs: seq<Outstanding>) returns (after: seq<Outstanding>, marked: bool)
    ensures after == CountedAll(below, renegedTsns, outs)
    ensures marked <==> AnyMarked(below, renegedTsns, outs)
  {
    hide TsnLt, CountedAll, AnyMarked;
    after, marked := [], false;
    var i := 0;
    assert outs[0..] == outs;
    while i < |outs|
      invariant 0 <= i <= |outs|
      invariant after + CountedAll(below, renegedTsns, outs[i..]) == CountedAll(below, renegedTsns, outs)
      invariant marked || AnyMarked(below, renegedTsns, outs[i..]) <==> AnyMarked(below, renegedTsns, outs)
    {
      var o := outs[i];
      CountedOne(below, renegedTsns, outs, i, after, marked);
      if !o.gapAcked && !o.fastRetransmitted {
        if ReportedMissing(below, o.chunk.tsn) && o.chunk.tsn !in renegedTsns {
          o := o.(missingReports := o.missingReports + 1);
        }
        if o.missingReports >= 3 {
          o, marked := o.(fastRetransmitted := true, pending := true), true;
        }
      }
      after := after + [o];
      i := i + 1;
    }
    CountedNone(below, renegedTsns);
    assert outs[i..] == [] && after + [] == after;
  }

  lemma TrimmedOne(sack: SackChunk, queue: seq<Bundle>, i: nat, retained: seq<Bundle>)
    requires i < |queue| && retained + Trimmed(sack, queue[i..]) == Trimmed(sack, queue)
    ensures var kept := Unacked(sack, queue[i].chunks);
            var more := if kept == [] then retained else retained + [queue[i].(chunks := kept)];
            more + Trimmed(sack, queue[i + 1..]) == Trimmed(sack, queue)
  {
    hide Unacked;
    assert queue[i..] == [queue[i]] + queue[i + 1..];
    Regroup(retained, queue[i].(chunks := Unacked(sack, queue[i].chunks)), Trimmed(sack, queue[i + 1..]));
  }

  lemma TrimmedNone(sack: SackChunk)
    ensures Trimmed(sack, []) == []
  {
  }

  /** `remove_acked_retransmissions`. */
  method TrimAcked(sack: SackChunk, queue: seq<Bundle>) returns (retained: seq<Bundle>)
    ensures retained == Trimmed(sack, queue)
  {
    hide Unacked, Trimmed;
    retained := [];
    var i := 0;
    assert queue[0..] == queue;
    while i < |queue|
      invariant 0 <= i <= |queue| && retained + Trimmed(sack, queue[i..]) == Trimmed(sack, queue)
    {
      TrimmedOne(sack, queue, i, retained);
      var chunks := Unacked(sack, queue[i].chunks);
      if chunks != [] {
        retained := retained + [queue[i].(chunks := chunks)];
      }
      i := i + 1;
    }
    TrimmedNone(sack);
    assert queue[i..] == [] && retained + [] == retained;
  }

  lemma WithoutOne(queue: seq<Bundle>, a: Addr, i: nat, retained: seq<Bundle>)
    requires i < |queue| && retained + Without(queue[i..], a) == Without(queue, a)
    ensures (if queue[i].destination == a then retained else retained + [queue[i]]) + Without(queue[i + 1..], a) == Without(queue, a)
  {
    assert queue[i..] == [queue[i]] + queue[i + 1..];
    Regroup(retained, queue[i], Without(queue[i + 1..], a));
  }

  lemma WithoutNone(a: Addr)
    ensures Without([], a) == []
  {
  }

  /** `remove_retransmissions_of_type`, for the DATA bound for one address. */
  method DropBoundFor(queue: seq<Bundle>, a: Addr) returns (retained: seq<Bundle>)
    ensures retained == Without(queue, a)
  {
    hide Without;
    retained := [];
    var i := 0;
    assert queue[0..] == queue;
    while i < |queue|
      invariant 0 <= i <= |queue| && retained + Without(queue[i..], a) == Without(queue, a)
    {
      WithoutOne(queue, a, i, retained);
      if queue[i].destination != a {
        retained := retained + [queue[i]];
      }
      i := i + 1;
    }
    WithoutNone(a);
    assert queue[i..] == [] && retained + [] == retained;
  }

  // ----- The association -----

  /** The next SSN of each stream counts the ordered messages queued on it. */
  ghost predicate SsnsCount(nextSsn: seq<U16>, queued: seq<Outbound>) {
    |nextSsn| <= SSN_SPACE && forall id: U16 :: id < |nextSsn| ==> nextSsn[id] == Queued(queued, id, |queued|) % SSN_SPACE
  }

  lemma SsnOf(nextSsn: seq<U16>, queued: seq<Outbound>, id: U16)
    requires SsnsCount(nextSsn, queued) && id < |nextSsn|
    ensures nextSsn[id] == Queued(queued, id, |queued|) % SSN_SPACE
  {
  }

  lemma SsnsCountMore(nextSsn: seq<U16>, queued: seq<Outbound>, m: Outbound)
    requires SsnsCount(nextSsn, queued) && m.stream < |nextSsn|
    ensures SsnsCount(if m.unordered then nextSsn else nextSsn[m.stream := (nextSsn[m.stream] + 1) % SSN_SPACE], queued + [m])
  {
    forall id: U16 | id < |nextSsn|
      ensures Queued(queued + [m], id, |queued| + 1) == Queued(queued, id, |queued|) + (if !m.unordered && m.stream == id then 1 else 0)
    {
      QueuedOfPrefix(queued, [m], id, |queued|);
    }
  }

  lemma {:induction false} QueuedBytes(outbound: seq<Outbound>, m: Outbound)
    requires ValidQueue(outbound) && m.offset == 0 && m.bytes != []
    ensures ValidQueue(outbound + [m]) && BytesLeft(outbound + [m]) == BytesLeft(outbound) + |m.bytes|
    decreases |outbound|
  {
    if outbound != [] {
      QueuedBytes(outbound[1..], m);
      assert (outbound + [m])[1..] == outbound[1..] + [m];
    }
  }

  // ----- What T3-rtx does after a SACK -----

  function ActionFor(tx: Tx, sack: SackChunk, after: seq<Outstanding>, fast: bool, a: Addr): T3Action
    requires tx.peer.paths != []
  {
    if !HasUnacked(tx.peer, after, a) then (if a in tx.t3 then Stop else Keep)
    else if RestartsT3(tx, sack, after, fast, a) then Restart
    else if RenegedOn(tx, sack, a) then Start
    else Keep
  }

  /** Whether T3-rtx of `a` runs once the action has been carried out. */
  predicate RunsAfter(action: T3Action, ran: bool, unacked: bool) {
    match action
    case Keep => ran
    case Stop => false
    case Restart => unacked
    case Start => ran || unacked
  }

  lemma ActionsGiveT3(tx: Tx, sack: SackChunk, after: seq<Outstanding>, fast: bool, t3: set<Addr>)
    requires tx.peer.paths != []
    requires forall p :: 0 <= p < |tx.peer.paths| ==>
               var a := tx.peer.paths[p].address;
               a in t3 <==> RunsAfter(ActionFor(tx, sack, after, fast, a), a in tx.t3, HasUnacked(tx.peer, after, a))
    requires forall a :: !Knows(tx.peer, a) ==> (a in t3 <==> a in tx.t3)
    ensures t3 == T3AfterSack(tx, sack, after, fast)
  {
    hide HasUnacked, RestartsT3, RenegedOn;
    forall p | 0 <= p < |tx.peer.paths|
      ensures tx.peer.paths[p].address in t3 <==> T3RunsAfter(tx, sack, after, fast, tx.peer.paths[p].address)
    {
    }
    hide ActionFor, T3RunsAfter;
    forall a
      ensures a in t3 <==> a in T3AfterSack(tx, sack, after, fast)
    {
      if Knows(tx.peer, a) {
        var p :| 0 <= p < |tx.peer.paths| && tx.peer.paths[p].address == a;
      }
    }
  }

  lemma StaysDistinct(sack: SackChunk, below: Highest, outs: seq<Outstanding>, reneged: seq<Tsn>)
    requires Distinct(outs)
    ensures Distinct(CountedAll(below, reneged, AppliedAll(sack, outs)))
  {
    hide AppliedAll, CountedAll;
    AppliedDistinct(sack, outs);
    SameChunks(below, reneged, AppliedAll(sack, outs));
  }

  lemma RenegedPaths(tx: Tx, sack: SackChunk, renegedOn: seq<bool>)
    requires tx.peer.paths != [] && |renegedOn| == |tx.peer.paths|
    requires forall p :: 0 <= p < |renegedOn| ==> (renegedOn[p] <==> TakenBackOn(tx.peer, sack, tx.outs, |tx.outs|, tx.peer.paths[p].address))
    ensures forall p :: 0 <= p < |renegedOn| ==> (renegedOn[p] <==> RenegedOn(tx, sack, tx.peer.paths[p].address))
  {
    hide TakenBackOn, Survives, Reneged, DestinationOf;
    forall p | 0 <= p < |renegedOn|
      ensures renegedOn[p] <==> RenegedOn(tx, sack, tx.peer.paths[p].address)
    {
      TakenBackMeans(tx.peer, sack, tx.outs, |tx.outs|, tx.peer.paths[p].address);
    }
  }

  /** Packing a retransmission leaves what is unacknowledged as it was. */
  lemma SchedulingKeepsUnacked(tx: Tx, a: Addr)
    requires tx.peer.paths != []
    ensures HasUnacked(tx.peer, SchedulePending(tx).outs, a) <==> HasUnacked(tx.peer, tx.outs, a)
  {
    var first := FirstWanted(tx.outs, 0);
    if first < |tx.outs| {
      var to := DestinationOf(tx.peer, tx.outs[first].destination);
      var outs := Pack(tx.peer, to, tx.pmdcs, tx.outs, 0, false).outs;
      forall j | 0 <= j < |outs|
        ensures outs[j].gapAcked == tx.outs[j].gapAcked && outs[j].destination == tx.outs[j].destination
      {
        PackKeeps(tx.peer, to, tx.pmdcs, tx.outs, 0, false, j);
      }
    }
  }

  // ----- T3-rtx expiry and SHUTDOWN over the outstanding chunks -----

  /** Marks what was in flight to the path that timed out. */
  method MarkTimedOut(peer: Peer, outs: seq<Outstanding>, a: Addr, target: Addr) returns (after: seq<Outstanding>)
    requires peer.paths != []
    ensures after == TimedOut(peer, outs, a, target)
    ensures forall j :: 0 <= j < |outs| ==> after[j].chunk == outs[j].chunk
  {
    hide TimedOut, DestinationOf;
    after := outs;
    var i := 0;
    while i < |outs|
      invariant 0 <= i <= |outs| == |after|
      invariant forall j :: 0 <= j < |outs| ==> after[j].chunk == outs[j].chunk
      invariant forall j :: 0 <= j < i ==> after[j] == TimedOut(peer, outs, a, target)[j]
      invariant forall j :: i <= j < |outs| ==> after[j] == outs[j]
    {
      var o := after[i];
      TimedOutAt(peer, outs, a, target, i);
      if !o.gapAcked && !o.pending && DestinationOf(peer, o.destination) == a {
        after := after[i := o.(pending := true, destination := target)];
      }
      i := i + 1;
    }
  }

  predicate AckedBy(cum: Tsn, o: Outstanding) {
    TsnLte(o.chunk.tsn, cum) && !o.gapAcked
  }

  predicate AckedOnAmong(peer: Peer, cum: Tsn, outs: seq<Outstanding>, n: nat, a: Addr)
    requires n <= |outs| && peer.paths != []
  {
    n > 0 && ((AckedBy(cum, outs[n - 1]) && DestinationOf(peer, outs[n - 1].destination) == a) || AckedOnAmong(peer, cum, outs, n - 1, a))
  }

  lemma {:induction false} AckedOnMeans(peer: Peer, cum: Tsn, outs: seq<Outstanding>, n: nat, a: Addr)
    requires n <= |outs| && peer.paths != []
    ensures AckedOnAmong(peer, cum, outs, n, a) <==>
              exists j :: 0 <= j < n && TsnLte(outs[j].chunk.tsn, cum) && !outs[j].gapAcked && DestinationOf(peer, outs[j].destination) == a
  {
    hide TsnLte, DestinationOf;
    if n > 0 {
      AckedOnMeans(peer, cum, outs, n - 1, a);
    }
  }

  lemma AboveOne(cum: Tsn, outs: seq<Outstanding>, i: nat, after: seq<Outstanding>)
    requires i < |outs| && after + Above(cum, outs[i..]) == Above(cum, outs)
    ensures var more := if TsnLte(outs[i].chunk.tsn, cum) then after else after + [outs[i]];
            more + Above(cum, outs[i + 1..]) == Above(cum, outs)
  {
    hide TsnLte;
    assert outs[i..] == [outs[i]] + outs[i + 1..];
    Regroup(after, outs[i], Above(cum, outs[i + 1..]));
  }

  lemma {:induction false} AboveDistinct(cum: Tsn, outs: seq<Outstanding>)
    requires Distinct(outs)
    ensures Distinct(Above(cum, outs))
    ensures forall p <- Above(cum, outs) :: p in outs
  {
    if outs != [] {
      AboveDistinct(cum, outs[1..]);
      var rest := Above(cum, outs[1..]);
      forall p <- rest
        ensures p.chunk.tsn != outs[0].chunk.tsn && p in outs
      {
        var j :| 0 <= j < |outs[1..]| && outs[1..][j] == p;
        assert outs[j + 1] == p;
      }
    }
  }

  /** Drops what a SHUTDOWN acknowledges, and finds the paths it was sent on. */
  method DropAcked(peer: Peer, cum: Tsn, outs: seq<Outstanding>) returns (after: seq<Outstanding>, ackedOn: seq<bool>)
    requires ValidPeer(peer) && Distinct(outs)
    ensures after == Above(cum, outs) && Distinct(after)
    ensures |ackedOn| == |peer.paths|
    ensures forall p :: 0 <= p < |ackedOn| ==> (ackedOn[p] <==> AckedOn(peer, cum, outs, peer.paths[p].address))
  {
    hide Above, TsnLte, DestinationOf, PathIndex, Distinct, AckedOn;
    after, ackedOn := [], seq(|peer.paths|, _ => false);
    var i := 0;
    assert outs[0..] == outs;
    while i < |outs|
      invariant 0 <= i <= |outs| && |ackedOn| == |peer.paths|
      invariant after + Above(cum, outs[i..]) == Above(cum, outs)
      invariant forall p :: 0 <= p < |ackedOn| ==> (ackedOn[p] <==> AckedOnAmong(peer, cum, outs, i, peer.paths[p].address))
    {
      var o := outs[i];
      AboveOne(cum, outs, i, after);
      if !TsnLte(o.chunk.tsn, cum) {
        after := after + [o];
      } else if !o.gapAcked {
        OnlyPath(peer, o.destination);
        ackedOn := ackedOn[PathIndex(peer, o.destination) := true];
      }
      i := i + 1;
    }
    AboveEnds(cum, outs, after);
    AboveDistinct(cum, outs);
    forall p | 0 <= p < |ackedOn|
      ensures ackedOn[p] <==> AckedOn(peer, cum, outs, peer.paths[p].address)
    {
      AckedOnAll(peer, cum, outs, peer.paths[p].address);
    }
  }

  lemma AckedOnAll(peer: Peer, cum: Tsn, outs: seq<Outstanding>, a: Addr)
    requires peer.paths != []
    ensures AckedOnAmong(peer, cum, outs, |outs|, a) <==> AckedOn(peer, cum, outs, a)
  {
    hide AckedOnAmong;
    AckedOnMeans(peer, cum, outs, |outs|, a);
  }

  lemma AboveEnds(cum: Tsn, outs: seq<Outstanding>, after: seq<Outstanding>)
    requires after + Above(cum, outs[|outs|..]) == Above(cum, outs)
    ensures after == Above(cum, outs)
  {
    assert after + [] == after;
  }

  lemma RestartsGiveT3(tx: Tx, cum: Tsn, ackedOn: seq<bool>, t3: set<Addr>)
    requires tx.peer.paths != [] && |ackedOn| == |tx.peer.paths|
    requires forall p :: 0 <= p < |ackedOn| ==> (ackedOn[p] <==> AckedOn(tx.peer, cum, tx.outs, tx.peer.paths[p].address))
    requires forall p :: 0 <= p < |tx.peer.paths| ==>
               var a := tx.peer.paths[p].address; a in t3 <==> if ackedOn[p] then HasUnacked(tx.peer, Above(cum, tx.outs), a) else a in tx.t3
    requires forall a :: !Knows(tx.peer, a) ==> (a in t3 <==> a in tx.t3)
    ensures t3 == T3AfterShutdown(tx, cum)
  {
    hide HasUnacked, AckedOn, Above;
    forall a
      ensures a in t3 <==> a in T3AfterShutdown(tx, cum)
    {
      if Knows(tx.peer, a) {
        var p :| 0 <= p < |tx.peer.paths| && tx.peer.paths[p].address == a;
        assert a in t3 <==> if ackedOn[p] then HasUnacked(tx.peer, Above(cum, tx.outs), a) else a in tx.t3;
      }
    }
  }

  class Sender {
    var state: AssociationState
    var peer: Peer
    const pmdcs: nat
    var cumulativeTsnAck: Tsn
    var nextTsn: Tsn
    var outstandingData: seq<Outstanding>
    var t3: set<Addr>
    var retransmissions: seq<Bundle>
    var newData: seq<Bundle>
    var outbound: seq<Outbound>
    var outboundBytes: nat
    var nextSsn: seq<U16>
    var inFastRecovery: bool
    var fastRecoveryExitTsn: Tsn
    ghost var queued: seq<Outbound> // every message the ULP has queued

    ghost function View(): Tx
      reads this
    {
      Tx(state, peer, pmdcs, cumulativeTsnAck, nextTsn, outstandingData, t3, retransmissions, newData, outbound, inFastRecovery, fastRecoveryExitTsn)
    }

    ghost predicate Valid()
      reads this
    {
      && ValidPeer(peer) && pmdcs >= 20 && Distinct(outstandingData)
      && ValidQueue(outbound) && outboundBytes == BytesLeft(outbound)
      && SsnsCount(nextSsn, queued)
    }

    constructor (peer: Peer, pmdcs: nat, initialTsn: Tsn, outStreams: U16)
      requires ValidPeer(peer) && pmdcs >= 20
      ensures Valid() && queued == [] && |nextSsn| == outStreams
      ensures View() == Tx(Established, peer, pmdcs, (initialTsn - 1) % TSN_SPACE, initialTsn, [], {}, [], [], [], false, 0)
    {
      state, this.peer, this.pmdcs := Established, peer, pmdcs;
      cumulativeTsnAck, nextTsn := (initialTsn - 1) % TSN_SPACE, initialTsn;
      outstandingData, t3, retransmissions, newData := [], {}, [], [];
      outbound, outboundBytes := [], 0;
      nextSsn := seq(outStreams, _ => 0);
      inFastRecovery, fastRecoveryExitTsn := false, 0;
      queued := [];
    }

    // ----- T3-rtx -----

    method RestartT3(a: Addr)
      requires Valid()
      modifies this`t3
      ensures Valid() && View() == Transmission.RestartT3(old(View()), a)
    {
      if !Knows(peer, a) || !HasUnacked(peer, outstandingData, a) {
        t3 := t3 - {a};
        return;
      }
      t3 := t3 + {a};
    }

    method StartT3IfStopped(a: Addr)
      requires Valid()
      modifies this`t3
      ensures Valid() && View() == Transmission.StartT3IfStopped(old(View()), a)
    {
      if a !in t3 {
        RestartT3(a);
      }
    }

    // ----- Sending -----

    method RecordDataSent(destination: Addr, c: DataChunk)
      requires Valid()
      modifies this`outstandingData
      ensures Valid()
      ensures outstandingData == if TransmitsData(state) then RecordSent(peer, old(outstandingData), destination, c) else old(outstandingData)
    {
      if !TransmitsData(state) {
        return;
      }
      RecordDistinct(peer, outstandingData, destination, c);
      var sentOn := if Knows(peer, destination) then destination else peer.paths[Primary(peer)].address;
      var i := FindOutstanding(outstandingData, c.tsn, 0);
      if i == |outstandingData| {
        outstandingData := outstandingData + [Outstanding(c, false, false, 0, false, false, sentOn)];
        return;
      }
      var sent := outstandingData[i].(retransmitted := true, gapAcked := false, destination := sentOn);
      outstandingData := outstandingData[i := sent];
    }

    /** A packet left: its chunks are outstanding and its destination is timed. */
    method RecordPacketSent(b: Bundle)
      requires Valid()
      modifies this`outstandingData, this`t3
      ensures Valid() && View() == Sent(old(View()), b)
    {
      var i := 0;
      while i < |b.chunks|
        invariant 0 <= i <= |b.chunks| && Valid() && t3 == old(t3)
        invariant if TransmitsData(state)
                  then RecordAllSent(peer, outstandingData, b.destination, b.chunks[i..]) == RecordAllSent(peer, old(outstandingData), b.destination, b.chunks)
                  else outstandingData == old(outstandingData)
      {
        RecordDataSent(b.destination, b.chunks[i]);
        i := i + 1;
      }
      if b.chunks != [] {
        StartT3IfStopped(b.destination);
      }
    }

    method SendRetransmission()
      requires Valid() && retransmissions != []
      modifies this`outstandingData, this`t3, this`retransmissions
      ensures Valid() && View() == Transmission.SendRetransmission(old(View()))
    {
      var b := retransmissions[0];
      retransmissions := retransmissions[1..];
      RecordPacketSent(b);
    }

    method SendNewData()
      requires Valid() && newData != []
      modifies this`outstandingData, this`t3, this`newData
      ensures Valid() && View() == Transmission.SendNewData(old(View()))
    {
      var b := newData[0];
      newData := newData[1..];
      RecordPacketSent(b);
    }

    /** `bytes_in_flight` of one path. */
    method BytesInFlight(a: Addr) returns (total: nat)
      requires Valid()
      ensures total == Flight(peer, outstandingData, a)
    {
      total := 0;
      var i := 0;
      while i < |outstandingData|
        invariant 0 <= i <= |outstandingData|
        invariant total + Flight(peer, outstandingData[i..], a) == Flight(peer, outstandingData, a)
      {
        var o := outstandingData[i];
        if !o.gapAcked && !o.pending && DestinationOf(peer, o.destination) == a {
          total := total + ChunkSize(o.chunk);
        }
        i := i + 1;
      }
    }

    /** One packet of the lowest marked TSNs that share a destination. `cwndOpen` is
        asked of that destination, and heeded when the call is `gated`. */
    method SchedulePendingRetransmission(gated: bool, cwndOpen: Addr -> bool)
      requires Valid()
      modifies this`outstandingData, this`retransmissions
      ensures Valid()
      ensures !gated ==> View() == SchedulePending(old(View()))
      ensures View() == SchedulePending(old(View())) || View() == old(View())
    {
      var first := FirstWanted(outstandingData, 0);
      if first == |outstandingData| {
        return;
      }
      var to := DestinationOf(peer, outstandingData[first].destination);
      if gated && !cwndOpen(to) {
        return;
      }
      var outs, bundle := PackPending(peer, to, pmdcs, outstandingData);
      PackDistinct(outstandingData, outs);
      outstandingData := outs;
      retransmissions := retransmissions + [Bundle(to, bundle)];
    }

    // ----- New DATA -----

    /** Cuts one packet. `outboundBytes` stays what is left, and `blocked` says that the
        peer's window let no chunk out. */
    method CutNewData(limits: Limits) returns (chunks: seq<DataChunk>, blocked: bool)
      requires Valid() && limits.pmdcs == pmdcs
      modifies this`outbound, this`outboundBytes, this`nextTsn
      ensures Valid()
      ensures var r := CutFrom(limits, old(outbound), 0, true);
              && chunks == Numbered(old(nextTsn), r.fragments) && outbound == r.outbound
              && nextTsn == (old(nextTsn) + |r.fragments|) % TSN_SPACE
              && (blocked <==> old(outbound) != [] && r.fragments == [])
              && (r.fragments == [] ==> outbound == old(outbound))
    {
      hide Take, WireSize, Advance, BytesLeft, CutFrom, SsnsCount, ValidPeer, Distinct, Numbered;
      ghost var whole := CutFrom(limits, outbound, 0, true);
      ghost var fragments: seq<Fragment> := [];
      chunks, blocked := [], false;
      var packetBytes: nat, done := 0, false;
      while !done && outbound != []
        invariant Valid() && packetBytes <= pmdcs && !blocked
        invariant |chunks| == |fragments| && chunks == Numbered(old(nextTsn), fragments) && nextTsn == (old(nextTsn) + |fragments|) % TSN_SPACE
        invariant fragments == [] ==> outbound == old(outbound)
        invariant done ==> fragments == whole.fragments && outbound == whole.outbound && fragments != []
        invariant !done ==> var rest := CutFrom(limits, outbound, packetBytes, fragments == []);
                            whole.fragments == fragments + rest.fragments && whole.outbound == rest.outbound
        decreases !done, BytesLeft(outbound)
      {
        var m := outbound[0];
        CutFromStep(limits, outbound, packetBytes, fragments == []);
        var take := Take(limits, m, packetBytes, chunks == []);
        if take == 0 {
          assert fragments + [] == fragments;
          blocked := chunks == [];
          return;
        }
        var probe := limits.probe && chunks == [];
        NumberedMore(old(nextTsn), fragments, NextFragment(m, take));
        NextOne(old(nextTsn), |fragments|);
        fragments := fragments + [NextFragment(m, take)];
        chunks := chunks + [DataChunk(nextTsn, NextFragment(m, take))];
        nextTsn := (nextTsn + 1) % TSN_SPACE;
        packetBytes := packetBytes + WireSize(take);
        outboundBytes := outboundBytes - take;
        outbound := Advance(outbound, take);
        done := probe;
      }
      if !done {
        CutNothing(limits, packetBytes, fragments == []);
        assert fragments + [] == fragments;
      }
    }

    /** `refill_new_data` for one association whose window is open. */
    method RefillNewData(limits: Limits) returns (blocked: bool)
      requires Valid() && limits.pmdcs == pmdcs
      modifies this`outbound, this`outboundBytes, this`nextTsn, this`newData
      ensures Valid()
      ensures View() == if old(newData) == [] then Transmission.CutNewData(old(View()), limits) else old(View())
    {
      hide CutFrom, SsnsCount, Distinct, ValidQueue, BytesLeft, Numbered;
      blocked := false;
      if newData != [] {
        return;
      }
      var chunks: seq<DataChunk>;
      chunks, blocked := CutNewData(limits);
      if chunks == [] {
        assert (nextTsn + 0) % TSN_SPACE == nextTsn;
        return;
      }
      newData := newData + [Bundle(peer.paths[DataPath(peer)].address, chunks)];
    }

    /** `sctp_send_data`, without its wait for room: the checks in the order they are made. */
    method SendData(data: Bytes, stream: U16, unordered: bool) returns (status: Status)
      requires Valid()
      modifies this`outbound, this`outboundBytes, this`nextSsn, this`queued
      ensures Valid()
      ensures status == if state.CookieWait? || state.CookieEchoed? then NotEstablished
                        else if !state.Established? then ShuttingDown
                        else if data == [] then EmptyMessage
                        else if stream >= |nextSsn| then InvalidStream
                        else if old(outbound) != [] && BytesLeft(old(outbound)) + |data| > SEND_BUFFER then QueueFull
                        else Ok
      ensures status != Ok ==> View() == old(View()) && queued == old(queued)
      ensures status == Ok ==>
                var ssn := if unordered then 0 else Queued(old(queued), stream, |old(queued)|) % SSN_SPACE;
                var m := Outbound(stream, ssn, unordered, data, 0);
                View() == QueueMessage(old(View()), m) && queued == old(queued) + [m]
    {
      hide SsnsCount, ValidPeer, Distinct, ValidQueue, BytesLeft, Queued;
      if !state.Established? {
        return if state.CookieWait? || state.CookieEchoed? then NotEstablished else ShuttingDown;
      } else if data == [] {
        return EmptyMessage;
      } else if stream >= |nextSsn| {
        return InvalidStream;
      } else if outbound != [] && outboundBytes + |data| > SEND_BUFFER {
        return QueueFull;
      }
      SsnOf(nextSsn, queued, stream);
      var ssn := if unordered then 0 else nextSsn[stream];
      var m := Outbound(stream, ssn, unordered, data, 0);
      SsnsCountMore(nextSsn, queued, m);
      QueuedBytes(outbound, m);
      if !unordered {
        nextSsn := nextSsn[stream := (ssn + 1) % SSN_SPACE];
      }
      outbound, outboundBytes, queued := outbound + [m], outboundBytes + |data|, queued + [m];
      return Ok;
    }

    // ----- SACK -----

    /** Stops, restarts or starts T3-rtx of each path as decided. */
    method ApplyT3Actions(actions: seq<T3Action>)
      requires Valid() && |actions| == |peer.paths|
      modifies this`t3
      ensures Valid()
      ensures forall p :: 0 <= p < |peer.paths| ==>
                var a := peer.paths[p].address; a in t3 <==> RunsAfter(actions[p], a in old(t3), HasUnacked(peer, outstandingData, a))
      ensures forall a :: !Knows(peer, a) ==> (a in t3 <==> a in old(t3))
    {
      hide HasUnacked, Distinct, SsnsCount, ValidQueue, BytesLeft;
      var i := 0;
      while i < |actions|
        invariant 0 <= i <= |actions| && Valid()
        invariant forall p :: 0 <= p < i ==>
                    var a := peer.paths[p].address; a in t3 <==> RunsAfter(actions[p], a in old(t3), HasUnacked(peer, outstandingData, a))
        invariant forall p :: i <= p < |peer.paths| ==> (peer.paths[p].address in t3 <==> peer.paths[p].address in old(t3))
        invariant forall a :: !Knows(peer, a) ==> (a in t3 <==> a in old(t3))
      {
        var a := peer.paths[i].address;
        match actions[i] {
          case Keep =>
          case Stop => t3 := t3 - {a};
          case Restart => RestartT3(a);
          case Start => StartT3IfStopped(a);
        }
        i := i + 1;
      }
    }

    /** `do_next_shutdown_step`. */
    method DoNextShutdownStep()
      requires Valid()
      modifies this`state, this`t3
      ensures Valid() && View() == NextShutdownStep(old(View()))
    {
      if cumulativeTsnAck != (nextTsn - 1) % TSN_SPACE || outbound != [] {
        return;
      }
      match state {
        case ShutdownPending => state := ShutdownSent;
        case ShutdownReceived => state := ShutdownAckSent;
        case _ => return;
      }
      t3 := {};
    }

    /** What to do about T3-rtx of each path: it stops with nothing in flight, restarts when
        the earliest chunk is acknowledged or sent again, and starts for a chunk taken back. */
    method DecideT3(ghost tx: Tx, sack: SackChunk, earliest: seq<Highest>, renegedOn: seq<bool>, fast: bool) returns (actions: seq<T3Action>)
      requires Valid() && tx.peer == peer && tx.t3 == t3 && |earliest| == |renegedOn| == |peer.paths|
      requires forall p :: 0 <= p < |earliest| ==> earliest[p] == Earliest(peer, tx.cum, tx.outs, peer.paths[p].address, |tx.outs|)
      requires forall p :: 0 <= p < |renegedOn| ==> (renegedOn[p] <==> RenegedOn(tx, sack, peer.paths[p].address))
      ensures |actions| == |peer.paths|
      ensures forall p :: 0 <= p < |actions| ==> actions[p] == ActionFor(tx, sack, outstandingData, fast, peer.paths[p].address)
    {
      hide HasUnacked, RenegedOn, Earliest, SackAcknowledges, Distinct, SsnsCount, ValidQueue, BytesLeft;
      actions := [];
      var i := 0;
      while i < |peer.paths|
        invariant 0 <= i == |actions| <= |peer.paths|
        invariant forall p :: 0 <= p < |actions| ==> actions[p] == ActionFor(tx, sack, outstandingData, fast, peer.paths[p].address)
      {
        var a, e := peer.paths[i].address, earliest[i];
        var retransmitsEarliest := fast && e.Highest? && PendingAt(outstandingData, e.tsn);
        var action := Keep;
        if !HasUnacked(peer, outstandingData, a) {
          if a in t3 {
            action := Stop;
          }
        } else if (e.Highest? && SackAcknowledges(sack, e.tsn)) || retransmitsEarliest {
          action := Restart;
        } else if renegedOn[i] {
          action := Start;
        }
        actions, i := actions + [action], i + 1;
      }
    }

    /** The part of `handle_sack` that holds the association's lock. */
    method ProcessAcks(sack: SackChunk) returns (entered: bool, actions: seq<T3Action>)
      requires Valid()
      modifies this`cumulativeTsnAck, this`outstandingData, this`inFastRecovery, this`fastRecoveryExitTsn
      ensures Valid()
      ensures var tx := old(View());
              var below := MissingBelow(tx, sack);
              var after := ProcessSack(sack, below, tx.outs);
              var fast := FastRetransmits(sack, below, tx.outs);
              && outstandingData == after && cumulativeTsnAck == sack.cumulativeTsnAck
              && entered == (fast && !tx.inFastRecovery && after != [])
              && fastRecoveryExitTsn == (if entered then after[|after| - 1].chunk.tsn else tx.exitTsn)
              && inFastRecovery == ((tx.inFastRecovery || entered) && !TsnLte(fastRecoveryExitTsn, sack.cumulativeTsnAck))
              && |actions| == |peer.paths|
              && forall p :: 0 <= p < |actions| ==> actions[p] == ActionFor(tx, sack, after, fast, peer.paths[p].address)
    {
      hide AppliedAll, CountedAll, AnyMarked, ProcessSack, FastRetransmits, SsnsCount, ValidQueue, BytesLeft, HasUnacked, Earliest,
           HighestReported, HighestNewlyAcked, TakenBackOn, RenegedOn, ListsReneged, TsnLt, ActionFor;
      ghost var tx := View();
      var earliest := EarliestOnPaths(peer, cumulativeTsnAck, outstandingData);
      var htna, reported := HighestTsns(sack, outstandingData);
      var below := if inFastRecovery && TsnLt(cumulativeTsnAck, sack.cumulativeTsnAck) then reported else htna;
      var applied, renegedTsns, renegedOn := ApplySack(peer, sack, outstandingData);
      TwoPasses(sack, below, outstandingData, renegedTsns);
      StaysDistinct(sack, below, outstandingData, renegedTsns);
      RenegedPaths(tx, sack, renegedOn);
      var after, fast := CountMissing(below, renegedTsns, applied);
      outstandingData, cumulativeTsnAck := after, sack.cumulativeTsnAck;
      entered := false;
      if fast && !inFastRecovery && outstandingData != [] {
        inFastRecovery, fastRecoveryExitTsn, entered := true, outstandingData[|outstandingData| - 1].chunk.tsn, true;
      }
      if inFastRecovery && TsnLte(fastRecoveryExitTsn, sack.cumulativeTsnAck) {
        inFastRecovery := false;
      }
      actions := DecideT3(tx, sack, earliest, renegedOn, fast);
    }

    /** Everything a SACK does to the sender, or what is wrong with it. */
    method HandleSack(sack: SackChunk) returns (violation: bool)
      requires Valid()
      modifies this`state, this`cumulativeTsnAck, this`outstandingData, this`t3, this`retransmissions, this`inFastRecovery, this`fastRecoveryExitTsn
      ensures Valid()
      ensures violation <==> TransmitsData(old(state)) && AcksUnsent(sack, nextTsn)
      ensures View() == if AcceptsSack(old(View()), sack) then Transmission.HandleSack(old(View()), sack) else old(View())
    {
      hide SsnsCount, ValidQueue, BytesLeft, HasUnacked, ProcessSack, FastRetransmits, Trimmed, ActionFor, MissingBelow, SchedulePending, Distinct,
           NextShutdownStep, T3AfterSack, RunsAfter, AcksUnsent, TsnLt, TsnLte;
      if !TransmitsData(state) {
        return false;
      }
      if AcksUnsent(sack, nextTsn) {
        return true;
      }
      violation := false;
      if TsnLt(sack.cumulativeTsnAck, cumulativeTsnAck) {
        return;
      }
      ghost var tx := View();
      ghost var after := ProcessSack(sack, MissingBelow(tx, sack), outstandingData);
      ghost var fast := FastRetransmits(sack, MissingBelow(tx, sack), outstandingData);
      var entered, actions := ProcessAcks(sack);
      retransmissions := TrimAcked(sack, retransmissions);
      ghost var applied := View();
      if entered {
        SchedulePendingRetransmission(false, _ => true);
      }
      forall a
        ensures HasUnacked(peer, outstandingData, a) <==> HasUnacked(tx.peer, after, a)
      {
        SchedulingKeepsUnacked(applied, a);
      }
      ApplyT3Actions(actions);
      ActionsGiveT3(tx, sack, after, fast, t3);
      DoNextShutdownStep();
    }

    // ----- T3-rtx expiry -----

    /** The timer of `a` has gone off; `counted` is the peer once the error has been counted
        against that path. */
    method HandleT3Expiration(a: Addr, counted: Peer)
      requires Valid() && ValidPeer(counted)
      modifies this`peer, this`outstandingData, this`t3, this`retransmissions
      ensures Valid() && View() == ExpireT3(old(View()), a, counted)
    {
      hide SsnsCount, ValidQueue, BytesLeft, HasUnacked, Without, SchedulePending, TimedOut, Knows, Distinct, RetransmissionPath;
      t3 := t3 - {a};
      if !TransmitsData(state) || !Knows(peer, a) || !HasUnacked(peer, outstandingData, a) {
        return;
      }
      peer := counted;
      var target := peer.paths[RetransmissionPath(peer, a)].address;
      var outs := MarkTimedOut(peer, outstandingData, a, target);
      PackDistinct(outstandingData, outs);
      outstandingData := outs;
      retransmissions := DropBoundFor(retransmissions, a);
      SchedulePendingRetransmission(false, _ => true);
    }

    // ----- Shutdown -----

    /** `handle_shutdown`: a cumulative acknowledgement, and the next step of the shutdown. */
    method HandleShutdown(cum: Tsn) returns (violation: bool)
      requires Valid()
      modifies this`state, this`cumulativeTsnAck, this`outstandingData, this`t3, this`retransmissions, this`inFastRecovery
      ensures Valid()
      ensures violation <==> TransmitsData(old(state)) && !TsnLt(cum, nextTsn)
      ensures View() == if violation then old(View()) else Transmission.HandleShutdown(old(View()), cum)
    {
      hide SsnsCount, ValidQueue, BytesLeft, HasUnacked, Trimmed, Above, T3AfterShutdown, NextShutdownStep, TsnLt, TsnLte, Knows, Distinct, ValidPeer;
      violation := false;
      match state {
        case CookieWait => return;
        case CookieEchoed => return;
        case ShutdownSent => state := ShutdownAckSent; return;
        case ShutdownAckSent => return;
        case _ =>
      }
      if !TsnLt(cum, nextTsn) {
        return true;
      }
      var advanced := TsnLt(cumulativeTsnAck, cum);
      if advanced {
        DropAcknowledged(cum);
      }
      state := ShutdownReceived;
      DoNextShutdownStep();
    }

    method DropAcknowledged(cum: Tsn)
      requires Valid()
      modifies this`cumulativeTsnAck, this`outstandingData, this`t3, this`retransmissions, this`inFastRecovery
      ensures Valid()
      ensures View() == old(View()).(
                outs := Above(cum, old(outstandingData)), cum := cum,
                inFastRecovery := old(inFastRecovery) && !TsnLte(fastRecoveryExitTsn, cum),
                queue := Trimmed(SackChunk(cum, 0, [], []), old(retransmissions)),
                t3 := T3AfterShutdown(old(View()), cum))
    {
      hide SsnsCount, ValidQueue, BytesLeft, HasUnacked, Trimmed, Above, T3AfterShutdown, TsnLte, AckedOn, Knows, Distinct;
      ghost var tx := View();
      var outs, ackedOn := DropAcked(peer, cum, outstandingData);
      outstandingData, cumulativeTsnAck := outs, cum;
      if inFastRecovery && TsnLte(fastRecoveryExitTsn, cum) {
        inFastRecovery := false;
      }
      retransmissions := TrimAcked(SackChunk(cum, 0, [], []), retransmissions);
      RestartWhere(ackedOn);
      RestartsGiveT3(tx, cum, ackedOn, t3);
    }

    /** Restarts T3-rtx of the paths flagged. */
    method RestartWhere(flagged: seq<bool>)
      requires Valid() && |flagged| == |peer.paths|
      modifies this`t3
      ensures Valid()
      ensures forall p :: 0 <= p < |peer.paths| ==>
                var a := peer.paths[p].address; a in t3 <==> if flagged[p] then HasUnacked(peer, outstandingData, a) else a in old(t3)
      ensures forall a :: !Knows(peer, a) ==> (a in t3 <==> a in old(t3))
    {
      hide HasUnacked, Distinct, SsnsCount, ValidQueue, BytesLeft;
      var i := 0;
      while i < |flagged|
        invariant 0 <= i <= |flagged| && Valid()
        invariant forall p :: 0 <= p < i ==>
                    var a := peer.paths[p].address; a in t3 <==> if flagged[p] then HasUnacked(peer, outstandingData, a) else a in old(t3)
        invariant forall p :: i <= p < |peer.paths| ==> (peer.paths[p].address in t3 <==> peer.paths[p].address in old(t3))
        invariant forall a :: !Knows(peer, a) ==> (a in t3 <==> a in old(t3))
      {
        if flagged[i] {
          RestartT3(peer.paths[i].address);
        }
        i := i + 1;
      }
    }

    /** `sctp_shutdown` of an association that exists; one still forming is removed instead. */
    method Shutdown() returns (status: Status, removed: bool)
      requires Valid()
      modifies this`state, this`t3
      ensures Valid()
      ensures removed <==> old(state).CookieWait? || old(state).CookieEchoed?
      ensures View() == if old(state).Established? then BeginShutdown(old(View())) else old(View())
      ensures status == if removed || old(state).Established? then Ok else ShuttingDown
    {
      removed := false;
      match state {
        case CookieWait => return Ok, true;
        case CookieEchoed => return Ok, true;
        case Established => state := ShutdownPending;
        case _ => return ShuttingDown, false;
      }
      DoNextShutdownStep();
      status := Ok;
    }
  }
}
