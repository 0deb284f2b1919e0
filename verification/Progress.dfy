/** Progress of the receive path: which chunks are taken and which are dropped, for any
    peer; and that a log whose chunks arrive while there is room goes up whole, whether
    they come in turn among anything else or in any order within reach. */
module Progress {
  import opened Serial
  import opened ReceiveSpec
  import opened MessageLog
  import opened Tracking
  import opened EndToEnd

  // ----- One chunk, from any peer -----

  /** Chunk `i` has been received, and not been taken back. */
  predicate Has(rx: Rx, i: int) {
    i <= rx.cum || i in rx.ooo
  }

  /** Nothing that could be dropped is held above `i`. */
  predicate NothingToEvict(rx: Rx, i: int) {
    forall k <- rx.ooo :: i < k ==> rx.ooo[k].assembled
  }

  lemma {:induction false} ReadBufferHas(rx: Rx, k: int)
    requires InReach(rx.cum, rx.ooo) && Has(rx, k)
    ensures ReadBuffer(rx).ok ==> Has(ReadBuffer(rx).rx, k)
    decreases |rx.ooo|
  {
    hide Reassemble;
    var i := rx.cum + 1;
    if i in rx.ooo {
      var o := Reassemble(rx.a, rx.ooo[i].data, !rx.ooo[i].assembled && rx.ooo[i].data.bytes != []);
      assert rx.ooo.Keys == (rx.ooo - {i}).Keys + {i};
      assert |rx.ooo.Keys| == |(rx.ooo - {i}).Keys| + 1;
      ReadBufferHas(Rx(i, rx.ooo - {i}, o.a), k);
    }
  }

  /** Placing a chunk takes it, and loses nothing. */
  lemma PlaceHas(rx: Rx, i: int, f: Fragment, valid: bool, k: int)
    requires InReach(rx.cum, rx.ooo) && rx.cum < i <= rx.cum + UINT16_MAX && i !in rx.ooo
    requires k == i || Has(rx, k)
    ensures Place(rx, i, f, valid).ok ==> Has(Place(rx, i, f, valid).rx, k)
  {
    hide Reassemble, ReadBuffer, FirstFragment, LastFragment, OrderMessage, Gather;
    if i == rx.cum + 1 {
      var a := Reassemble(rx.a, f, valid).a;
      ReadBufferHas(rx.(cum := i, a := a), k);
    }
  }

  /** With the buffer full, a chunk finds room exactly if something above it can be dropped,
      or it is the one that complete messages wait for. */
  lemma RoomIsMade(rx: Rx, used: int, i: int)
    requires InReach(rx.cum, rx.ooo) && !Has(rx, i)
    ensures var room := MadeRoom(rx, used, i);
            && (room.verdict.Accepted? || room.verdict.Dropped?)
            && (room.verdict.Dropped? <==> used >= RWND && NothingToEvict(rx, i) && !(i == rx.cum + 1 && BlockedOnCumulative(rx)))
            && (room.rx == rx || (used >= RWND && IsEvicted(rx, i, room.rx)))
            && (used >= RWND && !NothingToEvict(rx, i) ==> IsEvicted(rx, i, room.rx))
            && (room.verdict.Dropped? ==> room.rx == rx)
  {
    hide BlockedOnCumulative;
    var top := HighestEvictable(rx.cum, rx.ooo, rx.cum + UINT16_MAX);
    if used >= RWND && top.At? && i <= top.index {
      assert IsEvicted(rx, i, MadeRoom(rx, used, i).rx) by {
        assert Evicts(rx, i, top.index);
      }
    }
  }

  /** `k` is above `i` and the highest chunk held that is not part of a complete message. */
  predicate Evicts(rx: Rx, i: int, k: int) {
    i < k && k in rx.ooo && !rx.ooo[k].assembled && forall l <- rx.ooo :: k < l ==> rx.ooo[l].assembled
  }

  ghost predicate IsEvicted(rx: Rx, i: int, rx': Rx) {
    exists k :: Evicts(rx, i, k) && rx' == rx.(ooo := rx.ooo - {k})
  }

  /** What becomes of a chunk, exactly: reported as a duplicate if it is here, dropped if it
      is out of reach or the buffer is full and cannot make room, and otherwise taken,
      unless it is a violation; and nothing else is lost but what was evicted for it. */
  lemma ChunkIsTaken(rx: Rx, used: int, inStreams: nat, i: int, f: Fragment)
    requires InReach(rx.cum, rx.ooo)
    ensures var s := HandleChunk(rx, used, inStreams, i, f);
            && (s.verdict.Duplicate? <==> Has(rx, i))
            && (s.verdict.Dropped? <==>
                  !Has(rx, i) && (i > rx.cum + UINT16_MAX
                                  || (used >= RWND && NothingToEvict(rx, i) && !(i == rx.cum + 1 && BlockedOnCumulative(rx)))))
            && (s.verdict.Duplicate? || s.verdict.Dropped? ==> s.rx == rx)
            && (s.verdict.Accepted? ==> Has(s.rx, i))
            && (!s.verdict.Violation? ==> forall k :: Has(rx, k) ==> Has(s.rx, k) || (used >= RWND && Evicts(rx, i, k)))
  {
    hide BlockedOnCumulative, Place, MadeRoom, NothingToEvict;
    if !Has(rx, i) && i <= rx.cum + UINT16_MAX {
      RoomIsMade(rx, used, i);
      var room := MadeRoom(rx, used, i);
      var s := HandleChunk(rx, used, inStreams, i, f);
      if s.verdict.Accepted? {
        PlaceHas(room.rx, i, f, f.stream < inStreams, i);
        forall k | Has(rx, k)
          ensures Has(s.rx, k) || (used >= RWND && Evicts(rx, i, k))
        {
          if Has(room.rx, k) {
            PlaceHas(room.rx, i, f, f.stream < inStreams, k);
          }
        }
      }
    }
  }

  /** A receiver has room for the chunk at its cumulative point unless its buffer is full of
      what the ULP has not read and of the message that chunk continues. */
  ghost predicate NextFits(rx: Rx, used: int) {
    used < RWND || rx.ooo != map[] || exists id <- rx.a.streams :: rx.a.streams[id].early != map[]
  }

  /** The next chunk in turn moves the cumulative point exactly if it fits. */
  lemma NextIsTaken(rx: Rx, used: int, inStreams: nat, f: Fragment)
    requires InReach(rx.cum, rx.ooo) && rx.cum + 1 !in rx.ooo
    ensures var s := HandleChunk(rx, used, inStreams, rx.cum + 1, f);
            && (s.verdict.Dropped? <==> !NextFits(rx, used))
            && (!s.verdict.Violation? ==> (s.rx.cum > rx.cum <==> NextFits(rx, used)))
  {
    hide HandleChunk;
    ChunkIsTaken(rx, used, inStreams, rx.cum + 1, f);
    FitsOrNot(rx, used);
    var s := HandleChunk(rx, used, inStreams, rx.cum + 1, f);
    if s.verdict.Accepted? {
      PointMoves(rx, used, inStreams, f);
    }
  }

  lemma FitsOrNot(rx: Rx, used: int)
    requires InReach(rx.cum, rx.ooo) && rx.cum + 1 !in rx.ooo
    ensures NextFits(rx, used) <==> !(used >= RWND && NothingToEvict(rx, rx.cum + 1) && !BlockedOnCumulative(rx))
  {
    if forall k :: k !in rx.ooo {
      assert rx.ooo == map[];
    } else {
      var k :| k in rx.ooo;
      assert rx.cum + 1 < k;
    }
  }

  lemma PointMoves(rx: Rx, used: int, inStreams: nat, f: Fragment)
    requires InReach(rx.cum, rx.ooo) && rx.cum + 1 !in rx.ooo
    ensures var s := HandleChunk(rx, used, inStreams, rx.cum + 1, f);
            s.verdict.Accepted? ==> s.rx.cum > rx.cum
  {
    hide Reassemble, BlockedOnCumulative, ReadBuffer;
  }

  // ----- Packets of a log -----

  /** Every chunk of a packet finds room when it arrives, or is here already. */
  ghost predicate AllFit(log: Log, rx: Rx, used: int, inStreams: nat, indices: seq<int>)
    requires InHalfSpace(log, rx, used, inStreams, indices)
    decreases |indices|
  {
    indices == [] ||
    (&& (Has(rx, indices[0]) || (used < RWND && indices[0] <= rx.cum + UINT16_MAX))
     && var s := HandleChunk(rx, used, inStreams, indices[0], log[indices[0]]);
        s.verdict.Violation? || AllFit(log, s.rx, s.used, inStreams, indices[1..]))
  }

  /** A packet never moves the cumulative point back. If all of it fits, all of it is taken
      and nothing is lost. */
  lemma {:induction false} ChunksAreTaken(t0: Tsn, log: Log, rx: Rx, used: int, inStreams: nat, indices: seq<int>)
    requires InReach(rx.cum, rx.ooo)
    requires forall j :: 0 <= j < |indices| ==> 0 <= indices[j] < |log|
    requires InHalfSpace(log, rx, used, inStreams, indices)
    ensures var r := HandleChunks(t0, rx, used, inStreams, Carrying(t0, log, indices));
            !r.violation ==>
              && rx.cum <= r.rx.cum
              && (AllFit(log, rx, used, inStreams, indices) ==>
                    (forall k :: Has(rx, k) ==> Has(r.rx, k)) && (forall k <- indices :: Has(r.rx, k)))
    decreases |indices|
  {
    hide HandleChunk, Unwrap, Wire, InReach;
    if indices != [] {
      var i := indices[0];
      UnwrapOfWire(t0, rx.cum, i);
      ChunkIsTaken(rx, used, inStreams, i, log[i]);
      var s := HandleChunk(rx, used, inStreams, i, log[i]);
      assert Carrying(t0, log, indices)[1..] == Carrying(t0, log, indices[1..]);
      if !s.verdict.Violation? {
        ChunksAreTaken(t0, log, s.rx, s.used, inStreams, indices[1..]);
      }
    }
  }

  /** What was here already is reported as duplicate, chunk by chunk, and changes nothing. */
  lemma {:induction false} RepeatsAreReported(t0: Tsn, rx: Rx, used: int, inStreams: nat, chunks: seq<DataChunk>)
    requires InReach(rx.cum, rx.ooo)
    requires forall j :: 0 <= j < |chunks| ==> Has(rx, Unwrap(t0, rx.cum, chunks[j].tsn))
    ensures HandleChunks(t0, rx, used, inStreams, chunks) == Handled(rx, used, false, seq(|chunks|, j requires 0 <= j < |chunks| => chunks[j].tsn), false)
    decreases |chunks|
  {
    hide Unwrap, InReach;
    if chunks != [] {
      RepeatsAreReported(t0, rx, used, inStreams, chunks[1..]);
      assert Has(rx, Unwrap(t0, rx.cum, chunks[0].tsn));
      assert HandleChunk(rx, used, inStreams, Unwrap(t0, rx.cum, chunks[0].tsn), chunks[0].data) == Step(rx, used, Duplicate);
      assert seq(|chunks|, j requires 0 <= j < |chunks| => chunks[j].tsn)
             == [chunks[0].tsn] + seq(|chunks[1..]|, j requires 0 <= j < |chunks[1..]| => chunks[1..][j].tsn);
    }
  }

  /** There is no place for chunk `i`: it is out of reach, or the buffer cannot make room. */
  ghost predicate NoPlaceFor(rx: Rx, used: int, i: int) {
    !Has(rx, i) && (i > rx.cum + UINT16_MAX
                    || (used >= RWND && NothingToEvict(rx, i) && !(i == rx.cum + 1 && BlockedOnCumulative(rx))))
  }

  /** Some chunk of the packet finds no place when its turn comes. */
  ghost predicate SomeFindNoPlace(t0: Tsn, rx: Rx, used: int, inStreams: nat, chunks: seq<DataChunk>)
    requires InReach(rx.cum, rx.ooo)
    decreases |chunks|
  {
    chunks != [] &&
    var i := Unwrap(t0, rx.cum, chunks[0].tsn);
    var s := HandleChunk(rx, used, inStreams, i, chunks[0].data);
    NoPlaceFor(rx, used, i) || (!s.verdict.Violation? && SomeFindNoPlace(t0, s.rx, s.used, inStreams, chunks[1..]))
  }

  /** A packet tells of dropped chunks exactly if there were some. */
  lemma {:induction false} DropsAreTold(t0: Tsn, rx: Rx, used: int, inStreams: nat, chunks: seq<DataChunk>)
    requires InReach(rx.cum, rx.ooo)
    ensures var r := HandleChunks(t0, rx, used, inStreams, chunks);
            !r.violation ==> (r.dropped <==> SomeFindNoPlace(t0, rx, used, inStreams, chunks))
    decreases |chunks|
  {
    hide HandleChunk, Unwrap, InReach, NothingToEvict, BlockedOnCumulative;
    if chunks != [] {
      var i := Unwrap(t0, rx.cum, chunks[0].tsn);
      ChunkIsTaken(rx, used, inStreams, i, chunks[0].data);
      var s := HandleChunk(rx, used, inStreams, i, chunks[0].data);
      if !s.verdict.Violation? {
        DropsAreTold(t0, s.rx, s.used, inStreams, chunks[1..]);
      }
    }
  }

  /** The next chunk in turn at the head of a packet is taken if it fits. */
  lemma HeadIsTaken(t0: Tsn, log: Log, rx: Rx, used: int, inStreams: nat, indices: seq<int>)
    requires InReach(rx.cum, rx.ooo) && rx.cum + 1 !in rx.ooo
    requires forall j :: 0 <= j < |indices| ==> 0 <= indices[j] < |log|
    requires InHalfSpace(log, rx, used, inStreams, indices)
    requires indices != [] && indices[0] <= rx.cum + 1 && NextFits(rx, used)
    ensures var r := HandleChunks(t0, rx, used, inStreams, Carrying(t0, log, indices));
            !r.violation ==> indices[0] <= r.rx.cum
  {
    hide HandleChunk, Unwrap, Wire, InReach, NextFits;
    var i := indices[0];
    UnwrapOfWire(t0, rx.cum, i);
    if i == rx.cum + 1 {
      NextIsTaken(rx, used, inStreams, log[i]);
    } else {
      ChunkIsTaken(rx, used, inStreams, i, log[i]);
    }
    var s := HandleChunk(rx, used, inStreams, i, log[i]);
    assert Carrying(t0, log, indices)[1..] == Carrying(t0, log, indices[1..]);
    if !s.verdict.Violation? {
      ChunksAreTaken(t0, log, s.rx, s.used, inStreams, indices[1..]);
    }
  }

  // ----- Runs -----

  /** Every chunk of a packet finds room. */
  ghost predicate Roomy(setup: Setup, log: Log, e: Endpoint, arrival: Arrival)
    requires Possible(setup, log, e, arrival)
  {
    AllFit(log, e.rx.(a := e.rx.a.(up := [])), arrival.buffered + HeldBytes(e.rx), setup.inStreams, arrival.indices)
  }

  /** A packet led by chunk `i` that finds room for the next chunk in turn. */
  ghost predicate Brings(e: Endpoint, arrival: Arrival, i: int) {
    arrival.indices != [] && arrival.indices[0] == i && NextFits(e.rx, arrival.buffered + HeldBytes(e.rx))
  }

  /** One packet: the point does not move back; what fits is taken. */
  lemma ReceiveTakes(setup: Setup, log: Log, e: Endpoint, arrival: Arrival)
    requires Possible(setup, log, e, arrival) && e.rx.a.up == [] && e.rx.cum + 1 !in e.rx.ooo
    ensures var e' := Receive(setup, log, e, arrival);
            && e.rx.cum <= e'.rx.cum
            && (!e'.aborted && arrival.indices != [] && arrival.indices[0] <= e.rx.cum + 1 && Brings(e, arrival, arrival.indices[0]) ==>
                  arrival.indices[0] <= e'.rx.cum)
            && (!e'.aborted && Roomy(setup, log, e, arrival) ==>
                  (forall k :: Has(e.rx, k) ==> Has(e'.rx, k)) && (forall k <- arrival.indices :: Has(e'.rx, k)))
  {
    hide HandleChunks, InHalfSpace, AllFit, InReach, HeldBytes, NextFits, DeliverPartially;
    assert e.rx.(a := e.rx.a.(up := [])) == e.rx;
    var used := arrival.buffered + HeldBytes(e.rx);
    ChunksAreTaken(setup.t0, log, e.rx, used, setup.inStreams, arrival.indices);
    if arrival.indices != [] && arrival.indices[0] <= e.rx.cum + 1 && Brings(e, arrival, arrival.indices[0]) {
      HeadIsTaken(setup.t0, log, e.rx, used, setup.inStreams, arrival.indices);
    }
  }

  lemma StepOfRun(setup: Setup, log: Log, arrivals: seq<Arrival>, states: seq<Endpoint>, j: nat)
    requires WellCut(log) && ValidStreams(log, setup.inStreams)
    requires IsRun(setup, log, arrivals, states) && j < |states|
    ensures states[j].rx.a.up == [] && states[j].rx.cum + 1 !in states[j].rx.ooo && -1 <= states[j].rx.cum < |log|
  {
    hide IsRun, WellCut, ValidStreams, MessageTracked, Tracked;
    var order := RunKeeps(setup, log, arrivals, states, j);
  }

  lemma StepTakes(setup: Setup, log: Log, arrivals: seq<Arrival>, states: seq<Endpoint>, j: nat)
    requires WellCut(log) && ValidStreams(log, setup.inStreams)
    requires IsRun(setup, log, arrivals, states) && j + 1 < |states|
    ensures states[j].rx.cum <= states[j + 1].rx.cum
  {
    hide WellCut, ValidStreams, Receive, Roomy, Possible, Brings, Has;
    StepOfRun(setup, log, arrivals, states, j);
    ReceiveTakes(setup, log, states[j], arrivals[j]);
  }

  lemma {:induction false} PointNeverMovesBack(setup: Setup, log: Log, arrivals: seq<Arrival>, states: seq<Endpoint>, i: nat, j: nat)
    requires WellCut(log) && ValidStreams(log, setup.inStreams)
    requires IsRun(setup, log, arrivals, states) && i <= j < |states|
    ensures states[i].rx.cum <= states[j].rx.cum
    decreases j - i
  {
    hide *;
    if i < j {
      PointNeverMovesBack(setup, log, arrivals, states, i, j - 1);
      StepTakes(setup, log, arrivals, states, j - 1);
    }
  }

  /** `at[i]` is a packet led by chunk `i` that finds room, for each of the first chunks in
      turn; anything may arrive in between. */
  ghost predicate InTurnBrought(states: seq<Endpoint>, arrivals: seq<Arrival>, at: seq<nat>, n: nat)
    requires |states| == |arrivals| + 1 && n <= |at|
  {
    && (forall i :: 0 <= i < n ==> at[i] < |arrivals| && Brings(states[at[i]], arrivals[at[i]], i))
    && (forall i :: 0 < i < n ==> at[i - 1] < at[i])
  }

  lemma {:induction false} InTurnReaches(setup: Setup, log: Log, arrivals: seq<Arrival>, states: seq<Endpoint>, at: seq<nat>, i: nat)
    requires WellCut(log) && ValidStreams(log, setup.inStreams)
    requires IsRun(setup, log, arrivals, states) && !states[|arrivals|].aborted
    requires i < |at| && InTurnBrought(states, arrivals, at, i + 1)
    ensures i <= states[at[i] + 1].rx.cum
    decreases i
  {
    hide WellCut, ValidStreams, Receive, Roomy, Possible, Brings;
    var m := at[i];
    StepOfRun(setup, log, arrivals, states, m);
    if i > 0 {
      assert at[i - 1] < at[i];
      InTurnReaches(setup, log, arrivals, states, at, i - 1);
      PointNeverMovesBack(setup, log, arrivals, states, at[i - 1] + 1, m);
    }
    NotYetAborted(setup, log, arrivals, states, m + 1);
    assert Brings(states[m], arrivals[m], i);
    LedBy(states[m], arrivals[m], i);
    ReceiveTakes(setup, log, states[m], arrivals[m]);
  }

  lemma LedBy(e: Endpoint, arrival: Arrival, i: int)
    requires Brings(e, arrival, i)
    ensures arrival.indices != [] && arrival.indices[0] == i
  {
  }

  lemma NotYetAborted(setup: Setup, log: Log, arrivals: seq<Arrival>, states: seq<Endpoint>, j: nat)
    requires IsRun(setup, log, arrivals, states) && j < |states| && !states[|arrivals|].aborted
    ensures !states[j].aborted
  {
    if j < |arrivals| {
      assert Possible(setup, log, states[j], arrivals[j]);
    }
  }

  /** Every packet of the run finds room, and together they carry the whole log. */
  ghost predicate AllRoomy(setup: Setup, log: Log, arrivals: seq<Arrival>, states: seq<Endpoint>, n: nat)
    requires IsRun(setup, log, arrivals, states) && n <= |arrivals|
  {
    forall m :: 0 <= m < n ==> Possible(setup, log, states[m], arrivals[m]) && Roomy(setup, log, states[m], arrivals[m])
  }

  lemma {:induction false} RoomyReaches(setup: Setup, log: Log, arrivals: seq<Arrival>, states: seq<Endpoint>, n: nat, m: nat, k: int)
    requires WellCut(log) && ValidStreams(log, setup.inStreams)
    requires IsRun(setup, log, arrivals, states) && !states[|arrivals|].aborted
    requires m < n <= |arrivals| && AllRoomy(setup, log, arrivals, states, n) && k in arrivals[m].indices
    ensures Has(states[n].rx, k)
    decreases n
  {
    hide WellCut, ValidStreams, Receive, Roomy, Possible, Has;
    StepOfRun(setup, log, arrivals, states, n - 1);
    NotYetAborted(setup, log, arrivals, states, n);
    ReceiveTakes(setup, log, states[n - 1], arrivals[n - 1]);
    if m < n - 1 {
      RoomyReaches(setup, log, arrivals, states, n - 1, m, k);
    }
  }

  predicate Arrives(arrivals: seq<Arrival>, k: int) {
    exists m :: 0 <= m < |arrivals| && k in arrivals[m].indices
  }

  /** Every message of the log has gone up, whole. */
  ghost predicate AllDelivered(log: Log, e: Endpoint) {
    && (forall r <- Messages(e.delivered) :: r.complete)
    && exists order :: Explains(log, order, Messages(e.delivered)) && forall f :: Start(log, f) ==> f in order
  }

  /** If every packet finds room, in whatever order the chunks come, and every chunk comes,
      every message goes up. */
  lemma EverythingArrives(setup: Setup, log: Log, arrivals: seq<Arrival>, states: seq<Endpoint>)
    requires WellCut(log) && ValidStreams(log, setup.inStreams) && |log| > 0 && log[|log| - 1].ends
    requires IsRun(setup, log, arrivals, states) && !states[|arrivals|].aborted
    requires AllRoomy(setup, log, arrivals, states, |arrivals|)
    requires forall k :: 0 <= k < |log| ==> Arrives(arrivals, k)
    ensures AllDelivered(log, states[|arrivals|])
  {
    hide WellCut, ValidStreams, AllRoomy, Possible, Receive;
    var e := states[|arrivals|];
    StepOfRun(setup, log, arrivals, states, |arrivals|);
    if e.rx.cum + 1 < |log| {
      assert Arrives(arrivals, e.rx.cum + 1);
      var m :| 0 <= m < |arrivals| && e.rx.cum + 1 in arrivals[m].indices;
      RoomyReaches(setup, log, arrivals, states, |arrivals|, m, e.rx.cum + 1);
    }
    ReceivedGoesUp(setup, log, arrivals, states, |arrivals|);
  }

  /** If the chunks of the log come in turn, each in a packet that finds room for it, every
      message goes up, whatever else arrives, is dropped or is evicted in between. */
  lemma EverythingArrivesInTurn(setup: Setup, log: Log, arrivals: seq<Arrival>, states: seq<Endpoint>, at: seq<nat>)
    requires WellCut(log) && ValidStreams(log, setup.inStreams) && |log| > 0 && log[|log| - 1].ends
    requires IsRun(setup, log, arrivals, states) && !states[|arrivals|].aborted
    requires |at| == |log| && InTurnBrought(states, arrivals, at, |log|)
    ensures AllDelivered(log, states[|arrivals|])
  {
    hide WellCut, ValidStreams, Brings, Receive, Possible;
    StepOfRun(setup, log, arrivals, states, |arrivals|);
    InTurnReaches(setup, log, arrivals, states, at, |log| - 1);
    PointNeverMovesBack(setup, log, arrivals, states, at[|log| - 1] + 1, |arrivals|);
    ReceivedGoesUp(setup, log, arrivals, states, |arrivals|);
  }
}
