/** Nothing complete is kept from the ULP. In every state of a run over a well-cut log the
    messages that have gone up, or wait only behind an open partial delivery, are exactly
    those all of whose chunks are here and, if ordered, all of whose predecessors in their
    stream have gone up: also above a gap, for messages of any number of chunks. */
module Promptness {
  import opened Serial
  import opened ReceiveSpec
  import opened MessageLog
  import opened Tracking
  import opened EndToEnd
  import opened Progress

  /** All chunks of the message that begins at `f` have been received. */
  ghost predicate Complete(log: Log, rx: Rx, f: int) {
    Whole(log, f) && forall k :: f <= k <= End(log, f) ==> Has(rx, k)
  }

  /** All chunks of the message lie in the reorder buffer. */
  ghost predicate Buffered(log: Log, ooo: Reorder, f: int) {
    Whole(log, f) && End(log, f) in ooo && forall k :: f <= k <= End(log, f) ==> k in ooo
  }

  /** A whole message in the buffer has been assembled. */
  ghost predicate NoneUnassembled(log: Log, ooo: Reorder) {
    forall f :: Buffered(log, ooo, f) ==> ooo[End(log, f)].assembled
  }

  lemma StillBuffered(log: Log, ooo: Reorder, ooo': Reorder, f: int)
    requires Buffered(log, ooo, f) && forall k <- ooo :: f <= k <= End(log, f) ==> k in ooo'
    ensures Buffered(log, ooo', f)
  {
    hide End;
    EndOfMessage(log, f);
    forall k | f <= k <= End(log, f)
      ensures k in ooo'
    {
      assert k in ooo;
    }
  }

  // ----- Early assembly finds every whole message -----

  lemma {:induction false} WalkDownFinds(log: Log, cum: int, ooo: Reorder, i: int, like: Fragment)
    requires WellCut(log) && BufferTracked(log, cum, ooo) && Usable(ooo, i) && SameMessage(log[i], like)
    requires forall k :: First(log, i) <= k <= i ==> Usable(ooo, k)
    ensures FirstFragment(cum, ooo, i, like) == At(First(log, i))
    decreases i - cum
  {
    hide Ordinal;
    if !log[i].begins {
      FirstOfMessage(log, i);
      assert Usable(ooo, i - 1);
      assert First(log, i) == First(log, i - 1);
      WalkDownFinds(log, cum, ooo, i - 1, like);
    }
  }

  lemma {:induction false} WalkUpFinds(log: Log, cum: int, ooo: Reorder, i: int, like: Fragment)
    requires WellCut(log) && BufferTracked(log, cum, ooo) && Usable(ooo, i) && SameMessage(log[i], like)
    requires forall k :: i <= k <= End(log, i) ==> Usable(ooo, k)
    requires End(log, i) < |log|
    ensures LastFragment(cum, ooo, i, like) == At(End(log, i))
    decreases cum + UINT16_MAX - i
  {
    hide Ordinal;
    if !log[i].ends {
      EndOfMessage(log, i + 1);
      assert Usable(ooo, i + 1);
      WalkUpFinds(log, cum, ooo, i + 1, like);
    }
  }

  /** Chunks of one message are assembled together. */
  lemma {:induction false} AssembledAbove(log: Log, cum: int, ooo: Reorder, i: int, e: int)
    requires BufferTracked(log, cum, ooo) && i in ooo && ooo[i].assembled && 0 <= i <= e < |log|
    requires forall k :: i <= k < e ==> !log[k].ends
    ensures e in ooo && ooo[e].assembled
    decreases e - i
  {
    if i < e {
      assert i + 1 in ooo && ooo[i + 1].assembled;
      AssembledAbove(log, cum, ooo, i + 1, e);
    }
  }

  /** Once the last missing chunk of a message is in, none of the message is assembled yet
      and both walks find its ends. */
  lemma WholeIsFound(log: Log, cum: int, ooo: Reorder, i: int)
    requires WellCut(log) && BufferTracked(log, cum, ooo) && i in ooo && !ooo[i].assembled
    requires Buffered(log, ooo, First(log, i)) && 0 <= i < |log|
    ensures Usable(ooo, i) && ooo[i].data == log[i]
    ensures FirstFragment(cum, ooo, i, log[i]) == At(First(log, i))
    ensures LastFragment(cum, ooo, i, log[i]) == At(End(log, First(log, i)))
  {
    hide Ordinal;
    var f := First(log, i);
    FirstOfMessage(log, i);
    EndOfMessage(log, f);
    EndFrom(log, f, i);
    EndOfMessage(log, i);
    var e := End(log, f);
    hide First, End;
    forall k | f <= k <= e
      ensures Usable(ooo, k)
    {
      if ooo[k].assembled {
        if k <= i {
          AssembledAbove(log, cum, ooo, k, i);
        } else {
          forall l | i < l <= k
            ensures !log[l].begins
          {
            assert !log[l - 1].ends;
          }
          AssembledBelow(log, cum, ooo, k, i);
        }
        assert false;
      }
    }
    WalkDownFinds(log, cum, ooo, i, log[i]);
    WalkUpFinds(log, cum, ooo, i, log[i]);
  }

  // ----- The invariant -----

  lemma MarkedStays(log: Log, ooo: Reorder, first: int, last: int)
    requires NoneUnassembled(log, ooo)
    ensures NoneUnassembled(log, MarkAssembled(ooo, first, last))
  {
    hide End;
    forall f | Buffered(log, MarkAssembled(ooo, first, last), f)
      ensures MarkAssembled(ooo, first, last)[End(log, f)].assembled
    {
      StillBuffered(log, MarkAssembled(ooo, first, last), ooo, f);
    }
  }

  lemma RemovedStays(log: Log, ooo: Reorder, k: int)
    requires NoneUnassembled(log, ooo)
    ensures NoneUnassembled(log, ooo - {k})
  {
    forall f | Buffered(log, ooo - {k}, f)
      ensures f <= End(log, f) && (ooo - {k})[End(log, f)].assembled
    {
      EndOfMessage(log, f);
      StillBuffered(log, ooo - {k}, ooo, f);
    }
  }

  /** A chunk that goes into the buffer takes its message out if that is then whole. */
  lemma InsertStays(log: Log, rx: Rx, i: int)
    requires WellCut(log) && BufferTracked(log, rx.cum, rx.ooo) && NoneUnassembled(log, rx.ooo)
    requires 0 <= i < |log| && rx.cum < i <= rx.cum + UINT16_MAX && i !in rx.ooo
    requires BufferTracked(log, rx.cum, rx.ooo[i := Held(log[i], false)])
    ensures var o := AssembleEarly(rx.(ooo := rx.ooo[i := Held(log[i], false)]), i);
            NoneUnassembled(log, o.rx.ooo)
  {
    hide OrderMessage, Gather, Ordinal, FirstFragment, LastFragment, BufferTracked;
    var with := rx.(ooo := rx.ooo[i := Held(log[i], false)]);
    BufferInReach(log, rx.cum, with.ooo);
    var o := AssembleEarly(with, i);
    var f := First(log, i);
    FirstOfMessage(log, i);
    EndOfMessage(log, f);
    if Buffered(log, with.ooo, f) {
      WholeIsFound(log, rx.cum, with.ooo, i);
    }
    hide WellCut, First;
    forall g | Buffered(log, o.rx.ooo, g)
      ensures o.rx.ooo[End(log, g)].assembled
    {
      EndOfMessage(log, g);
      StillBuffered(log, o.rx.ooo, with.ooo, g);
      if g <= i <= End(log, g) {
        FirstOfEnd(log, g, i);
      } else {
        StillBuffered(log, with.ooo, rx.ooo, g);
      }
    }
  }

  lemma BufferInReach(log: Log, cum: int, ooo: Reorder)
    requires BufferTracked(log, cum, ooo)
    ensures InReach(cum, ooo)
  {
  }

  lemma {:induction false} ReadStays(log: Log, rx: Rx)
    requires InReach(rx.cum, rx.ooo) && NoneUnassembled(log, rx.ooo)
    ensures NoneUnassembled(log, ReadBuffer(rx).rx.ooo)
    decreases |rx.ooo|
  {
    hide NoneUnassembled, Reassemble;
    var i := rx.cum + 1;
    if i in rx.ooo {
      RemovedStays(log, rx.ooo, i);
      var o := Reassemble(rx.a, rx.ooo[i].data, !rx.ooo[i].assembled && rx.ooo[i].data.bytes != []);
      assert rx.ooo.Keys == (rx.ooo - {i}).Keys + {i};
      assert |rx.ooo.Keys| == |(rx.ooo - {i}).Keys| + 1;
      ReadStays(log, Rx(i, rx.ooo - {i}, o.a));
    }
  }

  lemma PlaceStays(log: Log, h: seq<Delivery>, rx: Rx, order: seq<int>, i: int)
    requires WellCut(log) && Between(log, h, rx, order) && NoneUnassembled(log, rx.ooo)
    requires rx.cum < i <= rx.cum + UINT16_MAX && 0 <= i < |log| && i !in rx.ooo
    ensures NoneUnassembled(log, Place(rx, i, log[i], true).rx.ooo)
  {
    hide Inv, WellCut, ReadBuffer, AssembleEarly, Reassemble, NoneUnassembled;
    NotEmpty(log, i);
    if i == rx.cum + 1 {
      var a := Reassemble(rx.a, log[i], true).a;
      ReadStays(log, rx.(cum := i, a := a));
    } else {
      InsertKeeps(log, h, rx, order, i);
      InvParts(log, h, rx, order);
      InvParts(log, h, rx.(ooo := rx.ooo[i := Held(log[i], false)]), order);
      InsertStays(log, rx, i);
    }
  }

  lemma ChunkStays(log: Log, h: seq<Delivery>, rx: Rx, order: seq<int>, used: int, inStreams: nat, i: int)
    requires WellCut(log) && Between(log, h, rx, order) && NoneUnassembled(log, rx.ooo)
    requires 0 <= i < |log| && log[i].stream < inStreams
    ensures NoneUnassembled(log, HandleChunk(rx, used, inStreams, i, log[i]).rx.ooo)
  {
    hide Inv, WellCut, Place, NoneUnassembled;
    if !(i <= rx.cum || i in rx.ooo || i > rx.cum + UINT16_MAX) {
      var room := MadeRoom(rx, used, i);
      if room.verdict != Dropped {
        if used >= RWND && Evicted(rx, i).At? {
          EvictKeeps(log, h, rx, order, Evicted(rx, i).index);
          RemovedStays(log, rx.ooo, Evicted(rx, i).index);
        }
        PlaceStays(log, h, room.rx, order, i);
      }
    }
  }

  lemma {:induction false} ChunksStay(t0: Tsn, log: Log, h: seq<Delivery>, rx: Rx, order: seq<int>, used: int, inStreams: nat, indices: seq<int>)
    requires WellCut(log) && ValidStreams(log, inStreams) && Between(log, h, rx, order) && NoneUnassembled(log, rx.ooo)
    requires forall j :: 0 <= j < |indices| ==> 0 <= indices[j] < |log|
    requires InHalfSpace(log, rx, used, inStreams, indices)
    ensures NoneUnassembled(log, HandleChunks(t0, rx, used, inStreams, Carrying(t0, log, indices)).rx.ooo)
    decreases |indices|
  {
    hide Between, WellCut, HandleChunk, Unwrap, Wire, Near, InReach, NoneUnassembled;
    if indices != [] {
      var i := indices[0];
      UnwrapOfWire(t0, rx.cum, i);
      ChunkStays(log, h, rx, order, used, inStreams, i);
      var order' := ChunkKeeps(log, h, rx, order, used, inStreams, i);
      var s := HandleChunk(rx, used, inStreams, i, log[i]);
      assert Carrying(t0, log, indices)[1..] == Carrying(t0, log, indices[1..]);
      if !s.verdict.Violation? {
        ChunksStay(t0, log, h, s.rx, order', s.used, inStreams, indices[1..]);
      }
    }
  }

  lemma PacketStays(setup: Setup, log: Log, e: Endpoint, order: seq<int>, arrival: Arrival)
    requires WellCut(log) && ValidStreams(log, setup.inStreams)
    requires EndpointInv(log, e, order) && Possible(setup, log, e, arrival) && NoneUnassembled(log, e.rx.ooo)
    ensures NoneUnassembled(log, Receive(setup, log, e, arrival).rx.ooo)
  {
    hide Inv, WellCut, HandleChunks, InHalfSpace, NoneUnassembled, DeliverPartially, HeldBytes;
    assert e.rx.(a := e.rx.a.(up := [])) == e.rx;
    ChunksStay(setup.t0, log, e.delivered, e.rx, order, arrival.buffered + HeldBytes(e.rx), setup.inStreams, arrival.indices);
  }

  lemma StepStays(setup: Setup, log: Log, arrivals: seq<Arrival>, states: seq<Endpoint>, j: nat)
    requires WellCut(log) && ValidStreams(log, setup.inStreams)
    requires IsRun(setup, log, arrivals, states) && j + 1 < |states| && NoneUnassembled(log, states[j].rx.ooo)
    ensures NoneUnassembled(log, states[j + 1].rx.ooo)
  {
    hide EndpointInv, WellCut, ValidStreams, Receive, Possible, NoneUnassembled;
    var order := RunKeeps(setup, log, arrivals, states, j);
    PacketStays(setup, log, states[j], order, arrivals[j]);
  }

  lemma StartStays(setup: Setup, log: Log, arrivals: seq<Arrival>, states: seq<Endpoint>)
    requires IsRun(setup, log, arrivals, states)
    ensures NoneUnassembled(log, states[0].rx.ooo)
  {
    assert states[0].rx.ooo == map[];
  }

  lemma {:induction false} RunStays(setup: Setup, log: Log, arrivals: seq<Arrival>, states: seq<Endpoint>, j: nat)
    requires WellCut(log) && ValidStreams(log, setup.inStreams)
    requires IsRun(setup, log, arrivals, states) && j < |states|
    ensures NoneUnassembled(log, states[j].rx.ooo)
    decreases j
  {
    hide *;
    if j == 0 {
      StartStays(setup, log, arrivals, states);
    } else {
      RunStays(setup, log, arrivals, states, j - 1);
      StepStays(setup, log, arrivals, states, j - 1);
    }
  }

  // ----- What has gone up, exactly -----

  /** A message is complete exactly if the receive path has it down as complete. */
  lemma CompleteIsDone(log: Log, h: seq<Delivery>, rx: Rx, order: seq<int>, f: int)
    requires WellCut(log) && Between(log, h, rx, order) && NoneUnassembled(log, rx.ooo)
    ensures Complete(log, rx, f) <==> f in Done(log, rx.cum, rx.ooo)
  {
    hide MessageTracked, Tracked, Ordinal, NoneUnassembled, First;
    if Whole(log, f) {
      EndOfMessage(log, f);
      var e := End(log, f);
      hide End, WellCut;
      if Complete(log, rx, f) && rx.cum < e {
        assert Has(rx, e);
        assert f <= rx.cum + 1 ==> Has(rx, rx.cum + 1);
        BufferedIsAssembled(log, rx, f);
      }
      if f in Done(log, rx.cum, rx.ooo) {
        forall k | f <= k <= e
          ensures Has(rx, k)
        {
          if rx.cum < k {
            MiddleBegins(log, f, e);
            AssembledBelow(log, rx.cum, rx.ooo, e, k);
          }
        }
      }
    }
  }

  lemma BufferedIsAssembled(log: Log, rx: Rx, f: int)
    requires Complete(log, rx, f) && rx.cum < f && NoneUnassembled(log, rx.ooo)
    ensures End(log, f) in rx.ooo && rx.ooo[End(log, f)].assembled
  {
    hide End;
    EndOfMessage(log, f);
    assert Has(rx, End(log, f));
    forall k | f <= k <= End(log, f)
      ensures k in rx.ooo
    {
      assert Has(rx, k);
    }
    assert Buffered(log, rx.ooo, f);
  }

  lemma MiddleBegins(log: Log, f: int, e: int)
    requires WellCut(log) && 0 <= f <= e < |log| && forall k :: f <= k < e ==> !log[k].ends
    ensures forall k :: f < k <= e ==> !log[k].begins
  {
    hide Ordinal;
    forall k | f < k <= e
      ensures !log[k].begins
    {
      assert !log[k - 1].ends;
    }
  }

  /** The message is complete, and so is every earlier ordered one of its stream if it is
      ordered; the one being given up in part counts as gone. */
  ghost predicate Ready(log: Log, rx: Rx, partial: int, f: int) {
    && Start(log, f)
    && (Complete(log, rx, f) || f == partial)
    && (!log[f].unordered ==> forall g :: OrderedStart(log, log[f].stream, g) && g < f ==> Complete(log, rx, g) || g == partial)
  }

  lemma OrderedIsPrompt(log: Log, h: seq<Delivery>, rx: Rx, order: seq<int>, f: int)
    requires WellCut(log) && Between(log, h, rx, order) && NoneUnassembled(log, rx.ooo)
    requires Start(log, f) && !log[f].unordered
    ensures f in order <==> Ready(log, rx, PartialStart(log, rx.cum, rx.a.message), f)
  {
    hide Complete, MessageTracked, HistoryTracked, OrderTracked, BufferTracked, Messages, WellCut, Done, Tally, Ordinal, PartialStart, Settled, NoneUnassembled;
    var id := log[f].stream;
    var n := Tally(log, order, id);
    var s := StreamOf(rx.a.streams, id);
    var done, partial := Done(log, rx.cum, rx.ooo), PartialStart(log, rx.cum, rx.a.message);
    assert StreamTracked(log, id, s, order, n, done, partial) && OrderedStart(log, id, f);
    forall g | OrderedStart(log, id, g)
      ensures Placed(log, id, s, order, n, done, partial, g)
      ensures Complete(log, rx, g) <==> g in done
    {
      CompleteIsDone(log, h, rx, order, g);
    }
    if f in order {
      forall g | OrderedStart(log, id, g) && g < f
        ensures g in done || g == partial
      {
        OrdinalMonotone(log, id, g, f);
      }
    } else {
      OrdinalUpTo(log, id, f, n);
      var g := OrdinalWitness(log, id, f + 1, n);
      NextIsNotDone(log, h, rx, order, id, g);
      PartialIsOrdered(log, h, rx, order, id, g);
    }
  }

  lemma OrdinalUpTo(log: Log, id: U16, f: int, n: nat)
    requires OrderedStart(log, id, f) && n <= Ordinal(log, id, f)
    ensures n < Ordinal(log, id, f + 1)
  {
  }

  /** The message given up in part is in the order, so it is not the next of its stream. */
  lemma PartialIsOrdered(log: Log, h: seq<Delivery>, rx: Rx, order: seq<int>, id: U16, g: int)
    requires WellCut(log) && Between(log, h, rx, order)
    requires OrderedStart(log, id, g) && Ordinal(log, id, g) == Tally(log, order, id)
    ensures g != PartialStart(log, rx.cum, rx.a.message)
  {
    hide MessageTracked, OrderTracked, BufferTracked, Messages, Body, Done, Tally, Ordinal, PartialStart, Settled, Whole;
    var s := StreamOf(rx.a.streams, id);
    var done, partial := Done(log, rx.cum, rx.ooo), PartialStart(log, rx.cum, rx.a.message);
    assert StreamTracked(log, id, s, order, Tally(log, order, id), done, partial);
    assert Placed(log, id, s, order, Tally(log, order, id), done, partial, g);
  }

  lemma UnorderedIsPrompt(log: Log, h: seq<Delivery>, rx: Rx, order: seq<int>, f: int)
    requires WellCut(log) && Between(log, h, rx, order) && NoneUnassembled(log, rx.ooo)
    requires Start(log, f) && log[f].unordered
    ensures f in order <==> Ready(log, rx, PartialStart(log, rx.cum, rx.a.message), f)
  {
    CompleteIsDone(log, h, rx, order, f);
    hide Complete, MessageTracked, HistoryTracked, StreamsTracked, BufferTracked, Messages, WellCut, Done, PartialStart, Settled, InSendingOrder, NoneUnassembled;
  }

  /** Prompt delivery, for every state of every run: the messages handed up, followed by
      those held behind an open partial delivery, are exactly the ones that are ready. */
  lemma DeliveryIsPrompt(setup: Setup, log: Log, arrivals: seq<Arrival>, states: seq<Endpoint>, j: nat)
    requires WellCut(log) && ValidStreams(log, setup.inStreams)
    requires IsRun(setup, log, arrivals, states) && j < |states|
    ensures exists order :: Accounts(log, states[j], order)
  {
    hide WellCut, ValidStreams, IsRun, Between, Explains, Ready, PartialStart, NoneUnassembled;
    var e := states[j];
    var order := RunKeeps(setup, log, arrivals, states, j);
    RunStays(setup, log, arrivals, states, j);
    Explained(log, e, order);
    HeldBehind(log, e, order);
    forall f | Start(log, f)
      ensures f in order <==> Ready(log, e.rx, PartialStart(log, e.rx.cum, e.rx.a.message), f)
    {
      if log[f].unordered {
        UnorderedIsPrompt(log, e.delivered, e.rx, order, f);
      } else {
        OrderedIsPrompt(log, e.delivered, e.rx, order, f);
      }
    }
    assert Accounts(log, e, order);
  }

  /** `order` names what was handed up and then what is held back behind it. */
  ghost predicate Accounts(log: Log, e: Endpoint, order: seq<int>) {
    var n := |Messages(e.delivered)|;
    && n + |e.rx.a.held| == |order|
    && Explains(log, order[..n], Messages(e.delivered))
    && (!PartialOpen(e.rx.a) ==> e.rx.a.held == [])
    && (forall x :: n <= x < |order| ==> IsHeld(log, order[x], e.rx.a.held[x - n]))
    && (forall f :: Start(log, f) ==> (f in order <==> Ready(log, e.rx, PartialStart(log, e.rx.cum, e.rx.a.message), f)))
  }

  lemma HeldBehind(log: Log, e: Endpoint, order: seq<int>)
    requires EndpointInv(log, e, order)
    ensures var n := |Messages(e.delivered)|;
            && n + |e.rx.a.held| == |order|
            && (!PartialOpen(e.rx.a) ==> e.rx.a.held == [])
            && (forall x :: n <= x < |order| ==> IsHeld(log, order[x], e.rx.a.held[x - n]))
  {
    hide StreamsTracked, OrderTracked, MessageTracked, BufferTracked, Messages, IsHeld, Settled, Done;
    assert e.delivered + [] == e.delivered;
  }

  // ----- Partial delivery -----

  /** The window cannot take another chunk of full size. */
  predicate Tight(used: int, pmdcs: nat) {
    used + pmdcs > RWND
  }

  /** The open message is the one its stream waits for, or none does. */
  predicate NextInStream(a: Assembly) {
    a.message.unordered || a.message.ssn == StreamOf(a.streams, a.message.stream).nextSsn
  }

  lemma {:induction false} DrainAppends(a: Assembly, id: U16)
    ensures Drain(a, id).message == a.message && (PartialOpen(a) ==> Drain(a, id).up == a.up)
    decreases |StreamOf(a.streams, id).early|
  {
    var s := StreamOf(a.streams, id);
    if s.nextSsn in s.early {
      var rest := s.early - {s.nextSsn};
      assert s.early.Keys == rest.Keys + {s.nextSsn};
      assert |s.early.Keys| == |rest.Keys| + 1;
      DrainAppends(HandUp(a, Delivery(s.early[s.nextSsn], true, id)).(streams := a.streams[id := InboundStream(Increment(s.nextSsn), rest)]), id);
    }
  }

  /** The open message goes up in part exactly when the window is tight and it is next in its
      stream: then all there is of it goes up, last and as incomplete, and nothing of it is
      kept. Otherwise nothing changes. */
  lemma PartIsGivenWhenTight(t0: Tsn, rx: Rx, buffered: nat, inStreams: nat, pmdcs: nat, chunks: seq<DataChunk>)
    requires InReach(rx.cum, rx.ooo)
    ensures var r := HandlePacket(t0, rx, buffered, inStreams, pmdcs, chunks);
            var s := HandleChunks(t0, rx.(a := rx.a.(up := [])), buffered + HeldBytes(rx), inStreams, chunks);
            var m := s.rx.a.message;
            !r.violation ==>
              && !s.violation && r.rx.cum == s.rx.cum && r.rx.ooo == s.rx.ooo
              && (if m.open && m.bytes != [] && Tight(s.used, pmdcs) && NextInStream(s.rx.a)
                  then r.rx.a.up == s.rx.a.up + [Delivery(m.bytes, false, m.stream)] && r.rx.a.message == m.(bytes := [], partiallyDelivered := true)
                  else r == s)
  {
    hide HandleChunks, HeldBytes, InReach, Drain;
    var a := HandleChunks(t0, rx.(a := rx.a.(up := [])), buffered + HeldBytes(rx), inStreams, chunks).rx.a;
    var m := a.message;
    var b := a.(up := a.up + [Delivery(m.bytes, false, m.stream)], message := m.(bytes := [], partiallyDelivered := true));
    var t := StreamOf(b.streams, m.stream);
    DrainAppends(b.(streams := b.streams[m.stream := t.(nextSsn := Increment(t.nextSsn))]), m.stream);
  }
}
