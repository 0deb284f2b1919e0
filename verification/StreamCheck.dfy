/** DATA on a stream that was not agreed on is acknowledged and never delivered (section 6.5
    of RFC 9260): over every run, with any peer, whatever goes up or waits to is on a stream
    the association has. */
module StreamCheck {
  import opened Serial
  import opened ReceiveSpec
  import opened Conservation

  predicate AllOn(inStreams: nat, ds: seq<Delivery>) {
    forall j :: 0 <= j < |ds| ==> ds[j].stream < inStreams
  }

  /** What has gone up, is held or is early is on a stream that was agreed on. */
  predicate OnAgreed(inStreams: nat, a: Assembly) {
    && AllOn(inStreams, a.up) && AllOn(inStreams, a.held)
    && (forall id <- a.streams :: a.streams[id].early != map[] ==> id < inStreams)
  }

  lemma {:induction false} DrainOn(inStreams: nat, a: Assembly, id: U16)
    requires OnAgreed(inStreams, a)
    ensures OnAgreed(inStreams, Drain(a, id)) && Drain(a, id).message == a.message
    decreases |StreamOf(a.streams, id).early|
  {
    var s := StreamOf(a.streams, id);
    if s.nextSsn in s.early {
      var rest := s.early - {s.nextSsn};
      assert s.early.Keys == rest.Keys + {s.nextSsn};
      assert |s.early.Keys| == |rest.Keys| + 1;
      assert id in a.streams && id < inStreams;
      DrainOn(inStreams, HandUp(a, Delivery(s.early[s.nextSsn], true, id)).(streams := a.streams[id := InboundStream(Increment(s.nextSsn), rest)]), id);
    }
  }

  lemma AdvanceOn(inStreams: nat, a: Assembly, id: U16)
    requires OnAgreed(inStreams, a)
    ensures OnAgreed(inStreams, AdvanceStream(a, id)) && AdvanceStream(a, id).message == a.message
  {
    var s := StreamOf(a.streams, id);
    DrainOn(inStreams, a.(streams := a.streams[id := s.(nextSsn := Increment(s.nextSsn))]), id);
  }

  lemma OrderOn(inStreams: nat, a: Assembly, id: U16, ssn: U16, unordered: bool, bytes: Bytes)
    requires OnAgreed(inStreams, a) && id < inStreams
    ensures OnAgreed(inStreams, OrderMessage(a, id, ssn, unordered, bytes).a)
  {
    hide AdvanceStream;
    AdvanceOn(inStreams, HandUp(a, Delivery(bytes, true, id)), id);
  }

  lemma ReassembleOn(inStreams: nat, a: Assembly, f: Fragment, keep: bool)
    requires OnAgreed(inStreams, a) && (keep ==> f.stream < inStreams)
    ensures OnAgreed(inStreams, Reassemble(a, f, keep).a)
  {
    hide OrderMessage;
    var m := (if f.begins then Reassembly(true, false, f.unordered, f.stream, f.ssn, []) else a.message).(open := !f.ends);
    if keep && (f.begins || Continues(f, a.message)) {
      OrderOn(inStreams, a.(message := m.(bytes := [])), m.stream, m.ssn, m.unordered, m.bytes + f.bytes);
    }
  }

  lemma {:induction false} ReadBufferOn(inStreams: nat, rx: Rx)
    requires Sound(inStreams, rx) && InReach(rx.cum, rx.ooo) && OnAgreed(inStreams, rx.a)
    ensures OnAgreed(inStreams, ReadBuffer(rx).rx.a)
    decreases |rx.ooo|
  {
    hide Reassemble, OnAgreed, WholeRuns, MessageSound;
    var i := rx.cum + 1;
    if i in rx.ooo {
      var h := rx.ooo[i];
      var keep := !h.assembled && h.data.bytes != [];
      assert rx.ooo.Keys == (rx.ooo - {i}).Keys + {i};
      assert |rx.ooo.Keys| == |(rx.ooo - {i}).Keys| + 1;
      ReassembleOn(inStreams, rx.a, h.data, keep);
      ConsumeBytes(inStreams, rx, h);
      var o := Reassemble(rx.a, h.data, keep);
      if o.ok {
        ReadBufferOn(inStreams, Rx(i, rx.ooo - {i}, o.a));
      }
    }
  }

  lemma AssembleOn(inStreams: nat, rx: Rx, i: int)
    requires Sound(inStreams, rx) && InReach(rx.cum, rx.ooo) && OnAgreed(inStreams, rx.a)
    ensures OnAgreed(inStreams, AssembleEarly(rx, i).rx.a)
  {
    hide OrderMessage, OnAgreed, FirstFragment, LastFragment, Gather, WholeRuns, MessageSound;
    if Usable(rx.ooo, i) {
      var f := rx.ooo[i].data;
      var first, last := FirstFragment(rx.cum, rx.ooo, i, f), LastFragment(rx.cum, rx.ooo, i, f);
      if first.At? && last.At? {
        OrderOn(inStreams, rx.a, f.stream, f.ssn, f.unordered, Gather(rx.ooo, first.index, last.index + 1));
      }
    }
  }

  lemma PlaceOn(inStreams: nat, rx: Rx, i: int, f: Fragment)
    requires Sound(inStreams, rx) && InReach(rx.cum, rx.ooo) && rx.cum + 1 !in rx.ooo && OnAgreed(inStreams, rx.a)
    requires rx.cum < i <= rx.cum + UINT16_MAX && i !in rx.ooo && f.bytes != []
    ensures OnAgreed(inStreams, Place(rx, i, f, f.stream < inStreams).rx.a)
  {
    hide Reassemble, ReadBuffer, AssembleEarly, OnAgreed, Sound;
    var valid := f.stream < inStreams;
    if i == rx.cum + 1 {
      var o := Reassemble(rx.a, f, valid);
      ReassembleOn(inStreams, rx.a, f, valid);
      if o.ok {
        ConsumedSound(inStreams, rx, f);
        ReadBufferOn(inStreams, rx.(cum := i, a := o.a));
      }
    } else if valid {
      SoundInsert(inStreams, rx, i, Held(f, false));
      AssembleOn(inStreams, rx.(ooo := rx.ooo[i := Held(f, false)]), i);
    }
  }

  lemma ConsumedSound(inStreams: nat, rx: Rx, f: Fragment)
    requires Sound(inStreams, rx) && rx.cum + 1 !in rx.ooo && f.bytes != []
    ensures var o := Reassemble(rx.a, f, f.stream < inStreams);
            o.ok ==> Sound(inStreams, rx.(cum := rx.cum + 1, a := o.a))
  {
    hide Sound, OrderMessage;
    var kept := if f.stream < inStreams then f else Emptied(f);
    assert Reassemble(rx.a, f, f.stream < inStreams) == Reassemble(rx.a, kept, f.stream < inStreams);
    assert rx.ooo - {rx.cum + 1} == rx.ooo;
    ConsumeBytes(inStreams, rx, Held(kept, false));
  }

  lemma ChunkOn(inStreams: nat, rx: Rx, used: int, i: int, f: Fragment)
    requires Sound(inStreams, rx) && InReach(rx.cum, rx.ooo) && rx.cum + 1 !in rx.ooo && OnAgreed(inStreams, rx.a) && f.bytes != []
    ensures OnAgreed(inStreams, HandleChunk(rx, used, inStreams, i, f).rx.a)
  {
    hide Place, OnAgreed, Sound;
    if !(i <= rx.cum || i in rx.ooo || i > rx.cum + UINT16_MAX) {
      var room := MadeRoom(rx, used, i);
      if used >= RWND && Evicted(rx, i).At? {
        SoundEvict(inStreams, rx, Evicted(rx, i).index);
      }
      if room.verdict != Dropped {
        PlaceOn(inStreams, room.rx, i, f);
      }
    }
  }

  lemma {:induction false} ChunksOn(t0: Tsn, rx: Rx, used: int, inStreams: nat, chunks: seq<DataChunk>)
    requires Sound(inStreams, rx) && InReach(rx.cum, rx.ooo) && rx.cum + 1 !in rx.ooo && OnAgreed(inStreams, rx.a)
    requires forall j :: 0 <= j < |chunks| ==> chunks[j].data.bytes != []
    ensures OnAgreed(inStreams, HandleChunks(t0, rx, used, inStreams, chunks).rx.a)
    decreases |chunks|
  {
    hide Sound, HandleChunk, TotalBytes, InReach, EvictedBytes, Unwrap, OnAgreed;
    if chunks != [] {
      var i := Unwrap(t0, rx.cum, chunks[0].tsn);
      ChunkBytes(inStreams, rx, used, i, chunks[0].data);
      ChunkOn(inStreams, rx, used, i, chunks[0].data);
      var s := HandleChunk(rx, used, inStreams, i, chunks[0].data);
      if !s.verdict.Violation? {
        ChunksOn(t0, s.rx, s.used, inStreams, chunks[1..]);
      }
    }
  }

  lemma PartialOn(inStreams: nat, rx: Rx, used: int, pmdcs: nat)
    requires Sound(inStreams, rx) && OnAgreed(inStreams, rx.a)
    ensures OnAgreed(inStreams, DeliverPartially(rx.a, used, pmdcs))
  {
    hide AdvanceStream, WholeRuns;
    var m := rx.a.message;
    var b := rx.a.(up := rx.a.up + [Delivery(m.bytes, false, m.stream)], message := m.(bytes := [], partiallyDelivered := true));
    if m.bytes != [] {
      AdvanceOn(inStreams, b, m.stream);
    }
  }

  lemma NothingUp(inStreams: nat, a: Assembly)
    requires OnAgreed(inStreams, a)
    ensures OnAgreed(inStreams, a.(up := []))
  {
  }

  lemma PacketOn(t0: Tsn, rx: Rx, buffered: nat, inStreams: nat, pmdcs: nat, chunks: seq<DataChunk>)
    requires Sound(inStreams, rx) && InReach(rx.cum, rx.ooo) && rx.cum + 1 !in rx.ooo && OnAgreed(inStreams, rx.a)
    requires forall j :: 0 <= j < |chunks| ==> chunks[j].data.bytes != []
    ensures OnAgreed(inStreams, HandlePacket(t0, rx, buffered, inStreams, pmdcs, chunks).rx.a)
  {
    hide Sound, HandleChunks, HeldBytes, InReach, DeliverPartially, OnAgreed, LedgerOf, TotalBytes, Payload;
    var start := rx.(a := rx.a.(up := []));
    NothingUp(inStreams, rx.a);
    SoundWith(inStreams, rx, rx.a.(up := []));
    ChunksOn(t0, start, buffered + HeldBytes(rx), inStreams, chunks);
    ChunksBytes(t0, start, buffered + HeldBytes(rx), inStreams, chunks);
    var r := HandleChunks(t0, start, buffered + HeldBytes(rx), inStreams, chunks);
    if !r.violation {
      PartialOn(inStreams, r.rx, r.used, pmdcs);
    }
  }

  lemma StepOn(t0: Tsn, inStreams: nat, pmdcs: nat, w: Window, e: Event, w': Window)
    requires WindowInv(inStreams, w) && Steps(t0, inStreams, pmdcs, w, e, w') && OnAgreed(inStreams, w.rx.a)
    ensures OnAgreed(inStreams, w'.rx.a)
  {
    hide Sound, HandlePacket, HeldBytes, InReach, OnAgreed;
    if e.Data? {
      PacketOn(t0, w.rx, w.buffered, inStreams, pmdcs, e.chunks);
    }
  }

  /** In every run, with any peer, all that goes up is on a stream that was agreed on. */
  lemma {:induction false} OnlyAgreedStreams(t0: Tsn, inStreams: nat, pmdcs: nat, events: seq<Event>, states: seq<Window>, j: nat)
    requires IsRun(t0, inStreams, pmdcs, events, states) && j < |states|
    ensures OnAgreed(inStreams, states[j].rx.a)
    decreases j
  {
    if j > 0 {
      hide WindowInv, Steps, InReach, OnAgreed;
      OnlyAgreedStreams(t0, inStreams, pmdcs, events, states, j - 1);
      WindowIsHonest(t0, inStreams, pmdcs, events, states, j - 1);
      StepOn(t0, inStreams, pmdcs, states[j - 1], events[j - 1], states[j]);
    }
  }
}
