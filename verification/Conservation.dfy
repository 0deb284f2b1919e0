/** Byte accounting of the receive path, for any peer: what is handed up, held and
    evicted adds up to what was accepted, and the window the peer believes it has is
    never more than the free space. */
module Conservation {
  import opened Serial
  import opened ReceiveSpec

  // ----- Weights of maps -----

  lemma {:induction false} WeighRemove<K(!new), V>(m: map<K, V>, w: V -> nat, k: K)
    requires k in m
    ensures Weigh(m, w) == w(m[k]) + Weigh(m - {k}, w)
    decreases |m|
  {
    var j :| j in m && Weigh(m, w) == w(m[j]) + Weigh(m - {j}, w);
    if j != k {
      assert |m.Keys| == |(m - {j}).Keys| + 1 by { assert m.Keys == (m - {j}).Keys + {j}; }
      assert |m.Keys| == |(m - {k}).Keys| + 1 by { assert m.Keys == (m - {k}).Keys + {k}; }
      WeighRemove(m - {j}, w, k);
      WeighRemove(m - {k}, w, j);
      assert m - {j} - {k} == m - {k} - {j};
    }
  }

  lemma WeighUpdate<K(!new), V>(m: map<K, V>, w: V -> nat, k: K, v: V)
    ensures Weigh(m[k := v], w) == w(v) + Weigh(m - {k}, w)
    ensures k !in m ==> m - {k} == m
  {
    WeighRemove(m[k := v], w, k);
    assert m[k := v] - {k} == m - {k};
    assert k !in m ==> m - {k} == m;
  }

  lemma WeighStreams(streams: map<U16, InboundStream>, id: U16, s: InboundStream)
    ensures Weigh(streams[id := s], EarlySize) + EarlySize(StreamOf(streams, id)) == Weigh(streams, EarlySize) + EarlySize(s)
  {
    WeighUpdate(streams, EarlySize, id, s);
    if id in streams {
      WeighRemove(streams, EarlySize, id);
    }
  }

  // ----- Above the buffer -----

  /** The bytes in an assembly, counting those it has handed up. */
  ghost function AssemblyBytes(a: Assembly): nat {
    |a.message.bytes| + Weigh(a.streams, EarlySize) + DeliveredBytes(a.held) + DeliveredBytes(a.up)
  }

  lemma DeliveredAppend(ds: seq<Delivery>, d: Delivery)
    ensures DeliveredBytes(ds + [d]) == DeliveredBytes(ds) + |d.bytes|
  {
    assert (ds + [d])[..|ds|] == ds;
  }

  lemma {:induction false} DeliveredConcat(ds: seq<Delivery>, es: seq<Delivery>)
    ensures DeliveredBytes(ds + es) == DeliveredBytes(ds) + DeliveredBytes(es)
    decreases |es|
  {
    if es == [] {
      assert ds + es == ds;
    } else {
      var n := |es| - 1;
      assert (ds + es)[..|ds + es| - 1] == ds + es[..n];
      DeliveredConcat(ds, es[..n]);
    }
  }

  lemma HandUpBytes(a: Assembly, d: Delivery)
    ensures AssemblyBytes(HandUp(a, d)) == AssemblyBytes(a) + |d.bytes|
  {
    DeliveredAppend(a.held, d);
    DeliveredAppend(a.up, d);
  }

  lemma {:induction false} DrainBytes(a: Assembly, id: U16)
    ensures AssemblyBytes(Drain(a, id)) == AssemblyBytes(a)
    ensures Drain(a, id).message == a.message
    decreases |StreamOf(a.streams, id).early|
  {
    var s := StreamOf(a.streams, id);
    if s.nextSsn in s.early {
      var rest := s.early - {s.nextSsn};
      assert s.early.Keys == rest.Keys + {s.nextSsn};
      assert |s.early.Keys| == |rest.Keys| + 1;
      var d := Delivery(s.early[s.nextSsn], true, id);
      var next := InboundStream(Increment(s.nextSsn), rest);
      HandUpBytes(a, d);
      WeighStreams(a.streams, id, next);
      WeighRemove(s.early, Size, s.nextSsn);
      DrainBytes(HandUp(a, d).(streams := a.streams[id := next]), id);
    }
  }

  lemma AdvanceBytes(a: Assembly, id: U16)
    ensures AssemblyBytes(AdvanceStream(a, id)) == AssemblyBytes(a)
    ensures AdvanceStream(a, id).message == a.message
  {
    var s := StreamOf(a.streams, id);
    var t := s.(nextSsn := Increment(s.nextSsn));
    WeighStreams(a.streams, id, t);
    DrainBytes(a.(streams := a.streams[id := t]), id);
  }

  lemma OrderBytes(a: Assembly, id: U16, ssn: U16, unordered: bool, bytes: Bytes)
    ensures var o := OrderMessage(a, id, ssn, unordered, bytes);
            o.ok ==> AssemblyBytes(o.a) == AssemblyBytes(a) + |bytes| && o.a.message == a.message
  {
    hide Weigh;
    var d := Delivery(bytes, true, id);
    HandUpBytes(a, d);
    var s := StreamOf(a.streams, id);
    if !unordered {
      if ssn == s.nextSsn {
        AdvanceBytes(HandUp(a, d), id);
      } else if ssn !in s.early {
        WeighStreams(a.streams, id, s.(early := s.early[ssn := bytes]));
        WeighUpdate(s.early, Size, ssn, bytes);
      }
    }
  }

  /** Consuming a chunk adds its bytes; bytes are lost only if a message that still holds
      some is replaced, which `Sound` rules out. */
  lemma ReassembleBytes(a: Assembly, f: Fragment, keep: bool)
    requires f.begins ==> a.message.open || a.message.bytes == []
    ensures var o := Reassemble(a, f, keep);
            o.ok ==> AssemblyBytes(o.a) == AssemblyBytes(a) + (if keep then |f.bytes| else 0)
  {
    hide Weigh, OrderMessage;
    var m := (if f.begins then Reassembly(true, false, f.unordered, f.stream, f.ssn, []) else a.message).(open := !f.ends);
    var bytes := m.bytes + f.bytes;
    OrderBytes(a.(message := m.(bytes := [])), m.stream, m.ssn, m.unordered, bytes);
    DeliveredAppend(a.up, Delivery(bytes, f.ends, m.stream));
    DeliveredConcat(a.up + [Delivery(bytes, f.ends, m.stream)], a.held);
  }

  /** Without a violation the open message tells what became of the last chunk. */
  lemma ReassembleMessage(a: Assembly, f: Fragment, keep: bool)
    ensures var o := Reassemble(a, f, keep);
            o.ok ==>
              && o.a.message.open == !f.ends
              && f.begins != a.message.open
              && (!f.begins ==> Continues(f, a.message))
              && o.a.message.stream == f.stream && o.a.message.unordered == f.unordered
              && o.a.message.partiallyDelivered == (!f.begins && a.message.partiallyDelivered)
              && (keep && f.ends ==> o.a.message.bytes == [])
              && (!keep ==> o.a.message.bytes == if f.begins then [] else a.message.bytes)
  {
    hide OrderMessage;
    var m := (if f.begins then Reassembly(true, false, f.unordered, f.stream, f.ssn, []) else a.message).(open := !f.ends);
    OrderBytes(a.(message := m.(bytes := [])), m.stream, m.ssn, m.unordered, m.bytes + f.bytes);
  }

  // ----- The buffer -----

  /** What holds of the buffer and the open message whatever the peer sends: chunks
      assembled early are empty and come as whole messages, an empty chunk is one of an
      invalid stream, and the open message holds bytes only while it should. */
  ghost predicate Sound(inStreams: nat, rx: Rx) {
    && InReach(rx.cum, rx.ooo)
    && (forall k <- rx.ooo :: rx.ooo[k].assembled ==> rx.ooo[k].data.bytes == [])
    && (forall k <- rx.ooo :: !rx.ooo[k].assembled ==> (rx.ooo[k].data.bytes == [] <==> rx.ooo[k].data.stream >= inStreams))
    && WholeRuns(rx.cum, rx.ooo)
    && MessageSound(inStreams, rx.cum, rx.ooo, rx.a.message)
  }

  ghost predicate WholeRuns(cum: int, ooo: Reorder) {
    && (forall k <- ooo :: ooo[k].assembled && !ooo[k].data.ends ==> k + 1 in ooo && ooo[k + 1].assembled)
    && (forall k <- ooo :: ooo[k].assembled && !ooo[k].data.begins && cum < k - 1 ==> k - 1 in ooo && ooo[k - 1].assembled)
  }

  predicate MessageSound(inStreams: nat, cum: int, ooo: Reorder, m: Reassembly) {
    && (!m.open ==> m.bytes == [])
    && (m.bytes != [] ==> m.stream < inStreams)
    && (cum + 1 in ooo && ooo[cum + 1].assembled && !ooo[cum + 1].data.begins ==> m.bytes == [])
  }

  /** All bytes of a receiver: held, and handed up in this packet. */
  ghost function TotalBytes(rx: Rx): nat {
    AssemblyBytes(rx.a) + Weigh(rx.ooo, HeldSize)
  }

  /** The chunk next in turn: the one the buffer holds, or one straight from a packet. */
  predicate NextUp(inStreams: nat, rx: Rx, h: Held) {
    if rx.cum + 1 in rx.ooo then h == rx.ooo[rx.cum + 1]
    else !h.assembled && (h.data.bytes == [] <==> h.data.stream >= inStreams)
  }

  lemma MessageStaysSound(inStreams: nat, rx: Rx, h: Held)
    requires Sound(inStreams, rx) && NextUp(inStreams, rx, h)
    ensures var i := rx.cum + 1;
            var o := Reassemble(rx.a, h.data, !h.assembled && h.data.bytes != []);
            o.ok ==> MessageSound(inStreams, i, rx.ooo - {i}, o.a.message)
  {
    hide Reassemble;
    ReassembleMessage(rx.a, h.data, !h.assembled && h.data.bytes != []);
  }

  lemma BufferStaysSound(inStreams: nat, rx: Rx, a: Assembly)
    requires Sound(inStreams, rx) && MessageSound(inStreams, rx.cum + 1, rx.ooo - {rx.cum + 1}, a.message)
    ensures Sound(inStreams, Rx(rx.cum + 1, rx.ooo - {rx.cum + 1}, a))
  {
    hide MessageSound;
  }

  /** Consuming a chunk moves its bytes into the assembly. */
  lemma ConsumeBytes(inStreams: nat, rx: Rx, h: Held)
    requires Sound(inStreams, rx) && NextUp(inStreams, rx, h)
    ensures var i := rx.cum + 1;
            var o := Reassemble(rx.a, h.data, !h.assembled && h.data.bytes != []);
            o.ok ==> Sound(inStreams, Rx(i, rx.ooo - {i}, o.a)) && AssemblyBytes(o.a) == AssemblyBytes(rx.a) + |h.data.bytes|
  {
    var o := Reassemble(rx.a, h.data, !h.assembled && h.data.bytes != []);
    assert h.assembled ==> h.data.bytes == [];
    assert !rx.a.message.open ==> rx.a.message.bytes == [];
    hide Reassemble, AssemblyBytes, Sound, MessageSound;
    ReassembleBytes(rx.a, h.data, !h.assembled && h.data.bytes != []);
    MessageStaysSound(inStreams, rx, h);
    if o.ok {
      BufferStaysSound(inStreams, rx, o.a);
    }
  }

  lemma {:induction false} ReadBufferBytes(inStreams: nat, rx: Rx)
    requires Sound(inStreams, rx) && InReach(rx.cum, rx.ooo)
    ensures var r := ReadBuffer(rx);
            r.ok ==> Sound(inStreams, r.rx) && TotalBytes(r.rx) == TotalBytes(rx)
    decreases |rx.ooo|
  {
    hide Sound, Reassemble, AssemblyBytes, Weigh;
    var i := rx.cum + 1;
    if i in rx.ooo {
      assert rx.ooo.Keys == (rx.ooo - {i}).Keys + {i};
      assert |rx.ooo.Keys| == |(rx.ooo - {i}).Keys| + 1;
      ConsumeBytes(inStreams, rx, rx.ooo[i]);
      WeighRemove(rx.ooo, HeldSize, i);
      var o := Reassemble(rx.a, rx.ooo[i].data, !rx.ooo[i].assembled && rx.ooo[i].data.bytes != []);
      if o.ok {
        ReadBufferBytes(inStreams, Rx(i, rx.ooo - {i}, o.a));
      }
    }
  }

  lemma {:induction false} WalkDownUsable(cum: int, ooo: Reorder, i: int, like: Fragment)
    requires InReach(cum, ooo) && Usable(ooo, i)
    ensures var r := FirstFragment(cum, ooo, i, like);
            r.At? ==> r.index <= i && (forall k :: r.index <= k <= i ==> Usable(ooo, k)) && r.index in ooo && ooo[r.index].data.begins
    decreases i - cum
  {
    if !ooo[i].data.begins && Usable(ooo, i - 1) {
      WalkDownUsable(cum, ooo, i - 1, like);
    }
  }

  lemma {:induction false} WalkUpUsable(cum: int, ooo: Reorder, i: int, like: Fragment)
    requires InReach(cum, ooo) && Usable(ooo, i)
    ensures var r := LastFragment(cum, ooo, i, like);
            r.At? ==> i <= r.index && (forall k :: i <= k <= r.index ==> Usable(ooo, k)) && r.index in ooo && ooo[r.index].data.ends
    decreases cum + UINT16_MAX - i
  {
    if !ooo[i].data.ends && Usable(ooo, i + 1) {
      WalkUpUsable(cum, ooo, i + 1, like);
    }
  }

  /** What early assembly gathers is what it takes out. */
  lemma {:induction false} GatherBytes(ooo: Reorder, f: int, l: int)
    requires f <= l + 1 && forall k :: f <= k <= l ==> Usable(ooo, k)
    ensures Weigh(MarkAssembled(ooo, f, l), HeldSize) + |Gather(ooo, f, l + 1)| == Weigh(ooo, HeldSize)
    decreases l - f
  {
    if l < f {
      assert MarkAssembled(ooo, f, l) == ooo;
    } else {
      GatherBytes(ooo, f, l - 1);
      assert Usable(ooo, l);
      var before := MarkAssembled(ooo, f, l - 1);
      assert MarkAssembled(ooo, f, l) == before[l := Held(ooo[l].data.(bytes := []), true)];
      WeighUpdate(before, HeldSize, l, Held(ooo[l].data.(bytes := []), true));
      WeighRemove(before, HeldSize, l);
    }
  }

  lemma MarkedRuns(cum: int, ooo: Reorder, f: int, l: int)
    requires WholeRuns(cum, ooo) && InReach(cum, ooo)
    requires f <= l && (forall k :: f <= k <= l ==> Usable(ooo, k)) && f in ooo && l in ooo && ooo[f].data.begins && ooo[l].data.ends
    ensures WholeRuns(cum, MarkAssembled(ooo, f, l))
  {
    var marked := MarkAssembled(ooo, f, l);
    forall k <- marked | marked[k].assembled && !marked[k].data.ends
      ensures k + 1 in marked && marked[k + 1].assembled
    {
      if f <= k <= l {
        assert Usable(ooo, k + 1);
      }
    }
    forall k <- marked | marked[k].assembled && !marked[k].data.begins && cum < k - 1
      ensures k - 1 in marked && marked[k - 1].assembled
    {
      if f <= k <= l {
        assert Usable(ooo, k - 1);
      }
    }
  }

  lemma SoundMarked(inStreams: nat, rx: Rx, f: int, l: int, a: Assembly)
    requires Sound(inStreams, rx) && rx.cum + 1 !in rx.ooo && a.message == rx.a.message
    requires f <= l && (forall k :: f <= k <= l ==> Usable(rx.ooo, k)) && f in rx.ooo && l in rx.ooo && rx.ooo[f].data.begins && rx.ooo[l].data.ends
    ensures Sound(inStreams, rx.(ooo := MarkAssembled(rx.ooo, f, l), a := a))
  {
    MarkedRuns(rx.cum, rx.ooo, f, l);
    hide WholeRuns;
  }

  /** Chunks that are not assembled come and go. */
  lemma SoundInsert(inStreams: nat, rx: Rx, i: int, h: Held)
    requires Sound(inStreams, rx) && rx.cum < i <= rx.cum + UINT16_MAX && i !in rx.ooo
    requires !h.assembled && (h.data.bytes == [] <==> h.data.stream >= inStreams)
    ensures Sound(inStreams, rx.(ooo := rx.ooo[i := h]))
  {
  }

  lemma SoundEvict(inStreams: nat, rx: Rx, k: int)
    requires Sound(inStreams, rx) && k in rx.ooo && !rx.ooo[k].assembled
    ensures Sound(inStreams, rx.(ooo := rx.ooo - {k}))
  {
  }

  lemma AssembleBytes(inStreams: nat, rx: Rx, i: int)
    requires Sound(inStreams, rx) && InReach(rx.cum, rx.ooo) && rx.cum + 1 !in rx.ooo && i in rx.ooo
    ensures var r := AssembleEarly(rx, i);
            r.ok ==> Sound(inStreams, r.rx) && r.rx.cum == rx.cum && rx.cum + 1 !in r.rx.ooo && TotalBytes(r.rx) == TotalBytes(rx)
  {
    hide Sound, FirstFragment, LastFragment, OrderMessage, AssemblyBytes, Weigh, Gather;
    if Usable(rx.ooo, i) {
      var like := rx.ooo[i].data;
      var first := FirstFragment(rx.cum, rx.ooo, i, like);
      var last := LastFragment(rx.cum, rx.ooo, i, like);
      if first.At? && last.At? {
        WalkDownUsable(rx.cum, rx.ooo, i, like);
        WalkUpUsable(rx.cum, rx.ooo, i, like);
        hide Usable, InReach;
        assert forall k :: first.index <= k <= last.index ==> Usable(rx.ooo, k);
        TakeOutBytes(inStreams, rx, first.index, last.index, like);
      }
    }
  }

  lemma TakeOutBytes(inStreams: nat, rx: Rx, f: int, l: int, like: Fragment)
    requires Sound(inStreams, rx) && rx.cum + 1 !in rx.ooo
    requires f <= l && (forall k :: f <= k <= l ==> Usable(rx.ooo, k)) && f in rx.ooo && l in rx.ooo && rx.ooo[f].data.begins && rx.ooo[l].data.ends
    ensures var o := OrderMessage(rx.a, like.stream, like.ssn, like.unordered, Gather(rx.ooo, f, l + 1));
            var rx' := rx.(ooo := MarkAssembled(rx.ooo, f, l), a := o.a);
            o.ok ==> Sound(inStreams, rx') && TotalBytes(rx') == TotalBytes(rx)
  {
    hide Sound, OrderMessage, AssemblyBytes, Weigh, Gather, MarkAssembled;
    var o := OrderMessage(rx.a, like.stream, like.ssn, like.unordered, Gather(rx.ooo, f, l + 1));
    OrderBytes(rx.a, like.stream, like.ssn, like.unordered, Gather(rx.ooo, f, l + 1));
    if o.ok {
      SoundMarked(inStreams, rx, f, l, o.a);
      GatherBytes(rx.ooo, f, l);
    }
  }

  lemma PlaceBytes(inStreams: nat, rx: Rx, i: int, f: Fragment)
    requires Sound(inStreams, rx) && InReach(rx.cum, rx.ooo) && rx.cum + 1 !in rx.ooo
    requires rx.cum < i <= rx.cum + UINT16_MAX && i !in rx.ooo && f.bytes != []
    ensures var valid := f.stream < inStreams;
            var r := Place(rx, i, f, valid);
            r.ok ==> Sound(inStreams, r.rx) && r.rx.cum + 1 !in r.rx.ooo
                     && TotalBytes(r.rx) == TotalBytes(rx) + (if valid then |f.bytes| else 0)
  {
    hide Sound, AssemblyBytes, Weigh, ReadBuffer, AssembleEarly;
    var valid := f.stream < inStreams;
    var kept := if valid then f else Emptied(f);
    if i == rx.cum + 1 {
      assert rx.ooo - {i} == rx.ooo;
      ConsumeBytes(inStreams, rx, Held(kept, false));
      var o := Reassemble(rx.a, f, valid);
      assert o == Reassemble(rx.a, kept, valid);
      if o.ok {
        ReadBufferBytes(inStreams, rx.(cum := i, a := o.a));
      }
    } else {
      var h := Held(kept, false);
      WeighUpdate(rx.ooo, HeldSize, i, h);
      SoundInsert(inStreams, rx, i, h);
      if valid {
        AssembleBytes(inStreams, rx.(ooo := rx.ooo[i := h]), i);
      }
    }
  }

  /** The counter `used` moves by exactly what the receiver gains or loses. */
  lemma ChunkBytes(inStreams: nat, rx: Rx, used: int, i: int, f: Fragment)
    requires Sound(inStreams, rx) && InReach(rx.cum, rx.ooo) && rx.cum + 1 !in rx.ooo && f.bytes != []
    ensures var s := HandleChunk(rx, used, inStreams, i, f);
            !s.verdict.Violation? ==>
              && Sound(inStreams, s.rx) && s.rx.cum + 1 !in s.rx.ooo
              && s.used - used == TotalBytes(s.rx) - TotalBytes(rx)
              && s.used == used + AcceptedBytes(s, inStreams, f) - EvictedBytes(rx, used, i)
  {
    hide Sound, Place, AssemblyBytes, Weigh;
    if !(i <= rx.cum || i in rx.ooo || i > rx.cum + UINT16_MAX) {
      var room := MadeRoom(rx, used, i);
      if used >= RWND && Evicted(rx, i).At? {
        var k := Evicted(rx, i).index;
        WeighRemove(rx.ooo, HeldSize, k);
        SoundEvict(inStreams, rx, k);
      }
      if room.verdict != Dropped {
        PlaceBytes(inStreams, room.rx, i, f);
      }
    }
  }

  /** User data a chunk brought in: none unless it was accepted for a valid stream. */
  function AcceptedBytes(s: Step, inStreams: nat, f: Fragment): nat {
    if s.verdict.Accepted? && f.stream < inStreams then |f.bytes| else 0
  }

  /** User data dropped to make room for it. */
  ghost function EvictedBytes(rx: Rx, used: int, i: int): nat {
    if rx.cum < i <= rx.cum + UINT16_MAX && i !in rx.ooo && used >= RWND && Evicted(rx, i).At?
    then |rx.ooo[Evicted(rx, i).index].data.bytes| else 0
  }

  // ----- Packets -----

  /** What a packet's chunks brought in and pushed out. */
  datatype Ledger = Ledger(accepted: nat, evicted: nat)

  ghost function LedgerOf(t0: Tsn, rx: Rx, used: int, inStreams: nat, chunks: seq<DataChunk>): Ledger
    requires InReach(rx.cum, rx.ooo)
    decreases |chunks|
  {
    if chunks == [] then Ledger(0, 0) else
      var i := Unwrap(t0, rx.cum, chunks[0].tsn);
      var s := HandleChunk(rx, used, inStreams, i, chunks[0].data);
      if s.verdict.Violation? then Ledger(0, 0) else
        var rest := LedgerOf(t0, s.rx, s.used, inStreams, chunks[1..]);
        Ledger(AcceptedBytes(s, inStreams, chunks[0].data) + rest.accepted, EvictedBytes(rx, used, i) + rest.evicted)
  }

  function Payload(chunks: seq<DataChunk>): nat {
    if chunks == [] then 0 else |chunks[0].data.bytes| + Payload(chunks[1..])
  }

  lemma {:induction false} ChunksBytes(t0: Tsn, rx: Rx, used: int, inStreams: nat, chunks: seq<DataChunk>)
    requires Sound(inStreams, rx) && InReach(rx.cum, rx.ooo) && rx.cum + 1 !in rx.ooo
    requires forall j :: 0 <= j < |chunks| ==> chunks[j].data.bytes != []
    ensures var r := HandleChunks(t0, rx, used, inStreams, chunks);
            var l := LedgerOf(t0, rx, used, inStreams, chunks);
            && l.accepted <= Payload(chunks)
            && (!r.violation ==>
                  && Sound(inStreams, r.rx) && r.rx.cum + 1 !in r.rx.ooo
                  && r.used - used == TotalBytes(r.rx) - TotalBytes(rx) == l.accepted - l.evicted)
    decreases |chunks|
  {
    hide Sound, HandleChunk, TotalBytes, InReach, EvictedBytes, Unwrap;
    if chunks != [] {
      var i := Unwrap(t0, rx.cum, chunks[0].tsn);
      ChunkBytes(inStreams, rx, used, i, chunks[0].data);
      var s := HandleChunk(rx, used, inStreams, i, chunks[0].data);
      if !s.verdict.Violation? {
        ChunksBytes(t0, s.rx, s.used, inStreams, chunks[1..]);
      }
    }
  }

  /** The assembly of a sound receiver may change, if its message does not gain bytes. */
  lemma SoundWith(inStreams: nat, rx: Rx, a: Assembly)
    requires Sound(inStreams, rx) && (a.message == rx.a.message || a.message.bytes == [])
    ensures Sound(inStreams, rx.(a := a))
  {
    hide WholeRuns;
  }

  lemma PartialBytes(inStreams: nat, rx: Rx, used: int, pmdcs: nat)
    requires Sound(inStreams, rx)
    ensures var b := DeliverPartially(rx.a, used, pmdcs);
            Sound(inStreams, rx.(a := b)) && AssemblyBytes(b) == AssemblyBytes(rx.a)
  {
    hide Weigh, AdvanceStream, Sound;
    var m := rx.a.message;
    var a := rx.a.(up := rx.a.up + [Delivery(m.bytes, false, m.stream)], message := m.(bytes := [], partiallyDelivered := true));
    DeliveredAppend(rx.a.up, Delivery(m.bytes, false, m.stream));
    AdvanceBytes(a, m.stream);
    SoundWith(inStreams, rx, DeliverPartially(rx.a, used, pmdcs));
  }

  /** Conservation: after every packet of a peer that is not in violation, what was held
      before and what was accepted is held, handed up or evicted, and the code's running
      count is exactly the occupancy of the receive buffer. */
  lemma PacketConserves(t0: Tsn, rx: Rx, buffered: nat, inStreams: nat, pmdcs: nat, chunks: seq<DataChunk>)
    requires Sound(inStreams, rx) && InReach(rx.cum, rx.ooo) && rx.cum + 1 !in rx.ooo
    requires forall j :: 0 <= j < |chunks| ==> chunks[j].data.bytes != []
    ensures var r := HandlePacket(t0, rx, buffered, inStreams, pmdcs, chunks);
            var l := LedgerOf(t0, rx.(a := rx.a.(up := [])), buffered + HeldBytes(rx), inStreams, chunks);
            && l.accepted <= Payload(chunks)
            && (!r.violation ==>
                  && Sound(inStreams, r.rx) && r.rx.cum + 1 !in r.rx.ooo
                  && HeldBytes(rx) + l.accepted == HeldBytes(r.rx) + DeliveredBytes(r.rx.a.up) + l.evicted
                  && r.used == buffered + HeldBytes(r.rx) + DeliveredBytes(r.rx.a.up))
  {
    hide Sound, HandleChunks, LedgerOf, Weigh, InReach, DeliverPartially;
    var start := rx.(a := rx.a.(up := []));
    SoundWith(inStreams, rx, rx.a.(up := []));
    ChunksBytes(t0, start, buffered + HeldBytes(rx), inStreams, chunks);
    var r := HandleChunks(t0, start, buffered + HeldBytes(rx), inStreams, chunks);
    if !r.violation {
      PartialBytes(inStreams, r.rx, r.used, pmdcs);
    }
  }

  // ----- The advertised window -----

  /** A receiver with what the ULP has yet to read, the window last advertised and the
      user data received since. */
  datatype Window = Window(rx: Rx, buffered: nat, ourRwnd: nat, receivedSinceSack: nat)

  /** What the peer believes is left of the window. */
  function PeerView(ourRwnd: nat, receivedSinceSack: nat): nat {
    if ourRwnd > receivedSinceSack then ourRwnd - receivedSinceSack else 0
  }

  ghost function FreeSpace(rx: Rx, buffered: nat): nat {
    var used := buffered + HeldBytes(rx);
    if used >= RWND then 0 else RWND - used
  }

  function Min(a: nat, b: nat): nat {
    if a < b then a else b
  }

  /** The window a SACK advertises: a small opening is held back. */
  function Advertised(window: nat, believed: nat, pmdcs: nat): nat {
    if window > believed && window - believed < Min(RWND / 2, pmdcs) then believed else window
  }

  datatype Event = Data(chunks: seq<DataChunk>) | Read(bytes: nat) | Sack

  ghost predicate Sensible(w: Window, e: Event) {
    match e
    case Data(chunks) => forall j :: 0 <= j < |chunks| ==> chunks[j].data.bytes != []
    case Read(bytes) => bytes <= w.buffered
    case Sack => true
  }

  ghost predicate WindowInv(inStreams: nat, w: Window) {
    && Sound(inStreams, w.rx) && InReach(w.rx.cum, w.rx.ooo) && w.rx.cum + 1 !in w.rx.ooo
    && PeerView(w.ourRwnd, w.receivedSinceSack) <= FreeSpace(w.rx, w.buffered)
  }

  ghost predicate Steps(t0: Tsn, inStreams: nat, pmdcs: nat, w: Window, e: Event, w': Window)
    requires InReach(w.rx.cum, w.rx.ooo)
  {
    && Sensible(w, e)
    && match e
       case Data(chunks) =>
         var r := HandlePacket(t0, w.rx, w.buffered, inStreams, pmdcs, chunks);
         && !r.violation
         && w' == w.(rx := r.rx, buffered := w.buffered + DeliveredBytes(r.rx.a.up), receivedSinceSack := w.receivedSinceSack + Payload(chunks))
       case Read(bytes) => w' == w.(buffered := w.buffered - bytes)
       case Sack =>
         w' == w.(ourRwnd := Advertised(FreeSpace(w.rx, w.buffered), PeerView(w.ourRwnd, w.receivedSinceSack), pmdcs), receivedSinceSack := 0)
  }

  lemma StepKeepsWindow(t0: Tsn, inStreams: nat, pmdcs: nat, w: Window, e: Event, w': Window)
    requires WindowInv(inStreams, w) && Steps(t0, inStreams, pmdcs, w, e, w')
    ensures WindowInv(inStreams, w')
  {
    hide Sound, HandlePacket, HeldBytes, InReach, LedgerOf;
    if e.Data? {
      PacketConserves(t0, w.rx, w.buffered, inStreams, pmdcs, e.chunks);
    }
  }

  ghost predicate IsRun(t0: Tsn, inStreams: nat, pmdcs: nat, events: seq<Event>, states: seq<Window>) {
    && |states| == |events| + 1
    && states[0] == Window(Rx(-1, map[], Assembly(IDLE, map[], [], [])), 0, RWND, 0)
    && forall j :: 0 <= j < |events| ==>
         InReach(states[j].rx.cum, states[j].rx.ooo) && Steps(t0, inStreams, pmdcs, states[j], events[j], states[j + 1])
  }

  /** Window honesty: over every run of packets, reads and SACKs, with any peer, the peer
      never believes in more window than there is free space. */
  lemma {:induction false} WindowIsHonest(t0: Tsn, inStreams: nat, pmdcs: nat, events: seq<Event>, states: seq<Window>, j: nat)
    requires IsRun(t0, inStreams, pmdcs, events, states) && j < |states|
    ensures WindowInv(inStreams, states[j])
    decreases j
  {
    if j > 0 {
      hide WindowInv, Steps, InReach;
      WindowIsHonest(t0, inStreams, pmdcs, events, states, j - 1);
      StepKeepsWindow(t0, inStreams, pmdcs, states[j - 1], events[j - 1], states[j]);
    }
  }

  /** The window is not withheld: in every run a SACK takes back nothing the peer believes in
      and offers all the free space, unless what it would add is less than a packet and less
      than half the buffer. */
  lemma WindowIsOffered(t0: Tsn, inStreams: nat, pmdcs: nat, events: seq<Event>, states: seq<Window>, j: nat)
    requires IsRun(t0, inStreams, pmdcs, events, states) && j < |events| && events[j].Sack?
    ensures var w, w' := states[j], states[j + 1];
            var believed, free := PeerView(w.ourRwnd, w.receivedSinceSack), FreeSpace(w.rx, w.buffered);
            && believed <= PeerView(w'.ourRwnd, w'.receivedSinceSack) <= free
            && (free - believed >= pmdcs || free - believed >= RWND / 2 ==> w'.ourRwnd == free)
            && (free - w'.ourRwnd > 0 ==> free - w'.ourRwnd < pmdcs && free - w'.ourRwnd < RWND / 2)
            && w'.receivedSinceSack == 0 && w'.rx == w.rx && w'.buffered == w.buffered
  {
    hide Sound, HandlePacket, HeldBytes, InReach;
    WindowIsHonest(t0, inStreams, pmdcs, events, states, j);
    assert Steps(t0, inStreams, pmdcs, states[j], events[j], states[j + 1]);
  }
}
