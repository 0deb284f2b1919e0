/** The receiving half of an association as src/socket_handlers.cpp runs it: fields
    updated in place, TSNs of 32 bits compared in serial-number arithmetic. Each method is
    proved against the function of the same step in ReceiveSpec. */
module ReceivePath {
  import opened Serial
  import opened ReceiveSpec
  import opened SackReport
  import opened Conservation

  /** A buffer keyed by wire TSNs, seen by index. */
  ghost function ByIndex(t0: Tsn, cum: int, buffer: map<Tsn, Held>): Reorder {
    map i | cum < i <= cum + UINT16_MAX && Wire(t0, i) in buffer :: buffer[Wire(t0, i)]
  }

  ghost predicate InReachOf(t0: Tsn, cum: int, buffer: map<Tsn, Held>) {
    forall k <- buffer :: cum < Unwrap(t0, cum, k) <= cum + UINT16_MAX
  }

  lemma Lookup(t0: Tsn, cum: int, buffer: map<Tsn, Held>, k: Tsn)
    requires InReachOf(t0, cum, buffer)
    ensures k in buffer <==> Unwrap(t0, cum, k) in ByIndex(t0, cum, buffer)
    ensures k in buffer ==> ByIndex(t0, cum, buffer)[Unwrap(t0, cum, k)] == buffer[k]
  {
    WireOfUnwrap(t0, cum, k);
    hide Wire, Unwrap;
  }

  lemma InsertByIndex(t0: Tsn, cum: int, buffer: map<Tsn, Held>, k: Tsn, h: Held)
    requires InReachOf(t0, cum, buffer)
    requires cum < Unwrap(t0, cum, k) <= cum + UINT16_MAX
    ensures InReachOf(t0, cum, buffer[k := h])
    ensures ByIndex(t0, cum, buffer[k := h]) == ByIndex(t0, cum, buffer)[Unwrap(t0, cum, k) := h]
  {
    WireOfUnwrap(t0, cum, k);
    forall i | cum < i <= cum + UINT16_MAX
      ensures Wire(t0, i) == k <==> i == Unwrap(t0, cum, k)
    {
      WireInjective(t0, i, Unwrap(t0, cum, k));
    }
    hide Wire, Unwrap;
  }

  lemma RemoveByIndex(t0: Tsn, cum: int, buffer: map<Tsn, Held>, k: Tsn)
    requires InReachOf(t0, cum, buffer)
    ensures InReachOf(t0, cum, buffer - {k})
    ensures ByIndex(t0, cum, buffer - {k}) == ByIndex(t0, cum, buffer) - {Unwrap(t0, cum, k)}
  {
    WireOfUnwrap(t0, cum, k);
    forall i | cum < i <= cum + UINT16_MAX
      ensures Wire(t0, i) == k <==> i == Unwrap(t0, cum, k)
    {
      UnwrapOfWire(t0, cum, i);
    }
    hide Wire, Unwrap;
  }

  /** The cumulative point moves past a TSN that is not held. */
  lemma AdvanceByIndex(t0: Tsn, cum: int, buffer: map<Tsn, Held>)
    requires InReachOf(t0, cum, buffer) && Wire(t0, cum + 1) !in buffer
    ensures InReachOf(t0, cum + 1, buffer)
    ensures ByIndex(t0, cum + 1, buffer) == ByIndex(t0, cum, buffer)
  {
    forall k <- buffer
      ensures Unwrap(t0, cum + 1, k) == Unwrap(t0, cum, k) > cum + 1
    {
      WireOfUnwrap(t0, cum, k);
      UnwrapOfWire(t0, cum + 1, Unwrap(t0, cum, k));
    }
    forall i | cum + UINT16_MAX < i <= cum + 1 + UINT16_MAX
      ensures Wire(t0, i) !in buffer
    {
      UnwrapOfWire(t0, cum, i);
    }
    hide Wire, Unwrap;
  }

  lemma {:induction false} WeighByIndex(t0: Tsn, cum: int, buffer: map<Tsn, Held>)
    requires InReachOf(t0, cum, buffer)
    ensures Weigh(ByIndex(t0, cum, buffer), HeldSize) == Weigh(buffer, HeldSize)
    decreases |buffer|
  {
    hide Wire, Unwrap;
    if buffer == map[] {
      assert ByIndex(t0, cum, buffer) == map[];
    } else {
      var k :| k in buffer;
      assert |buffer.Keys| == |(buffer - {k}).Keys| + 1 by { assert buffer.Keys == (buffer - {k}).Keys + {k}; }
      Lookup(t0, cum, buffer, k);
      RemoveByIndex(t0, cum, buffer, k);
      WeighByIndex(t0, cum, buffer - {k});
      WeighRemove(buffer, HeldSize, k);
      WeighRemove(ByIndex(t0, cum, buffer), HeldSize, Unwrap(t0, cum, k));
    }
  }

  /** Looking up the wire form of an index near the cumulative point. */
  lemma LookupIndex(t0: Tsn, cum: int, buffer: map<Tsn, Held>, i: int)
    requires InReachOf(t0, cum, buffer) && cum <= i <= cum + UINT16_MAX + 1
    ensures Wire(t0, i) in buffer <==> i in ByIndex(t0, cum, buffer)
    ensures Wire(t0, i) in buffer ==> ByIndex(t0, cum, buffer)[i] == buffer[Wire(t0, i)]
  {
    UnwrapOfWire(t0, cum, i);
    Lookup(t0, cum, buffer, Wire(t0, i));
  }

  /** The chunk next in turn leaves the buffer and the cumulative point moves onto it. */
  lemma ConsumeByIndex(t0: Tsn, cum: int, buffer: map<Tsn, Held>)
    requires InReachOf(t0, cum, buffer)
    ensures InReachOf(t0, cum + 1, buffer - {Wire(t0, cum + 1)})
    ensures ByIndex(t0, cum + 1, buffer - {Wire(t0, cum + 1)}) == ByIndex(t0, cum, buffer) - {cum + 1}
  {
    var k := Wire(t0, cum + 1);
    UnwrapOfWire(t0, cum, cum + 1);
    hide Wire, Unwrap;
    RemoveByIndex(t0, cum, buffer, k);
    AdvanceByIndex(t0, cum, buffer - {k});
  }

  lemma ReadBufferStep(rx: Rx)
    requires InReach(rx.cum, rx.ooo)
    ensures var i := rx.cum + 1;
            if i !in rx.ooo then ReadBuffer(rx) == RxOutcome(rx, true) else
              var o := Reassemble(rx.a, rx.ooo[i].data, !rx.ooo[i].assembled && rx.ooo[i].data.bytes != []);
              && InReach(i, rx.ooo - {i})
              && (if o.ok then ReadBuffer(rx) == ReadBuffer(Rx(i, rx.ooo - {i}, o.a)) else !ReadBuffer(rx).ok)
  {
    hide Reassemble;
  }

  lemma ByIndexInReach(t0: Tsn, cum: int, buffer: map<Tsn, Held>)
    ensures InReach(cum, ByIndex(t0, cum, buffer))
  {
  }

  lemma WireOffset(t0: Tsn, cum: int, offset: int)
    ensures (Wire(t0, cum) + offset) % TSN_SPACE == Wire(t0, cum + offset)
  {
  }

  /** Between the ends that the walks find everything is usable. */
  lemma RunBetween(cum: int, ooo: Reorder, i: int, like: Fragment)
    requires InReach(cum, ooo) && Usable(ooo, i)
    ensures var first := FirstFragment(cum, ooo, i, like);
            var last := LastFragment(cum, ooo, i, like);
            first.At? && last.At? ==>
              cum < first.index <= last.index <= cum + UINT16_MAX && forall k :: first.index <= k <= last.index ==> Usable(ooo, k)
  {
    WalkDownUsable(cum, ooo, i, like);
    WalkUpUsable(cum, ooo, i, like);
  }

  /** What is handed up in a packet is no longer held. */
  lemma SameHeldBytes(rx: Rx, rx': Rx)
    requires rx.ooo == rx'.ooo && rx.a.(up := []) == rx'.a.(up := [])
    ensures ReceiveSpec.HeldBytes(rx) == ReceiveSpec.HeldBytes(rx')
  {
    hide Weigh;
  }

  lemma RoomChangesNothing(rx: Rx, used: int, i: int)
    requires MadeRoom(rx, used, i).verdict == Dropped
    ensures MadeRoom(rx, used, i) == Step(rx, used, Dropped)
  {
  }

  lemma RoomKeepsOthers(rx: Rx, used: int, i: int)
    requires i !in rx.ooo
    ensures i !in MadeRoom(rx, used, i).rx.ooo && MadeRoom(rx, used, i).rx.cum == rx.cum
  {
  }

  predicate UsableAt(buffer: map<Tsn, Held>, k: Tsn) {
    k in buffer && !buffer[k].assembled && buffer[k].data.bytes != []
  }

  /** A fragment of the same message that does not open or close another. */
  predicate ContinuesDown(buffer: map<Tsn, Held>, k: Tsn, like: Fragment) {
    UsableAt(buffer, k) && !buffer[k].data.ends && SameMessage(buffer[k].data, like)
  }

  predicate ContinuesUp(buffer: map<Tsn, Held>, k: Tsn, like: Fragment) {
    UsableAt(buffer, k) && !buffer[k].data.begins && SameMessage(buffer[k].data, like)
  }

  datatype PacketResult = Processed | NoUserData | ProtocolViolation

  class Receiver {
    var lastPeerTsn: Tsn
    var tsnOooBuffer: map<Tsn, Held>
    var reassembly: Reassembly
    var inboundStreams: map<U16, InboundStream>
    var heldDeliveries: seq<Delivery>
    // Filled while a packet is handled, then pushed to the receive queue.
    var delivered: seq<Delivery>
    var duplicateTsns: seq<Tsn>
    var ourRwnd: nat
    var receivedSinceSack: nat
    var inStreams: nat
    var pmdcs: nat
    ghost const t0: Tsn
    ghost var cum: int

    constructor (initialTsn: Tsn, streams: nat, pathChunkSize: nat)
      ensures Valid() && t0 == initialTsn && View() == Rx(-1, map[], Assembly(IDLE, map[], [], []))
      ensures inStreams == streams && pmdcs == pathChunkSize
      ensures ourRwnd == RWND && receivedSinceSack == 0 && duplicateTsns == []
    {
      lastPeerTsn := (initialTsn - 1) % TSN_SPACE;
      tsnOooBuffer := map[];
      reassembly := IDLE;
      inboundStreams := map[];
      heldDeliveries, delivered, duplicateTsns := [], [], [];
      ourRwnd, receivedSinceSack := RWND, 0;
      inStreams, pmdcs := streams, pathChunkSize;
      t0 := initialTsn;
      cum := -1;
    }

    ghost predicate Valid()
      reads this
    {
      lastPeerTsn == Wire(t0, cum) && InReachOf(t0, cum, tsnOooBuffer)
    }

    ghost function Parts(): Assembly
      reads this
    {
      Assembly(reassembly, inboundStreams, heldDeliveries, delivered)
    }

    ghost function View(): Rx
      reads this
    {
      Rx(cum, ByIndex(t0, cum, tsnOooBuffer), Parts())
    }

    // ----- Ordering and reassembly -----

    method HandUp(d: Delivery)
      modifies `heldDeliveries, `delivered
      ensures Parts() == ReceiveSpec.HandUp(old(Parts()), d)
    {
      if reassembly.open && reassembly.partiallyDelivered {
        heldDeliveries := heldDeliveries + [d];
      } else {
        delivered := delivered + [d];
      }
    }

    method AdvanceStream(id: U16)
      modifies `inboundStreams, `heldDeliveries, `delivered
      ensures Parts() == ReceiveSpec.AdvanceStream(old(Parts()), id)
    {
      var stream := StreamOf(inboundStreams, id);
      stream := stream.(nextSsn := Increment(stream.nextSsn));
      inboundStreams := inboundStreams[id := stream];
      ghost var start := Parts();
      while stream.nextSsn in stream.early
        invariant id in inboundStreams && inboundStreams[id] == stream
        invariant reassembly == start.message
        invariant Drain(Parts(), id) == Drain(start, id)
        decreases |stream.early|
      {
        HandUp(Delivery(stream.early[stream.nextSsn], true, id));
        assert stream.early.Keys == (stream.early - {stream.nextSsn}).Keys + {stream.nextSsn};
        assert |stream.early.Keys| == |(stream.early - {stream.nextSsn}).Keys| + 1;
        stream := InboundStream(Increment(stream.nextSsn), stream.early - {stream.nextSsn});
        inboundStreams := inboundStreams[id := stream];
      }
    }

    method OrderMessage(id: U16, ssn: U16, unordered: bool, bytes: Bytes) returns (ok: bool)
      modifies `inboundStreams, `heldDeliveries, `delivered
      ensures Outcome(Parts(), ok) == ReceiveSpec.OrderMessage(old(Parts()), id, ssn, unordered, bytes)
    {
      if unordered {
        HandUp(Delivery(bytes, true, id));
        return true;
      }
      var stream := StreamOf(inboundStreams, id);
      if ssn != stream.nextSsn {
        if SsnGt(ssn, stream.nextSsn) && ssn !in stream.early {
          inboundStreams := inboundStreams[id := stream.(early := stream.early[ssn := bytes])];
          return true;
        }
        return false;
      }
      HandUp(Delivery(bytes, true, id));
      AdvanceStream(id);
      return true;
    }

    method Reassemble(f: Fragment, keep: bool) returns (ok: bool)
      modifies `reassembly, `inboundStreams, `heldDeliveries, `delivered
      ensures ok == ReceiveSpec.Reassemble(old(Parts()), f, keep).ok
      ensures ok ==> Parts() == ReceiveSpec.Reassemble(old(Parts()), f, keep).a
    {
      if f.begins == reassembly.open {
        return false;
      }
      if f.begins {
        reassembly := Reassembly(true, false, f.unordered, f.stream, f.ssn, []);
      } else if f.stream != reassembly.stream || f.unordered != reassembly.unordered || (!f.unordered && f.ssn != reassembly.ssn) {
        return false;
      }
      reassembly := reassembly.(open := !f.ends);
      if !keep {
        return true;
      }
      reassembly := reassembly.(bytes := reassembly.bytes + f.bytes);
      if reassembly.partiallyDelivered {
        delivered := delivered + [Delivery(reassembly.bytes, f.ends, reassembly.stream)];
        reassembly := reassembly.(bytes := []);
        if f.ends {
          delivered := delivered + heldDeliveries;
          heldDeliveries := [];
        }
        return true;
      }
      if !f.ends {
        return true;
      }
      var bytes := reassembly.bytes;
      reassembly := reassembly.(bytes := []);
      ok := OrderMessage(reassembly.stream, reassembly.ssn, reassembly.unordered, bytes);
    }

    method ReadOooBuffer() returns (ok: bool)
      requires Valid()
      modifies `lastPeerTsn, `tsnOooBuffer, `cum, `reassembly, `inboundStreams, `heldDeliveries, `delivered
      ensures ok == ReadBuffer(old(View())).ok
      ensures ok ==> Valid() && View() == ReadBuffer(old(View())).rx
    {
      hide Wire, Unwrap, ReceiveSpec.Reassemble, ReadBuffer, ByIndex, InReachOf, InReach;
      ghost var start := View();
      ghost var reached := cum;
      WireStep(t0, cum);
      ByIndexInReach(t0, cum, tsnOooBuffer);
      var tsn := (lastPeerTsn + 1) % TSN_SPACE;
      while tsn in tsnOooBuffer
        invariant InReachOf(t0, reached, tsnOooBuffer) && tsn == Wire(t0, reached + 1)
        invariant InReach(reached, ByIndex(t0, reached, tsnOooBuffer))
        invariant ReadBuffer(Rx(reached, ByIndex(t0, reached, tsnOooBuffer), Parts())) == ReadBuffer(start)
        decreases |tsnOooBuffer|
      {
        ReadBufferStep(Rx(reached, ByIndex(t0, reached, tsnOooBuffer), Parts()));
        LookupIndex(t0, reached, tsnOooBuffer, reached + 1);
        var held := tsnOooBuffer[tsn];
        var fine := Reassemble(held.data, !held.assembled && held.data.bytes != []);
        if !fine {
          return false;
        }
        ConsumeByIndex(t0, reached, tsnOooBuffer);
        assert tsnOooBuffer.Keys == (tsnOooBuffer - {tsn}).Keys + {tsn};
        assert |tsnOooBuffer.Keys| == |(tsnOooBuffer - {tsn}).Keys| + 1;
        tsnOooBuffer := tsnOooBuffer - {tsn};
        WireStep(t0, reached + 1);
        tsn := (tsn + 1) % TSN_SPACE;
        reached := reached + 1;
      }
      ReadBufferStep(Rx(reached, ByIndex(t0, reached, tsnOooBuffer), Parts()));
      LookupIndex(t0, reached, tsnOooBuffer, reached + 1);
      WireStep(t0, reached + 1);
      lastPeerTsn := (tsn - 1) % TSN_SPACE;
      cum := reached;
      return true;
    }

    // ----- Early assembly -----

    method FirstFragment(tsn: Tsn, like: Fragment) returns (found: bool, first: Tsn)
      requires Valid() && UsableAt(tsnOooBuffer, tsn)
      ensures var i := Unwrap(t0, cum, tsn);
              Usable(View().ooo, i) && (if found then ReceiveSpec.FirstFragment(cum, View().ooo, i, like) == At(Unwrap(t0, cum, first))
                                                 else ReceiveSpec.FirstFragment(cum, View().ooo, i, like) == None)
      ensures found ==> UsableAt(tsnOooBuffer, first)
    {
      ghost var ooo := View().ooo;
      ghost var i := Unwrap(t0, cum, tsn);
      ghost var at := i;
      WireOfUnwrap(t0, cum, tsn);
      hide Wire, Unwrap;
      Lookup(t0, cum, tsnOooBuffer, tsn);
      first := tsn;
      while !tsnOooBuffer[first].data.begins
        invariant UsableAt(tsnOooBuffer, first) && Usable(ooo, at) && first == Wire(t0, at) && cum < at <= i <= cum + UINT16_MAX
        invariant ooo[at] == tsnOooBuffer[first]
        invariant ReceiveSpec.FirstFragment(cum, ooo, at, like) == ReceiveSpec.FirstFragment(cum, ooo, i, like)
        decreases at - cum
      {
        WireStep(t0, at);
        LookupIndex(t0, cum, tsnOooBuffer, at - 1);
        if !ContinuesDown(tsnOooBuffer, (first - 1) % TSN_SPACE, like) {
          return false, first;
        }
        first := (first - 1) % TSN_SPACE;
        at := at - 1;
      }
      found := true;
      UnwrapOfWire(t0, cum, at);
    }

    method LastFragment(tsn: Tsn, like: Fragment) returns (found: bool, last: Tsn)
      requires Valid() && UsableAt(tsnOooBuffer, tsn)
      ensures var i := Unwrap(t0, cum, tsn);
              Usable(View().ooo, i) && (if found then ReceiveSpec.LastFragment(cum, View().ooo, i, like) == At(Unwrap(t0, cum, last))
                                                 else ReceiveSpec.LastFragment(cum, View().ooo, i, like) == None)
      ensures found ==> UsableAt(tsnOooBuffer, last)
    {
      ghost var ooo := View().ooo;
      ghost var i := Unwrap(t0, cum, tsn);
      ghost var at := i;
      WireOfUnwrap(t0, cum, tsn);
      hide Wire, Unwrap;
      Lookup(t0, cum, tsnOooBuffer, tsn);
      last := tsn;
      while !tsnOooBuffer[last].data.ends
        invariant UsableAt(tsnOooBuffer, last) && Usable(ooo, at) && last == Wire(t0, at) && cum < i <= at <= cum + UINT16_MAX
        invariant ooo[at] == tsnOooBuffer[last]
        invariant ReceiveSpec.LastFragment(cum, ooo, at, like) == ReceiveSpec.LastFragment(cum, ooo, i, like)
        decreases cum + UINT16_MAX - at
      {
        WireStep(t0, at);
        LookupIndex(t0, cum, tsnOooBuffer, at + 1);
        if !ContinuesUp(tsnOooBuffer, (last + 1) % TSN_SPACE, like) {
          return false, last;
        }
        last := (last + 1) % TSN_SPACE;
        at := at + 1;
      }
      found := true;
      UnwrapOfWire(t0, cum, at);
    }

    /** Empties the chunks from `first` to `last` and marks them assembled. */
    method TakeOut(first: Tsn, last: Tsn) returns (bytes: Bytes)
      requires Valid()
      requires var f, l := Unwrap(t0, cum, first), Unwrap(t0, cum, last);
               cum < f <= l <= cum + UINT16_MAX && forall k :: f <= k <= l ==> Usable(View().ooo, k)
      modifies `tsnOooBuffer
      ensures Valid()
      ensures var f, l := Unwrap(t0, cum, first), Unwrap(t0, cum, last);
              bytes == Gather(old(View().ooo), f, l + 1) && View().ooo == MarkAssembled(old(View().ooo), f, l)
    {
      hide Wire, Unwrap, ByIndex, InReachOf;
      ghost var ooo := View().ooo;
      ghost var f, l := Unwrap(t0, cum, first), Unwrap(t0, cum, last);
      ghost var i := f;
      WireOfUnwrap(t0, cum, first);
      WireOfUnwrap(t0, cum, last);
      bytes := [];
      var at := first;
      assert MarkAssembled(ooo, f, f - 1) == ooo;
      while true
        invariant Valid() && f <= i <= l && at == Wire(t0, i)
        invariant bytes == Gather(ooo, f, i) && View().ooo == MarkAssembled(ooo, f, i - 1)
        decreases l - i
      {
        assert Usable(ooo, i);
        LookupIndex(t0, cum, tsnOooBuffer, i);
        UnwrapOfWire(t0, cum, i);
        bytes := bytes + tsnOooBuffer[at].data.bytes;
        var emptied := Held(tsnOooBuffer[at].data.(bytes := []), true);
        InsertByIndex(t0, cum, tsnOooBuffer, at, emptied);
        tsnOooBuffer := tsnOooBuffer[at := emptied];
        assert MarkAssembled(ooo, f, i) == MarkAssembled(ooo, f, i - 1)[i := emptied];
        if at == last {
          WireInjective(t0, i, l);
          break;
        }
        WireStep(t0, i);
        at := (at + 1) % TSN_SPACE;
        i := i + 1;
      }
    }

    method AssembleEarly(tsn: Tsn) returns (ok: bool)
      requires Valid()
      modifies `tsnOooBuffer, `inboundStreams, `heldDeliveries, `delivered
      ensures Valid()
      ensures InReach(cum, old(View().ooo)) && RxOutcome(View(), ok) == ReceiveSpec.AssembleEarly(old(View()), Unwrap(t0, cum, tsn))
    {
      hide Wire, Unwrap, ByIndex, InReachOf, InReach, ReceiveSpec.OrderMessage, ReceiveSpec.FirstFragment, ReceiveSpec.LastFragment, Gather, MarkAssembled;
      ByIndexInReach(t0, cum, tsnOooBuffer);
      Lookup(t0, cum, tsnOooBuffer, tsn);
      if !UsableAt(tsnOooBuffer, tsn) {
        return true;
      }
      var like := tsnOooBuffer[tsn].data;
      var begun, first := FirstFragment(tsn, like);
      if !begun {
        return true;
      }
      var ended, last := LastFragment(tsn, like);
      if !ended {
        return true;
      }
      RunBetween(cum, View().ooo, Unwrap(t0, cum, tsn), like);
      var bytes := TakeOut(first, last);
      ok := OrderMessage(like.stream, like.ssn, like.unordered, bytes);
    }

    // ----- Room in the receive buffer -----

    /** The highest TSN that may be evicted, searched for from the top of the buffer. */
    method HighestEvictable() returns (found: bool, highest: Tsn)
      requires Valid()
      ensures var r := ReceiveSpec.HighestEvictable(cum, View().ooo, cum + UINT16_MAX);
              if found then r == At(Unwrap(t0, cum, highest)) && highest in tsnOooBuffer else r == None
    {
      hide Wire, Unwrap, ByIndex, InReachOf;
      var offset: nat := UINT16_MAX;
      ghost var ooo := View().ooo;
      while offset > 0
        invariant offset <= UINT16_MAX
        invariant ReceiveSpec.HighestEvictable(cum, ooo, cum + offset) == ReceiveSpec.HighestEvictable(cum, ooo, cum + UINT16_MAX)
      {
        highest := (lastPeerTsn + offset) % TSN_SPACE;
        WireOffset(t0, cum, offset);
        LookupIndex(t0, cum, tsnOooBuffer, cum + offset);
        UnwrapOfWire(t0, cum, cum + offset);
        if highest in tsnOooBuffer && !tsnOooBuffer[highest].assembled {
          return true, highest;
        }
        offset := offset - 1;
      }
      return false, 0;
    }

    method MakeRoom(tsn: Tsn, used: int) returns (made: bool, remaining: int)
      requires Valid() && cum < Unwrap(t0, cum, tsn) <= cum + UINT16_MAX
      modifies `tsnOooBuffer
      ensures Valid()
      ensures var e := Evicted(old(View()), Unwrap(t0, cum, tsn));
              && made == e.At?
              && (made ==> View() == old(View()).(ooo := old(View()).ooo - {e.index}) && remaining == used - |old(View()).ooo[e.index].data.bytes|)
              && (!made ==> View() == old(View()) && remaining == used)
    {
      hide Wire, Unwrap, ByIndex, InReachOf, ReceiveSpec.HighestEvictable;
      var found, highest := HighestEvictable();
      if found {
        WireOfUnwrap(t0, cum, tsn);
        WireOfUnwrap(t0, cum, highest);
        TsnLtIsIndexOrder(t0, Unwrap(t0, cum, highest), Unwrap(t0, cum, tsn));
      }
      if !found || TsnLt(highest, tsn) {
        return false, used;
      }
      Lookup(t0, cum, tsnOooBuffer, highest);
      RemoveByIndex(t0, cum, tsnOooBuffer, highest);
      remaining := used - |tsnOooBuffer[highest].data.bytes|;
      tsnOooBuffer := tsnOooBuffer - {highest};
      made := true;
    }

    method BlockedOnCumulativeTsn() returns (blocked: bool)
      requires Valid()
      ensures blocked == BlockedOnCumulative(View())
    {
      hide Wire, Unwrap;
      var assembled := exists k <- tsnOooBuffer :: tsnOooBuffer[k].assembled;
      if assembled {
        var k :| k in tsnOooBuffer && tsnOooBuffer[k].assembled;
        Lookup(t0, cum, tsnOooBuffer, k);
      }
      blocked := assembled || exists id <- inboundStreams :: inboundStreams[id].early != map[];
    }

    /** User data held back from the ULP, summed over everything that holds some. */
    method HeldBytes() returns (total: nat)
      requires Valid()
      ensures total == ReceiveSpec.HeldBytes(View())
    {
      hide Wire, Unwrap, ByIndex, InReachOf;
      WeighByIndex(t0, cum, tsnOooBuffer);
      total := |reassembly.bytes|;
      var buffer := tsnOooBuffer;
      while buffer != map[]
        invariant total + Weigh(buffer, HeldSize) == |reassembly.bytes| + Weigh(tsnOooBuffer, HeldSize)
        decreases |buffer|
      {
        var k :| k in buffer;
        WeighRemove(buffer, HeldSize, k);
        assert |buffer.Keys| == |(buffer - {k}).Keys| + 1 by { assert buffer.Keys == (buffer - {k}).Keys + {k}; }
        total := total + |buffer[k].data.bytes|;
        buffer := buffer - {k};
      }
      var waiting := WaitingBytes();
      total := total + waiting;
      ghost var before := total;
      var j := 0;
      while j < |heldDeliveries|
        invariant j <= |heldDeliveries| && total == before + DeliveredBytes(heldDeliveries[..j])
      {
        assert heldDeliveries[..j + 1][..j] == heldDeliveries[..j];
        total := total + |heldDeliveries[j].bytes|;
        j := j + 1;
      }
      assert heldDeliveries[..j] == heldDeliveries;
    }

    /** The messages of every stream that are ahead of their turn. */
    method WaitingBytes() returns (total: nat)
      ensures total == Weigh(inboundStreams, EarlySize)
    {
      total := 0;
      var streams := inboundStreams;
      while streams != map[]
        invariant total + Weigh(streams, EarlySize) == Weigh(inboundStreams, EarlySize)
        decreases |streams|
      {
        var id :| id in streams;
        WeighRemove(streams, EarlySize, id);
        assert |streams.Keys| == |(streams - {id}).Keys| + 1 by { assert streams.Keys == (streams - {id}).Keys + {id}; }
        var early := streams[id].early;
        ghost var before := total;
        while early != map[]
          invariant total + Weigh(early, Size) == before + EarlySize(streams[id])
          decreases |early|
        {
          var ssn :| ssn in early;
          WeighRemove(early, Size, ssn);
          assert |early.Keys| == |(early - {ssn}).Keys| + 1 by { assert early.Keys == (early - {ssn}).Keys + {ssn}; }
          total := total + |early[ssn]|;
          early := early - {ssn};
        }
        streams := streams - {id};
      }
    }

    // ----- DATA -----

    /** Room for a new chunk, if there is any to be had. */
    method FindRoom(tsn: Tsn, used: int) returns (room: bool, remaining: int)
      requires Valid() && cum < Unwrap(t0, cum, tsn) <= cum + UINT16_MAX
      modifies `tsnOooBuffer
      ensures Valid()
      ensures var r := MadeRoom(old(View()), used, Unwrap(t0, cum, tsn));
              room == (r.verdict != Dropped) && View() == r.rx && remaining == r.used
    {
      hide Wire, Unwrap, ByIndex, InReachOf, BlockedOnCumulative, Evicted;
      if used < RWND {
        return true, used;
      }
      room, remaining := MakeRoom(tsn, used);
      if !room {
        UnwrapClassifies(t0, cum, tsn);
        var blocked := BlockedOnCumulativeTsn();
        room := tsn == (lastPeerTsn + 1) % TSN_SPACE && blocked;
      }
    }

    /** Consumes the chunk next in turn, or holds one that is ahead. */
    method Place(tsn: Tsn, f: Fragment, valid: bool) returns (ok: bool)
      requires Valid() && tsn !in tsnOooBuffer && cum < Unwrap(t0, cum, tsn) <= cum + UINT16_MAX
      modifies `lastPeerTsn, `tsnOooBuffer, `cum, `reassembly, `inboundStreams, `heldDeliveries, `delivered
      ensures var i := old(Unwrap(t0, cum, tsn));
              && InReach(old(cum), old(View().ooo)) && i !in old(View().ooo)
              && var r := ReceiveSpec.Place(old(View()), i, f, valid);
                 ok == r.ok && (ok ==> Valid() && View() == r.rx)
    {
      hide Wire, Unwrap, ByIndex, InReachOf, InReach, ReceiveSpec.Reassemble, ReceiveSpec.AssembleEarly, ReadBuffer;
      ghost var i := Unwrap(t0, cum, tsn);
      ghost var before := View();
      ByIndexInReach(t0, cum, tsnOooBuffer);
      Lookup(t0, cum, tsnOooBuffer, tsn);
      UnwrapClassifies(t0, cum, tsn);
      WireOfUnwrap(t0, cum, tsn);
      if tsn == (lastPeerTsn + 1) % TSN_SPACE {
        lastPeerTsn := tsn;
        AdvanceByIndex(t0, cum, tsnOooBuffer);
        cum := cum + 1;
        ok := Reassemble(f, valid);
        if ok {
          ByIndexInReach(t0, cum, tsnOooBuffer);
          ok := ReadOooBuffer();
        }
      } else {
        var held := Held(if valid then f else Emptied(f), false);
        InsertByIndex(t0, cum, tsnOooBuffer, tsn, held);
        tsnOooBuffer := tsnOooBuffer[tsn := held];
        ok := true;
        if valid {
          ok := AssembleEarly(tsn);
        }
      }
    }

    method HandleDataChunk(chunk: DataChunk, used: int) returns (verdict: Verdict, remaining: int)
      requires Valid()
      modifies this
      ensures unchanged(`inStreams) && unchanged(`pmdcs) && unchanged(`ourRwnd)
      ensures receivedSinceSack == old(receivedSinceSack) + |chunk.data.bytes|
      ensures duplicateTsns == old(duplicateTsns) + (if verdict == Duplicate then [chunk.tsn] else [])
      ensures InReach(old(cum), old(View().ooo))
      ensures var s := HandleChunk(old(View()), used, inStreams, old(Unwrap(t0, cum, chunk.tsn)), chunk.data);
              && verdict == s.verdict
              && (verdict != Violation ==> Valid() && View() == s.rx && remaining == s.used)
    {
      hide Wire, Unwrap, ByIndex, InReachOf, InReach, ReceiveSpec.Place, MadeRoom;
      receivedSinceSack := receivedSinceSack + |chunk.data.bytes|;
      var tsn := chunk.tsn;
      remaining := used;
      ByIndexInReach(t0, cum, tsnOooBuffer);
      Lookup(t0, cum, tsnOooBuffer, tsn);
      UnwrapClassifies(t0, cum, tsn);
      if TsnLte(tsn, lastPeerTsn) || tsn in tsnOooBuffer {
        duplicateTsns := duplicateTsns + [tsn];
        return Duplicate, remaining;
      }
      if (tsn - lastPeerTsn) % TSN_SPACE > UINT16_MAX {
        return Dropped, remaining;
      }
      ghost var before := View();
      var room;
      room, remaining := FindRoom(tsn, used);
      if !room {
        RoomChangesNothing(before, used, Unwrap(t0, cum, tsn));
        return Dropped, remaining;
      }
      RoomKeepsOthers(before, used, Unwrap(t0, cum, tsn));
      Lookup(t0, cum, tsnOooBuffer, tsn);
      var valid := chunk.data.stream < inStreams;
      if valid {
        remaining := remaining + |chunk.data.bytes|;
      }
      var ok := Place(tsn, chunk.data, valid);
      verdict := if ok then Accepted else Violation;
    }

    /** The chunks of a packet in turn, up to the first violation. */
    method HandleDataChunks(chunks: seq<DataChunk>, occupied: int) returns (violation: bool, dropped: bool, used: int)
      requires Valid()
      modifies this
      ensures unchanged(`inStreams) && unchanged(`pmdcs) && unchanged(`ourRwnd)
      ensures InReach(old(cum), old(View().ooo))
      ensures var r := HandleChunks(t0, old(View()), occupied, inStreams, chunks);
              && violation == r.violation
              && (!violation ==>
                    && Valid() && View() == r.rx && dropped == r.dropped && used == r.used
                    && duplicateTsns == old(duplicateTsns) + r.duplicates
                    && receivedSinceSack == old(receivedSinceSack) + Payload(chunks))
    {
      hide Wire, Unwrap, ByIndex, InReachOf, InReach, HandleChunk;
      ByIndexInReach(t0, cum, tsnOooBuffer);
      dropped, used := false, occupied;
      ghost var total := HandleChunks(t0, View(), used, inStreams, chunks);
      var j := 0;
      while j < |chunks|
        invariant 0 <= j <= |chunks| && Valid() && InReach(cum, View().ooo)
        invariant unchanged(`inStreams) && unchanged(`pmdcs) && unchanged(`ourRwnd)
        invariant receivedSinceSack + Payload(chunks[j..]) == old(receivedSinceSack) + Payload(chunks)
        invariant var rest := HandleChunks(t0, View(), used, inStreams, chunks[j..]);
                  && rest.rx == total.rx && rest.used == total.used && rest.violation == total.violation
                  && (!total.violation ==> duplicateTsns + rest.duplicates == old(duplicateTsns) + total.duplicates
                                           && (dropped || rest.dropped) == total.dropped)
      {
        assert chunks[j..][1..] == chunks[j + 1..] && chunks[j..][0] == chunks[j];
        var verdict;
        verdict, used := HandleDataChunk(chunks[j], used);
        if verdict == Violation {
          return true, dropped, used;
        }
        dropped := dropped || verdict == Dropped;
        ByIndexInReach(t0, cum, tsnOooBuffer);
        j := j + 1;
      }
      assert chunks[j..] == [];
      violation := false;
    }

    /** A packet's DATA chunks. What is delivered is left in `delivered`. */
    method HandleDataPacket(chunks: seq<DataChunk>, buffered: nat) returns (result: PacketResult, dropped: bool)
      requires Valid()
      modifies this
      ensures unchanged(`inStreams) && unchanged(`pmdcs) && unchanged(`ourRwnd)
      ensures result == NoUserData <==> exists j :: 0 <= j < |chunks| && chunks[j].data.bytes == []
      ensures InReach(old(cum), old(View().ooo))
      ensures var r := HandlePacket(t0, old(View()), buffered, inStreams, pmdcs, chunks);
              && (result == ProtocolViolation ==> r.violation)
              && (result == Processed ==>
                    && !r.violation && Valid() && View() == r.rx && dropped == r.dropped
                    && duplicateTsns == old(duplicateTsns) + r.duplicates
                    && receivedSinceSack == old(receivedSinceSack) + Payload(chunks))
    {
      hide Wire, Unwrap, ByIndex, InReachOf, InReach, HandleChunks, ReceiveSpec.HeldBytes, DeliverPartially, Payload;
      ByIndexInReach(t0, cum, tsnOooBuffer);
      dropped := false;
      if exists j :: 0 <= j < |chunks| && chunks[j].data.bytes == [] {
        return NoUserData, false;
      }
      delivered := [];
      var used: int := HeldBytes();
      SameHeldBytes(View(), old(View()));
      var violation;
      violation, dropped, used := HandleDataChunks(chunks, buffered + used);
      if violation {
        return ProtocolViolation, dropped;
      }
      GivePartOf(used);
      result := Processed;
    }

    /** Gives the ULP what there is of a message the window cannot take the rest of. */
    method GivePartOf(used: int)
      modifies `reassembly, `inboundStreams, `heldDeliveries, `delivered
      ensures Parts() == DeliverPartially(old(Parts()), used, pmdcs)
    {
      hide ReceiveSpec.AdvanceStream;
      var message := reassembly;
      if message.open && message.bytes != [] && used + pmdcs > RWND
         && (message.unordered || message.ssn == StreamOf(inboundStreams, message.stream).nextSsn) {
        delivered := delivered + [Delivery(message.bytes, false, message.stream)];
        reassembly := message.(bytes := [], partiallyDelivered := true);
        if !message.unordered {
          AdvanceStream(message.stream);
        }
      }
    }

    // ----- SACK -----

    /** Walks the reorder buffer in TSN order; every entry is within 65535 of the point. */
    method GapBlocks() returns (gaps: seq<GapBlock>)
      requires Valid()
      ensures gaps == Gaps(cum, View().ooo, UINT16_MAX)
    {
      hide Wire, Unwrap, ByIndex, InReachOf;
      ghost var ooo := View().ooo;
      gaps := [];
      for offset := 1 to UINT16_MAX + 1
        invariant gaps == Gaps(cum, ooo, offset - 1)
      {
        WireOffset(t0, cum, offset);
        LookupIndex(t0, cum, tsnOooBuffer, cum + offset);
        if (lastPeerTsn + offset) % TSN_SPACE in tsnOooBuffer {
          if gaps == [] || gaps[|gaps| - 1].end + 1 != offset {
            gaps := gaps + [GapBlock(offset, offset)];
          } else {
            gaps := gaps[|gaps| - 1 := GapBlock(gaps[|gaps| - 1].start, offset)];
          }
        }
      }
    }

    method MakeSack(buffered: nat) returns (sack: SackChunk)
      requires Valid()
      modifies `ourRwnd, `receivedSinceSack, `duplicateTsns
      ensures ourRwnd == Advertised(FreeSpace(View(), buffered), old(PeerView(ourRwnd, receivedSinceSack)), pmdcs)
      ensures receivedSinceSack == 0 && duplicateTsns == []
      ensures sack == SackOf(t0, View(), ourRwnd, old(duplicateTsns))
    {
      hide Wire, Unwrap, ByIndex, InReachOf, Gaps, ReceiveSpec.HeldBytes;
      var gaps := GapBlocks();
      var held := HeldBytes();
      var used := buffered + held;
      var window := if used >= RWND then 0 else RWND - used;
      var believed := if ourRwnd > receivedSinceSack then ourRwnd - receivedSinceSack else 0;
      if window > believed && window - believed < Min(RWND / 2, pmdcs) {
        window := believed;
      }
      ourRwnd, receivedSinceSack := window, 0;
      sack := SackChunk(lastPeerTsn, window, gaps, duplicateTsns);
      duplicateTsns := [];
    }
  }
}
