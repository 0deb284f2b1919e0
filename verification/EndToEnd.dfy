/** End-to-end delivery: whatever the network does to the chunks of a well-cut log, the
    receive path hands up whole messages of the log, none twice, the ordered ones of each
    stream as a prefix of those sent. It finds a protocol violation only in a message half
    the SSN space ahead of its stream. */
module EndToEnd {
  import opened Serial
  import opened ReceiveSpec
  import opened MessageLog
  import opened Tracking

  // ----- The state between chunks -----

  /** The buffer holds chunks of the log, and early assembly takes whole messages. */
  ghost predicate BufferTracked(log: Log, cum: int, ooo: Reorder) {
    && -1 <= cum < |log|
    && InReach(cum, ooo)
    && (forall k <- ooo :: k < |log| && ooo[k].data == if ooo[k].assembled then Emptied(log[k]) else log[k])
    && (forall k <- ooo :: ooo[k].assembled && !log[k].ends ==> k + 1 in ooo && ooo[k + 1].assembled)
    && (forall k <- ooo :: ooo[k].assembled && !log[k].begins && cum < k - 1 ==> k - 1 in ooo && ooo[k - 1].assembled)
  }

  /** The next chunk belongs to a message that was assembled early. */
  predicate Skipping(cum: int, ooo: Reorder) {
    cum + 1 in ooo && ooo[cum + 1].assembled
  }

  /** The open message is the one the cumulative point stands in, with the bytes of it
      that have not gone up. */
  ghost predicate MessageTracked(log: Log, cum: int, ooo: Reorder, m: Reassembly)
    requires -1 <= cum < |log|
  {
    && (m.open <==> cum >= 0 && !log[cum].ends)
    && (!m.open ==> m.bytes == [])
    && (m.open ==>
          && m.stream == log[cum].stream && m.ssn == log[cum].ssn && m.unordered == log[cum].unordered
          && (Skipping(cum, ooo) ==> !m.partiallyDelivered)
          && m.bytes == if Skipping(cum, ooo) || m.partiallyDelivered then [] else SoFar(log, cum))
  }

  function SoFar(log: Log, cum: int): Bytes
    requires 0 <= cum < |log|
  {
    var f := First(log, cum);
    if 0 <= f then Body(log, f, cum) else []
  }

  function PartialStart(log: Log, cum: int, m: Reassembly): int {
    if m.open && m.partiallyDelivered then First(log, cum) else -1
  }

  /** The invariant of the receive path over a well-cut log. */
  ghost predicate Inv(log: Log, h: seq<Delivery>, rx: Rx, order: seq<int>) {
    && BufferTracked(log, rx.cum, rx.ooo)
    && MessageTracked(log, rx.cum, rx.ooo, rx.a.message)
    && Tracked(log, rx.cum, h, rx.a, order, Done(log, rx.cum, rx.ooo), PartialStart(log, rx.cum, rx.a.message))
    && (forall id: U16 :: Settled(rx.a.streams, id))
  }

  /** The message a stream waits for is not complete. */
  lemma NextIsNotDone(log: Log, h: seq<Delivery>, rx: Rx, order: seq<int>, id: U16, g: int)
    requires Inv(log, h, rx, order)
    requires OrderedStart(log, id, g) && Ordinal(log, id, g) == Tally(log, order, id)
    ensures g !in Done(log, rx.cum, rx.ooo)
  {
    hide Body, Messages, HistoryTracked, OrderTracked, Ordinal, Tally, Done, PartialStart, Message, Whole;
    var s := StreamOf(rx.a.streams, id);
    var n, done, partial := Tally(log, order, id), Done(log, rx.cum, rx.ooo), PartialStart(log, rx.cum, rx.a.message);
    assert Settled(rx.a.streams, id);
    assert StreamTracked(log, id, s, order, n, done, partial);
    assert Placed(log, id, s, order, n, done, partial, g);
  }

  lemma EarlierIsDone(log: Log, rx: Rx, g: int, g': int)
    requires WellCut(log) && BufferTracked(log, rx.cum, rx.ooo) && Start(log, g) && Start(log, g') && g < g' <= rx.cum + 1
    ensures g in Done(log, rx.cum, rx.ooo)
  {
    EndOfMessage(log, g);
    assert log[g' - 1].ends;
  }

  /** Every stream has been given all its messages wholly at or below the cumulative point,
      and so all but the last of those begun there. */
  lemma CountReaches(log: Log, h: seq<Delivery>, rx: Rx, order: seq<int>, id: U16)
    requires WellCut(log) && Inv(log, h, rx, order)
    ensures Ordinal(log, id, rx.cum + 1) <= Tally(log, order, id) + 1
    ensures rx.cum + 1 < |log| ==> Ordinal(log, id, First(log, rx.cum + 1)) <= Tally(log, order, id)
  {
    hide WellCut, MessageTracked, Tracked, BufferTracked, Done, Tally, Ordinal, First;
    var n := Tally(log, order, id);
    if n + 1 < Ordinal(log, id, rx.cum + 1) {
      var g := OrdinalWitness(log, id, rx.cum + 1, n);
      var g' := OrdinalWitness(log, id, rx.cum + 1, n + 1);
      OrdinalDistinguishes(log, id, g, g');
      NextIsNotDone(log, h, rx, order, id, g);
      EarlierIsDone(log, rx, g, g');
      assert false;
    }
    InvBegins(log, h, rx, order);
    if rx.cum + 1 < |log| {
      FirstOfMessage(log, rx.cum + 1);
      var g' := First(log, rx.cum + 1);
      if n < Ordinal(log, id, g') {
        var g := OrdinalWitness(log, id, g', n);
        NextIsNotDone(log, h, rx, order, id, g);
        EarlierIsDone(log, rx, g, g');
        assert false;
      }
    }
  }

  /** A message that begins at or just above the point is in turn or nearly so. */
  lemma InTurn(log: Log, h: seq<Delivery>, rx: Rx, order: seq<int>, f: int)
    requires WellCut(log) && Inv(log, h, rx, order)
    requires Start(log, f) && f <= rx.cum + 1
    ensures Ordinal(log, log[f].stream, f) <= Tally(log, order, log[f].stream) + 1
  {
    CountReaches(log, h, rx, order, log[f].stream);
    OrdinalMonotone(log, log[f].stream, f, rx.cum + 1);
  }

  lemma {:induction false} OrdinalSteps(log: Log, id: U16, i: int, j: int)
    requires i <= j
    ensures Ordinal(log, id, j) - Ordinal(log, id, i) <= j - i
    decreases j - i
  {
    if i < j {
      OrdinalSteps(log, id, i, j - 1);
    }
  }

  /** A message above the point is less than the SSN space ahead of its stream, and less
      than half of it if its chunk is near. */
  lemma Ahead(log: Log, h: seq<Delivery>, rx: Rx, order: seq<int>, i: int)
    requires WellCut(log) && Inv(log, h, rx, order)
    requires rx.cum < i && 0 <= i < |log| && First(log, i) <= rx.cum + UINT16_MAX && !log[i].unordered
    ensures var o := Ordinal(log, log[i].stream, First(log, i));
            && o < Tally(log, order, log[i].stream) + SSN_SPACE
            && (Near(log, rx.cum, i) ==> o < Tally(log, order, log[i].stream) + HALF_SSN_SPACE)
  {
    hide Inv, Tally, Ordinal, First, WellCut;
    var id := log[i].stream;
    var f := First(log, i);
    CountReaches(log, h, rx, order, id);
    InvBegins(log, h, rx, order);
    if f <= rx.cum + 1 {
      OrdinalMonotone(log, id, f, rx.cum + 1);
    } else {
      OrdinalSteps(log, id, rx.cum + 1, f);
    }
  }

  // ----- How the set of complete messages grows -----

  lemma BufferConsumed(log: Log, cum: int, ooo: Reorder)
    requires WellCut(log) && BufferTracked(log, cum, ooo) && cum + 1 < |log|
    ensures var i := cum + 1;
            && BufferTracked(log, i, ooo - {i})
            && (!Skipping(cum, ooo) && Skipping(i, ooo - {i}) ==> log[i].ends)
            && (Skipping(cum, ooo) && !log[i].ends ==> Skipping(i, ooo - {i}))
  {
  }

  lemma DoneOrNot(log: Log, cum: int, ooo: Reorder, f: int)
    requires WellCut(log) && BufferTracked(log, cum, ooo) && cum + 1 < |log|
    ensures var i := cum + 1;
            IsDone(log, i, ooo - {i}, f) <==> IsDone(log, cum, ooo, f) || (log[i].ends && f == First(log, i))
    ensures !Skipping(cum, ooo) ==> !IsDone(log, cum, ooo, First(log, cum + 1))
    ensures Skipping(cum, ooo) && log[cum + 1].ends ==> IsDone(log, cum, ooo, First(log, cum + 1))
  {
    var i := cum + 1;
    FirstOfMessage(log, i);
    EndOfMessage(log, First(log, i));
    if log[i].ends {
      EndOfFirst(log, i);
    }
    if Whole(log, f) {
      EndOfMessage(log, f);
      if End(log, f) == i {
        FirstOfEnd(log, f, i);
      }
    }
    if !Skipping(cum, ooo) {
      NotDoneYet(log, cum, ooo);
    }
  }

  /** The message of the next chunk is not complete unless that chunk was assembled. */
  lemma NotDoneYet(log: Log, cum: int, ooo: Reorder)
    requires WellCut(log) && BufferTracked(log, cum, ooo) && cum + 1 < |log| && !Skipping(cum, ooo)
    ensures !IsDone(log, cum, ooo, First(log, cum + 1))
  {
    hide Ordinal;
    var i := cum + 1;
    FirstOfMessage(log, i);
    var f := First(log, i);
    EndOfMessage(log, f);
    forall k | i < k <= End(log, f) && k < |log|
      ensures !log[k].begins
    {
      assert !log[k - 1].ends;
    }
    if IsDone(log, cum, ooo, f) {
      AssembledBelow(log, cum, ooo, End(log, f), i);
      assert false;
    }
  }

  /** Early assembly reaches down to the beginning of the message. */
  lemma {:induction false} AssembledBelow(log: Log, cum: int, ooo: Reorder, e: int, i: int)
    requires BufferTracked(log, cum, ooo) && e in ooo && ooo[e].assembled && cum < i <= e
    requires forall k :: i < k <= e ==> !log[k].begins
    ensures i in ooo && ooo[i].assembled
    decreases e - i
  {
    if i < e {
      AssembledBelow(log, cum, ooo, e - 1, i);
    }
  }

  /** Consuming a chunk that was not assembled completes the message it ends; consuming
      one that was completes nothing more. */
  lemma DoneByConsuming(log: Log, cum: int, ooo: Reorder)
    requires WellCut(log) && BufferTracked(log, cum, ooo) && cum + 1 < |log|
    ensures var i := cum + 1;
            && Done(log, i, ooo - {i}) == Done(log, cum, ooo) + (if log[i].ends && !Skipping(cum, ooo) then {First(log, i)} else {})
            && (!Skipping(cum, ooo) ==> First(log, i) !in Done(log, cum, ooo))
  {
    var i := cum + 1;
    FirstOfMessage(log, i);
    hide First, End, IsDone, WellCut, BufferTracked;
    forall f | 0 <= f < |log|
      ensures f in Done(log, i, ooo - {i}) <==> f in Done(log, cum, ooo) || (log[i].ends && f == First(log, i))
    {
      DoneOrNot(log, cum, ooo, f);
    }
    DoneOrNot(log, cum, ooo, First(log, i));
  }

  /** Without a partial delivery the history does not depend on the cumulative point. */
  lemma MovePoint(log: Log, cum: int, i: int, h: seq<Delivery>, a: Assembly, m: Reassembly, order: seq<int>, done: set<int>)
    requires Tracked(log, cum, h, a, order, done, -1)
    requires !(m.open && m.partiallyDelivered)
    ensures Tracked(log, i, h, a.(message := m), order, done, -1)
  {
  }

  // ----- Consuming the next chunk -----

  lemma BodyGrows(log: Log, i: int)
    requires WellCut(log) && 0 <= i < |log|
    ensures SoFar(log, i) == (if log[i].begins then log[i].bytes else SoFar(log, i - 1) + log[i].bytes)
    ensures log[i].ends ==> Whole(log, First(log, i)) && SoFar(log, i) == Message(log, First(log, i))
    ensures !log[i].begins ==> First(log, i) == First(log, i - 1)
  {
    FirstOfMessage(log, i);
    if log[i].ends {
      EndOfFirst(log, i);
    }
    if log[i].begins {
      assert Body(log, i, i - 1) == [];
    } else {
      FirstOfMessage(log, i - 1);
    }
  }

  /** The chunks of a message assembled early pass without a trace. */
  lemma SkipKeeps(log: Log, h: seq<Delivery>, rx: Rx, order: seq<int>)
    requires WellCut(log) && Inv(log, h, rx, order)
    requires Skipping(rx.cum, rx.ooo)
    ensures var i := rx.cum + 1;
            var o := Reassemble(rx.a, rx.ooo[i].data, false);
            o.ok && Inv(log, h, Rx(i, rx.ooo - {i}, o.a), order)
  {
    hide First, End, Body, Messages, Ordinal, Done, OrderTracked, StreamsTracked, HistoryTracked, SoFar;
    var i := rx.cum + 1;
    DoneByConsuming(log, rx.cum, rx.ooo);
    BufferConsumed(log, rx.cum, rx.ooo);
    var o := Reassemble(rx.a, rx.ooo[i].data, false);
    assert o.ok;
    assert Done(log, i, rx.ooo - {i}) == Done(log, rx.cum, rx.ooo);
    MovePoint(log, rx.cum, i, h, rx.a, o.a.message, order, Done(log, rx.cum, rx.ooo));
  }

  /** The open message after consuming chunk `i`. */
  function NextMessage(log: Log, i: int, m: Reassembly): Reassembly
    requires 0 <= i < |log|
  {
    var n := if log[i].begins then Reassembly(true, false, log[i].unordered, log[i].stream, log[i].ssn, []) else m;
    n.(open := !log[i].ends, bytes := if n.partiallyDelivered || log[i].ends then [] else SoFar(log, i))
  }

  /** What `Reassemble` does with the next chunk of the log. */
  lemma MessageConsumed(log: Log, cum: int, ooo: Reorder, a: Assembly)
    requires WellCut(log) && BufferTracked(log, cum, ooo) && MessageTracked(log, cum, ooo, a.message)
    requires cum + 1 < |log| && !Skipping(cum, ooo)
    ensures var i := cum + 1;
            var o := Reassemble(a, log[i], true);
            var m := NextMessage(log, i, a.message);
            && (a.message.open <==> !log[i].begins)
            && MessageTracked(log, i, ooo - {i}, m)
            && (!PartialOpen(a) && !log[i].ends ==> o == Outcome(a.(message := m), true))
            && (!PartialOpen(a) && log[i].ends ==>
                  !(m.open && m.partiallyDelivered) && o == OrderMessage(a.(message := m), log[i].stream, log[i].ssn, log[i].unordered, SoFar(log, i)))
            && (PartialOpen(a) ==>
                  var d := Delivery(log[i].bytes, log[i].ends, log[i].stream);
                  o == Outcome(if log[i].ends then a.(message := m, up := a.up + [d] + a.held, held := []) else a.(message := m, up := a.up + [d]), true))
  {
    hide First, Body, Ordinal, OrderMessage;
    var i := cum + 1;
    BufferConsumed(log, cum, ooo);
    BodyGrows(log, i);
    assert [] + log[i].bytes == log[i].bytes;
  }

  lemma MiddleKeeps(log: Log, h: seq<Delivery>, rx: Rx, order: seq<int>)
    requires WellCut(log) && Inv(log, h, rx, order)
    requires rx.cum + 1 < |log| && !Skipping(rx.cum, rx.ooo) && !log[rx.cum + 1].ends
    requires !PartialOpen(rx.a)
    ensures var i := rx.cum + 1;
            var o := Reassemble(rx.a, log[i], true);
            o.ok && Inv(log, h, Rx(i, rx.ooo - {i}, o.a), order)
  {
    var i := rx.cum + 1;
    assert 0 <= i;
    hide First, SoFar, Done, Tracked, MessageTracked, Reassemble, WellCut, BufferTracked;
    MessageConsumed(log, rx.cum, rx.ooo, rx.a);
    DoneByConsuming(log, rx.cum, rx.ooo);
    BufferConsumed(log, rx.cum, rx.ooo);
    assert Done(log, i, rx.ooo - {i}) == Done(log, rx.cum, rx.ooo);
    MovePoint(log, rx.cum, i, h, rx.a, NextMessage(log, i, rx.a.message), order, Done(log, rx.cum, rx.ooo));
  }

  /** A piece of the partially delivered message follows the pieces before it. */
  lemma PieceHistory(log: Log, cum: int, h: seq<Delivery>, up: seq<Delivery>, held: seq<Delivery>, order: seq<int>, partial: int)
    requires WellCut(log) && 0 <= cum && cum + 1 < |log| && !log[cum + 1].begins
    requires 0 <= partial == First(log, cum) <= cum
    requires HistoryTracked(log, cum, Messages(h + up), held, order, partial)
    ensures var d := Delivery(log[cum + 1].bytes, false, log[partial].stream);
            HistoryTracked(log, cum + 1, Messages(h + (up + [d])), held, order, partial)
  {
    hide First, End, Messages;
    MessagesAppend(h, up, Delivery(log[cum + 1].bytes, false, log[partial].stream));
  }

  /** Where a partially delivered message stands in the log. */
  lemma PartialStands(log: Log, h: seq<Delivery>, rx: Rx, order: seq<int>)
    requires WellCut(log) && Inv(log, h, rx, order)
    requires rx.cum + 1 < |log| && PartialOpen(rx.a)
    ensures var p := First(log, rx.cum);
            && 0 <= p <= rx.cum && p in order
            && !log[rx.cum + 1].begins && First(log, rx.cum + 1) == p
            && log[rx.cum + 1].stream == log[p].stream
            && PartialStart(log, rx.cum, rx.a.message) == p
            && HistoryTracked(log, rx.cum, Messages(h + rx.a.up), rx.a.held, order, p)
            && OrderTracked(log, order, Done(log, rx.cum, rx.ooo), p)
            && StreamsTracked(log, rx.a.streams, order, Done(log, rx.cum, rx.ooo), p)
  {
    hide End, Body, Messages, Ordinal, StreamsTracked, OrderTracked, Done;
    FirstOfMessage(log, rx.cum);
  }

  lemma PieceKeeps(log: Log, h: seq<Delivery>, rx: Rx, order: seq<int>)
    requires WellCut(log) && Inv(log, h, rx, order)
    requires rx.cum + 1 < |log| && !Skipping(rx.cum, rx.ooo) && !log[rx.cum + 1].ends
    requires PartialOpen(rx.a)
    ensures var i := rx.cum + 1;
            var o := Reassemble(rx.a, log[i], true);
            o.ok && Inv(log, h, Rx(i, rx.ooo - {i}, o.a), order)
  {
    var i := rx.cum + 1;
    hide First, SoFar, Done, OrderTracked, StreamsTracked, HistoryTracked, MessageTracked, Reassemble, WellCut, Messages, BufferTracked;
    PartialStands(log, h, rx, order);
    MessageConsumed(log, rx.cum, rx.ooo, rx.a);
    DoneByConsuming(log, rx.cum, rx.ooo);
    BufferConsumed(log, rx.cum, rx.ooo);
    assert Done(log, i, rx.ooo - {i}) == Done(log, rx.cum, rx.ooo);
    PieceHistory(log, rx.cum, h, rx.a.up, rx.a.held, order, First(log, rx.cum));
  }

  /** With the partially delivered message at its end, what was held goes up behind it. */
  lemma {:induction false} FlushHeld(log: Log, cum: int, h: seq<Delivery>, up: seq<Delivery>, held: seq<Delivery>, order: seq<int>)
    requires |order| == |Messages(h + up)| + |held|
    requires forall x :: 0 <= x < |Messages(h + up)| ==> IsMessage(log, order[x], Messages(h + up)[x])
    requires forall x :: |Messages(h + up)| <= x < |order| ==> IsHeld(log, order[x], held[x - |Messages(h + up)|])
    ensures HistoryTracked(log, cum, Messages(h + (up + held)), [], order, -1)
    decreases |held|
  {
    hide End, Body, Messages;
    if held == [] {
      assert up + held == up;
    } else {
      var d := held[0];
      assert up + held == (up + [d]) + held[1..];
      MessagesAppend(h, up, d);
      assert IsHeld(log, order[|Messages(h + up)|], d);
      FlushHeld(log, cum, h, up + [d], held[1..], order);
    }
  }

  lemma LastPieceHistory(log: Log, cum: int, h: seq<Delivery>, up: seq<Delivery>, held: seq<Delivery>, order: seq<int>, partial: int)
    requires WellCut(log) && 0 <= cum && cum + 1 < |log| && !log[cum + 1].begins && log[cum + 1].ends
    requires 0 <= partial == First(log, cum) <= cum
    requires HistoryTracked(log, cum, Messages(h + up), held, order, partial)
    ensures var d := Delivery(log[cum + 1].bytes, true, log[partial].stream);
            HistoryTracked(log, cum + 1, Messages(h + (up + [d] + held)), [], order, -1)
  {
    hide First, End, Messages, WellCut, Body;
    BodyGrows(log, cum + 1);
    var d := Delivery(log[cum + 1].bytes, true, log[partial].stream);
    MessagesAppend(h, up, d);
    FlushHeld(log, cum + 1, h, up + [d], held, order);
  }

  /** A message that was partially delivered and now is complete keeps its place. */
  lemma PartialBecomesDone(log: Log, streams: map<U16, InboundStream>, order: seq<int>, done: set<int>, partial: int)
    requires OrderTracked(log, order, done, partial) && StreamsTracked(log, streams, order, done, partial)
    requires partial in order
    ensures OrderTracked(log, order, done + {partial}, -1) && StreamsTracked(log, streams, order, done + {partial}, -1)
  {
    hide End, Body, Ordinal;
    forall id: U16
      ensures StreamTracked(log, id, StreamOf(streams, id), order, Tally(log, order, id), done + {partial}, -1)
    {
      var s := StreamOf(streams, id);
      var n := Tally(log, order, id);
      assert StreamTracked(log, id, s, order, n, done, partial);
      forall f | OrderedStart(log, id, f)
        ensures Placed(log, id, s, order, n, done + {partial}, -1, f)
      {
        assert Placed(log, id, s, order, n, done, partial, f);
      }
      forall key <- s.early
        ensures exists f :: Waits(log, id, order, done + {partial}, key, f)
      {
        var f :| Waits(log, id, order, done, key, f);
        assert Waits(log, id, order, done + {partial}, key, f);
      }
    }
  }

  lemma LastPieceKeeps(log: Log, h: seq<Delivery>, rx: Rx, order: seq<int>)
    requires WellCut(log) && Inv(log, h, rx, order)
    requires rx.cum + 1 < |log| && !Skipping(rx.cum, rx.ooo) && log[rx.cum + 1].ends
    requires PartialOpen(rx.a)
    ensures var i := rx.cum + 1;
            var o := Reassemble(rx.a, log[i], true);
            o.ok && Inv(log, h, Rx(i, rx.ooo - {i}, o.a), order)
  {
    hide First, SoFar, Done, OrderTracked, StreamsTracked, HistoryTracked, MessageTracked, Reassemble, WellCut, Messages, BufferTracked;
    var p := First(log, rx.cum);
    PartialStands(log, h, rx, order);
    MessageConsumed(log, rx.cum, rx.ooo, rx.a);
    DoneByConsuming(log, rx.cum, rx.ooo);
    BufferConsumed(log, rx.cum, rx.ooo);
    LastPieceHistory(log, rx.cum, h, rx.a.up, rx.a.held, order, p);
    PartialBecomesDone(log, rx.a.streams, order, Done(log, rx.cum, rx.ooo), p);
  }

  lemma InvBegins(log: Log, h: seq<Delivery>, rx: Rx, order: seq<int>)
    requires Inv(log, h, rx, order)
    ensures -1 <= rx.cum
  {
  }

  lemma EndKeeps(log: Log, h: seq<Delivery>, rx: Rx, order: seq<int>)
    returns (order': seq<int>)
    requires WellCut(log) && Inv(log, h, rx, order)
    requires rx.cum + 1 < |log| && !Skipping(rx.cum, rx.ooo) && log[rx.cum + 1].ends
    requires !PartialOpen(rx.a)
    ensures var i := rx.cum + 1;
            var o := Reassemble(rx.a, log[i], true);
            o.ok && Inv(log, h, Rx(i, rx.ooo - {i}, o.a), order')
  {
    hide First, SoFar, Done, Tracked, MessageTracked, Reassemble, WellCut, OrderMessage, Ordinal, Message, Whole,
         BufferTracked, Tally, Settled, NextMessage;
    var i := rx.cum + 1;
    InvBegins(log, h, rx, order);
    FirstOfMessage(log, i);
    var f := First(log, i);
    InTurn(log, h, rx, order, f);
    MessageConsumed(log, rx.cum, rx.ooo, rx.a);
    DoneByConsuming(log, rx.cum, rx.ooo);
    BufferConsumed(log, rx.cum, rx.ooo);
    BodyGrows(log, i);
    var a := rx.a.(message := NextMessage(log, i, rx.a.message));
    MovePoint(log, rx.cum, i, h, rx.a, a.message, order, Done(log, rx.cum, rx.ooo));
    order' := OrderKeeps(log, i, h, a, order, Done(log, rx.cum, rx.ooo), -1, f);
  }

  /** `Reassemble` takes the next chunk of the log, whatever the state. */
  lemma ConsumeKeeps(log: Log, h: seq<Delivery>, rx: Rx, order: seq<int>)
    returns (order': seq<int>)
    requires WellCut(log) && Inv(log, h, rx, order)
    requires rx.cum + 1 < |log| && !Skipping(rx.cum, rx.ooo)
    ensures var i := rx.cum + 1;
            var o := Reassemble(rx.a, log[i], true);
            o.ok && Inv(log, h, Rx(i, rx.ooo - {i}, o.a), order')
  {
    assert 0 <= rx.cum + 1;
    hide Inv, Reassemble, WellCut;
    order' := order;
    if PartialOpen(rx.a) {
      if log[rx.cum + 1].ends {
        LastPieceKeeps(log, h, rx, order);
      } else {
        PieceKeeps(log, h, rx, order);
      }
    } else if log[rx.cum + 1].ends {
      order' := EndKeeps(log, h, rx, order);
    } else {
      MiddleKeeps(log, h, rx, order);
    }
  }

  lemma HeldIsOfLog(log: Log, h: seq<Delivery>, rx: Rx, order: seq<int>, i: int)
    requires WellCut(log) && Inv(log, h, rx, order) && i in rx.ooo
    ensures 0 <= i < |log| && log[i].bytes != []
    ensures rx.ooo[i].data == if rx.ooo[i].assembled then Emptied(log[i]) else log[i]
  {
    hide Tracked, MessageTracked, Ordinal;
  }

  /** One chunk leaves the buffer for the message it continues. */
  lemma ReadOneKeeps(log: Log, h: seq<Delivery>, rx: Rx, order: seq<int>)
    returns (order': seq<int>)
    requires WellCut(log) && Inv(log, h, rx, order)
    requires rx.cum + 1 in rx.ooo
    ensures var i := rx.cum + 1;
            var o := Reassemble(rx.a, rx.ooo[i].data, !rx.ooo[i].assembled && rx.ooo[i].data.bytes != []);
            o.ok && Inv(log, h, Rx(i, rx.ooo - {i}, o.a), order')
  {
    hide Inv, Reassemble, WellCut;
    HeldIsOfLog(log, h, rx, order, rx.cum + 1);
    if rx.ooo[rx.cum + 1].assembled {
      SkipKeeps(log, h, rx, order);
      order' := order;
    } else {
      order' := ConsumeKeeps(log, h, rx, order);
    }
  }

  lemma {:induction false} ReadBufferKeeps(log: Log, h: seq<Delivery>, rx: Rx, order: seq<int>)
    returns (order': seq<int>)
    requires WellCut(log) && Inv(log, h, rx, order) && InReach(rx.cum, rx.ooo)
    ensures ReadBuffer(rx).ok && Inv(log, h, ReadBuffer(rx).rx, order')
    ensures rx.cum <= ReadBuffer(rx).rx.cum && ReadBuffer(rx).rx.cum + 1 !in ReadBuffer(rx).rx.ooo
    decreases |rx.ooo|
  {
    hide Inv, Reassemble, WellCut, InReach;
    var i := rx.cum + 1;
    if i !in rx.ooo {
      return order;
    }
    assert rx.ooo.Keys == (rx.ooo - {i}).Keys + {i};
    assert |rx.ooo.Keys| == |(rx.ooo - {i}).Keys| + 1;
    order' := ReadOneKeeps(log, h, rx, order);
    var o := Reassemble(rx.a, rx.ooo[i].data, !rx.ooo[i].assembled && rx.ooo[i].data.bytes != []);
    InvParts(log, h, Rx(i, rx.ooo - {i}, o.a), order');
    order' := ReadBufferKeeps(log, h, Rx(i, rx.ooo - {i}, o.a), order');
  }

  // ----- The buffer: insertion, eviction, early assembly -----

  /** Chunks not assembled come and go without completing anything. */
  lemma BufferChanges(log: Log, h: seq<Delivery>, rx: Rx, ooo: Reorder, order: seq<int>)
    requires Inv(log, h, rx, order)
    requires BufferTracked(log, rx.cum, ooo)
    requires forall k <- rx.ooo :: rx.ooo[k].assembled ==> k in ooo && ooo[k] == rx.ooo[k]
    requires forall k <- ooo :: ooo[k].assembled ==> k in rx.ooo && rx.ooo[k] == ooo[k]
    ensures Inv(log, h, rx.(ooo := ooo), order)
  {
    hide Tracked, End, SoFar, First;
    forall f | 0 <= f < |log|
      ensures IsDone(log, rx.cum, ooo, f) <==> IsDone(log, rx.cum, rx.ooo, f)
    {
    }
    assert Done(log, rx.cum, ooo) == Done(log, rx.cum, rx.ooo);
  }

  lemma InsertKeeps(log: Log, h: seq<Delivery>, rx: Rx, order: seq<int>, i: int)
    requires WellCut(log) && Inv(log, h, rx, order)
    requires rx.cum < i <= rx.cum + UINT16_MAX && i < |log| && i !in rx.ooo
    ensures Inv(log, h, rx.(ooo := rx.ooo[i := Held(log[i], false)]), order)
  {
    var ooo := rx.ooo[i := Held(log[i], false)];
    assert BufferTracked(log, rx.cum, ooo) by {
      hide Tracked, MessageTracked, WellCut;
    }
    hide Inv, BufferTracked;
    BufferChanges(log, h, rx, ooo, order);
  }

  lemma EvictKeeps(log: Log, h: seq<Delivery>, rx: Rx, order: seq<int>, k: int)
    requires Inv(log, h, rx, order)
    requires k in rx.ooo && !rx.ooo[k].assembled
    ensures Inv(log, h, rx.(ooo := rx.ooo - {k}), order)
  {
    var ooo := rx.ooo - {k};
    assert BufferTracked(log, rx.cum, ooo) by {
      hide Tracked, MessageTracked;
    }
    hide Inv, BufferTracked;
    BufferChanges(log, h, rx, ooo, order);
  }

  /** The walk down finds where the message begins, all of it usable. */
  lemma {:induction false} WalkDown(log: Log, cum: int, ooo: Reorder, i: int, like: Fragment)
    requires WellCut(log) && BufferTracked(log, cum, ooo) && Usable(ooo, i)
    ensures var r := FirstFragment(cum, ooo, i, like);
            r.At? ==> r.index == First(log, i) && forall k :: r.index <= k <= i ==> Usable(ooo, k)
    decreases i - cum
  {
    if !log[i].begins && Usable(ooo, i - 1) {
      WalkDown(log, cum, ooo, i - 1, like);
    }
  }

  lemma {:induction false} WalkUp(log: Log, cum: int, ooo: Reorder, i: int, like: Fragment)
    requires BufferTracked(log, cum, ooo) && Usable(ooo, i)
    ensures var r := LastFragment(cum, ooo, i, like);
            r.At? ==> r.index == End(log, i) < |log| && forall k :: i <= k <= r.index ==> Usable(ooo, k)
    decreases cum + UINT16_MAX - i
  {
    if !log[i].ends && Usable(ooo, i + 1) {
      WalkUp(log, cum, ooo, i + 1, like);
    }
  }

  lemma {:induction false} EndFrom(log: Log, f: int, i: int)
    requires 0 <= f <= i < |log| && forall k :: f <= k < i ==> !log[k].ends
    ensures End(log, f) == End(log, i)
    decreases i - f
  {
    if f < i {
      EndFrom(log, f + 1, i);
    }
  }

  lemma {:induction false} GatherIsBody(log: Log, cum: int, ooo: Reorder, f: int, e: int)
    requires BufferTracked(log, cum, ooo) && 0 <= f && e < |log|
    requires forall k :: f <= k <= e ==> Usable(ooo, k)
    ensures Gather(ooo, f, e + 1) == Body(log, f, e)
    decreases e - f
  {
    if f <= e {
      GatherIsBody(log, cum, ooo, f, e - 1);
      assert Usable(ooo, e);
    }
  }

  lemma DoneIfAssembled(log: Log, cum: int, ooo: Reorder, f: int, g: int)
    requires WellCut(log) && BufferTracked(log, cum, ooo) && Whole(log, f)
    requires forall k :: f <= k <= End(log, f) ==> Usable(ooo, k)
    ensures IsDone(log, cum, MarkAssembled(ooo, f, End(log, f)), g) <==> IsDone(log, cum, ooo, g) || g == f
    ensures !IsDone(log, cum, ooo, f)
  {
    hide WellCut, Ordinal, First;
    var e := End(log, f);
    EndOfMessage(log, f);
    assert Usable(ooo, e);
    if Whole(log, g) {
      EndOfMessage(log, g);
      if f <= End(log, g) <= e {
        FirstOfEnd(log, g, e);
        FirstOfEnd(log, f, e);
      }
    }
  }

  /** Taking a whole message out of the buffer completes that message alone. */
  lemma DoneByAssembling(log: Log, cum: int, ooo: Reorder, f: int)
    requires WellCut(log) && BufferTracked(log, cum, ooo) && Whole(log, f)
    requires forall k :: f <= k <= End(log, f) ==> Usable(ooo, k)
    ensures var ooo' := MarkAssembled(ooo, f, End(log, f));
            && BufferTracked(log, cum, ooo')
            && Done(log, cum, ooo') == Done(log, cum, ooo) + {f}
            && f !in Done(log, cum, ooo)
  {
    hide WellCut, BufferTracked, IsDone, End, Usable, MarkAssembled;
    var e := End(log, f);
    var ooo' := MarkAssembled(ooo, f, e);
    EndOfMessage(log, f);
    MarkedBuffer(log, cum, ooo, f, e);
    forall g | 0 <= g < |log|
      ensures g in Done(log, cum, ooo') <==> g in Done(log, cum, ooo) || g == f
    {
      DoneIfAssembled(log, cum, ooo, f, g);
    }
    DoneIfAssembled(log, cum, ooo, f, f);
  }

  lemma MarkedBuffer(log: Log, cum: int, ooo: Reorder, f: int, e: int)
    requires BufferTracked(log, cum, ooo) && 0 <= f <= e < |log|
    requires forall k :: f <= k <= e ==> Usable(ooo, k)
    requires log[f].begins && log[e].ends
    ensures BufferTracked(log, cum, MarkAssembled(ooo, f, e))
  {
    var ooo' := MarkAssembled(ooo, f, e);
    forall k <- ooo' | ooo'[k].assembled && !log[k].ends
      ensures k + 1 in ooo' && ooo'[k + 1].assembled
    {
      if f <= k <= e {
        assert Usable(ooo, k + 1);
      }
    }
    forall k <- ooo' | ooo'[k].assembled && !log[k].begins && cum < k - 1
      ensures k - 1 in ooo' && ooo'[k - 1].assembled
    {
      if f <= k <= e {
        assert Usable(ooo, k - 1);
      }
    }
  }

  /** When both walks succeed, a whole message lies in the buffer. */
  lemma WholeMessageFound(log: Log, cum: int, ooo: Reorder, i: int)
    requires WellCut(log) && BufferTracked(log, cum, ooo) && Usable(ooo, i)
    ensures var first := FirstFragment(cum, ooo, i, ooo[i].data);
            var last := LastFragment(cum, ooo, i, ooo[i].data);
            first.At? && last.At? ==>
              && Start(log, first.index) && End(log, first.index) == last.index < |log|
              && (forall k :: first.index <= k <= last.index ==> Usable(ooo, k))
              && ooo[i].data == log[i]
              && log[i].stream == log[first.index].stream && log[i].ssn == log[first.index].ssn && log[i].unordered == log[first.index].unordered
  {
    var like := ooo[i].data;
    WalkDown(log, cum, ooo, i, like);
    WalkUp(log, cum, ooo, i, like);
    assert 0 <= i < |log| && ooo[i].data == log[i];
    FirstOfMessage(log, i);
    hide WellCut, BufferTracked, Ordinal, End, First, Usable;
    EndFrom(log, First(log, i), i);
  }

  lemma AssembleKeeps(log: Log, h: seq<Delivery>, rx: Rx, order: seq<int>, i: int)
    returns (order': seq<int>)
    requires WellCut(log) && Inv(log, h, rx, order)
    requires rx.cum + 1 !in rx.ooo && Usable(rx.ooo, i)
    ensures Near(log, rx.cum, i) ==> AssembleEarly(rx, i).ok
    ensures AssembleEarly(rx, i).ok ==> Inv(log, h, AssembleEarly(rx, i).rx, order')
    ensures AssembleEarly(rx, i).rx.cum == rx.cum && rx.cum + 1 !in AssembleEarly(rx, i).rx.ooo
  {
    hide Inv, BufferTracked, WellCut, First, End, OrderMessage, FirstFragment, LastFragment, Gather;
    InvParts(log, h, rx, order);
    var first := FirstFragment(rx.cum, rx.ooo, i, rx.ooo[i].data);
    var last := LastFragment(rx.cum, rx.ooo, i, rx.ooo[i].data);
    if first.None? || last.None? {
      return order;
    }
    WholeMessageFound(log, rx.cum, rx.ooo, i);
    HeldIsOfLog(log, h, rx, order, i);
    FirstOfEnd(log, first.index, i);
    order' := AssembleWholeKeeps(log, h, rx, order, i);
  }

  lemma InvParts(log: Log, h: seq<Delivery>, rx: Rx, order: seq<int>)
    requires Inv(log, h, rx, order)
    ensures BufferTracked(log, rx.cum, rx.ooo) && InReach(rx.cum, rx.ooo)
  {
    hide Tracked, MessageTracked;
  }

  lemma AboveOpenMessage(log: Log, h: seq<Delivery>, rx: Rx, order: seq<int>, f: int)
    requires WellCut(log) && Inv(log, h, rx, order) && Usable(rx.ooo, f)
    ensures -1 <= rx.cum < |log| && rx.cum < f <= rx.cum + UINT16_MAX
    ensures f != PartialStart(log, rx.cum, rx.a.message)
  {
    hide Tracked, MessageTracked, End, Ordinal;
    if rx.cum >= 0 {
      FirstOfMessage(log, rx.cum);
    }
  }

  /** The message of chunk `i`, all in the buffer, is taken out and put in order, unless it
      is too far ahead of its stream. */
  lemma AssembleWholeKeeps(log: Log, h: seq<Delivery>, rx: Rx, order: seq<int>, i: int)
    returns (order': seq<int>)
    requires WellCut(log) && Inv(log, h, rx, order)
    requires rx.cum + 1 !in rx.ooo && 0 <= i < |log| && Start(log, First(log, i)) && First(log, i) <= i <= End(log, First(log, i)) < |log|
    requires forall k :: First(log, i) <= k <= End(log, First(log, i)) ==> Usable(rx.ooo, k)
    ensures var f := First(log, i);
            var e := End(log, f);
            var o := OrderMessage(rx.a, log[f].stream, log[f].ssn, log[f].unordered, Gather(rx.ooo, f, e + 1));
            && (o.ok <==> log[i].unordered || Ordinal(log, log[i].stream, f) < Tally(log, order, log[i].stream) + HALF_SSN_SPACE)
            && (Near(log, rx.cum, i) ==> o.ok)
            && (o.ok ==> Inv(log, h, rx.(ooo := MarkAssembled(rx.ooo, f, e), a := o.a), order'))
  {
    hide Tracked, MessageTracked, BufferTracked, WellCut, Done, OrderMessage, Gather, Body, End, First, MarkAssembled, Ordinal, Near, Tally;
    var f := First(log, i);
    var e := End(log, f);
    FirstOfMessage(log, i);
    EndOfMessage(log, f);
    AboveOpenMessage(log, h, rx, order, f);
    if !log[i].unordered {
      Ahead(log, h, rx, order, i);
    }
    DoneByAssembling(log, rx.cum, rx.ooo, f);
    GatherIsBody(log, rx.cum, rx.ooo, f, e);
    order' := OrderKeeps(log, rx.cum, h, rx.a, order, Done(log, rx.cum, rx.ooo), PartialStart(log, rx.cum, rx.a.message), f);
    MarkedMessage(log, rx.cum, rx.ooo, rx.a.message, f, e);
  }

  lemma MarkedMessage(log: Log, cum: int, ooo: Reorder, m: Reassembly, f: int, e: int)
    requires -1 <= cum < |log| && MessageTracked(log, cum, ooo, m) && cum + 1 !in ooo
    ensures MessageTracked(log, cum, MarkAssembled(ooo, f, e), m)
  {
    hide SoFar;
  }

  // ----- A whole chunk, and partial delivery -----

  /** The invariant between chunks: nothing in the buffer is next in turn. */
  ghost predicate Between(log: Log, h: seq<Delivery>, rx: Rx, order: seq<int>) {
    Inv(log, h, rx, order) && rx.cum + 1 !in rx.ooo && InReach(rx.cum, rx.ooo)
  }

  lemma NotEmpty(log: Log, i: int)
    requires WellCut(log) && 0 <= i < |log|
    ensures log[i].bytes != []
  {
  }

  lemma PlaceKeeps(log: Log, h: seq<Delivery>, rx: Rx, order: seq<int>, i: int)
    returns (order': seq<int>)
    requires WellCut(log) && Between(log, h, rx, order)
    requires rx.cum < i <= rx.cum + UINT16_MAX && 0 <= i < |log| && i !in rx.ooo
    ensures var o := Place(rx, i, log[i], true);
            && (Near(log, rx.cum, i) ==> o.ok)
            && (o.ok ==> Between(log, h, o.rx, order') && rx.cum <= o.rx.cum)
  {
    hide Inv, WellCut, ReadBuffer, AssembleEarly, Reassemble;
    NotEmpty(log, i);
    if i == rx.cum + 1 {
      order' := ConsumeKeeps(log, h, rx, order);
      assert rx.ooo - {i} == rx.ooo;
      var a := Reassemble(rx.a, log[i], true).a;
      order' := ReadBufferKeeps(log, h, rx.(cum := i, a := a), order');
    } else {
      InsertKeeps(log, h, rx, order, i);
      order' := AssembleKeeps(log, h, rx.(ooo := rx.ooo[i := Held(log[i], false)]), order, i);
    }
    if Place(rx, i, log[i], true).ok {
      InvParts(log, h, Place(rx, i, log[i], true).rx, order');
    }
  }

  /** A chunk of the log, new or not, in its place or not, with room or not. */
  lemma ChunkKeeps(log: Log, h: seq<Delivery>, rx: Rx, order: seq<int>, used: int, inStreams: nat, i: int)
    returns (order': seq<int>)
    requires WellCut(log) && Between(log, h, rx, order)
    requires 0 <= i < |log| && log[i].stream < inStreams
    ensures var s := HandleChunk(rx, used, inStreams, i, log[i]);
            && (Near(log, rx.cum, i) ==> !s.verdict.Violation?)
            && (!s.verdict.Violation? ==> Between(log, h, s.rx, order') && rx.cum <= s.rx.cum)
  {
    order' := order;
    hide Inv, WellCut, Place;
    if !(i <= rx.cum || i in rx.ooo || i > rx.cum + UINT16_MAX) {
      var room := MadeRoom(rx, used, i);
      if room.verdict != Dropped {
        if used >= RWND && Evicted(rx, i).At? {
          EvictKeeps(log, h, rx, order, Evicted(rx, i).index);
        }
        order' := PlaceKeeps(log, h, room.rx, order, i);
      }
    }
  }

  /** The exact limit, for a message of one chunk above a gap: it is a violation if and only
      if 2^15 or more messages of its stream come before it that have not gone up. */
  lemma FarAheadIsAViolation(log: Log, h: seq<Delivery>, rx: Rx, order: seq<int>, used: int, inStreams: nat, i: int)
    requires WellCut(log) && Between(log, h, rx, order) && used < RWND
    requires rx.cum + 1 < i <= rx.cum + UINT16_MAX && 0 <= i < |log| && i !in rx.ooo && log[i].stream < inStreams
    requires log[i].begins && log[i].ends && !log[i].unordered
    ensures HandleChunk(rx, used, inStreams, i, log[i]).verdict.Violation? <==>
              Ordinal(log, log[i].stream, i) >= Tally(log, order, log[i].stream) + HALF_SSN_SPACE
  {
    hide Inv, WellCut, Gather, OrderMessage, MarkAssembled, Ordinal, Tally, Near, First, End, FirstFragment, LastFragment;
    var with := rx.(ooo := rx.ooo[i := Held(log[i], false)]);
    NotEmpty(log, i);
    InsertKeeps(log, h, rx, order, i);
    InvParts(log, h, with, order);
    OneChunk(log, with, i);
    var ignored := AssembleWholeKeeps(log, h, with, order, i);
  }

  lemma OneChunk(log: Log, rx: Rx, i: int)
    requires 0 <= i < |log| && log[i].begins && log[i].ends
    requires InReach(rx.cum, rx.ooo) && Usable(rx.ooo, i) && rx.ooo[i].data == log[i]
    ensures First(log, i) == i && End(log, i) == i
    ensures FirstFragment(rx.cum, rx.ooo, i, log[i]) == At(i) && LastFragment(rx.cum, rx.ooo, i, log[i]) == At(i)
  {
  }

  /** A message given up in part stands in the order before it is complete. */
  lemma DoneBecomesPartial(log: Log, streams: map<U16, InboundStream>, order: seq<int>, done: set<int>, f: int)
    requires OrderTracked(log, order, done + {f}, -1) && StreamsTracked(log, streams, order, done + {f}, -1)
    requires f in order && f !in done
    ensures OrderTracked(log, order, done, f) && StreamsTracked(log, streams, order, done, f)
  {
    hide End, Body, Ordinal;
    forall id: U16
      ensures StreamTracked(log, id, StreamOf(streams, id), order, Tally(log, order, id), done, f)
    {
      var s := StreamOf(streams, id);
      var n := Tally(log, order, id);
      assert StreamTracked(log, id, s, order, n, done + {f}, -1);
      forall g | OrderedStart(log, id, g)
        ensures Placed(log, id, s, order, n, done, f, g)
      {
        assert Placed(log, id, s, order, n, done + {f}, -1, g);
      }
      forall key <- s.early
        ensures exists g :: Waits(log, id, order, done, key, g)
      {
        var g :| Waits(log, id, order, done + {f}, key, g);
        assert Waits(log, id, order, done, key, g);
      }
    }
  }

  lemma FirstPieceHistory(log: Log, cum: int, h: seq<Delivery>, up: seq<Delivery>, held: seq<Delivery>, order: seq<int>, f: int)
    requires 0 <= f <= cum < |log|
    requires HistoryTracked(log, cum, Messages(h + up), held, order, -1)
    ensures HistoryTracked(log, cum, Messages(h + (up + [Delivery(Body(log, f, cum), false, log[f].stream)])), held, order + [f], f)
  {
    hide Messages, Body, End;
    MessagesAppend(h, up, Delivery(Body(log, f, cum), false, log[f].stream));
  }

  /** Where the message to be given up in part stands. */
  lemma OpenStands(log: Log, h: seq<Delivery>, rx: Rx, order: seq<int>)
    requires WellCut(log) && Between(log, h, rx, order)
    requires rx.a.message.open && rx.a.message.bytes != []
    ensures 0 <= rx.cum < |log|
    ensures var f := First(log, rx.cum);
            && 0 <= f <= rx.cum && Start(log, f) && !PartialOpen(rx.a)
            && rx.a.message.bytes == Body(log, f, rx.cum)
            && rx.a.message.stream == log[f].stream && rx.a.message.ssn == log[f].ssn && rx.a.message.unordered == log[f].unordered
            && f !in Done(log, rx.cum, rx.ooo)
            && Tracked(log, rx.cum, h, rx.a, order, Done(log, rx.cum, rx.ooo), -1)
  {
    hide Tracked, Ordinal, Body;
    FirstOfMessage(log, rx.cum);
    EndOfMessage(log, First(log, rx.cum));
    if rx.cum + 1 < |log| {
      NotDoneYet(log, rx.cum, rx.ooo);
    }
  }

  /** An ordered message whose SSN is the one waited for is the next of its stream. */
  lemma IsNext(log: Log, h: seq<Delivery>, rx: Rx, order: seq<int>, f: int)
    requires WellCut(log) && Between(log, h, rx, order)
    requires Start(log, f) && !log[f].unordered && f <= rx.cum && f !in Done(log, rx.cum, rx.ooo)
    requires f != PartialStart(log, rx.cum, rx.a.message)
    requires log[f].ssn == StreamOf(rx.a.streams, log[f].stream).nextSsn
    ensures Ordinal(log, log[f].stream, f) == Tally(log, order, log[f].stream)
  {
    hide HistoryTracked, OrderTracked, MessageTracked, BufferTracked, Done, Messages, First, Body, End;
    InTurn(log, h, rx, order, f);
    var id := log[f].stream;
    var n := Tally(log, order, id);
    var partial := PartialStart(log, rx.cum, rx.a.message);
    assert OrderedStart(log, id, f);
    assert StreamTracked(log, id, StreamOf(rx.a.streams, id), order, n, Done(log, rx.cum, rx.ooo), partial);
    assert Placed(log, id, StreamOf(rx.a.streams, id), order, n, Done(log, rx.cum, rx.ooo), partial, f);
    SameSsn(Ordinal(log, id, f), n);
  }

  /** Handing up the first piece of the open message. */
  lemma FirstPieceKeeps(log: Log, cum: int, h: seq<Delivery>, a: Assembly, order: seq<int>, done: set<int>, f: int)
    returns (order': seq<int>)
    requires Tracked(log, cum, h, a, order, done, -1)
    requires forall id: U16 :: Settled(a.streams, id)
    requires 0 <= f <= cum < |log| && Start(log, f) && f !in done
    requires a.message.open && a.message.bytes == Body(log, f, cum)
    requires a.message.stream == log[f].stream && a.message.unordered == log[f].unordered
    requires !log[f].unordered ==> Ordinal(log, log[f].stream, f) == Tally(log, order, log[f].stream)
    ensures var m := a.message.(bytes := [], partiallyDelivered := true);
            var b := a.(up := a.up + [Delivery(a.message.bytes, false, a.message.stream)], message := m);
            var c := if a.message.unordered then b else AdvanceStream(b, a.message.stream);
            && c.message == m
            && Tracked(log, cum, h, c, order', done, f)
            && forall id: U16 :: Settled(c.streams, id)
  {
    hide Messages, Body, End, Placed, Ordinal, Waits, HistoryTracked, Tally;
    var id := log[f].stream;
    var s := StreamOf(a.streams, id);
    FirstPieceHistory(log, cum, h, a.up, a.held, order, f);
    var b := a.(up := a.up + [Delivery(a.message.bytes, false, id)], message := a.message.(bytes := [], partiallyDelivered := true));
    if log[f].unordered {
      OrderAppend(log, order, done, -1, f);
      forall other: U16
        ensures StreamTracked(log, other, StreamOf(a.streams, other), order + [f], Tally(log, order + [f], other), done + {f}, -1)
      {
        TallyAppend(log, order, f, other);
        OtherStream(log, other, StreamOf(a.streams, other), order, Tally(log, order, other), done, -1, f);
      }
      DoneBecomesPartial(log, a.streams, order + [f], done, f);
      return order + [f];
    }
    assert Settled(a.streams, id);
    assert s.early - {s.nextSsn} == s.early;
    assert OrderedStart(log, id, f);
    AllStreamsNext(log, a.streams, order, done, -1, id, f);
    OrderAppend(log, order, done, -1, f);
    var streams' := a.streams[id := s.(nextSsn := Increment(s.nextSsn))];
    DoneBecomesPartial(log, streams', order + [f], done, f);
    forall other: U16 | other != id
      ensures Settled(streams', other)
    {
      assert Settled(a.streams, other);
    }
    assert Tracked(log, cum, h, b.(streams := streams'), order + [f], done, f);
    hide Tracked;
    order' := DrainKeeps(log, cum, h, b.(streams := streams'), order + [f], done, f, id);
  }

  lemma PartialKeeps(log: Log, h: seq<Delivery>, rx: Rx, order: seq<int>, used: int, pmdcs: nat)
    returns (order': seq<int>)
    requires WellCut(log) && Between(log, h, rx, order)
    ensures Between(log, h, rx.(a := DeliverPartially(rx.a, used, pmdcs)), order')
  {
    hide WellCut, BufferTracked, First, Body, End, SoFar, Ordinal, Done, AdvanceStream, Tracked;
    var m := rx.a.message;
    if !(m.open && m.bytes != [] && used + pmdcs > RWND && (m.unordered || m.ssn == StreamOf(rx.a.streams, m.stream).nextSsn)) {
      return order;
    }
    OpenStands(log, h, rx, order);
    var f := First(log, rx.cum);
    if !m.unordered {
      IsNext(log, h, rx, order, f);
    }
    order' := FirstPieceKeeps(log, rx.cum, h, rx.a, order, Done(log, rx.cum, rx.ooo), f);
  }

  // ----- Packets and runs -----

  /** A packet carrying the chunks of the log with these indices. */
  function Carrying(t0: Tsn, log: Log, indices: seq<int>): seq<DataChunk>
    requires forall j :: 0 <= j < |indices| ==> 0 <= indices[j] < |log|
  {
    seq(|indices|, j requires 0 <= j < |indices| => DataChunk(Wire(t0, indices[j]), log[indices[j]]))
  }

  /** Every chunk is within half the TSN space of the cumulative point when it arrives. */
  ghost predicate InHalfSpace(log: Log, rx: Rx, used: int, inStreams: nat, indices: seq<int>)
    decreases |indices|
  {
    indices == [] ||
    (&& 0 <= indices[0] < |log| && -HALF_TSN_SPACE < indices[0] - rx.cum < HALF_TSN_SPACE
     && InReach(rx.cum, rx.ooo)
     && var s := HandleChunk(rx, used, inStreams, indices[0], log[indices[0]]);
        InHalfSpace(log, s.rx, s.used, inStreams, indices[1..]))
  }

  /** Every chunk is near when it arrives. */
  ghost predicate AllNear(log: Log, rx: Rx, used: int, inStreams: nat, indices: seq<int>)
    requires InHalfSpace(log, rx, used, inStreams, indices)
    decreases |indices|
  {
    indices == [] ||
    (&& Near(log, rx.cum, indices[0])
     && var s := HandleChunk(rx, used, inStreams, indices[0], log[indices[0]]);
        s.verdict.Violation? || AllNear(log, s.rx, s.used, inStreams, indices[1..]))
  }

  ghost predicate ValidStreams(log: Log, inStreams: nat) {
    forall i :: 0 <= i < |log| ==> log[i].stream < inStreams
  }

  lemma {:induction false} ChunksKeep(t0: Tsn, log: Log, h: seq<Delivery>, rx: Rx, order: seq<int>, used: int, inStreams: nat, indices: seq<int>)
    returns (order': seq<int>)
    requires WellCut(log) && ValidStreams(log, inStreams) && Between(log, h, rx, order)
    requires forall j :: 0 <= j < |indices| ==> 0 <= indices[j] < |log|
    requires InHalfSpace(log, rx, used, inStreams, indices)
    ensures var r := HandleChunks(t0, rx, used, inStreams, Carrying(t0, log, indices));
            && (AllNear(log, rx, used, inStreams, indices) ==> !r.violation)
            && (!r.violation ==> Between(log, h, r.rx, order'))
    decreases |indices|
  {
    hide Between, WellCut, HandleChunk, Unwrap, Wire, Near, InReach;
    order' := order;
    if indices == [] {
      return;
    }
    var i := indices[0];
    UnwrapOfWire(t0, rx.cum, i);
    order' := ChunkKeeps(log, h, rx, order, used, inStreams, i);
    var s := HandleChunk(rx, used, inStreams, i, log[i]);
    assert Carrying(t0, log, indices)[1..] == Carrying(t0, log, indices[1..]);
    if !s.verdict.Violation? {
      order' := ChunksKeep(t0, log, h, s.rx, order', s.used, inStreams, indices[1..]);
    }
  }

  /** What both ends of an association agreed on, and the path's chunk size. */
  datatype Setup = Setup(t0: Tsn, inStreams: nat, pmdcs: nat)

  /** A receiving endpoint: its TCB between packets, and everything it ever handed up. */
  datatype Endpoint = Endpoint(rx: Rx, delivered: seq<Delivery>, aborted: bool)

  const NEW_ASSEMBLY := Assembly(IDLE, map[], [], [])
  const NEW_ENDPOINT := Endpoint(Rx(-1, map[], NEW_ASSEMBLY), [], false)

  /** A packet from the network: chunks of the log in any order, any number of times, with
      `buffered` bytes not yet read by the ULP. */
  datatype Arrival = Arrival(indices: seq<int>, buffered: nat)

  ghost predicate Possible(setup: Setup, log: Log, e: Endpoint, arrival: Arrival) {
    && !e.aborted && InReach(e.rx.cum, e.rx.ooo)
    && (forall j :: 0 <= j < |arrival.indices| ==> 0 <= arrival.indices[j] < |log|)
    && InHalfSpace(log, e.rx.(a := e.rx.a.(up := [])), arrival.buffered + HeldBytes(e.rx), setup.inStreams, arrival.indices)
  }

  ghost function Receive(setup: Setup, log: Log, e: Endpoint, arrival: Arrival): Endpoint
    requires Possible(setup, log, e, arrival)
  {
    var r := HandlePacket(setup.t0, e.rx, arrival.buffered, setup.inStreams, setup.pmdcs, Carrying(setup.t0, log, arrival.indices));
    if r.violation then e.(aborted := true)
    else Endpoint(r.rx.(a := r.rx.a.(up := [])), e.delivered + r.rx.a.up, false)
  }

  /** Any number of packets, starting from a new association. */
  ghost predicate IsRun(setup: Setup, log: Log, arrivals: seq<Arrival>, states: seq<Endpoint>) {
    && |states| == |arrivals| + 1
    && states[0] == NEW_ENDPOINT
    && forall j :: 0 <= j < |arrivals| ==>
         Possible(setup, log, states[j], arrivals[j]) && states[j + 1] == Receive(setup, log, states[j], arrivals[j])
  }

  /** No message of a packet is half the SSN space ahead of its stream. */
  ghost predicate Legible(setup: Setup, log: Log, e: Endpoint, arrival: Arrival)
    requires Possible(setup, log, e, arrival)
  {
    AllNear(log, e.rx.(a := e.rx.a.(up := [])), arrival.buffered + HeldBytes(e.rx), setup.inStreams, arrival.indices)
  }

  ghost predicate EndpointInv(log: Log, e: Endpoint, order: seq<int>) {
    e.rx.a.up == [] && Between(log, e.delivered, e.rx, order)
  }

  /** With no chunk received, nothing is complete. */
  lemma NewEndpointInv(log: Log)
    requires WellCut(log)
    ensures EndpointInv(log, NEW_ENDPOINT, [])
  {
    assert Done(log, -1, map[]) == {} by {
      forall f | 0 <= f < |log|
        ensures !IsDone(log, -1, map[], f)
      {
        EndOfMessage(log, f);
      }
    }
    forall id: U16
      ensures Settled(map[], id)
      ensures StreamTracked(log, id, StreamOf(map[], id), [], 0, {}, -1)
    {
    }
  }

  /** What was handed up in one packet joins the history. */
  lemma Rebase(log: Log, h: seq<Delivery>, rx: Rx, order: seq<int>)
    requires Between(log, h, rx, order)
    ensures Between(log, h + rx.a.up, rx.(a := rx.a.(up := [])), order)
  {
    hide Messages, HistoryTracked, OrderTracked, StreamsTracked, Done, SoFar, First, BufferTracked;
    assert h + rx.a.up + [] == h + rx.a.up;
  }

  lemma PacketKeeps(setup: Setup, log: Log, e: Endpoint, order: seq<int>, arrival: Arrival)
    returns (order': seq<int>)
    requires WellCut(log) && ValidStreams(log, setup.inStreams)
    requires EndpointInv(log, e, order) && Possible(setup, log, e, arrival)
    ensures EndpointInv(log, Receive(setup, log, e, arrival), order')
    ensures Legible(setup, log, e, arrival) ==> !Receive(setup, log, e, arrival).aborted
  {
    hide Inv, WellCut, HandleChunks, InHalfSpace, AllNear, DeliverPartially, HeldBytes;
    assert e.rx.(a := e.rx.a.(up := [])) == e.rx;
    var used := arrival.buffered + HeldBytes(e.rx);
    order' := ChunksKeep(setup.t0, log, e.delivered, e.rx, order, used, setup.inStreams, arrival.indices);
    var r := HandleChunks(setup.t0, e.rx, used, setup.inStreams, Carrying(setup.t0, log, arrival.indices));
    if r.violation {
      return order;
    }
    order' := PartialKeeps(log, e.delivered, r.rx, order', r.used, setup.pmdcs);
    Rebase(log, e.delivered, r.rx.(a := DeliverPartially(r.rx.a, r.used, setup.pmdcs)), order');
  }

  lemma {:induction false} RunKeeps(setup: Setup, log: Log, arrivals: seq<Arrival>, states: seq<Endpoint>, j: nat)
    returns (order: seq<int>)
    requires WellCut(log) && ValidStreams(log, setup.inStreams)
    requires IsRun(setup, log, arrivals, states) && j < |states|
    ensures EndpointInv(log, states[j], order)
    decreases j
  {
    if j == 0 {
      NewEndpointInv(log);
      order := [];
    } else {
      hide EndpointInv, WellCut, ValidStreams, Receive;
      order := RunKeeps(setup, log, arrivals, states, j - 1);
      order := PacketKeeps(setup, log, states[j - 1], order, arrivals[j - 1]);
    }
  }

  /** The bytes of the message that begins at `f`, as far as chunk `c`. */
  ghost predicate PrefixOfMessage(log: Log, f: int, bytes: Bytes) {
    exists c :: 0 <= f <= c < |log| && First(log, c) == f && bytes == Body(log, f, c)
  }

  /** `order` names a message of the log for each message the ULP was given: none twice,
      the ordered ones of each stream a prefix of those sent on it in sending order, each
      the whole message except perhaps the last, which is the beginning of one. */
  ghost predicate Explains(log: Log, order: seq<int>, messages: seq<Received>) {
    && |order| == |messages|
    && (forall x :: 0 <= x < |order| ==> Start(log, order[x]) && messages[x].stream == log[order[x]].stream)
    && (forall x, y :: 0 <= x < y < |order| ==> order[x] != order[y])
    && InSendingOrder(log, order)
    && (forall x :: 0 <= x < |order| && messages[x].complete ==> IsMessage(log, order[x], messages[x]))
    && (forall x :: 0 <= x < |order| && !messages[x].complete ==> x == |order| - 1 && PrefixOfMessage(log, order[x], messages[x].bytes))
  }

  /** End-to-end delivery, for every run over a network that loses, duplicates and reorders:
      what was handed up is explained, even by an endpoint that has given up. */
  lemma DeliveryIsCorrect(setup: Setup, log: Log, arrivals: seq<Arrival>, states: seq<Endpoint>, j: nat)
    requires WellCut(log) && ValidStreams(log, setup.inStreams)
    requires IsRun(setup, log, arrivals, states) && j < |states|
    ensures exists order :: Explains(log, order, Messages(states[j].delivered))
  {
    var order := RunKeeps(setup, log, arrivals, states, j);
    Explained(log, states[j], order);
  }

  /** The only way to give up: a receiver finds a violation only in a message half the SSN
      space ahead of its stream. */
  lemma LegibleIsNoViolation(setup: Setup, log: Log, arrivals: seq<Arrival>, states: seq<Endpoint>, j: nat)
    requires WellCut(log) && ValidStreams(log, setup.inStreams)
    requires IsRun(setup, log, arrivals, states) && j < |arrivals|
    requires Possible(setup, log, states[j], arrivals[j]) && Legible(setup, log, states[j], arrivals[j])
    ensures !states[j + 1].aborted
  {
    hide EndpointInv, WellCut, ValidStreams, Receive, Legible;
    var order := RunKeeps(setup, log, arrivals, states, j);
    order := PacketKeeps(setup, log, states[j], order, arrivals[j]);
  }

  lemma Explained(log: Log, e: Endpoint, order: seq<int>)
    requires WellCut(log) && EndpointInv(log, e, order)
    ensures |Messages(e.delivered)| <= |order|
    ensures Explains(log, order[..|Messages(e.delivered)|], Messages(e.delivered))
  {
    hide StreamsTracked, Ordinal, Tally, BufferTracked, Messages;
    var messages := Messages(e.delivered);
    assert e.delivered + [] == e.delivered;
    var shown := order[..|messages|];
    forall id: U16, x | 0 <= x < |shown| && OrderedStart(log, id, shown[x])
      ensures Ordinal(log, id, shown[x]) == Tally(log, shown[..x], id)
    {
      assert shown[..x] == order[..x] && shown[x] == order[x];
    }
    if PartialOpen(e.rx.a) {
      var p := First(log, e.rx.cum);
      assert shown[|messages| - 1] == p && messages[|messages| - 1].bytes == Body(log, p, e.rx.cum);
    }
  }

  /** Once every chunk of a log of whole messages has arrived, every message has gone up. */
  lemma ReceivedGoesUp(setup: Setup, log: Log, arrivals: seq<Arrival>, states: seq<Endpoint>, j: nat)
    requires WellCut(log) && ValidStreams(log, setup.inStreams)
    requires IsRun(setup, log, arrivals, states) && j < |states|
    requires |log| > 0 && log[|log| - 1].ends && states[j].rx.cum == |log| - 1
    ensures forall r <- Messages(states[j].delivered) :: r.complete
    ensures exists order :: Explains(log, order, Messages(states[j].delivered)) && forall f :: Start(log, f) ==> f in order
  {
    var e := states[j];
    var order := RunKeeps(setup, log, arrivals, states, j);
    Explained(log, e, order);
    NothingHeldBack(log, e, order);
    assert order[..|Messages(e.delivered)|] == order;
  }

  lemma NothingHeldBack(log: Log, e: Endpoint, order: seq<int>)
    requires WellCut(log) && EndpointInv(log, e, order)
    requires |log| > 0 && log[|log| - 1].ends && e.rx.cum == |log| - 1
    ensures |Messages(e.delivered)| == |order|
    ensures forall r <- Messages(e.delivered) :: r.complete
    ensures forall f :: Start(log, f) ==> f in order
  {
    assert e.delivered + [] == e.delivered;
    forall f | Start(log, f)
      ensures f in order
    {
      AllUp(log, e, order, f);
    }
  }

  lemma AllUp(log: Log, e: Endpoint, order: seq<int>, f: int)
    requires WellCut(log) && EndpointInv(log, e, order) && Start(log, f)
    requires log[|log| - 1].ends && e.rx.cum == |log| - 1
    ensures f in order
  {
    hide HistoryTracked, MessageTracked, Messages, Body, Tally, Ordinal, Settled, WellCut;
    var rx := e.rx;
    EndsSomewhere(log, f);
    assert f in Done(log, rx.cum, rx.ooo);
    if !log[f].unordered {
      var id := log[f].stream;
      var n := Tally(log, order, id);
      assert StreamTracked(log, id, StreamOf(rx.a.streams, id), order, n, Done(log, rx.cum, rx.ooo), PartialStart(log, rx.cum, rx.a.message));
      assert OrderedStart(log, id, f);
      assert f in order <==> Ordinal(log, id, f) < n;
      CountsAll(log, e, order, id);
      OrdinalMonotone(log, id, f, |log|);
    }
  }

  /** No stream waits for a message that was sent. */
  lemma CountsAll(log: Log, e: Endpoint, order: seq<int>, id: U16)
    requires EndpointInv(log, e, order) && |log| > 0
    requires log[|log| - 1].ends && e.rx.cum == |log| - 1
    ensures Ordinal(log, id, |log|) <= Tally(log, order, id)
  {
    hide Tracked, MessageTracked, Tally, Ordinal, Settled, BufferTracked;
    var n := Tally(log, order, id);
    if n < Ordinal(log, id, |log|) {
      var g := OrdinalWitness(log, id, |log|, n);
      NextIsNotDone(log, e.delivered, e.rx, order, id, g);
      EndsSomewhere(log, g);
      assert false;
    }
  }

  lemma {:induction false} EndsSomewhere(log: Log, f: int)
    requires 0 <= f < |log| && log[|log| - 1].ends
    ensures End(log, f) < |log|
    decreases |log| - f
  {
    if !log[f].ends {
      EndsSomewhere(log, f + 1);
    }
  }
}
