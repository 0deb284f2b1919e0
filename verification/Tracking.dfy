/** What has gone up to the ULP, told by one ghost sequence, `order`: the messages handed
    up so far, each named by the index of the chunk that begins it, in the order they
    went up. The lemmas follow it through the ordering half of the receive path. */
module Tracking {
  import opened Serial
  import opened ReceiveSpec
  import opened MessageLog

  // ----- What the ULP has been given -----

  /** A message as the ULP sees it; only the last can be waiting for more. */
  datatype Received = Received(stream: U16, bytes: Bytes, complete: bool)

  function Glue(messages: seq<Received>, d: Delivery): seq<Received> {
    if messages != [] && !messages[|messages| - 1].complete then
      var open := messages[|messages| - 1];
      messages[|messages| - 1 := Received(open.stream, open.bytes + d.bytes, d.complete)]
    else
      messages + [Received(d.stream, d.bytes, d.complete)]
  }

  /** The messages a series of deliveries amounts to. */
  function Messages(deliveries: seq<Delivery>): seq<Received> {
    if deliveries == [] then []
    else Glue(Messages(deliveries[..|deliveries| - 1]), deliveries[|deliveries| - 1])
  }

  lemma MessagesAppend(h: seq<Delivery>, up: seq<Delivery>, d: Delivery)
    ensures Messages(h + (up + [d])) == Glue(Messages(h + up), d)
  {
    var all := h + (up + [d]);
    assert all[..|all| - 1] == h + up;
  }

  // ----- Which messages are complete, and which have gone up -----

  ghost predicate IsDone(log: Log, cum: int, ooo: Reorder, f: int) {
    Whole(log, f) && (End(log, f) <= cum || (End(log, f) in ooo && ooo[End(log, f)].assembled))
  }

  /** The messages all of whose chunks have been consumed or assembled early. */
  ghost function Done(log: Log, cum: int, ooo: Reorder): set<int> {
    set f | 0 <= f < |log| && IsDone(log, cum, ooo, f)
  }

  /** How many ordered messages of stream `id` an order names. */
  function Tally(log: Log, order: seq<int>, id: U16): nat {
    if order == [] then 0
    else Tally(log, order[..|order| - 1], id) + (if OrderedStart(log, id, order[|order| - 1]) then 1 else 0)
  }

  lemma TallyAppend(log: Log, order: seq<int>, f: int, id: U16)
    ensures Tally(log, order + [f], id) == Tally(log, order, id) + (if OrderedStart(log, id, f) then 1 else 0)
  {
    assert (order + [f])[..|order|] == order;
  }

  /** An ordered message of a stream: gone up exactly if it is among the first `n`; if it
      is complete and has not, it waits under its SSN. */
  ghost predicate Placed(log: Log, id: U16, s: InboundStream, order: seq<int>, n: nat, done: set<int>, partial: int, f: int)
    requires OrderedStart(log, id, f)
  {
    var o := Ordinal(log, id, f);
    && (f in order <==> o < n)
    && (f in order ==> f in done || f == partial)
    && (f in done && f !in order ==>
          Whole(log, f) && o - n < HALF_SSN_SPACE && o % SSN_SPACE in s.early && s.early[o % SSN_SPACE] == Message(log, f))
  }

  ghost predicate Waits(log: Log, id: U16, order: seq<int>, done: set<int>, key: U16, f: int) {
    OrderedStart(log, id, f) && f in done && f !in order && Ordinal(log, id, f) % SSN_SPACE == key
  }

  ghost predicate StreamTracked(log: Log, id: U16, s: InboundStream, order: seq<int>, n: nat, done: set<int>, partial: int) {
    && s.nextSsn == n % SSN_SPACE
    && (forall f :: OrderedStart(log, id, f) ==> Placed(log, id, s, order, n, done, partial, f))
    && (forall key <- s.early :: exists f :: Waits(log, id, order, done, key, f))
  }

  /** The k-th ordered message of a stream to go up is the k-th that was sent on it. */
  ghost predicate InSendingOrder(log: Log, order: seq<int>) {
    forall id: U16, x :: 0 <= x < |order| && OrderedStart(log, id, order[x]) ==>
      Ordinal(log, id, order[x]) == Tally(log, order[..x], id)
  }

  /** `order` names messages, none twice, the ordered ones as they were sent, and
      every unordered message that is complete or partially delivered. */
  ghost predicate OrderTracked(log: Log, order: seq<int>, done: set<int>, partial: int) {
    && (forall x :: 0 <= x < |order| ==> Start(log, order[x]))
    && (forall x, y :: 0 <= x < y < |order| ==> order[x] != order[y])
    && (forall f :: Start(log, f) && log[f].unordered ==> (f in order <==> f in done || f == partial))
    && InSendingOrder(log, order)
  }

  ghost predicate IsMessage(log: Log, f: int, r: Received) {
    Whole(log, f) && r == Received(log[f].stream, Message(log, f), true)
  }

  ghost predicate IsHeld(log: Log, f: int, d: Delivery) {
    Whole(log, f) && d == Delivery(Message(log, f), true, log[f].stream)
  }

  /** What the ULP holds are the messages named by `order`, in that order; the last one is
      the open prefix of `partial`, if there is one, and the rest is held behind it. */
  ghost predicate HistoryTracked(log: Log, cum: int, messages: seq<Received>, held: seq<Delivery>, order: seq<int>, partial: int) {
    && |order| == |messages| + |held|
    && (forall x :: |messages| <= x < |order| ==> IsHeld(log, order[x], held[x - |messages|]))
    && (partial == -1 ==>
          held == [] && forall x :: 0 <= x < |messages| ==> IsMessage(log, order[x], messages[x]))
    && (partial != -1 ==>
          && 0 <= partial <= cum < |log|
          && |messages| > 0
          && order[|messages| - 1] == partial
          && messages[|messages| - 1] == Received(log[partial].stream, Body(log, partial, cum), false)
          && forall x :: 0 <= x < |messages| - 1 ==> IsMessage(log, order[x], messages[x]))
  }

  ghost predicate StreamsTracked(log: Log, streams: map<U16, InboundStream>, order: seq<int>, done: set<int>, partial: int) {
    forall id: U16 :: StreamTracked(log, id, StreamOf(streams, id), order, Tally(log, order, id), done, partial)
  }

  ghost predicate Settled(streams: map<U16, InboundStream>, id: U16) {
    StreamOf(streams, id).nextSsn !in StreamOf(streams, id).early
  }

  /** Everything known about an assembly, given which messages are complete. `h` is what
      was handed up before this packet. */
  ghost predicate Tracked(log: Log, cum: int, h: seq<Delivery>, a: Assembly, order: seq<int>, done: set<int>, partial: int) {
    && OrderTracked(log, order, done, partial)
    && StreamsTracked(log, a.streams, order, done, partial)
    && HistoryTracked(log, cum, Messages(h + a.up), a.held, order, partial)
    && (PartialOpen(a) <==> partial != -1)
  }

  // ----- Handing up -----

  lemma HandUpHistory(log: Log, cum: int, h: seq<Delivery>, a: Assembly, order: seq<int>, partial: int, f: int)
    requires Whole(log, f)
    requires HistoryTracked(log, cum, Messages(h + a.up), a.held, order, partial)
    requires PartialOpen(a) <==> partial != -1
    ensures var b := HandUp(a, Delivery(Message(log, f), true, log[f].stream));
            HistoryTracked(log, cum, Messages(h + b.up), b.held, order + [f], partial)
  {
    hide Messages, Body, End;
    MessagesAppend(h, a.up, Delivery(Message(log, f), true, log[f].stream));
  }

  lemma OrderAppend(log: Log, order: seq<int>, done: set<int>, partial: int, f: int)
    requires OrderTracked(log, order, done, partial)
    requires Start(log, f) && f !in order
    requires !log[f].unordered ==> Ordinal(log, log[f].stream, f) == Tally(log, order, log[f].stream)
    ensures OrderTracked(log, order + [f], done + {f}, partial)
  {
    hide Tally, Ordinal;
    var longer := order + [f];
    forall id: U16, x | 0 <= x < |longer| && OrderedStart(log, id, longer[x])
      ensures Ordinal(log, id, longer[x]) == Tally(log, longer[..x], id)
    {
      assert longer[..x] == order[..x];
      assert x == |order| ==> order[..x] == order;
    }
  }

  /** A stream other than the one that a message is added to is not affected. */
  lemma OtherStream(log: Log, id: U16, s: InboundStream, order: seq<int>, n: nat, done: set<int>, partial: int, f: int)
    requires StreamTracked(log, id, s, order, n, done, partial)
    requires !OrderedStart(log, id, f)
    ensures StreamTracked(log, id, s, order + [f], n, done + {f}, partial)
    ensures StreamTracked(log, id, s, order, n, done + {f}, partial)
  {
    forall g | OrderedStart(log, id, g)
      ensures Placed(log, id, s, order + [f], n, done + {f}, partial, g)
      ensures Placed(log, id, s, order, n, done + {f}, partial, g)
    {
      assert Placed(log, id, s, order, n, done, partial, g);
    }
    forall key <- s.early
      ensures exists g :: Waits(log, id, order + [f], done + {f}, key, g)
      ensures exists g :: Waits(log, id, order, done + {f}, key, g)
    {
      var g :| Waits(log, id, order, done, key, g);
      assert Waits(log, id, order + [f], done + {f}, key, g);
      assert Waits(log, id, order, done + {f}, key, g);
    }
  }

  lemma PlacedAfterNext(log: Log, id: U16, s: InboundStream, order: seq<int>, n: nat, done: set<int>, partial: int, f: int, g: int)
    requires OrderedStart(log, id, f) && Ordinal(log, id, f) == n
    requires OrderedStart(log, id, g) && Placed(log, id, s, order, n, done, partial, g)
    requires s.nextSsn == n % SSN_SPACE
    ensures Placed(log, id, InboundStream(Increment(s.nextSsn), s.early - {s.nextSsn}), order + [f], n + 1, done + {f}, partial, g)
  {
    OrdinalDistinguishes(log, id, f, g);
    OrdinalDistinguishes(log, id, g, f);
    var o := Ordinal(log, id, g);
    if g in done && g !in order && g != f {
      SameSsn(o, n);
    }
  }

  /** The next message of a stream goes up: it leaves `early`, if it was there. */
  lemma NextInStream(log: Log, id: U16, s: InboundStream, order: seq<int>, n: nat, done: set<int>, partial: int, f: int)
    requires StreamTracked(log, id, s, order, n, done, partial)
    requires OrderedStart(log, id, f) && Ordinal(log, id, f) == n
    ensures StreamTracked(log, id, InboundStream(Increment(s.nextSsn), s.early - {s.nextSsn}), order + [f], n + 1, done + {f}, partial)
    ensures f !in order
  {
    var t := InboundStream(Increment(s.nextSsn), s.early - {s.nextSsn});
    assert Placed(log, id, s, order, n, done, partial, f);
    forall g | OrderedStart(log, id, g)
      ensures Placed(log, id, t, order + [f], n + 1, done + {f}, partial, g)
      {
      PlacedAfterNext(log, id, s, order, n, done, partial, f, g);
    }
    forall key <- t.early
      ensures exists g :: Waits(log, id, order + [f], done + {f}, key, g)
    {
      var g :| Waits(log, id, order, done, key, g);
      assert Waits(log, id, order + [f], done + {f}, key, g);
    }
  }

  lemma AllStreamsNext(log: Log, streams: map<U16, InboundStream>, order: seq<int>, done: set<int>, partial: int, id: U16, f: int)
    requires StreamsTracked(log, streams, order, done, partial)
    requires OrderedStart(log, id, f) && Ordinal(log, id, f) == Tally(log, order, id)
    ensures var s := StreamOf(streams, id);
            StreamsTracked(log, streams[id := InboundStream(Increment(s.nextSsn), s.early - {s.nextSsn})],
                           order + [f], done + {f}, partial)
    ensures f !in order
  {
    var s := StreamOf(streams, id);
    var streams' := streams[id := InboundStream(Increment(s.nextSsn), s.early - {s.nextSsn})];
    NextInStream(log, id, s, order, Tally(log, order, id), done, partial, f);
    forall other: U16
      ensures StreamTracked(log, other, StreamOf(streams', other), order + [f], Tally(log, order + [f], other), done + {f}, partial)
    {
      TallyAppend(log, order, f, other);
      if other != id {
        OtherStream(log, other, StreamOf(streams, other), order, Tally(log, order, other), done, partial, f);
      }
    }
  }

  /** The early message whose SSN is next is the next message of its stream. */
  lemma EarlyIsNext(log: Log, id: U16, s: InboundStream, order: seq<int>, n: nat, done: set<int>, partial: int) returns (f: int)
    requires StreamTracked(log, id, s, order, n, done, partial)
    requires s.nextSsn in s.early
    ensures OrderedStart(log, id, f) && Ordinal(log, id, f) == n && f in done && f !in order
    ensures Whole(log, f) && s.early[s.nextSsn] == Message(log, f)
  {
    f :| Waits(log, id, order, done, s.nextSsn, f);
    assert Placed(log, id, s, order, n, done, partial, f);
    SameSsn(Ordinal(log, id, f), n);
  }

  lemma SameSsn(o: nat, n: nat)
    requires n <= o < n + SSN_SPACE
    ensures o % SSN_SPACE == n % SSN_SPACE <==> o == n
  {
  }

  /** One early message in turn goes up. */
  lemma DrainStep(log: Log, cum: int, h: seq<Delivery>, a: Assembly, order: seq<int>, done: set<int>, partial: int, id: U16)
    returns (f: int)
    requires Tracked(log, cum, h, a, order, done, partial)
    requires !Settled(a.streams, id)
    ensures var s := StreamOf(a.streams, id);
            Tracked(log, cum, h,
                    HandUp(a, Delivery(s.early[s.nextSsn], true, id)).(streams := a.streams[id := InboundStream(Increment(s.nextSsn), s.early - {s.nextSsn})]),
                    order + [f], done, partial)
  {
    f := EarlyIsNext(log, id, StreamOf(a.streams, id), order, Tally(log, order, id), done, partial);
    assert done + {f} == done;
    AllStreamsNext(log, a.streams, order, done, partial, id, f);
    OrderAppend(log, order, done, partial, f);
    HandUpHistory(log, cum, h, a, order, partial, f);
  }

  lemma {:induction false} DrainKeeps(log: Log, cum: int, h: seq<Delivery>, a: Assembly, order: seq<int>, done: set<int>, partial: int, id: U16)
    returns (order': seq<int>)
    requires Tracked(log, cum, h, a, order, done, partial)
    requires forall other: U16 :: other != id ==> Settled(a.streams, other)
    ensures Tracked(log, cum, h, Drain(a, id), order', done, partial)
    ensures forall other: U16 :: Settled(Drain(a, id).streams, other)
    ensures Drain(a, id).message == a.message
    decreases |StreamOf(a.streams, id).early|
  {
    hide Tracked;
    if Settled(a.streams, id) {
      return order;
    }
    var s := StreamOf(a.streams, id);
    var rest := s.early - {s.nextSsn};
    assert s.early.Keys == rest.Keys + {s.nextSsn};
    assert |s.early.Keys| == |rest.Keys| + 1;
    var f := DrainStep(log, cum, h, a, order, done, partial, id);
    var b := HandUp(a, Delivery(s.early[s.nextSsn], true, id)).(streams := a.streams[id := InboundStream(Increment(s.nextSsn), rest)]);
    assert Drain(a, id) == Drain(b, id);
    forall other: U16 | other != id
      ensures Settled(b.streams, other)
    {
      assert Settled(a.streams, other);
    }
    order' := DrainKeeps(log, cum, h, b, order + [f], done, partial, id);
  }

  // ----- A message that has just become complete -----

  lemma UnorderedGoesUp(log: Log, cum: int, h: seq<Delivery>, a: Assembly, order: seq<int>, done: set<int>, partial: int, f: int)
    requires Tracked(log, cum, h, a, order, done, partial)
    requires Whole(log, f) && log[f].unordered && f !in done && f != partial
    ensures Tracked(log, cum, h, HandUp(a, Delivery(Message(log, f), true, log[f].stream)), order + [f], done + {f}, partial)
  {
    hide Body, End, Messages, Placed;
    HandUpHistory(log, cum, h, a, order, partial, f);
    OrderAppend(log, order, done, partial, f);
    forall id: U16
      ensures StreamTracked(log, id, StreamOf(a.streams, id), order + [f], Tally(log, order + [f], id), done + {f}, partial)
    {
      TallyAppend(log, order, f, id);
      OtherStream(log, id, StreamOf(a.streams, id), order, Tally(log, order, id), done, partial, f);
    }
  }

  /** An ordered message ahead of its turn waits under its SSN, which is free. */
  lemma WaitsItsTurn(log: Log, id: U16, s: InboundStream, order: seq<int>, n: nat, done: set<int>, partial: int, f: int)
    requires StreamTracked(log, id, s, order, n, done, partial)
    requires OrderedStart(log, id, f) && Whole(log, f) && f !in done && f !in order
    requires n < Ordinal(log, id, f) < n + HALF_SSN_SPACE
    ensures var ssn := Ordinal(log, id, f) % SSN_SPACE;
            && ssn != s.nextSsn && SsnGt(ssn, s.nextSsn) && ssn !in s.early
            && StreamTracked(log, id, s.(early := s.early[ssn := Message(log, f)]), order, n, done + {f}, partial)
  {
    hide Body, End;
    var o := Ordinal(log, id, f);
    var ssn := o % SSN_SPACE;
    var t := s.(early := s.early[ssn := Message(log, f)]);
    SsnDistance(o, n);
    forall g | OrderedStart(log, id, g)
      ensures Placed(log, id, t, order, n, done + {f}, partial, g)
      ensures g in done && g !in order ==> Ordinal(log, id, g) % SSN_SPACE != ssn
    {
      assert Placed(log, id, s, order, n, done, partial, g);
      if g in done && g !in order {
        DistinctSsn(log, id, f, g, n);
      }
    }
    assert ssn !in s.early by {
      assert forall g :: !Waits(log, id, order, done, ssn, g);
    }
    forall key <- t.early
      ensures exists g :: Waits(log, id, order, done + {f}, key, g)
    {
      if key == ssn {
        assert Waits(log, id, order, done + {f}, key, f);
      } else {
        var g :| Waits(log, id, order, done, key, g);
        assert Waits(log, id, order, done + {f}, key, g);
      }
    }
  }

  lemma SsnDistance(o: nat, n: nat)
    requires n < o < n + HALF_SSN_SPACE
    ensures o % SSN_SPACE != n % SSN_SPACE && SsnGt(o % SSN_SPACE, n % SSN_SPACE)
  {
  }

  /** A message is taken exactly when fewer than 2^15 of its stream's messages come between
      it and the one in turn: half the space ahead, it reads as an old one. */
  lemma AheadWithinHalf(a: Assembly, id: U16, o: nat, n: nat, bytes: Bytes)
    requires StreamOf(a.streams, id).nextSsn == n % SSN_SPACE && o % SSN_SPACE !in StreamOf(a.streams, id).early
    requires n <= o < n + SSN_SPACE
    ensures OrderMessage(a, id, o % SSN_SPACE, false, bytes).ok <==> o - n < HALF_SSN_SPACE
  {
    hide AdvanceStream;
    var distance := (o % SSN_SPACE - n % SSN_SPACE) % SSN_SPACE;
    assert distance == o - n;
  }

  lemma TooFarAhead(a: Assembly, id: U16, o: nat, n: nat, bytes: Bytes)
    requires StreamOf(a.streams, id).nextSsn == n % SSN_SPACE && n + HALF_SSN_SPACE <= o < n + SSN_SPACE
    ensures !OrderMessage(a, id, o % SSN_SPACE, false, bytes).ok
  {
    hide AdvanceStream;
    var distance := (o % SSN_SPACE - n % SSN_SPACE) % SSN_SPACE;
    assert distance == o - n;
  }

  lemma DistinctSsn(log: Log, id: U16, f: int, g: int, n: nat)
    requires OrderedStart(log, id, f) && OrderedStart(log, id, g) && f != g
    requires n <= Ordinal(log, id, f) < n + HALF_SSN_SPACE && n <= Ordinal(log, id, g) < n + HALF_SSN_SPACE
    ensures Ordinal(log, id, g) % SSN_SPACE != Ordinal(log, id, f) % SSN_SPACE
  {
    OrdinalDistinguishes(log, id, f, g);
    OrdinalDistinguishes(log, id, g, f);
    var o, p := Ordinal(log, id, f), Ordinal(log, id, g);
    if o <= p {
      SameSsn(p, o);
    } else {
      SameSsn(o, p);
    }
  }

  /** `OrderMessage` refuses a message exactly when it is half the SSN space ahead of its
      stream, and otherwise accounts for it. */
  lemma OrderKeeps(log: Log, cum: int, h: seq<Delivery>, a: Assembly, order: seq<int>, done: set<int>, partial: int, f: int)
    returns (order': seq<int>)
    requires WellCut(log)
    requires Tracked(log, cum, h, a, order, done, partial)
    requires forall id: U16 :: Settled(a.streams, id)
    requires Whole(log, f) && f !in done && f != partial
    requires !log[f].unordered ==> Ordinal(log, log[f].stream, f) < Tally(log, order, log[f].stream) + SSN_SPACE
    ensures var o := OrderMessage(a, log[f].stream, log[f].ssn, log[f].unordered, Message(log, f));
            && (o.ok <==> log[f].unordered || Ordinal(log, log[f].stream, f) < Tally(log, order, log[f].stream) + HALF_SSN_SPACE)
            && (o.ok ==> o.a.message == a.message)
            && (o.ok ==> Tracked(log, cum, h, o.a, order', done + {f}, partial))
            && (o.ok ==> forall id: U16 :: Settled(o.a.streams, id))
  {
    var id := log[f].stream;
    var s := StreamOf(a.streams, id);
    if log[f].unordered {
      UnorderedGoesUp(log, cum, h, a, order, done, partial, f);
      return order + [f];
    }
    order' := order;
    var n := Tally(log, order, id);
    assert OrderedStart(log, id, f);
    assert StreamTracked(log, id, s, order, n, done, partial);
    assert Placed(log, id, s, order, n, done, partial, f);
    hide Tracked;
    if Ordinal(log, id, f) == n {
      order' := TurnKeeps(log, cum, h, a, order, done, partial, f);
    } else if Ordinal(log, id, f) < n + HALF_SSN_SPACE {
      EarlyKeeps(log, cum, h, a, order, done, partial, f);
    } else {
      TooFarAhead(a, id, Ordinal(log, id, f), n, Message(log, f));
    }
  }

  lemma EarlyKeeps(log: Log, cum: int, h: seq<Delivery>, a: Assembly, order: seq<int>, done: set<int>, partial: int, f: int)
    requires WellCut(log)
    requires Tracked(log, cum, h, a, order, done, partial)
    requires forall id: U16 :: Settled(a.streams, id)
    requires Whole(log, f) && !log[f].unordered && f !in done && f !in order
    requires Tally(log, order, log[f].stream) < Ordinal(log, log[f].stream, f) < Tally(log, order, log[f].stream) + HALF_SSN_SPACE
    ensures var o := OrderMessage(a, log[f].stream, log[f].ssn, log[f].unordered, Message(log, f));
            && o.ok && o.a.message == a.message
            && Tracked(log, cum, h, o.a, order, done + {f}, partial)
            && forall id: U16 :: Settled(o.a.streams, id)
  {
    hide Body, End, Messages, Placed, HistoryTracked;
    var id := log[f].stream;
    var s := StreamOf(a.streams, id);
    assert OrderedStart(log, id, f);
    WaitsItsTurn(log, id, s, order, Tally(log, order, id), done, partial, f);
    var streams' := a.streams[id := s.(early := s.early[log[f].ssn := Message(log, f)])];
    forall other: U16
      ensures StreamTracked(log, other, StreamOf(streams', other), order, Tally(log, order, other), done + {f}, partial)
      ensures Settled(streams', other)
    {
      assert Settled(a.streams, other);
      if other != id {
        OtherStream(log, other, StreamOf(a.streams, other), order, Tally(log, order, other), done, partial, f);
      }
    }
  }

  lemma TurnKeeps(log: Log, cum: int, h: seq<Delivery>, a: Assembly, order: seq<int>, done: set<int>, partial: int, f: int)
    returns (order': seq<int>)
    requires WellCut(log)
    requires Tracked(log, cum, h, a, order, done, partial)
    requires forall id: U16 :: Settled(a.streams, id)
    requires Whole(log, f) && !log[f].unordered && Ordinal(log, log[f].stream, f) == Tally(log, order, log[f].stream)
    ensures var o := OrderMessage(a, log[f].stream, log[f].ssn, log[f].unordered, Message(log, f));
            && o.ok && o.a.message == a.message
            && Tracked(log, cum, h, o.a, order', done + {f}, partial)
            && forall id: U16 :: Settled(o.a.streams, id)
  {
    hide Body, End, Messages, Placed;
    var id := log[f].stream;
    var s := StreamOf(a.streams, id);
    assert OrderedStart(log, id, f);
    assert StreamTracked(log, id, s, order, Tally(log, order, id), done, partial);
    assert Settled(a.streams, id);
    assert s.early - {s.nextSsn} == s.early;
    AllStreamsNext(log, a.streams, order, done, partial, id, f);
    OrderAppend(log, order, done, partial, f);
    HandUpHistory(log, cum, h, a, order, partial, f);
    var b := HandUp(a, Delivery(Message(log, f), true, id)).(streams := a.streams[id := s.(nextSsn := Increment(s.nextSsn))]);
    forall other: U16 | other != id
      ensures Settled(b.streams, other)
    {
      assert Settled(a.streams, other);
    }
    hide Tracked;
    order' := DrainKeeps(log, cum, h, b, order + [f], done + {f}, partial, id);
  }
}
