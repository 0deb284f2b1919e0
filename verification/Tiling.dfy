/** The cutter tiles: over any series of queueing and cutting, the chunks it produces are
    the queued messages one after another, each in fragments that concatenate to it, so
    that what goes on the wire is a well-cut log. */
module Tiling {
  import opened Serial
  import opened ReceiveSpec
  import opened MessageLog
  import opened Cutting

  // ----- Logs only grow at the end -----

  lemma {:induction false} OrdinalOfPrefix(log: Log, more: Log, id: U16, i: int)
    requires i <= |log|
    ensures Ordinal(log + more, id, i) == Ordinal(log, id, i)
    decreases i
  {
    if i > 0 {
      OrdinalOfPrefix(log, more, id, i - 1);
    }
  }

  lemma {:induction false} FirstOfPrefix(log: Log, more: Log, i: int)
    requires 0 <= i < |log|
    ensures First(log + more, i) == First(log, i)
    decreases i
  {
    if i > 0 && !log[i].begins {
      FirstOfPrefix(log, more, i - 1);
    }
  }

  lemma {:induction false} EndOfPrefix(log: Log, more: Log, i: int)
    requires 0 <= i < |log| && End(log, i) < |log|
    ensures End(log + more, i) == End(log, i)
    decreases |log| - i
  {
    if !log[i].ends {
      EndOfPrefix(log, more, i + 1);
    }
  }

  lemma {:induction false} BodyOfPrefix(log: Log, more: Log, f: int, e: int)
    requires 0 <= f && e < |log|
    ensures Body(log + more, f, e) == Body(log, f, e)
    decreases e - f
  {
    if f <= e {
      BodyOfPrefix(log, more, f, e - 1);
    }
  }

  // ----- Messages queued -----

  /** How many of the first `m` queued messages are ordered ones of stream `id`. */
  function Queued(queue: seq<Outbound>, id: U16, m: nat): nat
    requires m <= |queue|
  {
    if m == 0 then 0 else Queued(queue, id, m - 1) + (if !queue[m - 1].unordered && queue[m - 1].stream == id then 1 else 0)
  }

  lemma {:induction false} QueuedOfPrefix(queue: seq<Outbound>, more: seq<Outbound>, id: U16, m: nat)
    requires m <= |queue|
    ensures Queued(queue + more, id, m) == Queued(queue, id, m)
  {
    if m > 0 {
      QueuedOfPrefix(queue, more, id, m - 1);
    }
  }

  /** Every message queued is whole and its SSN counts those before it on its stream. */
  ghost predicate WellQueued(queue: seq<Outbound>) {
    && (forall m :: 0 <= m < |queue| ==> queue[m].offset == 0 && queue[m].bytes != [])
    && (forall m :: 0 <= m < |queue| && !queue[m].unordered ==> queue[m].ssn == Queued(queue, queue[m].stream, m) % SSN_SPACE)
  }

  /** How many messages have been cut entirely, and how many at all. */
  function Finished(queue: seq<Outbound>, outbound: seq<Outbound>): int {
    |queue| - |outbound|
  }

  function Begun(queue: seq<Outbound>, outbound: seq<Outbound>): int {
    Finished(queue, outbound) + (if outbound != [] && outbound[0].offset > 0 then 1 else 0)
  }

  /** What remains to be cut is the end of what was queued. */
  ghost predicate Remains(queue: seq<Outbound>, outbound: seq<Outbound>) {
    && ValidQueue(outbound) && |outbound| <= |queue|
    && forall j :: 0 <= j < |outbound| ==> outbound[j].(offset := 0) == queue[Finished(queue, outbound) + j]
  }

  predicate Heads(log: Log, f: int, m: Outbound) {
    Start(log, f) && log[f].stream == m.stream && log[f].ssn == m.ssn && log[f].unordered == m.unordered
  }

  /** `starts[m]` is where message `m` begins in the log. */
  ghost predicate Placed(queue: seq<Outbound>, log: Log, outbound: seq<Outbound>, starts: seq<int>)
    requires Remains(queue, outbound)
  {
    && |starts| == Begun(queue, outbound)
    && (forall m :: 0 <= m < |starts| ==> Heads(log, starts[m], queue[m]))
    && (forall m, n :: 0 <= m < n < |starts| ==> starts[m] < starts[n])
    && (forall f :: Start(log, f) ==> f in starts)
    && (forall m :: 0 <= m < Finished(queue, outbound) ==> Whole(log, starts[m]) && Message(log, starts[m]) == queue[m].bytes)
    && (forall m :: 0 <= m < |starts| && !queue[m].unordered ==> Ordinal(log, queue[m].stream, starts[m]) == Queued(queue, queue[m].stream, m))
    && (forall id: U16 :: Ordinal(log, id, |log|) == Queued(queue, id, |starts|))
  }

  /** Where the last chunk leaves the log: at the end of a message, or inside the head. */
  ghost predicate Stands(log: Log, outbound: seq<Outbound>, starts: seq<int>) {
    if outbound != [] && outbound[0].offset > 0 then
      && log != [] && !log[|log| - 1].ends && starts != [] && starts[|starts| - 1] == First(log, |log| - 1) >= 0
      && outbound[0].offset <= |outbound[0].bytes|
      && Body(log, First(log, |log| - 1), |log| - 1) == outbound[0].bytes[..outbound[0].offset]
    else
      log == [] || log[|log| - 1].ends
  }

  ghost predicate Tiled(queue: seq<Outbound>, log: Log, outbound: seq<Outbound>, starts: seq<int>) {
    && WellQueued(queue) && WellCut(log)
    && Remains(queue, outbound)
    && Placed(queue, log, outbound, starts)
    && Stands(log, outbound, starts)
  }

  lemma NothingTiled()
    ensures Tiled([], [], [], [])
  {
  }

  lemma WellQueuedExtends(queue: seq<Outbound>, m: Outbound)
    requires WellQueued(queue)
    requires m.offset == 0 && m.bytes != [] && (!m.unordered ==> m.ssn == Queued(queue, m.stream, |queue|) % SSN_SPACE)
    ensures WellQueued(queue + [m])
  {
    hide Queued;
    forall n | 0 <= n <= |queue| && !(queue + [m])[n].unordered
      ensures (queue + [m])[n].ssn == Queued(queue + [m], (queue + [m])[n].stream, n) % SSN_SPACE
    {
      QueuedOfPrefix(queue, [m], (queue + [m])[n].stream, n);
    }
  }

  lemma PlacedExtends(queue: seq<Outbound>, log: Log, outbound: seq<Outbound>, starts: seq<int>, m: Outbound)
    requires Remains(queue, outbound) && Remains(queue + [m], outbound + [m]) && m.offset == 0
    requires Placed(queue, log, outbound, starts)
    ensures Placed(queue + [m], log, outbound + [m], starts)
  {
    hide Ordinal, Message, Whole, Queued, Start;
    forall id: U16
      ensures Ordinal(log, id, |log|) == Queued(queue + [m], id, |starts|)
    {
      QueuedOfPrefix(queue, [m], id, |starts|);
    }
    forall n | 0 <= n < |starts| && !queue[n].unordered
      ensures Ordinal(log, queue[n].stream, starts[n]) == Queued(queue + [m], queue[n].stream, n)
    {
      QueuedOfPrefix(queue, [m], queue[n].stream, n);
    }
  }

  /** Queueing a message leaves the log alone. */
  lemma QueueKeepsTiled(queue: seq<Outbound>, log: Log, outbound: seq<Outbound>, starts: seq<int>, m: Outbound)
    requires Tiled(queue, log, outbound, starts)
    requires m.offset == 0 && m.bytes != [] && (!m.unordered ==> m.ssn == Queued(queue, m.stream, |queue|) % SSN_SPACE)
    ensures Tiled(queue + [m], log, outbound + [m], starts)
  {
    hide WellCut, WellQueued, Placed, Body, First;
    WellQueuedExtends(queue, m);
    PlacedExtends(queue, log, outbound, starts, m);
  }

  // ----- One more chunk -----

  lemma WellCutAppend(log: Log, x: Fragment)
    requires WellCut(log) && x.bytes != []
    requires if log == [] then x.begins else x.begins == log[|log| - 1].ends
    requires !x.begins ==> log != [] && x.stream == log[|log| - 1].stream && x.unordered == log[|log| - 1].unordered && x.ssn == log[|log| - 1].ssn
    requires x.begins && !x.unordered ==> x.ssn == Ordinal(log, x.stream, |log|) % SSN_SPACE
    ensures WellCut(log + [x])
  {
    hide Ordinal;
    var longer := log + [x];
    forall i | 0 < i < |longer|
      ensures longer[i].begins <==> longer[i - 1].ends
      ensures !longer[i].begins ==>
                longer[i].stream == longer[i - 1].stream && longer[i].unordered == longer[i - 1].unordered && longer[i].ssn == longer[i - 1].ssn
    {
      if i < |log| {
        assert longer[i] == log[i] && longer[i - 1] == log[i - 1];
      }
    }
    forall id: U16, i | OrderedStart(longer, id, i)
      ensures longer[i].ssn == Ordinal(longer, id, i) % SSN_SPACE
    {
      OrdinalOfPrefix(log, [x], id, i);
      if i < |log| {
        assert OrderedStart(log, id, i);
      }
    }
  }

  /** The next fragment begins a message whose turn it is, or continues the open one. */
  lemma NextFits(queue: seq<Outbound>, log: Log, outbound: seq<Outbound>, starts: seq<int>)
    requires Tiled(queue, log, outbound, starts) && outbound != []
    ensures var m := outbound[0];
            && (m.offset == 0 <==> log == [] || log[|log| - 1].ends)
            && (m.offset > 0 ==> m.stream == log[|log| - 1].stream && m.unordered == log[|log| - 1].unordered && m.ssn == log[|log| - 1].ssn)
            && (m.offset == 0 && !m.unordered ==> m.ssn == Ordinal(log, m.stream, |log|) % SSN_SPACE)
  {
    hide Body, Message, Whole, End, Ordinal, Queued, First, WellCut;
    var k := Finished(queue, outbound);
    assert outbound[0].(offset := 0) == queue[k];
    if outbound[0].offset > 0 {
      FirstOfMessage(log, |log| - 1);
      assert Heads(log, starts[k], queue[k]);
    }
  }

  lemma WellCutExtends(queue: seq<Outbound>, log: Log, outbound: seq<Outbound>, starts: seq<int>, take: nat)
    requires Tiled(queue, log, outbound, starts)
    requires outbound != [] && 0 < take <= |outbound[0].bytes| - outbound[0].offset
    ensures WellCut(log + [NextFragment(outbound[0], take)])
  {
    hide Placed, WellCut, WellQueued, Remains, Stands;
    NextFits(queue, log, outbound, starts);
    WellCutAppend(log, NextFragment(outbound[0], take));
  }

  /** `starts` once the head has been cut further. */
  function StartsAfter(log: Log, m: Outbound, starts: seq<int>): seq<int> {
    if m.offset == 0 then starts + [|log|] else starts
  }

  lemma RemainsAfter(queue: seq<Outbound>, outbound: seq<Outbound>, take: nat)
    requires Remains(queue, outbound)
    requires outbound != [] && 0 < take <= |outbound[0].bytes| - outbound[0].offset
    ensures var rest := Advance(outbound, take);
            && Remains(queue, rest)
            && Begun(queue, rest) == Finished(queue, outbound) + 1
  {
    var rest := Advance(outbound, take);
    AdvanceLeaves(outbound, take);
    var gone := |outbound| - |rest|;
    hide ValidQueue, BytesLeft;
    forall j | 0 <= j < |rest|
      ensures rest[j].(offset := 0) == queue[Finished(queue, rest) + j]
    {
      assert rest[j].(offset := 0) == outbound[gone + j].(offset := 0);
    }
  }

  lemma AppendedFirst(log: Log, x: Fragment)
    ensures First(log + [x], |log|) == if x.begins || log == [] then |log| else First(log, |log| - 1)
  {
    if log != [] {
      FirstOfPrefix(log, [x], |log| - 1);
    }
  }

  lemma AppendedBody(log: Log, x: Fragment, f: int)
    requires 0 <= f <= |log|
    ensures Body(log + [x], f, |log|) == (if f < |log| then Body(log, f, |log| - 1) else []) + x.bytes
  {
    BodyOfPrefix(log, [x], f, |log| - 1);
  }

  /** The open message gains the bytes of the fragment, and is whole once it ends. */
  lemma StandsAfter(queue: seq<Outbound>, log: Log, outbound: seq<Outbound>, starts: seq<int>, take: nat)
    requires Tiled(queue, log, outbound, starts)
    requires outbound != [] && 0 < take <= |outbound[0].bytes| - outbound[0].offset
    ensures var x := NextFragment(outbound[0], take);
            var starts' := StartsAfter(log, outbound[0], starts);
            && Stands(log + [x], Advance(outbound, take), starts')
            && starts' != [] && starts'[|starts'| - 1] == First(log + [x], |log|) >= 0
            && (x.ends ==> Whole(log + [x], First(log + [x], |log|)) && Message(log + [x], First(log + [x], |log|)) == outbound[0].bytes)
  {
    hide Placed, WellQueued, WellCut, First, Body, End;
    var m := outbound[0];
    var x := NextFragment(m, take);
    var longer := log + [x];
    assert longer[|log|] == x;
    WellCutExtends(queue, log, outbound, starts, take);
    NextFits(queue, log, outbound, starts);
    AppendedFirst(log, x);
    var f := First(longer, |log|);
    if log != [] {
      FirstOfMessage(log, |log| - 1);
    }
    AppendedBody(log, x, f);
    assert Body(longer, f, |log|) == m.bytes[..m.offset + take] by {
      assert m.bytes[..m.offset + take] == m.bytes[..m.offset] + m.bytes[m.offset..m.offset + take];
    }
    hide Remains;
    if x.ends {
      EndOfFirst(longer, |log|);
      assert m.bytes[..|m.bytes|] == m.bytes;
    }
  }

  lemma MessageOfPrefix(log: Log, x: Fragment, f: int)
    requires Whole(log, f)
    ensures Whole(log + [x], f) && Message(log + [x], f) == Message(log, f)
  {
    EndOfPrefix(log, [x], f);
    EndOfMessage(log, f);
    BodyOfPrefix(log, [x], f, End(log, f));
  }

  lemma OrdinalsAfter(queue: seq<Outbound>, log: Log, outbound: seq<Outbound>, starts: seq<int>, take: nat, id: U16)
    requires Tiled(queue, log, outbound, starts)
    requires outbound != [] && 0 < take <= |outbound[0].bytes| - outbound[0].offset
    ensures Ordinal(log + [NextFragment(outbound[0], take)], id, |log| + 1) == Queued(queue, id, Finished(queue, outbound) + 1)
    ensures outbound[0].offset == 0 ==> Ordinal(log, id, |log|) == Queued(queue, id, Finished(queue, outbound))
  {
    hide WellCut, WellQueued, Stands, Message, Whole;
    OrdinalOfPrefix(log, [NextFragment(outbound[0], take)], id, |log|);
    assert outbound[0].(offset := 0) == queue[Finished(queue, outbound)];
  }

  lemma HeadsAfter(queue: seq<Outbound>, log: Log, outbound: seq<Outbound>, starts: seq<int>, take: nat)
    requires Tiled(queue, log, outbound, starts)
    requires outbound != [] && 0 < take <= |outbound[0].bytes| - outbound[0].offset
    ensures var longer := log + [NextFragment(outbound[0], take)];
            var starts' := StartsAfter(log, outbound[0], starts);
            && |starts'| == Finished(queue, outbound) + 1
            && (forall m :: 0 <= m < |starts'| ==> Heads(longer, starts'[m], queue[m]))
            && (forall m, n :: 0 <= m < n < |starts'| ==> starts'[m] < starts'[n])
            && (forall f :: Start(longer, f) ==> f in starts')
  {
    hide WellCut, WellQueued, Stands, Message, Whole, Ordinal, Queued;
    var longer := log + [NextFragment(outbound[0], take)];
    var starts' := StartsAfter(log, outbound[0], starts);
    assert outbound[0].(offset := 0) == queue[Finished(queue, outbound)];
    forall m | 0 <= m < |starts'|
      ensures Heads(longer, starts'[m], queue[m])
    {
      assert m < |starts| ==> Heads(log, starts[m], queue[m]);
    }
    forall f | Start(longer, f)
      ensures f in starts'
    {
      if f < |log| {
        assert Start(log, f);
      }
    }
  }

  lemma PlacesAfter(queue: seq<Outbound>, log: Log, outbound: seq<Outbound>, starts: seq<int>, take: nat, m: int)
    requires Tiled(queue, log, outbound, starts)
    requires outbound != [] && 0 < take <= |outbound[0].bytes| - outbound[0].offset
    requires 0 <= m <= Finished(queue, outbound) < |queue| && m < |StartsAfter(log, outbound[0], starts)| && !queue[m].unordered
    ensures var longer := log + [NextFragment(outbound[0], take)];
            Ordinal(longer, queue[m].stream, StartsAfter(log, outbound[0], starts)[m]) == Queued(queue, queue[m].stream, m)
  {
    hide WellCut, WellQueued, Stands, Message, Whole, Ordinal, Queued;
    var id := queue[m].stream;
    var x := NextFragment(outbound[0], take);
    OrdinalsAfter(queue, log, outbound, starts, take, id);
    if m < |starts| {
      assert Heads(log, starts[m], queue[m]);
      OrdinalOfPrefix(log, [x], id, starts[m]);
    } else {
      OrdinalOfPrefix(log, [x], id, |log|);
    }
  }

  lemma WholesAfter(queue: seq<Outbound>, log: Log, outbound: seq<Outbound>, starts: seq<int>, take: nat, m: int)
    requires Tiled(queue, log, outbound, starts)
    requires outbound != [] && 0 < take <= |outbound[0].bytes| - outbound[0].offset
    requires 0 <= m < Finished(queue, Advance(outbound, take)) && m < |queue|
    ensures var longer := log + [NextFragment(outbound[0], take)];
            var starts' := StartsAfter(log, outbound[0], starts);
            m < |starts'| && Whole(longer, starts'[m]) && Message(longer, starts'[m]) == queue[m].bytes
  {
    hide WellCut, WellQueued, Stands, Message, Whole, Ordinal, Queued, First, Body, Heads, Start;
    var k := Finished(queue, outbound);
    if m < k {
      MessageOfPrefix(log, NextFragment(outbound[0], take), starts[m]);
    } else {
      assert outbound[0].(offset := 0) == queue[k];
      StandsAfter(queue, log, outbound, starts, take);
    }
  }

  lemma PlacedAfter(queue: seq<Outbound>, log: Log, outbound: seq<Outbound>, starts: seq<int>, take: nat)
    requires Tiled(queue, log, outbound, starts)
    requires outbound != [] && 0 < take <= |outbound[0].bytes| - outbound[0].offset
    ensures Remains(queue, Advance(outbound, take))
    ensures Placed(queue, log + [NextFragment(outbound[0], take)], Advance(outbound, take), StartsAfter(log, outbound[0], starts))
  {
    hide Tiled, Message, Whole, Ordinal, Queued, Heads, Start, Advance, NextFragment, Remains, StartsAfter;
    var longer := log + [NextFragment(outbound[0], take)];
    var starts' := StartsAfter(log, outbound[0], starts);
    TiledRemains(queue, log, outbound, starts);
    RemainsAfter(queue, outbound, take);
    HeadsAfter(queue, log, outbound, starts, take);
    forall m | 0 <= m < |starts'| && !queue[m].unordered
      ensures Ordinal(longer, queue[m].stream, starts'[m]) == Queued(queue, queue[m].stream, m)
    {
      PlacesAfter(queue, log, outbound, starts, take, m);
    }
    forall m | 0 <= m < Finished(queue, Advance(outbound, take))
      ensures Whole(longer, starts'[m]) && Message(longer, starts'[m]) == queue[m].bytes
    {
      WholesAfter(queue, log, outbound, starts, take, m);
    }
    forall id: U16
      ensures Ordinal(longer, id, |longer|) == Queued(queue, id, |starts'|)
    {
      OrdinalsAfter(queue, log, outbound, starts, take, id);
    }
  }

  lemma TiledRemains(queue: seq<Outbound>, log: Log, outbound: seq<Outbound>, starts: seq<int>)
    requires Tiled(queue, log, outbound, starts)
    ensures Remains(queue, outbound) && |outbound| <= |queue|
  {
    hide WellCut, WellQueued, Stands, Placed;
  }

  /** Cutting one chunk more keeps the log a tiling of the queued messages. */
  lemma CutOneKeepsTiled(queue: seq<Outbound>, log: Log, outbound: seq<Outbound>, starts: seq<int>, take: nat)
    requires Tiled(queue, log, outbound, starts)
    requires outbound != [] && 0 < take <= |outbound[0].bytes| - outbound[0].offset
    ensures Tiled(queue, log + [NextFragment(outbound[0], take)], Advance(outbound, take), StartsAfter(log, outbound[0], starts))
  {
    hide WellCut, WellQueued, Stands, Placed, Remains;
    WellCutExtends(queue, log, outbound, starts, take);
    PlacedAfter(queue, log, outbound, starts, take);
    StandsAfter(queue, log, outbound, starts, take);
  }

  /** A message that fits one packet is never split: the chunk that begins it ends it. */
  ghost predicate Unsplit(pmdcs: nat, queue: seq<Outbound>, log: Log, starts: seq<int>)
    requires pmdcs >= 20
  {
    forall m :: 0 <= m < |starts| && m < |queue| && |queue[m].bytes| <= FullFragment(pmdcs) ==>
      0 <= starts[m] < |log| && log[starts[m]].ends
  }

  lemma CutOneKeepsUnsplit(limits: Limits, queue: seq<Outbound>, log: Log, outbound: seq<Outbound>, starts: seq<int>, packetBytes: nat, first: bool)
    requires limits.pmdcs >= 20 && packetBytes <= limits.pmdcs
    requires Tiled(queue, log, outbound, starts) && Unsplit(limits.pmdcs, queue, log, starts)
    requires outbound != [] && Take(limits, outbound[0], packetBytes, first) > 0
    ensures var take := Take(limits, outbound[0], packetBytes, first);
            && 0 < take <= |outbound[0].bytes| - outbound[0].offset
            && Unsplit(limits.pmdcs, queue, log + [NextFragment(outbound[0], take)], StartsAfter(log, outbound[0], starts))
  {
    hide WellCut, WellQueued, Stands, Message, Whole, Ordinal, Queued, Take, FullFragment, WireSize, Start;
    TakeFits(limits, outbound[0], packetBytes, first);
    var take := Take(limits, outbound[0], packetBytes, first);
    var k := Finished(queue, outbound);
    assert outbound[0].(offset := 0) == queue[k];
    var longer := log + [NextFragment(outbound[0], take)];
    var starts' := StartsAfter(log, outbound[0], starts);
    forall m | 0 <= m < |starts'| && m < |queue| && |queue[m].bytes| <= FullFragment(limits.pmdcs)
      ensures 0 <= starts'[m] < |longer| && longer[starts'[m]].ends
    {
      if m < |starts| {
        assert longer[starts[m]] == log[starts[m]];
      } else {
        assert m == k && starts'[m] == |log|;
      }
    }
  }

  /** Cutting a whole packet keeps both. */
  lemma {:induction false} CutKeepsTiled(limits: Limits, queue: seq<Outbound>, log: Log, outbound: seq<Outbound>, starts: seq<int>, packetBytes: nat, first: bool)
    returns (starts': seq<int>)
    requires limits.pmdcs >= 20 && packetBytes <= limits.pmdcs && ValidQueue(outbound)
    requires Tiled(queue, log, outbound, starts) && Unsplit(limits.pmdcs, queue, log, starts)
    ensures var r := CutFrom(limits, outbound, packetBytes, first);
            Tiled(queue, log + r.fragments, r.outbound, starts') && Unsplit(limits.pmdcs, queue, log + r.fragments, starts')
    decreases BytesLeft(outbound)
  {
    hide Tiled, Unsplit, Take, WireSize, Advance;
    starts' := starts;
    assert log + [] == log;
    if outbound != [] {
      var take := Take(limits, outbound[0], packetBytes, first);
      if take > 0 {
        TakeFits(limits, outbound[0], packetBytes, first);
        AdvanceLeaves(outbound, take);
        CutOneKeepsTiled(queue, log, outbound, starts, take);
        CutOneKeepsUnsplit(limits, queue, log, outbound, starts, packetBytes, first);
        var x := NextFragment(outbound[0], take);
        starts' := StartsAfter(log, outbound[0], starts);
        if !(limits.probe && first) {
          var more := CutFrom(limits, Advance(outbound, take), packetBytes + WireSize(take), false);
          starts' := CutKeepsTiled(limits, queue, log + [x], Advance(outbound, take), starts', packetBytes + WireSize(take), false);
          assert log + [x] + more.fragments == log + ([x] + more.fragments);
        }
      }
    }
  }
}
