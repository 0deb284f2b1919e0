/** What the ULP at one end queued and what the ULP at the other end is given, over every
    run of sender, network and receiver: the messages themselves, with chunks, TSNs and
    SSNs out of sight. */
module MessageDelivery {
  import opened Serial
  import opened ReceiveSpec
  import opened MessageLog
  import opened Tracking
  import opened Cutting
  import opened Tiling
  import opened SendSpec
  import opened Transmission
  import opened NoStuckChunk
  import opened NoLoss
  import opened Reliability
  import E = EndToEnd

  predicate OrderedOn(messages: seq<Outbound>, id: U16, m: int) {
    0 <= m < |messages| && !messages[m].unordered && messages[m].stream == id
  }

  /** How many of the messages named by `from` are ordered ones of stream `id`. */
  function Given(messages: seq<Outbound>, from: seq<int>, id: U16): nat {
    if from == [] then 0
    else Given(messages, from[..|from| - 1], id) + (if OrderedOn(messages, id, from[|from| - 1]) then 1 else 0)
  }

  /** The k-th ordered message given of a stream is the k-th queued on it. */
  ghost predicate InQueueOrder(messages: seq<Outbound>, from: seq<int>) {
    forall id: U16, x :: 0 <= x < |from| && OrderedOn(messages, id, from[x]) ==>
      Queued(messages, id, from[x]) == Given(messages, from[..x], id)
  }

  /** `received[x]` is the queued message `from[x]`: none twice, on its stream, whole, save
      that the last may be the beginning of one; and ordered messages in their order. */
  ghost predicate Delivers(messages: seq<Outbound>, from: seq<int>, received: seq<Received>) {
    && |from| == |received|
    && (forall x :: 0 <= x < |from| ==> 0 <= from[x] < |messages| && received[x].stream == messages[from[x]].stream)
    && (forall x, y :: 0 <= x < y < |from| ==> from[x] != from[y])
    && InQueueOrder(messages, from)
    && (forall x :: 0 <= x < |from| && received[x].complete ==> received[x].bytes == messages[from[x]].bytes)
    && (forall x :: 0 <= x < |from| && !received[x].complete ==> x == |from| - 1 && received[x].bytes <= messages[from[x]].bytes)
  }

  // ----- From places in the log to messages -----

  /** Which message begins at `f`. */
  ghost function Position(starts: seq<int>, f: int): (m: int)
    requires f in starts
    ensures 0 <= m < |starts| && starts[m] == f
  {
    var m :| 0 <= m < |starts| && starts[m] == f;
    m
  }

  ghost function Positions(starts: seq<int>, order: seq<int>): (from: seq<int>)
    requires forall f <- order :: f in starts
    ensures |from| == |order|
    ensures forall x :: 0 <= x < |order| ==> 0 <= from[x] < |starts| && starts[from[x]] == order[x]
  {
    seq(|order|, x requires 0 <= x < |order| => Position(starts, order[x]))
  }

  lemma {:induction false} BodyPrefix(log: Log, f: int, c: int, e: int)
    requires 0 <= f && c <= e < |log|
    ensures Body(log, f, c) <= Body(log, f, e)
    decreases e - c
  {
    if c < e {
      BodyPrefix(log, f, c, e - 1);
    }
  }

  /** The message still being cut has no end in the log. */
  lemma OpenIsNotWhole(messages: seq<Outbound>, log: Log, outbound: seq<Outbound>, starts: seq<int>, m: int)
    requires Tiled(messages, log, outbound, starts) && Finished(messages, outbound) <= m < |starts|
    ensures !Whole(log, starts[m])
    ensures Body(log, starts[m], |log| - 1) <= messages[m].bytes
  {
    hide Ordinal, Queued, Body, Message, First, End, WellCut, WellQueued;
    var last := |log| - 1;
    FirstOfMessage(log, last);
    EndOfMessage(log, starts[m]);
    assert outbound[0].(offset := 0) == messages[m];
  }

  lemma WholeMessage(messages: seq<Outbound>, log: Log, outbound: seq<Outbound>, starts: seq<int>, m: int)
    requires Tiled(messages, log, outbound, starts) && 0 <= m < |starts| && Whole(log, starts[m])
    ensures m < |messages| && Message(log, starts[m]) == messages[m].bytes
  {
    if m >= Finished(messages, outbound) {
      hide Tiled, Message;
      OpenIsNotWhole(messages, log, outbound, starts, m);
    }
  }

  lemma PartOfMessage(messages: seq<Outbound>, log: Log, outbound: seq<Outbound>, starts: seq<int>, m: int, bytes: Bytes)
    requires Tiled(messages, log, outbound, starts) && 0 <= m < |starts| && E.PrefixOfMessage(log, starts[m], bytes)
    ensures m < |messages| && bytes <= messages[m].bytes
  {
    hide Ordinal, Queued, Body, First, End, WellCut, WellQueued, Stands;
    var f := starts[m];
    var c :| 0 <= f <= c < |log| && First(log, c) == f && bytes == Body(log, f, c);
    if m < Finished(messages, outbound) {
      FirstOfMessage(log, c);
      EndOfMessage(log, f);
      BodyPrefix(log, f, c, End(log, f));
    } else {
      OpenIsNotWhole(messages, log, outbound, starts, m);
      BodyPrefix(log, f, c, |log| - 1);
    }
  }

  lemma SameMessage(messages: seq<Outbound>, log: Log, outbound: seq<Outbound>, starts: seq<int>, m: int, id: U16)
    requires Tiled(messages, log, outbound, starts) && 0 <= m < |starts|
    ensures m < |messages| && messages[m].stream == log[starts[m]].stream
    ensures OrderedStart(log, id, starts[m]) <==> OrderedOn(messages, id, m)
    ensures OrderedOn(messages, id, m) ==> Ordinal(log, id, starts[m]) == Queued(messages, id, m)
  {
    hide Ordinal, Queued, Body, First, End, WellCut, WellQueued, Stands, Message, Whole;
    assert Heads(log, starts[m], messages[m]);
  }

  lemma {:induction false} TallyIsGiven(messages: seq<Outbound>, log: Log, outbound: seq<Outbound>, starts: seq<int>, order: seq<int>, from: seq<int>, id: U16)
    requires Tiled(messages, log, outbound, starts)
    requires |from| == |order| && forall x :: 0 <= x < |order| ==> 0 <= from[x] < |starts| && starts[from[x]] == order[x]
    ensures Tally(log, order, id) == Given(messages, from, id)
    decreases |order|
  {
    hide Tiled, OrderedStart, OrderedOn;
    if order != [] {
      var n := |order| - 1;
      SameMessage(messages, log, outbound, starts, from[n], id);
      TallyIsGiven(messages, log, outbound, starts, order[..n], from[..n], id);
    }
  }

  lemma OrderCarries(messages: seq<Outbound>, log: Log, outbound: seq<Outbound>, starts: seq<int>, order: seq<int>, from: seq<int>)
    requires Tiled(messages, log, outbound, starts) && InSendingOrder(log, order)
    requires |from| == |order| && forall x :: 0 <= x < |order| ==> 0 <= from[x] < |starts| && starts[from[x]] == order[x]
    ensures InQueueOrder(messages, from)
  {
    hide Tiled, Tally, Ordinal, Queued, Given, OrderedStart;
    forall id: U16, x | 0 <= x < |from| && OrderedOn(messages, id, from[x])
      ensures Queued(messages, id, from[x]) == Given(messages, from[..x], id)
    {
      SameMessage(messages, log, outbound, starts, from[x], id);
      TallyIsGiven(messages, log, outbound, starts, order[..x], from[..x], id);
    }
  }

  /** What explains the deliveries by chunks explains them by messages. */
  lemma ExplainedByMessages(messages: seq<Outbound>, log: Log, outbound: seq<Outbound>, starts: seq<int>, order: seq<int>, received: seq<Received>)
    requires Tiled(messages, log, outbound, starts) && E.Explains(log, order, received)
    ensures forall f <- order :: f in starts
    ensures Delivers(messages, Positions(starts, order), received)
  {
    assert forall f <- order :: f in starts by {
      hide WellCut, WellQueued, Stands;
    }
    hide Tiled, IsMessage, E.PrefixOfMessage, InSendingOrder, InQueueOrder;
    var from := Positions(starts, order);
    OrderCarries(messages, log, outbound, starts, order, from);
    forall x | 0 <= x < |from|
      ensures 0 <= from[x] < |messages| && received[x].stream == messages[from[x]].stream
      ensures received[x].complete ==> received[x].bytes == messages[from[x]].bytes
      ensures !received[x].complete ==> received[x].bytes <= messages[from[x]].bytes
    {
      SameMessage(messages, log, outbound, starts, from[x], received[x].stream);
      if received[x].complete {
        assert IsMessage(log, order[x], received[x]);
        WholeReceived(messages, log, outbound, starts, from[x], received[x]);
      } else {
        PartOfMessage(messages, log, outbound, starts, from[x], received[x].bytes);
      }
    }
  }

  lemma WholeReceived(messages: seq<Outbound>, log: Log, outbound: seq<Outbound>, starts: seq<int>, m: int, r: Received)
    requires Tiled(messages, log, outbound, starts) && 0 <= m < |starts| && IsMessage(log, starts[m], r)
    ensures m < |messages| && r.bytes == messages[m].bytes
  {
    hide Tiled;
    WholeMessage(messages, log, outbound, starts, m);
  }

  lemma NothingSent(order: seq<int>, received: seq<Received>)
    requires E.Explains([], order, received)
    ensures order == [] && received == []
  {
    assert order != [] ==> Start([], order[0]);
  }

  /** With nothing left to cut, the log ends with a message and holds them all. */
  lemma AllCut(messages: seq<Outbound>, log: Log, starts: seq<int>)
    requires Tiled(messages, log, [], starts)
    ensures |starts| == |messages| && (log == [] || log[|log| - 1].ends)
    ensures forall f <- starts :: Start(log, f)
    ensures forall m, n :: 0 <= m < n < |starts| ==> starts[m] < starts[n]
  {
    hide WellCut, WellQueued, Ordinal, Queued, Message, Whole;
    forall f <- starts
      ensures Start(log, f)
    {
      var m :| 0 <= m < |starts| && starts[m] == f;
      assert Heads(log, starts[m], messages[m]);
    }
  }

  lemma AllNamed(starts: seq<int>, order: seq<int>, from: seq<int>)
    requires forall m, n :: 0 <= m < n < |starts| ==> starts[m] < starts[n]
    requires forall f <- starts :: f in order
    requires |from| == |order| && forall x :: 0 <= x < |order| ==> 0 <= from[x] < |starts| && starts[from[x]] == order[x]
    ensures forall m :: 0 <= m < |starts| ==> m in from
  {
    forall m | 0 <= m < |starts|
      ensures m in from
    {
      assert starts[m] in starts;
      var x :| 0 <= x < |order| && order[x] == starts[m];
      var n := from[x];
      assert starts[n] == starts[m];
    }
  }

  function UpTo(n: nat): (r: set<int>)
    ensures |r| == n && forall m: int :: m in r <==> 0 <= m < n
  {
    if n == 0 then {} else UpTo(n - 1) + {n - 1}
  }

  lemma {:induction false} DistinctCount(from: seq<int>)
    requires forall x, y :: 0 <= x < y < |from| ==> from[x] != from[y]
    ensures |set m | m in from| == |from|
    decreases |from|
  {
    if from != [] {
      var n := |from| - 1;
      DistinctCount(from[..n]);
      assert (set m | m in from) == (set m | m in from[..n]) + {from[n]};
    }
  }

  lemma EveryOneOnce(messages: seq<Outbound>, from: seq<int>, received: seq<Received>)
    requires Delivers(messages, from, received) && forall m :: 0 <= m < |messages| ==> m in from
    ensures |received| == |messages|
  {
    hide InQueueOrder;
    DistinctCount(from);
    assert UpTo(|messages|) == (set m | m in from);
  }

  // ----- Every run -----

  /** End-to-end delivery: in every reachable state, what the receiving ULP has been given
      is what the sending ULP queued, whatever the network and either end's buffers did. */
  lemma MessagesArrive(setup: E.Setup, steps: seq<WorldStep>, worlds: seq<World>, j: nat) returns (from: seq<int>)
    requires IsWorldRun(setup, steps, worlds) && j < |worlds|
    ensures Delivers(worlds[j].messages, from, Messages(worlds[j].delivered))
  {
    hide E.Explains, Delivers, WellCut, E.ValidStreams, IsWorldRun, Messages;
    var w := worlds[j];
    EveryRunKeeps(setup, steps, worlds, j);
    InvIsWellCut(setup, w);
    RunStreams(setup, steps, worlds, j);
    var starts := StartsOf(setup, w);
    hide WorldInv;
    var arrivals, states := Project(setup, steps, worlds, j, w.log);
    E.DeliveryIsCorrect(setup, w.log, arrivals, states, |states| - 1);
    var order :| E.Explains(w.log, order, Messages(w.delivered));
    ExplainedByMessages(w.messages, w.log, w.tx.outbound, starts, order, Messages(w.delivered));
    from := Positions(starts, order);
  }

  lemma StartsOf(setup: E.Setup, w: World) returns (starts: seq<int>)
    requires WorldInv(setup, w)
    ensures Tiled(w.messages, w.log, w.tx.outbound, starts)
  {
    hide Accounted, Quiet, NoneStuck, Below, Reports, Tiled, Unsplit;
    starts :| Tiled(w.messages, w.log, w.tx.outbound, starts) && Unsplit(w.tx.pmdcs, w.messages, w.log, starts);
  }

  /** Once shutdown is under way at both ends, every message queued has been delivered. */
  lemma ShutdownDeliversAll(setup: E.Setup, steps: seq<WorldStep>, worlds: seq<World>, j: nat) returns (from: seq<int>)
    requires IsWorldRun(setup, steps, worlds) && j < |worlds|
    requires worlds[j].tx.state.ShutdownSent? || worlds[j].tx.state.ShutdownAckSent?
    ensures Delivers(worlds[j].messages, from, Messages(worlds[j].delivered))
    ensures |Messages(worlds[j].delivered)| == |worlds[j].messages|
    ensures forall r <- Messages(worlds[j].delivered) :: r.complete
    ensures forall m :: 0 <= m < |worlds[j].messages| ==> m in from
  {
    hide E.Explains, Delivers, WellCut, E.ValidStreams, IsWorldRun, Messages;
    var w := worlds[j];
    EveryRunKeeps(setup, steps, worlds, j);
    InvIsWellCut(setup, w);
    RunStreams(setup, steps, worlds, j);
    ShutdownIsQuiet(setup, w);
    var starts := StartsOf(setup, w);
    hide WorldInv;
    AllCut(w.messages, w.log, starts);
    var arrivals, states := Project(setup, steps, worlds, j, w.log);
    var order: seq<int>;
    if w.log == [] {
      E.DeliveryIsCorrect(setup, w.log, arrivals, states, |states| - 1);
      order :| E.Explains(w.log, order, Messages(w.delivered));
      NothingSent(order, Messages(w.delivered));
    } else {
      E.ReceivedGoesUp(setup, w.log, arrivals, states, |states| - 1);
      order :| E.Explains(w.log, order, Messages(w.delivered)) && forall f :: Start(w.log, f) ==> f in order;
    }
    ExplainedByMessages(w.messages, w.log, [], starts, order, Messages(w.delivered));
    from := Positions(starts, order);
    AllNamed(starts, order, from);
    EveryOneOnce(w.messages, from, Messages(w.delivered));
  }
}
