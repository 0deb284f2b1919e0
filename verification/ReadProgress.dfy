/** Reading makes progress: a read takes all that fits of the first message waiting, and
    enough reads of any positive sizes give the reader everything that was pushed. */
module ReadProgress {
  import opened Serial
  import opened ReceiveQueue

  function Streams(q: seq<Msg>): seq<U16> {
    seq(|q|, i requires 0 <= i < |q| => q[i].stream)
  }

  /** A read gives the next bytes of the first message, as many as fit, under its stream, and
      says that more is to come exactly if some is left or the message is still arriving. */
  lemma ReadTakesWhatFits(q: seq<Msg>, capacity: nat)
    requires q != [] && WellFormed(q)
    ensures var c, left := ChunkOf(q, capacity), q[0].bytes[q[0].offset..];
            && c.bytes <= left && (|c.bytes| == capacity || c.bytes == left) && |c.bytes| <= capacity
            && c.stream == q[0].stream
            && (c.partial <==> c.bytes != left || !q[0].complete)
            && ReadFrom(q, capacity) == (if c.bytes == left then q[1..] else [q[0].(offset := q[0].offset + |c.bytes|)] + q[1..])
  {
    var m := q[0];
    assert m.bytes[m.offset..][..Take(q, capacity)] == ChunkOf(q, capacity).bytes;
  }

  /** A message keeps the stream it was begun on. */
  lemma StreamIsKept(q: seq<Msg>, bytes: Bytes, complete: bool, stream: U16, capacity: nat)
    requires WellFormed(q)
    ensures Streams(PushTo(q, bytes, complete, stream)) == if q != [] && !q[|q| - 1].complete then Streams(q) else Streams(q) + [stream]
    ensures q != [] ==> Streams(ReadFrom(q, capacity)) == Streams(q) || Streams(ReadFrom(q, capacity)) == Streams(q)[1..]
    ensures Streams(AbandonIn(q)) <= Streams(q)
  {
  }

  function Reads(r: Reader, q: seq<Msg>, capacities: seq<nat>): (s: (Reader, seq<Msg>))
    requires WellFormed(q)
    ensures WellFormed(s.1)
    decreases |capacities|
  {
    if q == [] || capacities == [] then (r, q) else
      ReadWellFormed(q, capacities[0]);
      Reads(ReadOn(r, ChunkOf(q, capacities[0])), ReadFrom(q, capacities[0]), capacities[1..])
  }

  /** How many reads of any positive size are enough: one for each byte and each message. */
  function Enough(q: seq<Msg>): nat
    requires WellFormed(q)
  {
    Unread(q) + |q|
  }

  /** Every read of positive size brings the end nearer. */
  lemma ReadProgresses(q: seq<Msg>, capacity: nat)
    requires q != [] && WellFormed(q) && capacity > 0
    ensures WellFormed(ReadFrom(q, capacity)) && Enough(ReadFrom(q, capacity)) < Enough(q)
  {
    ReadWellFormed(q, capacity);
    ReadTakesWhatFits(q, capacity);
  }

  lemma {:induction false} EnoughReadsDrain(p: Pushed, r: Reader, q: seq<Msg>, capacities: seq<nat>)
    requires Faithful(p, r, q) && |capacities| >= Enough(q) && forall i :: 0 <= i < |capacities| ==> capacities[i] > 0
    ensures var s := Reads(r, q, capacities); s.1 == [] && Faithful(p, s.0, s.1)
    decreases |capacities|
  {
    hide Faithful, Enough;
    FaithfulIsWellFormed(p, r, q);
    NothingEnough(q);
    if q != [] {
      ReadProgresses(q, capacities[0]);
      ReadKeeps(p, r, q, capacities[0]);
      EnoughReadsDrain(p, ReadOn(r, ChunkOf(q, capacities[0])), ReadFrom(q, capacities[0]), capacities[1..]);
    }
  }

  lemma FaithfulIsWellFormed(p: Pushed, r: Reader, q: seq<Msg>)
    requires Faithful(p, r, q)
    ensures WellFormed(q)
  {
  }

  lemma NothingEnough(q: seq<Msg>)
    requires WellFormed(q)
    ensures Enough(q) == 0 ==> q == []
  {
  }

  /** Enough reads give the reader every message pushed, whole and in order, and of the one
      still arriving all that has been pushed. */
  lemma EnoughReadsGiveAll(p: Pushed, r: Reader, q: seq<Msg>, capacities: seq<nat>)
    requires Faithful(p, r, q) && |capacities| >= Enough(q) && forall i :: 0 <= i < |capacities| ==> capacities[i] > 0
    ensures var reader := Reads(r, q, capacities).0;
            reader.whole == p.finished && reader.part == (if p.open.Some? then p.open.value else [])
  {
    EnoughReadsDrain(p, r, q, capacities);
    var reader := Reads(r, q, capacities).0;
    hide Reads;
    ReadInOrder(p, reader, []);
    if reader.amid {
      var held, pushed := Complete(reader.whole) + [Entry(reader.part, false)], AsPushed(p);
      assert held == pushed && |held| == |reader.whole| + 1 && |pushed| == |p.finished| + 1;
      assert held[|reader.whole|] == pushed[|p.finished|];
    }
  }
}
