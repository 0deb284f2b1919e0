/** Messages delivered and not yet read (src/receive_queue.cpp). The class keeps, per
    association, the messages waiting and their byte counts, and the order in which
    associations are served. What a reader puts together from its reads is the log of
    messages pushed, whatever buffer sizes it uses. */
module ReceiveQueue {
  import opened Serial

  type Key = nat

  type Bytes = seq<Byte>

  datatype Option<T> = None | Some(value: T)

  /** A message, of which the bytes before `offset` have been read. */
  datatype Msg = Msg(bytes: Bytes, offset: nat, complete: bool, stream: U16)

  /** One read: its bytes, and whether more of the message remains. */
  datatype Chunk = Chunk(bytes: Bytes, partial: bool, stream: U16)

  // ----- One association's queue -----

  /** Only the last message may still be arriving, and only the first be part-read. */
  predicate WellFormed(q: seq<Msg>) {
    forall i :: 0 <= i < |q| ==>
      q[i].offset <= |q[i].bytes| && (i < |q| - 1 ==> q[i].complete) && (i > 0 ==> q[i].offset == 0)
  }

  function Unread(q: seq<Msg>): nat
    requires WellFormed(q)
  {
    if q == [] then 0 else |q[0].bytes| - q[0].offset + Unread(q[1..])
  }

  function PushTo(q: seq<Msg>, bytes: Bytes, complete: bool, stream: U16): seq<Msg> {
    if q != [] && !q[|q| - 1].complete then
      var tail := q[|q| - 1];
      q[|q| - 1 := tail.(bytes := tail.bytes + bytes, complete := complete)]
    else q + [Msg(bytes, 0, complete, stream)]
  }

  function Take(q: seq<Msg>, capacity: nat): nat
    requires q != [] && WellFormed(q)
  {
    var left := |q[0].bytes| - q[0].offset;
    if capacity < left then capacity else left
  }

  function ChunkOf(q: seq<Msg>, capacity: nat): Chunk
    requires q != [] && WellFormed(q)
  {
    var count := Take(q, capacity);
    Chunk(q[0].bytes[q[0].offset..q[0].offset + count], q[0].offset + count < |q[0].bytes| || !q[0].complete, q[0].stream)
  }

  function ReadFrom(q: seq<Msg>, capacity: nat): seq<Msg>
    requires q != [] && WellFormed(q)
  {
    var front := q[0].(offset := q[0].offset + Take(q, capacity));
    if front.offset == |front.bytes| then q[1..] else [front] + q[1..]
  }

  function AbandonIn(q: seq<Msg>): seq<Msg> {
    if q == [] || q[|q| - 1].complete then q else q[..|q| - 1]
  }

  // ----- The log of messages -----

  /** What was pushed: the messages that are complete, and the one still arriving. */
  datatype Pushed = Pushed(finished: seq<Bytes>, open: Option<Bytes>)

  function PushLog(p: Pushed, bytes: Bytes, complete: bool): Pushed {
    var message := if p.open.Some? then p.open.value + bytes else bytes;
    if complete then Pushed(p.finished + [message], None) else Pushed(p.finished, Some(message))
  }

  /** An abandoned message is taken out of the log. */
  function AbandonLog(p: Pushed): Pushed {
    p.(open := None)
  }

  /** What a reader has put together: whole messages, split where `partial` is false, and
      the bytes since. `amid` says that the last read was partial. */
  datatype Reader = Reader(whole: seq<Bytes>, part: Bytes, amid: bool)

  function ReadOn(r: Reader, c: Chunk): Reader {
    if c.partial then Reader(r.whole, r.part + c.bytes, true) else Reader(r.whole + [r.part + c.bytes], [], false)
  }

  datatype Entry = Entry(bytes: Bytes, complete: bool)

  function Waiting(q: seq<Msg>): seq<Entry>
    requires WellFormed(q)
  {
    if q == [] then [] else [Entry(q[0].bytes[q[0].offset..], q[0].complete)] + Waiting(q[1..])
  }

  function Complete(whole: seq<Bytes>): seq<Entry> {
    seq(|whole|, i requires 0 <= i < |whole| => Entry(whole[i], true))
  }

  /** All messages as reader and queue hold them together. */
  function Held(r: Reader, q: seq<Msg>): seq<Entry>
    requires WellFormed(q)
  {
    if !r.amid then Complete(r.whole) + Waiting(q)
    else if q == [] then Complete(r.whole) + [Entry(r.part, false)]
    else Complete(r.whole) + [Entry(r.part + q[0].bytes[q[0].offset..], q[0].complete)] + Waiting(q[1..])
  }

  function AsPushed(p: Pushed): seq<Entry> {
    Complete(p.finished) + (if p.open.Some? then [Entry(p.open.value, false)] else [])
  }

  /** Reader and queue together hold what was pushed. */
  ghost predicate Faithful(p: Pushed, r: Reader, q: seq<Msg>) {
    && WellFormed(q)
    && (!r.amid ==> r.part == [] && (q != [] ==> q[0].offset == 0))
    && (r.amid && q == [] ==> p.open.Some?)
    && Held(r, q) == AsPushed(p)
  }

  /** Adding a piece to the messages held. */
  function Glue(entries: seq<Entry>, bytes: Bytes, complete: bool): seq<Entry> {
    if entries != [] && !entries[|entries| - 1].complete then
      entries[|entries| - 1 := Entry(entries[|entries| - 1].bytes + bytes, complete)]
    else entries + [Entry(bytes, complete)]
  }

  lemma GlueAfter(head: seq<Entry>, tail: seq<Entry>, bytes: Bytes, complete: bool)
    requires tail != []
    ensures Glue(head + tail, bytes, complete) == head + Glue(tail, bytes, complete)
  {
  }

  lemma GlueBehindWhole(head: seq<Entry>, bytes: Bytes, complete: bool)
    requires head != [] ==> head[|head| - 1].complete
    ensures Glue(head, bytes, complete) == head + [Entry(bytes, complete)]
  {
  }

  lemma PushWellFormed(q: seq<Msg>, bytes: Bytes, complete: bool, stream: U16)
    requires WellFormed(q)
    ensures WellFormed(PushTo(q, bytes, complete, stream))
    ensures Unread(PushTo(q, bytes, complete, stream)) == Unread(q) + |bytes|
    ensures Waiting(PushTo(q, bytes, complete, stream)) == Glue(Waiting(q), bytes, complete)
    decreases |q|
  {
    var more := PushTo(q, bytes, complete, stream);
    if |q| > 1 {
      PushWellFormed(q[1..], bytes, complete, stream);
      assert more[1..] == PushTo(q[1..], bytes, complete, stream);
      WaitingSome(q[1..]);
      GlueAfter([Entry(q[0].bytes[q[0].offset..], q[0].complete)], Waiting(q[1..]), bytes, complete);
    } else if |q| == 1 {
      PushOntoOne(q[0], bytes, complete, stream);
      assert q == [q[0]];
    }
  }

  lemma WaitingSome(q: seq<Msg>)
    requires WellFormed(q) && q != []
    ensures Waiting(q) != []
  {
  }

  lemma PushOntoOne(m: Msg, bytes: Bytes, complete: bool, stream: U16)
    requires m.offset <= |m.bytes|
    ensures var q := [m];
            && WellFormed(PushTo(q, bytes, complete, stream))
            && Unread(PushTo(q, bytes, complete, stream)) == Unread(q) + |bytes|
            && Waiting(PushTo(q, bytes, complete, stream)) == Glue(Waiting(q), bytes, complete)
  {
    var q := PushTo([m], bytes, complete, stream);
    assert q[1..] == if m.complete then [Msg(bytes, 0, complete, stream)] else [];
    if !m.complete {
      assert q[0].bytes[m.offset..] == m.bytes[m.offset..] + bytes;
    } else {
      assert q[1..][1..] == [];
      assert bytes[0..] == bytes;
    }
  }

  lemma PushHeld(r: Reader, q: seq<Msg>, bytes: Bytes, complete: bool, stream: U16)
    requires WellFormed(q)
    ensures WellFormed(PushTo(q, bytes, complete, stream))
    ensures Held(r, PushTo(q, bytes, complete, stream)) == Glue(Held(r, q), bytes, complete)
  {
    hide WellFormed, Waiting, Glue, Complete;
    var more := PushTo(q, bytes, complete, stream);
    PushWellFormed(q, bytes, complete, stream);
    WholesComplete(r);
    if q == [] {
      assert more == [Msg(bytes, 0, complete, stream)];
      FirstPushed(r, bytes, complete, stream);
    } else if !r.amid {
      WaitingSome(q);
      GlueAfter(Complete(r.whole), Waiting(q), bytes, complete);
    } else {
      PushAmid(r, q, bytes, complete, stream);
    }
  }

  lemma WholesComplete(r: Reader)
    ensures Complete(r.whole) != [] ==> Complete(r.whole)[|Complete(r.whole)| - 1].complete
  {
  }

  lemma FirstPushed(r: Reader, bytes: Bytes, complete: bool, stream: U16)
    ensures WellFormed([]) && WellFormed([Msg(bytes, 0, complete, stream)])
    ensures Held(r, [Msg(bytes, 0, complete, stream)]) == Glue(Held(r, []), bytes, complete)
  {
    hide Complete;
    WholesComplete(r);
    var q := [Msg(bytes, 0, complete, stream)];
    assert q[1..] == [] && bytes[0..] == bytes;
    if r.amid {
      GlueAfter(Complete(r.whole), [Entry(r.part, false)], bytes, complete);
    } else {
      assert Complete(r.whole) + [] == Complete(r.whole);
      GlueBehindWhole(Complete(r.whole), bytes, complete);
    }
  }

  /** The reader is inside the first message waiting. */
  lemma PushAmid(r: Reader, q: seq<Msg>, bytes: Bytes, complete: bool, stream: U16)
    requires r.amid && q != [] && WellFormed(q)
    ensures WellFormed(PushTo(q, bytes, complete, stream))
    ensures Held(r, PushTo(q, bytes, complete, stream)) == Glue(Held(r, q), bytes, complete)
  {
    hide Complete;
    var more := PushTo(q, bytes, complete, stream);
    PushWellFormed(q, bytes, complete, stream);
    var first := Entry(r.part + q[0].bytes[q[0].offset..], q[0].complete);
    if |q| == 1 {
      assert q[1..] == [];
      assert Held(r, q) == Complete(r.whole) + [first];
      GlueAfter(Complete(r.whole), [first], bytes, complete);
      if q[0].complete {
        assert more[1..] == [Msg(bytes, 0, complete, stream)];
        assert more[1..][1..] == [] && bytes[0..] == bytes;
      } else {
        assert more[1..] == [];
        assert r.part + more[0].bytes[q[0].offset..] == r.part + q[0].bytes[q[0].offset..] + bytes;
      }
    } else {
      assert more[1..] == PushTo(q[1..], bytes, complete, stream);
      PushWellFormed(q[1..], bytes, complete, stream);
      WaitingSome(q[1..]);
      GlueAfter(Complete(r.whole) + [first], Waiting(q[1..]), bytes, complete);
    }
  }

  lemma PushLogged(p: Pushed, bytes: Bytes, complete: bool)
    ensures AsPushed(PushLog(p, bytes, complete)) == Glue(AsPushed(p), bytes, complete)
  {
  }

  /** A push adds the same piece to what is held and to the log. */
  lemma PushKeeps(p: Pushed, r: Reader, q: seq<Msg>, bytes: Bytes, complete: bool, stream: U16)
    requires Faithful(p, r, q)
    ensures Faithful(PushLog(p, bytes, complete), r, PushTo(q, bytes, complete, stream))
  {
    hide Held, AsPushed, Glue;
    PushHeld(r, q, bytes, complete, stream);
    PushLogged(p, bytes, complete);
  }

  /** A read moves bytes from the queue to the reader and changes nothing else. */
  lemma ReadKeeps(p: Pushed, r: Reader, q: seq<Msg>, capacity: nat)
    requires Faithful(p, r, q) && q != []
    ensures Faithful(p, ReadOn(r, ChunkOf(q, capacity)), ReadFrom(q, capacity))
    ensures Unread(ReadFrom(q, capacity)) == Unread(q) - |ChunkOf(q, capacity).bytes|
  {
    ReadWellFormed(q, capacity);
    ReadHeld(r, q, capacity);
    OpenAtEnd(p, r, q);
  }

  lemma ReadWellFormed(q: seq<Msg>, capacity: nat)
    requires WellFormed(q) && q != []
    ensures WellFormed(ReadFrom(q, capacity))
    ensures Unread(ReadFrom(q, capacity)) == Unread(q) - |ChunkOf(q, capacity).bytes|
  {
    var count := Take(q, capacity);
    if q[0].offset + count < |q[0].bytes| {
      assert ReadFrom(q, capacity)[1..] == q[1..];
    }
  }

  lemma CompleteMore(whole: seq<Bytes>, message: Bytes)
    ensures Complete(whole + [message]) == Complete(whole) + [Entry(message, true)]
  {
  }

  /** The reader is inside, or at the beginning of, the first message waiting. */
  lemma HeldSplit(r: Reader, q: seq<Msg>)
    requires WellFormed(q) && q != [] && (!r.amid ==> r.part == [])
    ensures Held(r, q) == Complete(r.whole) + [Entry(r.part + q[0].bytes[q[0].offset..], q[0].complete)] + Waiting(q[1..])
  {
    hide Complete;
    if !r.amid {
      assert r.part + q[0].bytes[q[0].offset..] == q[0].bytes[q[0].offset..];
    }
  }

  lemma ReadHeld(r: Reader, q: seq<Msg>, capacity: nat)
    requires WellFormed(q) && q != [] && (!r.amid ==> r.part == [] && q[0].offset == 0)
    ensures WellFormed(ReadFrom(q, capacity))
    ensures Held(ReadOn(r, ChunkOf(q, capacity)), ReadFrom(q, capacity)) == Held(r, q)
  {
    ReadWellFormed(q, capacity);
    HeldSplit(r, q);
    var m := q[0];
    var count := Take(q, capacity);
    var c := ChunkOf(q, capacity);
    assert r.part + m.bytes[m.offset..] == (r.part + c.bytes) + m.bytes[m.offset + count..];
    if m.offset + count < |m.bytes| {
      hide Complete, Held, Waiting;
      assert ReadFrom(q, capacity)[1..] == q[1..];
      HeldSplit(ReadOn(r, c), ReadFrom(q, capacity));
    } else {
      ReadToEnd(r, q, capacity);
    }
  }

  lemma ReadToEnd(r: Reader, q: seq<Msg>, capacity: nat)
    requires WellFormed(q) && q != [] && (!r.amid ==> r.part == []) && WellFormed(q[1..])
    requires q[0].offset + Take(q, capacity) == |q[0].bytes|
    ensures Held(ReadOn(r, ChunkOf(q, capacity)), q[1..]) == Held(r, q)
  {
    hide Complete;
    HeldSplit(r, q);
    var message := r.part + q[0].bytes[q[0].offset..];
    assert message == r.part + ChunkOf(q, capacity).bytes;
    if q[0].complete {
      CompleteMore(r.whole, message);
    } else {
      assert q[1..] == [];
    }
  }

  /** If the last message waiting is still arriving, so is the last one pushed. */
  lemma OpenAtEnd(p: Pushed, r: Reader, q: seq<Msg>)
    requires Faithful(p, r, q) && q != []
    ensures p.open.Some? <==> !q[|q| - 1].complete
  {
    LastWaiting(q);
    var held := Held(r, q);
    assert |q| == 1 ==> q[1..] == [];
    if |q| > 1 {
      LastWaiting(q[1..]);
    }
    assert held[|held| - 1].complete == q[|q| - 1].complete;
    assert AsPushed(p)[|held| - 1].complete == p.open.None?;
  }

  lemma {:induction false} LastWaiting(q: seq<Msg>)
    requires WellFormed(q) && q != []
    ensures |Waiting(q)| == |q| && Waiting(q)[|q| - 1].complete == q[|q| - 1].complete
  {
    if |q| > 1 {
      LastWaiting(q[1..]);
    } else {
      assert q[1..] == [];
    }
  }

  /** The reader has had the beginning of the message still arriving. */
  predicate PartRead(p: Pushed, r: Reader, q: seq<Msg>) {
    r.amid && p.open.Some? && |q| <= 1
  }

  lemma {:induction false} AbandonWaiting(q: seq<Msg>)
    requires WellFormed(q) && q != [] && !q[|q| - 1].complete
    ensures WellFormed(AbandonIn(q))
    ensures |Waiting(q)| == |q| && Waiting(AbandonIn(q)) == Waiting(q)[..|q| - 1]
    ensures Unread(q) == Unread(AbandonIn(q)) + |q[|q| - 1].bytes| - q[|q| - 1].offset
    decreases |q|
  {
    if |q| > 1 {
      AbandonWaiting(q[1..]);
      assert q[..|q| - 1][1..] == q[1..][..|q| - 2];
      assert AbandonIn(q)[1..] == AbandonIn(q[1..]);
    } else {
      assert q[1..] == [];
    }
  }

  lemma AbandonHeld(r: Reader, q: seq<Msg>)
    requires WellFormed(q) && q != [] && !q[|q| - 1].complete && (r.amid ==> |q| > 1)
    ensures WellFormed(AbandonIn(q)) && Held(r, q) != []
    ensures Held(r, AbandonIn(q)) == Held(r, q)[..|Held(r, q)| - 1]
  {
    hide Complete;
    AbandonWaiting(q);
    if r.amid {
      AbandonWaiting(q[1..]);
      assert AbandonIn(q)[1..] == AbandonIn(q[1..]);
    }
  }

  /** Abandoning the message still arriving takes it out of the log and out of the queue,
      exactly when the reader has not had the beginning of it. */
  lemma AbandonKeeps(p: Pushed, r: Reader, q: seq<Msg>)
    requires Faithful(p, r, q)
    ensures Faithful(AbandonLog(p), r, AbandonIn(q)) <==> !PartRead(p, r, q)
  {
    if q != [] {
      OpenAtEnd(p, r, q);
    }
    if PartRead(p, r, q) {
      assert AbandonIn(q) == [];
      AllComplete(p.finished);
      var held := Complete(r.whole) + [Entry(r.part, false)];
      assert !held[|held| - 1].complete;
    } else if p.open.Some? {
      if !r.amid {
        OpenIsWaiting(p, r, q);
      }
      AbandonHeld(r, q);
      assert AsPushed(AbandonLog(p)) == AsPushed(p)[..|AsPushed(p)| - 1];
    }
  }

  /** What is still arriving is waiting, unless the reader has had all there is of it. */
  lemma OpenIsWaiting(p: Pushed, r: Reader, q: seq<Msg>)
    requires Faithful(p, r, q) && !r.amid
    ensures q == [] ==> p.open.None?
  {
    OpenShows(p);
    AllComplete(r.whole);
    assert q == [] ==> Held(r, q) == Complete(r.whole);
  }

  lemma OpenShows(p: Pushed)
    ensures (forall e <- AsPushed(p) :: e.complete) <==> p.open.None?
  {
    AllComplete(p.finished);
    if p.open.Some? {
      assert AsPushed(p)[|p.finished|] == Entry(p.open.value, false);
    }
  }

  lemma AllComplete(whole: seq<Bytes>)
    ensures forall e <- Complete(whole) :: e.complete
  {
  }

  /** What has been read whole is the beginning of what was pushed, and all of it once
      nothing is waiting. */
  lemma ReadInOrder(p: Pushed, r: Reader, q: seq<Msg>)
    requires Faithful(p, r, q)
    ensures r.whole <= p.finished
    ensures q == [] && !r.amid ==> r.whole == p.finished && p.open.None?
  {
    var held, pushed := Held(r, q), AsPushed(p);
    assert |r.whole| <= |held|;
    forall i | 0 <= i < |r.whole|
      ensures i < |p.finished| && r.whole[i] == p.finished[i]
    {
      assert held[i] == Entry(r.whole[i], true);
      assert pushed[i].complete;
    }
    if q == [] && !r.amid {
      assert held == Complete(r.whole);
      OpenIsWaiting(p, r, q);
    }
  }

  datatype Op =
    | Push(bytes: Bytes, complete: bool, stream: U16)
    | Read(capacity: nat)
    | Abandon

  datatype KeyState = KeyState(pushed: Pushed, reader: Reader, q: seq<Msg>)

  const NEW_KEY := KeyState(Pushed([], None), Reader([], [], false), [])

  ghost predicate Does(s: KeyState, op: Op, s': KeyState) {
    match op
    case Push(bytes, complete, stream) => s' == KeyState(PushLog(s.pushed, bytes, complete), s.reader, PushTo(s.q, bytes, complete, stream))
    case Read(capacity) =>
      && s.q != [] && WellFormed(s.q)
      && s' == s.(reader := ReadOn(s.reader, ChunkOf(s.q, capacity)), q := ReadFrom(s.q, capacity))
    case Abandon => s' == s.(pushed := AbandonLog(s.pushed), q := AbandonIn(s.q))
  }

  ghost predicate IsRun(ops: seq<Op>, states: seq<KeyState>) {
    && |states| == |ops| + 1 && states[0] == NEW_KEY
    && forall j :: 0 <= j < |ops| ==> Does(states[j], ops[j], states[j + 1])
  }

  ghost predicate NoneTornOff(ops: seq<Op>, states: seq<KeyState>)
    requires |states| == |ops| + 1
  {
    forall j :: 0 <= j < |ops| && ops[j].Abandon? ==> !PartRead(states[j].pushed, states[j].reader, states[j].q)
  }

  /** Whatever the sizes of the reads, they give the messages pushed, in order, whole. */
  lemma {:induction false} ReadsGiveTheLog(ops: seq<Op>, states: seq<KeyState>, j: nat)
    requires IsRun(ops, states) && NoneTornOff(ops, states) && j < |states|
    ensures var s := states[j];
            && Faithful(s.pushed, s.reader, s.q)
            && s.reader.whole <= s.pushed.finished
            && (s.q == [] && !s.reader.amid ==> s.reader.whole == s.pushed.finished)
    decreases j
  {
    hide PartRead, Faithful;
    if j == 0 {
      NewIsFaithful();
    } else {
      ReadsGiveTheLog(ops, states, j - 1);
      var s, s' := states[j - 1], states[j];
      assert Does(s, ops[j - 1], s');
      match ops[j - 1] {
        case Push(bytes, complete, stream) => PushKeeps(s.pushed, s.reader, s.q, bytes, complete, stream);
        case Read(capacity) => ReadKeeps(s.pushed, s.reader, s.q, capacity);
        case Abandon => AbandonKeeps(s.pushed, s.reader, s.q);
      }
    }
    ReadInOrder(states[j].pushed, states[j].reader, states[j].q);
  }

  lemma NewIsFaithful()
    ensures Faithful(NEW_KEY.pushed, NEW_KEY.reader, NEW_KEY.q)
  {
  }

  /** A message abandoned after its beginning was read: what comes next is read as its
      continuation, since no read of it was ever marked the last. */
  lemma TornMessageIsGlued() returns (states: seq<KeyState>)
    ensures var ops := [Push([1, 2], false, 0), Read(10), Abandon, Push([3], true, 0), Read(10)];
            && IsRun(ops, states) && !NoneTornOff(ops, states)
            && states[5].reader.whole == [[1, 2, 3]] && states[5].pushed.finished == [[3]]
  {
    var s0 := NEW_KEY;
    var s1 := s0.(pushed := Pushed([], Some([1, 2])), q := [Msg([1, 2], 0, false, 0)]);
    var s2 := s1.(reader := Reader([], [1, 2], true), q := []);
    var s3 := s2.(pushed := Pushed([], None));
    var s4 := s3.(pushed := Pushed([[3]], None), q := [Msg([3], 0, true, 0)]);
    var s5 := s4.(reader := Reader([[1, 2, 3]], [], false), q := []);
    assert Does(s0, Push([1, 2], false, 0), s1);
    assert Does(s1, Read(10), s2) by {
      assert [1, 2][0..2] == [1, 2] && [] + [1, 2] == [1, 2] && s1.q[1..] == [];
    }
    assert Does(s2, Abandon, s3);
    assert Does(s3, Push([3], true, 0), s4) by {
      assert [] + [[3]] == [[3]];
    }
    assert Does(s4, Read(10), s5) by {
      assert [3][0..1] == [3] && [1, 2] + [3] == [1, 2, 3] && s4.q[1..] == [];
    }
    states := [s0, s1, s2, s3, s4, s5];
    assert PartRead(states[2].pushed, states[2].reader, states[2].q);
  }

  // ----- The code -----

  /** Of `bytes`, those counted in `detached` were left by an association that has ended. */
  datatype Pending = Pending(messages: seq<Msg>, bytes: nat, detached: nat)

  ghost predicate Sound(p: Pending) {
    p.messages != [] && WellFormed(p.messages) && p.bytes == Unread(p.messages) && p.detached <= p.bytes
  }

  predicate Once(keys: seq<Key>) {
    forall i, j :: 0 <= i < j < |keys| ==> keys[i] != keys[j]
  }

  /** `ready` lists exactly the associations with something waiting, each once. */
  ghost predicate Lists(ready: seq<Key>, keys: set<Key>) {
    Once(ready) && forall k :: k in ready <==> k in keys
  }

  function Erased(keys: seq<Key>, key: Key): seq<Key> {
    if keys == [] then [] else if keys[0] == key then keys[1..] else [keys[0]] + Erased(keys[1..], key)
  }

  lemma {:induction false} ErasedIs(keys: seq<Key>, key: Key)
    requires Once(keys)
    ensures Once(Erased(keys, key))
    ensures forall k :: k in Erased(keys, key) <==> k in keys && k != key
  {
    if keys != [] {
      ErasedIs(keys[1..], key);
      var rest := Erased(keys[1..], key);
      assert keys[0] !in rest;
      assert forall i :: 0 <= i < |rest| ==> rest[i] != keys[0];
    }
  }

  lemma ListsBack(ready: seq<Key>, keys: set<Key>, key: Key)
    requires Lists(ready, keys) && key !in keys
    ensures Lists(ready + [key], keys + {key}) && Lists([key] + ready, keys + {key})
  {
  }

  lemma ListsRest(ready: seq<Key>, keys: set<Key>)
    requires Lists(ready, keys) && ready != []
    ensures ready[0] in keys && Lists(ready[1..], keys - {ready[0]})
  {
  }

  /** Reading from one association's queue. */
  function Drained(p: Pending, capacity: nat): Pending
    requires p.messages != [] && WellFormed(p.messages) && Take(p.messages, capacity) <= p.bytes
  {
    var count := Take(p.messages, capacity);
    Pending(ReadFrom(p.messages, capacity), p.bytes - count, if p.detached < count then 0 else p.detached - count)
  }

  lemma DrainedIsSound(p: Pending, capacity: nat)
    requires Sound(p)
    ensures Take(p.messages, capacity) <= p.bytes
    ensures var d := Drained(p, capacity);
            WellFormed(d.messages) && d.bytes == Unread(d.messages) && d.detached <= d.bytes
  {
    ReadWellFormed(p.messages, capacity);
  }

  datatype Reading = Reading(key: Key, chunk: Chunk)

  class Queue {
    var pending: map<Key, Pending>
    var ready: seq<Key>

    ghost predicate Counted()
      reads this
    {
      forall k <- pending :: Sound(pending[k])
    }

    ghost predicate Valid()
      reads this
    {
      Counted() && Lists(ready, pending.Keys)
    }

    /** What waits for an association. */
    ghost function Of(key: Key): seq<Msg>
      reads this
    {
      if key in pending then pending[key].messages else []
    }

    constructor ()
      ensures Valid() && pending == map[]
    {
      pending, ready := map[], [];
    }

    method Push(key: Key, bytes: Bytes, complete: bool, stream: U16)
      requires Valid()
      modifies this
      ensures Valid()
      ensures Of(key) == PushTo(old(Of(key)), bytes, complete, stream)
      ensures key in pending && pending[key].detached == (if key in old(pending) then old(pending)[key].detached else 0)
      ensures pending - {key} == old(pending) - {key}
      ensures ready == if key in old(pending) then old(ready) else old(ready) + [key]
    {
      hide Unread, WellFormed;
      if key !in pending {
        ListsBack(ready, pending.Keys, key);
        ready := ready + [key];
      }
      var entry := if key in pending then pending[key] else Pending([], 0, 0);
      EmptyIsWellFormed();
      PushWellFormed(entry.messages, bytes, complete, stream);
      entry := entry.(bytes := entry.bytes + |bytes|);
      var n := |entry.messages|;
      if n > 0 && !entry.messages[n - 1].complete {
        var tail := entry.messages[n - 1];
        tail := tail.(bytes := tail.bytes + bytes, complete := complete);
        entry := entry.(messages := entry.messages[n - 1 := tail]);
      } else {
        entry := entry.(messages := entry.messages + [Msg(bytes, 0, complete, stream)]);
      }
      pending := pending[key := entry];
    }

    /** Takes from the first message waiting, and drops it once it is used up. */
    method ReadLocked(key: Key, capacity: nat) returns (chunk: Chunk)
      requires Counted() && key in pending
      modifies this`pending
      ensures Counted()
      ensures chunk == ChunkOf(old(pending)[key].messages, capacity)
      ensures Drained.requires(old(pending)[key], capacity)
      ensures var d := Drained(old(pending)[key], capacity);
              pending == if d.messages == [] then old(pending) - {key} else old(pending)[key := d]
    {
      hide Unread;
      var entry := pending[key];
      DrainedIsSound(entry, capacity);
      var front := entry.messages[0];
      var count := if capacity < |front.bytes| - front.offset then capacity else |front.bytes| - front.offset;
      var bytes := front.bytes[front.offset..front.offset + count];
      front := front.(offset := front.offset + count);
      chunk := Chunk(bytes, front.offset < |front.bytes| || !front.complete, front.stream);
      var messages := if front.offset == |front.bytes| then entry.messages[1..] else [front] + entry.messages[1..];
      var detached := if entry.detached < count then 0 else entry.detached - count;
      if messages == [] {
        pending := pending - {key};
      } else {
        pending := pending[key := Pending(messages, entry.bytes - count, detached)];
      }
    }

    /** Serves associations in turn, and stays with one while its message is part-read. */
    method ReadAny(capacity: nat) returns (read: Option<Reading>)
      requires Valid()
      modifies this
      ensures Valid()
      ensures read.None? <==> old(pending) == map[]
      ensures read.None? ==> pending == old(pending)
      ensures read.Some? ==>
                var key := read.value.key;
                && key == old(ready)[0] && key in old(pending)
                && read.value.chunk == ChunkOf(old(pending)[key].messages, capacity)
                && Of(key) == ReadFrom(old(pending)[key].messages, capacity)
                && pending - {key} == old(pending) - {key}
                && (key in pending && read.value.chunk.partial ==> ready == old(ready))
                && (key in pending && !read.value.chunk.partial ==> ready == old(ready)[1..] + [key])
                && (key !in pending ==> ready == old(ready)[1..])
                && (key in pending ==> Drained.requires(old(pending)[key], capacity) && pending[key] == Drained(old(pending)[key], capacity))
    {
      hide Unread, WellFormed, ChunkOf, ReadFrom;
      if ready == [] {
        NoneReady(ready, pending);
        return None;
      }
      var key := ready[0];
      ListsRest(ready, pending.Keys);
      ready := ready[1..];
      ghost var before := pending;
      var chunk := ReadLocked(key, capacity);
      assert (pending - {key}).Keys == before.Keys - {key};
      ListsBack(ready, before.Keys - {key}, key);
      if key in pending {
        assert pending.Keys == before.Keys - {key} + {key};
        ready := if chunk.partial then [key] + ready else ready + [key];
      } else {
        assert pending.Keys == before.Keys - {key};
      }
      read := Some(Reading(key, chunk));
    }

    method ReadFromKey(key: Key, capacity: nat) returns (read: Option<Chunk>)
      requires Valid()
      modifies this
      ensures Valid()
      ensures read.None? <==> key !in old(pending)
      ensures read.None? ==> pending == old(pending)
      ensures read.Some? ==>
                && read.value == ChunkOf(old(pending)[key].messages, capacity)
                && Of(key) == ReadFrom(old(pending)[key].messages, capacity)
                && pending - {key} == old(pending) - {key}
                && ready == (if key in pending then old(ready) else Erased(old(ready), key))
                && (key in pending ==> Drained.requires(old(pending)[key], capacity) && pending[key] == Drained(old(pending)[key], capacity))
    {
      hide Unread, WellFormed, ChunkOf, ReadFrom;
      if key !in pending {
        return None;
      }
      ghost var before := pending;
      var chunk := ReadLocked(key, capacity);
      if key !in pending {
        ErasedIs(ready, key);
        assert pending.Keys == before.Keys - {key};
        ready := Erased(ready, key);
      } else {
        assert pending.Keys == before.Keys;
      }
      read := Some(chunk);
    }

    method AbandonOpen(key: Key)
      requires Valid()
      modifies this
      ensures Valid()
      ensures Of(key) == AbandonIn(old(Of(key))) && pending - {key} == old(pending) - {key}
      ensures ready == if key in old(pending) && key !in pending then Erased(old(ready), key) else old(ready)
      ensures key in pending && pending != old(pending) ==>
                var was := old(pending)[key].detached; pending[key].detached == if pending[key].bytes < was then pending[key].bytes else was
    {
      hide Unread;
      if key !in pending || pending[key].messages[|pending[key].messages| - 1].complete {
        return;
      }
      var entry := pending[key];
      var n := |entry.messages|;
      var tail := entry.messages[n - 1];
      AbandonWaiting(entry.messages);
      var bytes := entry.bytes - (|tail.bytes| - tail.offset);
      var detached := if bytes < entry.detached then bytes else entry.detached;
      ghost var before := pending;
      if n == 1 {
        pending := pending - {key};
        assert pending.Keys == before.Keys - {key};
        ErasedIs(ready, key);
        ready := Erased(ready, key);
      } else {
        pending := pending[key := Pending(entry.messages[..n - 1], bytes, detached)];
        assert pending.Keys == before.Keys;
      }
    }

    /** What an ended association left stops counting against the next one's window. */
    method Detach(key: Key)
      requires Valid()
      modifies this`pending
      ensures Valid()
      ensures pending.Keys == old(pending).Keys && pending - {key} == old(pending) - {key}
      ensures key in pending ==> pending[key] == old(pending)[key].(detached := old(pending)[key].bytes)
    {
      hide Unread, WellFormed, Lists;
      if key in pending {
        ghost var before := pending;
        pending := pending[key := pending[key].(detached := pending[key].bytes)];
        assert pending.Keys == before.Keys;
      }
    }

    method BufferedBytes(key: Key) returns (n: nat)
      requires Valid()
      ensures n == if key in pending then Unread(pending[key].messages) - pending[key].detached else 0
    {
      hide Unread;
      n := if key in pending then pending[key].bytes - pending[key].detached else 0;
    }

    method Clear()
      requires Valid()
      modifies this
      ensures Valid() && pending == map[]
    {
      pending, ready := map[], [];
    }
  }

  lemma EmptyIsWellFormed()
    ensures WellFormed([]) && Unread([]) == 0
  {
  }

  lemma NoneReady(ready: seq<Key>, pending: map<Key, Pending>)
    requires Lists(ready, pending.Keys) && ready == []
    ensures pending == map[]
  {
    assert forall k :: k !in pending.Keys;
  }
}
