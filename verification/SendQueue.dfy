/** The three-tier send queue (src/send_queue.cpp): control before retransmissions before
    new DATA. A packet is peeked, written outside the lock and then committed, while other
    threads enqueue, purge and trim. Over every interleaving, committing removes the packet
    that was peeked or nothing, and one association's new DATA leaves in the order it was
    queued although other associations are skipped. */
module SendQueue {

  const MAX_QUEUED_CONTROL: nat := 256

  datatype Option<T> = None | Some(value: T)

  type Location = nat

  datatype ChunkKind = Data | Init | CookieEcho | OpError | OtherKind

  /** `tsn` matters for DATA only. `size` is what it takes on the wire. */
  datatype Chunk = Chunk(kind: ChunkKind, tsn: nat, size: nat)

  datatype Queued = Queued(id: nat, location: Location, destination: nat, chunks: seq<Chunk>)

  datatype Priority = Control | Retransmission | NewData

  datatype Pending = Pending(priority: Priority, packet: Queued)

  datatype Allowance = Allowance(cwndOpen: bool, burstSpent: bool, rwnd: nat, zeroWindowProbe: bool, rwndBlocked: bool)

  type Allowances = map<Location, Allowance>

  datatype Sends = Sends(
    control: seq<Queued>, retransmission: seq<Queued>, newData: seq<Queued>,
    nextId: nat, newDataBlocked: bool, nextSendAttempt: int)

  const EPOCH: int := 0

  const NEW_SENDS := Sends([], [], [], 0, false, EPOCH)

  function QueueFor(s: Sends, p: Priority): seq<Queued> {
    match p
    case Control => s.control
    case Retransmission => s.retransmission
    case NewData => s.newData
  }

  function WithQueue(s: Sends, p: Priority, q: seq<Queued>): Sends {
    match p
    case Control => s.(control := q)
    case Retransmission => s.(retransmission := q)
    case NewData => s.(newData := q)
  }

  // ----- The operations on values -----

  function Enqueue(s: Sends, p: Priority, location: Location, destination: nat, chunks: seq<Chunk>): Sends {
    if p.Control? && |s.control| >= MAX_QUEUED_CONTROL then s else
      WithQueue(s, p, QueueFor(s, p) + [Queued(s.nextId, location, destination, chunks)]).(nextId := s.nextId + 1, newDataBlocked := false)
  }

  function DataBytes(chunks: seq<Chunk>): nat {
    if chunks == [] then 0 else (if chunks[0].kind.Data? then chunks[0].size else 0) + DataBytes(chunks[1..])
  }

  predicate Admits(a: Allowance, p: Queued) {
    a.cwndOpen && !a.burstSpent && (a.zeroWindowProbe || DataBytes(p.chunks) <= a.rwnd)
  }

  /** The peer's window alone keeps the packet back. */
  predicate RefusedByWindow(a: Allowance, p: Queued) {
    a.cwndOpen && !a.burstSpent && !a.zeroWindowProbe && DataBytes(p.chunks) > a.rwnd
  }

  datatype Search = Search(at: nat, allowances: Allowances)

  /** The first packet from `i` on that its association may send, or the length. A refused
      packet holds back the later ones of its association. */
  function FindNew(newData: seq<Queued>, i: nat, refused: seq<Location>, allowances: Allowances): (r: Search)
    requires i <= |newData|
    ensures i <= r.at <= |newData|
    decreases |newData| - i
  {
    if i == |newData| then Search(i, allowances) else
      var p := newData[i];
      if p.location in refused then FindNew(newData, i + 1, refused, allowances)
      else if p.location in allowances && Admits(allowances[p.location], p) then Search(i, allowances)
      else
        var flagged := if p.location in allowances && RefusedByWindow(allowances[p.location], p)
                       then allowances[p.location := allowances[p.location].(rwndBlocked := true)] else allowances;
        FindNew(newData, i + 1, refused + [p.location], flagged)
  }

  datatype Peeked = Peeked(pending: Option<Pending>, sends: Sends, allowances: Allowances)

  function Peek(s: Sends, now: int, allowances: Allowances): Peeked {
    if now < s.nextSendAttempt then Peeked(None, s, allowances)
    else if s.control != [] then Peeked(Some(Pending(Control, s.control[0])), s, allowances)
    else if s.retransmission != [] then Peeked(Some(Pending(Retransmission, s.retransmission[0])), s, allowances)
    else
      var found := FindNew(s.newData, 0, [], allowances);
      if found.at < |s.newData| then Peeked(Some(Pending(NewData, s.newData[found.at])), s, found.allowances)
      else Peeked(None, s.(newDataBlocked := s.newData != []), found.allowances)
  }

  function WithoutId(q: seq<Queued>, id: nat): seq<Queued> {
    if q == [] then [] else if q[0].id == id then q[1..] else [q[0]] + WithoutId(q[1..], id)
  }

  function Commit(s: Sends, p: Pending): Sends {
    WithQueue(s, p.priority, WithoutId(QueueFor(s, p.priority), p.packet.id)).(nextSendAttempt := EPOCH)
  }

  function Purged(q: seq<Queued>, location: Location): seq<Queued> {
    if q == [] then [] else (if q[0].location == location then [] else [q[0]]) + Purged(q[1..], location)
  }

  function Purge(s: Sends, location: Location): Sends {
    s.(control := Purged(s.control, location), retransmission := Purged(s.retransmission, location), newData := Purged(s.newData, location))
  }

  /** What goes out of queued retransmissions: acknowledged DATA, or a kind of chunk. */
  datatype Trim =
    | AckedData(acked: set<nat>)
    | OfKind(kind: ChunkKind, destination: Option<nat>)

  predicate Carries(chunks: seq<Chunk>, kind: ChunkKind) {
    exists c <- chunks :: c.kind == kind
  }

  function Filtered(chunks: seq<Chunk>, drop: Chunk -> bool): seq<Chunk> {
    if chunks == [] then [] else (if drop(chunks[0]) then [] else [chunks[0]]) + Filtered(chunks[1..], drop)
  }

  function TrimmedChunks(p: Queued, location: Location, t: Trim): seq<Chunk> {
    if p.location != location then p.chunks else
      match t
      case AckedData(acked) => Filtered(p.chunks, (c: Chunk) => c.kind.Data? && c.tsn in acked)
      case OfKind(kind, destination) =>
        if (destination.Some? && destination.value != p.destination) || !Carries(p.chunks, kind) then p.chunks
        else Filtered(p.chunks, (c: Chunk) => c.kind == kind || c.kind.OpError?)
  }

  function Trimmed(q: seq<Queued>, location: Location, t: Trim): seq<Queued> {
    if q == [] then [] else
      var kept := TrimmedChunks(q[0], location, t);
      (if kept == [] then [] else [q[0].(chunks := kept)]) + Trimmed(q[1..], location, t)
  }

  // ----- What every operation keeps -----

  ghost predicate Ascending(q: seq<Queued>, next: nat) {
    (forall i :: 0 <= i < |q| ==> q[i].id < next) && forall i, j :: 0 <= i < j < |q| ==> q[i].id < q[j].id
  }

  ghost predicate Apart(q: seq<Queued>, r: seq<Queued>) {
    forall x, y :: x in q && y in r ==> x.id != y.id
  }

  /** Identifiers are never used twice, and each queue has them in order. */
  ghost predicate Sound(s: Sends) {
    && Ascending(s.control, s.nextId) && Ascending(s.retransmission, s.nextId) && Ascending(s.newData, s.nextId)
    && Apart(s.control, s.retransmission) && Apart(s.control, s.newData) && Apart(s.retransmission, s.newData)
  }

  /** The same packet, perhaps with fewer chunks. */
  ghost predicate Remnant(x: Queued, y: Queued) {
    x.id == y.id && x.location == y.location && x.destination == y.destination && forall c <- x.chunks :: c in y.chunks
  }

  /** `r` is `q` with packets dropped and chunks trimmed, in the same order. */
  ghost predicate Shrinks(r: seq<Queued>, q: seq<Queued>)
    decreases |q|
  {
    if q == [] then r == []
    else (r != [] && Remnant(r[0], q[0]) && Shrinks(r[1..], q[1..])) || Shrinks(r, q[1..])
  }

  lemma {:induction false} ShrinksMeans(r: seq<Queued>, q: seq<Queued>, next: nat)
    requires Shrinks(r, q) && Ascending(q, next)
    ensures Ascending(r, next)
    ensures forall x <- r :: exists y :: y in q && Remnant(x, y)
    decreases |q|
  {
    if q != [] {
      hide Remnant;
      if Shrinks(r, q[1..]) {
        ShrinksMeans(r, q[1..], next);
      } else {
        ShrinksMeans(r[1..], q[1..], next);
        SameId(r[0], q[0]);
        forall x <- r
          ensures exists y :: y in q && Remnant(x, y)
        {
          if x in r[1..] {
            var y :| y in q[1..] && Remnant(x, y);
            assert y in q;
          } else {
            assert q[0] in q && x == r[0];
          }
        }
        forall j | 0 < j < |r|
          ensures r[0].id < r[j].id
        {
          assert r[j] in r[1..];
          var y :| y in q[1..] && Remnant(r[j], y);
          SameId(r[j], y);
          var k :| 0 <= k < |q[1..]| && q[1..][k] == y;
          assert q[k + 1] == y;
        }
        FirstThenRest(r, next);
      }
    }
  }

  lemma SameId(x: Queued, y: Queued)
    requires Remnant(x, y)
    ensures x.id == y.id && x.location == y.location
  {
  }

  lemma FirstThenRest(r: seq<Queued>, next: nat)
    requires r != [] && r[0].id < next && Ascending(r[1..], next) && forall j :: 0 < j < |r| ==> r[0].id < r[j].id
    ensures Ascending(r, next)
  {
    forall i, j | 0 <= i < j < |r|
      ensures r[i].id < r[j].id
    {
      if i > 0 {
        assert r[i] == r[1..][i - 1] && r[j] == r[1..][j - 1];
      }
    }
    forall i | 0 <= i < |r|
      ensures r[i].id < next
    {
      if i > 0 {
        assert r[i] == r[1..][i - 1];
      }
    }
  }

  lemma {:induction false} SameShrinks(q: seq<Queued>)
    ensures Shrinks(q, q)
  {
    if q != [] {
      SameShrinks(q[1..]);
    }
  }

  lemma {:induction false} WithoutIdShrinks(q: seq<Queued>, id: nat)
    ensures Shrinks(WithoutId(q, id), q)
  {
    if q != [] {
      if q[0].id == id {
        SameShrinks(q[1..]);
      } else {
        WithoutIdShrinks(q[1..], id);
      }
    }
  }

  lemma {:induction false} PurgedShrinks(q: seq<Queued>, location: Location)
    ensures Shrinks(Purged(q, location), q)
    ensures forall x <- Purged(q, location) :: x.location != location
  {
    if q != [] {
      PurgedShrinks(q[1..], location);
      var rest := Purged(q[1..], location);
      assert ([q[0]] + rest)[1..] == rest && [] + rest == rest;
    }
  }

  lemma {:induction false} FilteredFrom(chunks: seq<Chunk>, drop: Chunk -> bool)
    ensures forall c :: c in Filtered(chunks, drop) <==> c in chunks && !drop(c)
  {
    if chunks != [] {
      FilteredFrom(chunks[1..], drop);
    }
  }

  lemma TrimmedChunksFrom(p: Queued, location: Location, t: Trim)
    ensures Remnant(p.(chunks := TrimmedChunks(p, location, t)), p)
  {
    match t
    case AckedData(acked) => FilteredFrom(p.chunks, (c: Chunk) => c.kind.Data? && c.tsn in acked);
    case OfKind(kind, destination) => FilteredFrom(p.chunks, (c: Chunk) => c.kind == kind || c.kind.OpError?);
  }

  lemma {:induction false} TrimmedShrinks(q: seq<Queued>, location: Location, t: Trim)
    ensures Shrinks(Trimmed(q, location, t), q)
  {
    hide TrimmedChunks, Remnant;
    if q != [] {
      TrimmedChunksFrom(q[0], location, t);
      TrimmedShrinks(q[1..], location, t);
      var kept, rest := TrimmedChunks(q[0], location, t), Trimmed(q[1..], location, t);
      assert ([q[0].(chunks := kept)] + rest)[1..] == rest && [] + rest == rest;
    }
  }

  // ----- Committing -----

  /** Committing takes out the packet with the identifier peeked, and only that. */
  lemma {:induction false} WithoutIdIs(q: seq<Queued>, id: nat, next: nat)
    requires Ascending(q, next)
    ensures forall x :: x in WithoutId(q, id) <==> x in q && x.id != id
    ensures (forall x <- q :: x.id != id) ==> WithoutId(q, id) == q
    ensures |WithoutId(q, id)| >= |q| - 1
    decreases |q|
  {
    if q != [] {
      var rest := q[1..];
      AscendingRest(q, next);
      hide Ascending;
      assert q == [q[0]] + rest;
      if q[0].id != id {
        WithoutIdIs(rest, id, next);
      }
    }
  }

  lemma AscendingRest(q: seq<Queued>, next: nat)
    requires q != [] && Ascending(q, next)
    ensures Ascending(q[1..], next) && forall x <- q[1..] :: x.id > q[0].id
  {
  }

  // ----- New DATA leaves in order -----

  /** The packet found is the first of its association. */
  lemma {:induction false} FoundIsFirst(newData: seq<Queued>, i: nat, refused: seq<Location>, allowances: Allowances)
    requires i <= |newData|
    requires forall k :: 0 <= k < i ==> newData[k].location in refused
    ensures var r := FindNew(newData, i, refused, allowances);
            r.at < |newData| ==> forall k :: 0 <= k < r.at ==> newData[k].location != newData[r.at].location
    decreases |newData| - i
  {
    hide Admits, RefusedByWindow;
    if i < |newData| {
      var p := newData[i];
      if p.location in refused {
        FoundIsFirst(newData, i + 1, refused, allowances);
      } else if !(p.location in allowances && Admits(allowances[p.location], p)) {
        var flagged := if p.location in allowances && RefusedByWindow(allowances[p.location], p)
                       then allowances[p.location := allowances[p.location].(rwndBlocked := true)] else allowances;
        FoundIsFirst(newData, i + 1, refused + [p.location], flagged);
      }
    }
  }

  predicate FirstOfIts(newData: seq<Queued>, k: nat)
    requires k < |newData|
  {
    forall j :: 0 <= j < k ==> newData[j].location != newData[k].location
  }

  /** Flagging changes no decision. */
  predicate SameDecisions(a: Allowances, b: Allowances) {
    a.Keys == b.Keys && forall l <- a :: a[l].(rwndBlocked := false) == b[l].(rwndBlocked := false)
  }

  /** Nothing is found exactly when no association may send its first packet. */
  lemma {:induction false} NothingFound(newData: seq<Queued>, i: nat, refused: seq<Location>, allowances: Allowances, original: Allowances)
    requires i <= |newData| && SameDecisions(allowances, original)
    requires forall k :: 0 <= k < i ==> newData[k].location in refused
    requires forall l <- refused :: exists k :: 0 <= k < i && newData[k].location == l
    requires forall k :: 0 <= k < i && FirstOfIts(newData, k) ==> !(newData[k].location in original && Admits(original[newData[k].location], newData[k]))
    ensures var r := FindNew(newData, i, refused, allowances);
            && SameDecisions(r.allowances, original)
            && (r.at == |newData| <==>
                  forall k :: 0 <= k < |newData| && FirstOfIts(newData, k) ==> !(newData[k].location in original && Admits(original[newData[k].location], newData[k])))
            && (r.at < |newData| ==> FirstOfIts(newData, r.at) && newData[r.at].location in original && Admits(original[newData[r.at].location], newData[r.at]))
    decreases |newData| - i
  {
    hide DataBytes;
    if i < |newData| {
      var p := newData[i];
      if p.location in refused {
        NothingFound(newData, i + 1, refused, allowances, original);
      } else {
        assert FirstOfIts(newData, i);
        if !(p.location in allowances && Admits(allowances[p.location], p)) {
          var flagged := if p.location in allowances && RefusedByWindow(allowances[p.location], p)
                         then allowances[p.location := allowances[p.location].(rwndBlocked := true)] else allowances;
          NothingFound(newData, i + 1, refused + [p.location], flagged, original);
        }
      }
    }
  }

  // ----- Every interleaving -----

  datatype Event =
    | Enqueues(priority: Priority, location: Location, destination: nat, chunks: seq<Chunk>)
    | Peeks(now: int, allowances: Allowances)
    | Commits
    | Defers(at: int)
    | Purges(location: Location)
    | Trims(location: Location, t: Trim)
    | Clears

  /** The queue, what the event loop has peeked, and the new DATA it has sent. */
  datatype Loop = Loop(s: Sends, peeked: Option<Pending>, left: seq<Queued>)

  function Step(l: Loop, e: Event): Loop {
    match e
    case Enqueues(p, location, destination, chunks) => l.(s := Enqueue(l.s, p, location, destination, chunks))
    case Peeks(now, allowances) => var r := Peek(l.s, now, allowances); l.(s := r.sends, peeked := r.pending)
    case Commits =>
      if l.peeked.None? then l else
        var p := l.peeked.value;
        Loop(Commit(l.s, p), None, if p.priority.NewData? then l.left + [p.packet] else l.left)
    case Defers(at) => l.(s := l.s.(nextSendAttempt := at), peeked := None)
    case Purges(location) => l.(s := Purge(l.s, location))
    case Trims(location, t) => l.(s := l.s.(retransmission := Trimmed(l.s.retransmission, location, t)))
    case Clears => l.(s := NEW_SENDS.(nextId := l.s.nextId))
  }

  /** Whatever bears the identifier peeked is the packet peeked. */
  ghost predicate Tracks(s: Sends, p: Pending) {
    && p.packet.id < s.nextId
    && (forall x <- QueueFor(s, p.priority) :: x.id == p.packet.id ==> Remnant(x, p.packet))
    && (forall o: Priority, x :: o != p.priority && x in QueueFor(s, o) ==> x.id != p.packet.id)
  }

  ghost predicate InOrder(left: seq<Queued>) {
    forall i, j :: 0 <= i < j < |left| && left[i].location == left[j].location ==> left[i].id < left[j].id
  }

  ghost predicate Precede(left: seq<Queued>, q: seq<Queued>) {
    forall x, y :: x in left && y in q && x.location == y.location ==> x.id < y.id
  }

  /** New DATA that was peeked comes after all that left and before all that waits. */
  ghost predicate NextToLeave(l: Loop, p: Pending) {
    p.priority.NewData? ==>
      && Precede(l.left, [p.packet])
      && forall y <- l.s.newData :: y.location == p.packet.location ==> p.packet.id <= y.id
  }

  ghost predicate LoopInv(l: Loop) {
    && Sound(l.s)
    && InOrder(l.left) && Precede(l.left, l.s.newData) && (forall x <- l.left :: x.id < l.s.nextId)
    && (l.peeked.Some? ==> Tracks(l.s, l.peeked.value) && NextToLeave(l, l.peeked.value))
  }

  /** Each queue loses packets or chunks, and gains none. */
  ghost predicate Loses(s: Sends, s': Sends) {
    s'.nextId == s.nextId && forall p: Priority :: Shrinks(QueueFor(s', p), QueueFor(s, p))
  }

  ghost predicate ComesFrom(r: seq<Queued>, q: seq<Queued>) {
    forall x <- r :: exists y :: y in q && Remnant(x, y)
  }

  lemma LosingIsSound(s: Sends, s': Sends)
    requires Sound(s) && Loses(s, s')
    ensures Sound(s') && forall p: Priority :: ComesFrom(QueueFor(s', p), QueueFor(s, p))
  {
    hide Shrinks, Remnant, Ascending;
    forall p: Priority
      ensures Ascending(QueueFor(s', p), s'.nextId) && ComesFrom(QueueFor(s', p), QueueFor(s, p))
    {
      ShrinksMeans(QueueFor(s', p), QueueFor(s, p), s.nextId);
    }
    assert Ascending(QueueFor(s', Control), s'.nextId) && Ascending(QueueFor(s', Retransmission), s'.nextId) && Ascending(QueueFor(s', NewData), s'.nextId);
    assert ComesFrom(QueueFor(s', Control), QueueFor(s, Control)) && ComesFrom(QueueFor(s', Retransmission), QueueFor(s, Retransmission))
        && ComesFrom(QueueFor(s', NewData), QueueFor(s, NewData));
    StayApart(s'.control, s.control, s'.retransmission, s.retransmission);
    StayApart(s'.control, s.control, s'.newData, s.newData);
    StayApart(s'.retransmission, s.retransmission, s'.newData, s.newData);
  }

  lemma StayApart(a': seq<Queued>, a: seq<Queued>, b': seq<Queued>, b: seq<Queued>)
    requires ComesFrom(a', a) && ComesFrom(b', b) && Apart(a, b)
    ensures Apart(a', b')
  {
    forall x, y | x in a' && y in b'
      ensures x.id != y.id
    {
      var u :| u in a && Remnant(x, u);
      var v :| v in b && Remnant(y, v);
    }
  }

  lemma RemnantOfRemnant(x: Queued, y: Queued, z: Queued)
    requires Remnant(x, y) && Remnant(y, z)
    ensures Remnant(x, z)
  {
  }

  lemma LosingKeeps(l: Loop, s': Sends)
    requires LoopInv(l) && Loses(l.s, s')
    ensures LoopInv(l.(s := s'))
  {
    LosingIsSound(l.s, s');
    hide Sound, Loses, InOrder, Remnant;
    assert ComesFrom(QueueFor(s', NewData), QueueFor(l.s, NewData));
    LosingPrecedes(l.left, s'.newData, l.s.newData);
    if l.peeked.Some? {
      LosingTracks(l.s, s', l.peeked.value);
      var p := l.peeked.value;
      forall y <- s'.newData
        ensures exists z :: z in l.s.newData && y.id == z.id && y.location == z.location
      {
        var z :| z in l.s.newData && Remnant(y, z);
        SameId(y, z);
      }
    }
    SameNext(l.s, s');
  }

  lemma SameNext(s: Sends, s': Sends)
    requires Loses(s, s')
    ensures s'.nextId == s.nextId
  {
  }

  lemma LosingPrecedes(left: seq<Queued>, q': seq<Queued>, q: seq<Queued>)
    requires Precede(left, q) && ComesFrom(q', q)
    ensures Precede(left, q')
  {
    forall x, y | x in left && y in q' && x.location == y.location
      ensures x.id < y.id
    {
      var z :| z in q && Remnant(y, z);
    }
  }

  lemma LosingTracks(s: Sends, s': Sends, p: Pending)
    requires Tracks(s, p) && Loses(s, s') && forall o: Priority :: ComesFrom(QueueFor(s', o), QueueFor(s, o))
    ensures Tracks(s', p)
  {
    hide Shrinks, Remnant;
    forall x <- QueueFor(s', p.priority)
      ensures x.id == p.packet.id ==> Remnant(x, p.packet)
    {
      assert ComesFrom(QueueFor(s', p.priority), QueueFor(s, p.priority));
      var y :| y in QueueFor(s, p.priority) && Remnant(x, y);
      SameId(x, y);
      if x.id == p.packet.id {
        RemnantOfRemnant(x, y, p.packet);
      }
    }
    forall o: Priority, x | o != p.priority && x in QueueFor(s', o)
      ensures x.id != p.packet.id
    {
      assert ComesFrom(QueueFor(s', o), QueueFor(s, o));
      var y :| y in QueueFor(s, o) && Remnant(x, y);
      SameId(x, y);
    }
  }

  lemma PurgeLoses(s: Sends, location: Location)
    ensures Loses(s, Purge(s, location))
  {
    PurgedShrinks(s.control, location);
    PurgedShrinks(s.retransmission, location);
    PurgedShrinks(s.newData, location);
  }

  lemma TrimLoses(s: Sends, location: Location, t: Trim)
    ensures Loses(s, s.(retransmission := Trimmed(s.retransmission, location, t)))
  {
    SameShrinks(s.control);
    TrimmedShrinks(s.retransmission, location, t);
    SameShrinks(s.newData);
  }

  lemma {:induction false} NothingShrinks(q: seq<Queued>)
    ensures Shrinks([], q)
  {
    if q != [] {
      NothingShrinks(q[1..]);
    }
  }

  lemma ClearLoses(s: Sends)
    ensures Loses(s, NEW_SENDS.(nextId := s.nextId))
  {
    NothingShrinks(s.control);
    NothingShrinks(s.retransmission);
    NothingShrinks(s.newData);
  }

  lemma CommitLoses(s: Sends, p: Pending)
    ensures Loses(s, Commit(s, p))
  {
    WithoutIdShrinks(QueueFor(s, p.priority), p.packet.id);
    SameShrinks(s.control);
    SameShrinks(s.retransmission);
    SameShrinks(s.newData);
  }

  lemma AppendAscending(q: seq<Queued>, x: Queued, next: nat)
    requires Ascending(q, next) && x.id == next
    ensures Ascending(q + [x], next + 1)
  {
  }

  lemma LaterAscending(q: seq<Queued>, next: nat)
    requires Ascending(q, next)
    ensures Ascending(q, next + 1) && forall x <- q :: x.id < next
  {
  }

  lemma AppendApart(q: seq<Queued>, r: seq<Queued>, x: Queued)
    requires Apart(q, r) && forall y <- r :: y.id != x.id
    ensures Apart(q + [x], r) && Apart(r, q + [x])
  {
  }

  lemma ApartEither(q: seq<Queued>, r: seq<Queued>)
    requires Apart(q, r)
    ensures Apart(r, q)
  {
  }

  lemma EnqueueSound(s: Sends, p: Priority, x: Queued)
    requires Sound(s) && x.id == s.nextId
    ensures Sound(WithQueue(s, p, QueueFor(s, p) + [x]).(nextId := s.nextId + 1, newDataBlocked := false))
    ensures forall o: Priority, y :: y in QueueFor(s, o) ==> y.id < s.nextId
  {
    hide Ascending, Apart;
    AppendAscending(QueueFor(s, p), x, s.nextId);
    LaterAscending(s.control, s.nextId);
    LaterAscending(s.retransmission, s.nextId);
    LaterAscending(s.newData, s.nextId);
    ApartEither(s.control, s.retransmission);
    ApartEither(s.control, s.newData);
    ApartEither(s.retransmission, s.newData);
    match p {
      case Control =>
        AppendApart(s.control, s.retransmission, x);
        AppendApart(s.control, s.newData, x);
      case Retransmission =>
        AppendApart(s.retransmission, s.control, x);
        AppendApart(s.retransmission, s.newData, x);
      case NewData =>
        AppendApart(s.newData, s.control, x);
        AppendApart(s.newData, s.retransmission, x);
    }
  }

  lemma EnqueueKeeps(l: Loop, p: Priority, location: Location, destination: nat, chunks: seq<Chunk>)
    requires LoopInv(l)
    ensures LoopInv(l.(s := Enqueue(l.s, p, location, destination, chunks)))
  {
    hide Sound, Remnant, InOrder;
    var x := Queued(l.s.nextId, location, destination, chunks);
    var s' := Enqueue(l.s, p, location, destination, chunks);
    EnqueueSound(l.s, p, x);
    if s' != l.s {
      EnqueuePrecedes(l.left, l.s.newData, x);
      if l.peeked.Some? {
        EnqueueTracks(l.s, s', p, x, l.peeked.value);
      }
    }
  }

  lemma EnqueuePrecedes(left: seq<Queued>, q: seq<Queued>, x: Queued)
    requires Precede(left, q) && forall y <- left :: y.id < x.id
    ensures Precede(left, q + [x])
  {
  }

  lemma EnqueueTracks(s: Sends, s': Sends, o: Priority, x: Queued, p: Pending)
    requires Tracks(s, p) && x.id == s.nextId && s'.nextId == s.nextId + 1
    requires forall k: Priority :: QueueFor(s', k) == if k == o then QueueFor(s, k) + [x] else QueueFor(s, k)
    ensures Tracks(s', p)
  {
    hide Remnant;
    forall y <- QueueFor(s', p.priority)
      ensures y.id == p.packet.id ==> Remnant(y, p.packet)
    {
      assert y in QueueFor(s, p.priority) || y == x;
    }
    forall k: Priority, y | k != p.priority && y in QueueFor(s', k)
      ensures y.id != p.packet.id
    {
      assert y in QueueFor(s, k) || y == x;
    }
  }

  lemma PeekKeeps(l: Loop, now: int, allowances: Allowances)
    requires LoopInv(l)
    ensures LoopInv(Step(l, Peeks(now, allowances)))
  {
    hide FindNew, Remnant, InOrder, Ascending, Apart, Tracks;
    var r := Peek(l.s, now, allowances);
    if r.pending.Some? {
      PeekedIsFirst(l.s, now, allowances);
      PeekedTracks(l.s, r.pending.value);
      PeekedPrecedes(l.left, l.s.newData, r.pending.value);
    }
  }

  lemma PeekedPrecedes(left: seq<Queued>, q: seq<Queued>, p: Pending)
    requires Precede(left, q) && (p.priority.NewData? ==> p.packet in q)
    ensures p.priority.NewData? ==> Precede(left, [p.packet])
  {
  }

  /** What is peeked is at the head of its queue or first of its association's new DATA. */
  lemma PeekedIsFirst(s: Sends, now: int, allowances: Allowances)
    requires Ascending(s.newData, s.nextId) && Peek(s, now, allowances).pending.Some?
    ensures var p := Peek(s, now, allowances).pending.value;
            && p.packet in QueueFor(s, p.priority)
            && (p.priority.NewData? ==> forall y <- s.newData :: y.location == p.packet.location ==> p.packet.id <= y.id)
  {
    FoundIsFirst(s.newData, 0, [], allowances);
    var at := FindNew(s.newData, 0, [], allowances).at;
    hide FindNew;
    forall y <- s.newData
      ensures at < |s.newData| && y.location == s.newData[at].location ==> s.newData[at].id <= y.id
    {
      var k :| 0 <= k < |s.newData| && s.newData[k] == y;
    }
  }

  lemma PeekedTracks(s: Sends, p: Pending)
    requires Sound(s) && p.packet in QueueFor(s, p.priority)
    ensures Tracks(s, p)
  {
    forall x <- QueueFor(s, p.priority)
      ensures x.id == p.packet.id ==> Remnant(x, p.packet)
    {
    }
  }

  /** Committing removes the packet that was peeked, or nothing if it is no longer there. */
  lemma CommitTakesPeeked(l: Loop)
    requires LoopInv(l) && l.peeked.Some?
    ensures var p := l.peeked.value;
            var q, q' := QueueFor(l.s, p.priority), QueueFor(Commit(l.s, p), p.priority);
            && (forall o: Priority :: o != p.priority ==> QueueFor(Commit(l.s, p), o) == QueueFor(l.s, o))
            && (forall x :: x in q' <==> x in q && x.id != p.packet.id)
            && (forall x <- q :: x !in q' ==> Remnant(x, p.packet))
            && |q'| >= |q| - 1
            && ((forall x <- q :: x.id != p.packet.id) ==> q' == q)
  {
    var p := l.peeked.value;
    hide Remnant, WithoutId;
    WithoutIdIs(QueueFor(l.s, p.priority), p.packet.id, l.s.nextId);
  }

  lemma CommitKeeps(l: Loop)
    requires LoopInv(l) && l.peeked.Some?
    ensures LoopInv(Step(l, Commits))
  {
    hide Sound, Tracks, WithoutId, Loses, Remnant, InOrder, Precede;
    var p := l.peeked.value;
    CommitLoses(l.s, p);
    LosingKeeps(l, Commit(l.s, p));
    PeekedKnown(l.s, p);
    if p.priority.NewData? {
      CommitTakesPeeked(l);
      LeavesInOrder(l.left, p.packet);
      LeavesBefore(l.left, p.packet, Commit(l.s, p).newData);
    }
  }

  lemma PeekedKnown(s: Sends, p: Pending)
    requires Tracks(s, p)
    ensures p.packet.id < s.nextId && Commit(s, p).nextId == s.nextId
  {
  }

  lemma LeavesBefore(left: seq<Queued>, x: Queued, q: seq<Queued>)
    requires Precede(left, q) && forall y <- q :: y.location == x.location ==> x.id < y.id
    ensures Precede(left + [x], q)
  {
  }

  lemma LeavesInOrder(left: seq<Queued>, x: Queued)
    requires InOrder(left) && Precede(left, [x])
    ensures InOrder(left + [x])
  {
    assert x in [x];
  }

  lemma LoopStepKeeps(l: Loop, e: Event)
    requires LoopInv(l)
    ensures LoopInv(Step(l, e))
  {
    hide LoopInv, Purge, Trimmed, Commit, Peek, Enqueue, Loses;
    match e
    case Enqueues(p, location, destination, chunks) => EnqueueKeeps(l, p, location, destination, chunks);
    case Peeks(now, allowances) => PeekKeeps(l, now, allowances);
    case Commits =>
      if l.peeked.Some? {
        CommitKeeps(l);
      }
    case Defers(at) => DeferKeeps(l, at);
    case Purges(location) =>
      PurgeLoses(l.s, location);
      LosingKeeps(l, Purge(l.s, location));
    case Trims(location, t) =>
      TrimLoses(l.s, location, t);
      LosingKeeps(l, l.s.(retransmission := Trimmed(l.s.retransmission, location, t)));
    case Clears =>
      ClearLoses(l.s);
      LosingKeeps(l, NEW_SENDS.(nextId := l.s.nextId));
  }

  lemma DeferKeeps(l: Loop, at: int)
    requires LoopInv(l)
    ensures LoopInv(Step(l, Defers(at)))
  {
  }

  function Run(events: seq<Event>): Loop {
    if events == [] then Loop(NEW_SENDS, None, []) else Step(Run(events[..|events| - 1]), events[|events| - 1])
  }

  /** In every run, each association's new DATA has left in the order it was queued, and
      committing would remove what was peeked or nothing. */
  lemma {:induction false} EveryInterleaving(events: seq<Event>)
    ensures LoopInv(Run(events))
    ensures InOrder(Run(events).left)
    decreases |events|
  {
    hide Step, Sound;
    if events != [] {
      EveryInterleaving(events[..|events| - 1]);
      LoopStepKeeps(Run(events[..|events| - 1]), events[|events| - 1]);
    } else {
      NewIsSound();
    }
  }

  lemma NewIsSound()
    ensures Sound(NEW_SENDS)
  {
  }

  // ----- When to try again -----

  /** When the event loop is to wake up for this queue. */
  function NextAttempt(s: Sends): Option<int> {
    if s.control == [] && s.retransmission == [] && (s.newData == [] || s.newDataBlocked) then None else Some(s.nextSendAttempt)
  }

  /** Backing off delays what a peek finds and changes nothing of it. */
  lemma DeferDelays(s: Sends, at: int, now: int, allowances: Allowances)
    ensures var p := Peek(s.(nextSendAttempt := at), now, allowances).pending;
            if now < at then p == None else p == Peek(s.(nextSendAttempt := now), now, allowances).pending
  {
    hide FindNew;
  }

  /** No association may send its first packet of new DATA. */
  ghost predicate NoneAdmitted(newData: seq<Queued>, allowances: Allowances) {
    forall k :: 0 <= k < |newData| && FirstOfIts(newData, k) ==>
      !(newData[k].location in allowances && Admits(allowances[newData[k].location], newData[k]))
  }

  lemma PeekFindsNothing(s: Sends, now: int, allowances: Allowances)
    requires now >= s.nextSendAttempt
    ensures Peek(s, now, allowances).pending.None? <==> s.control == [] && s.retransmission == [] && NoneAdmitted(s.newData, allowances)
  {
    NothingFound(s.newData, 0, [], allowances, allowances);
    hide FindNew, Admits;
  }

  predicate TakesEffect(l: Loop, e: Event) {
    e.Enqueues? && !(e.priority.Control? && |l.s.control| >= MAX_QUEUED_CONTROL)
  }

  /** The allowances of the last peek that was made, if it found nothing and nothing has been
      queued since. A peek while backing off tells nothing. */
  function LastRefusal(events: seq<Event>): Option<Allowances> {
    if events == [] then None else
      var before, e := events[..|events| - 1], events[|events| - 1];
      var l := Run(before);
      match e
      case Peeks(now, allowances) =>
        if now < l.s.nextSendAttempt then LastRefusal(before)
        else if Peek(l.s, now, allowances).pending.None? then Some(allowances)
        else None
      case Enqueues(_, _, _, _) => if TakesEffect(l, e) then None else LastRefusal(before)
      case Clears => None
      case _ => LastRefusal(before)
  }

  lemma {:induction false} PurgedFirst(q: seq<Queued>, location: Location, k: nat) returns (j: nat)
    requires k < |Purged(q, location)| && FirstOfIts(Purged(q, location), k)
    ensures j < |q| && q[j] == Purged(q, location)[k] && FirstOfIts(q, j)
    decreases |q|
  {
    PurgedShrinks(q, location);
    var rest := Purged(q[1..], location);
    if q[0].location == location {
      assert Purged(q, location) == rest;
      j := PurgedFirst(q[1..], location, k);
      assert rest[k].location != location;
      j := j + 1;
    } else if k == 0 {
      j := 0;
    } else {
      assert Purged(q, location) == [q[0]] + rest;
      forall i | 0 <= i < k - 1
        ensures rest[i].location != rest[k - 1].location
      {
        assert Purged(q, location)[i + 1].location != Purged(q, location)[k].location;
      }
      j := PurgedFirst(q[1..], location, k - 1);
      assert Purged(q, location)[0].location != Purged(q, location)[k].location;
      j := j + 1;
    }
  }

  lemma PurgeAdmitsNone(q: seq<Queued>, location: Location, allowances: Allowances)
    requires NoneAdmitted(q, allowances)
    ensures NoneAdmitted(Purged(q, location), allowances)
  {
    hide Admits, Purged;
    forall k | 0 <= k < |Purged(q, location)| && FirstOfIts(Purged(q, location), k)
      ensures var x := Purged(q, location)[k]; !(x.location in allowances && Admits(allowances[x.location], x))
    {
      var j := PurgedFirst(q, location, k);
    }
  }

  /** The queue of a loop that is told to sleep without a deadline after a peek that found
      nothing: whatever was purged or trimmed since, there still is nothing to send. */
  ghost predicate Asleep(l: Loop, allowances: Allowances) {
    && l.peeked.None? && l.s.control == [] && l.s.retransmission == []
    && NoneAdmitted(l.s.newData, allowances) && (l.s.newData != [] ==> l.s.newDataBlocked)
  }

  lemma StepLeavesAsleep(l: Loop, e: Event, allowances: Allowances)
    requires Asleep(l, allowances) && !TakesEffect(l, e) && !e.Clears?
    requires e.Peeks? ==> e.now < l.s.nextSendAttempt
    ensures Asleep(Step(l, e), allowances)
  {
    hide NoneAdmitted, FindNew;
    if e.Purges? {
      PurgeAdmitsNone(l.s.newData, e.location, allowances);
      assert Purged([], e.location) == [];
    } else if e.Trims? {
      assert Trimmed([], e.location, e.t) == [];
    }
  }

  lemma RefusedLeavesAsleep(l: Loop, now: int, allowances: Allowances)
    requires now >= l.s.nextSendAttempt && Peek(l.s, now, allowances).pending.None?
    ensures Asleep(Step(l, Peeks(now, allowances)), allowances)
  {
    PeekFindsNothing(l.s, now, allowances);
    hide NoneAdmitted, FindNew;
  }

  /** No wake-up is missed after a peek that found nothing: with no deadline, a peek under
      the same allowances would find nothing still. */
  lemma {:induction false} SleepIsSafe(events: seq<Event>, now: int)
    ensures var l, refusal := Run(events), LastRefusal(events);
            refusal.Some? ==> Asleep(l, refusal.value) && NextAttempt(l.s) == None && Peek(l.s, now, refusal.value).pending.None?
    decreases |events|
  {
    hide Step, Asleep, Peek;
    var refusal := LastRefusal(events);
    if refusal.Some? {
      var before, e := events[..|events| - 1], events[|events| - 1];
      SleepIsSafe(before, now);
      if LastRefusal(before) == refusal && !(e.Peeks? && e.now >= Run(before).s.nextSendAttempt) {
        StepLeavesAsleep(Run(before), e, refusal.value);
      } else {
        RefusedLeavesAsleep(Run(before), e.now, e.allowances);
      }
      AsleepFindsNothing(Run(events), refusal.value, now);
    }
  }

  lemma AsleepFindsNothing(l: Loop, allowances: Allowances, now: int)
    requires Asleep(l, allowances)
    ensures NextAttempt(l.s) == None && Peek(l.s, now, allowances).pending.None?
  {
    if now >= l.s.nextSendAttempt {
      PeekFindsNothing(l.s, now, allowances);
    }
    hide NoneAdmitted, FindNew;
  }

  /** A peek found nothing with new DATA queued, and since then nothing was queued, nothing
      cleared, and no peek found the new DATA all gone. */
  ghost predicate Refuses(events: seq<Event>, k: nat)
    requires k < |events|
  {
    var l := Run(events[..k]);
    events[k].Peeks? && events[k].now >= l.s.nextSendAttempt && Peek(l.s, events[k].now, events[k].allowances).pending.None? && l.s.newData != []
  }

  ghost predicate Resets(events: seq<Event>, k: nat)
    requires k < |events|
  {
    var l := Run(events[..k]);
    || TakesEffect(l, events[k]) || events[k].Clears?
    || (events[k].Peeks? && events[k].now >= l.s.nextSendAttempt && Peek(l.s, events[k].now, events[k].allowances).pending.None? && l.s.newData == [])
  }

  ghost predicate RefusedAt(events: seq<Event>, k: nat)
    requires k < |events|
  {
    Refuses(events, k) && forall m :: k < m < |events| ==> !Resets(events, m)
  }

  lemma BlockedStep(l: Loop, e: Event)
    ensures Step(l, e).s.newDataBlocked ==
              if TakesEffect(l, e) || e.Clears? then false
              else if e.Peeks? && e.now >= l.s.nextSendAttempt && Peek(l.s, e.now, e.allowances).pending.None? then l.s.newData != []
              else l.s.newDataBlocked
  {
    hide FindNew;
  }

  /** What the flag remembers: it is set exactly while such a refusal stands, found or not
      what a later peek may have. */
  lemma {:induction false} BlockedSince(events: seq<Event>)
    ensures Run(events).s.newDataBlocked <==> exists k: nat :: k < |events| && RefusedAt(events, k)
    decreases |events|
  {
    hide Step, Peek, TakesEffect, Run;
    if events == [] {
      NothingRun();
    } else {
      var n := |events| - 1;
      var before := events[..n];
      BlockedSince(before);
      forall k: nat | k < n
        ensures Refuses(events, k) == Refuses(before, k) && Resets(events, k) == Resets(before, k)
      {
        assert before[..k] == events[..k];
      }
      forall k: nat | k < n
        ensures RefusedAt(events, k) <==> RefusedAt(before, k) && !Resets(events, n)
      {
        if RefusedAt(before, k) && !Resets(events, n) {
          forall m | k < m < |events|
            ensures !Resets(events, m)
          {
            assert m < n ==> !Resets(before, m);
          }
        }
        if RefusedAt(events, k) {
          forall m | k < m < |before|
            ensures !Resets(before, m)
          {
            assert !Resets(events, m);
          }
        }
      }
      BlockedAfter(events, before);
    }
  }

  lemma NothingRun()
    ensures Run([]) == Loop(NEW_SENDS, None, [])
  {
  }

  lemma BlockedAfter(events: seq<Event>, before: seq<Event>)
    requires events != [] && before == events[..|events| - 1]
    requires forall k: nat :: k < |before| ==> (RefusedAt(events, k) <==> RefusedAt(before, k) && !Resets(events, |before|))
    requires Run(before).s.newDataBlocked <==> exists k: nat :: k < |before| && RefusedAt(before, k)
    ensures Run(events).s.newDataBlocked <==> exists k: nat :: k < |events| && RefusedAt(events, k)
  {
    hide Run, Refuses, Resets;
    var n := |before|;
    FlagAfter(events, n);
    if Refuses(events, n) {
      assert RefusedAt(events, n);
    } else {
      assert !RefusedAt(events, n);
      if Run(events).s.newDataBlocked {
        var k: nat :| k < n && RefusedAt(before, k);
        assert RefusedAt(events, k);
      }
    }
  }

  lemma FlagAfter(events: seq<Event>, n: nat)
    requires |events| == n + 1
    ensures Run(events).s.newDataBlocked == (Refuses(events, n) || (!Resets(events, n) && Run(events[..n]).s.newDataBlocked))
  {
    hide Step, Peek;
    BlockedStep(Run(events[..n]), events[n]);
  }

  /** A send that failed is tried again at the time asked, exactly unless new DATA alone is
      queued and an earlier refusal still stands: then the retry is forgotten. */
  lemma RetryIsScheduled(events: seq<Event>, at: int)
    requires var l := Run(events);
             l.peeked.Some? && exists x :: x in QueueFor(l.s, l.peeked.value.priority) && x.id == l.peeked.value.packet.id
    ensures var l := Run(events);
            NextAttempt(Run(events + [Defers(at)]).s) == Some(at) <==>
              l.s.control != [] || l.s.retransmission != [] || !exists k: nat :: k < |events| && RefusedAt(events, k)
  {
    hide RefusedAt;
    BlockedSince(events);
    assert (events + [Defers(at)])[..|events|] == events;
  }

  const OPEN := Allowance(true, false, 65535, false, false)

  /** A closed window, an open one, and a write that fails. */
  const FORGOTTEN: seq<Event> := [
    Enqueues(NewData, 1, 1, [Chunk(Data, 7, 20)]),
    Peeks(0, map[]),
    Peeks(0, map[1 := OPEN]),
    Defers(5)]

  /** The packet is still queued, could be sent from time 5 on, and there is no deadline. */
  lemma FailedSendIsForgotten()
    ensures var l := Run(FORGOTTEN);
            && NextAttempt(l.s) == None
            && Peek(l.s, 5, map[1 := OPEN]).pending == Some(Pending(NewData, Queued(0, 1, 1, [Chunk(Data, 7, 20)])))
  {
    var p := Queued(0, 1, 1, [Chunk(Data, 7, 20)]);
    var l1 := Loop(NEW_SENDS.(newData := [p], nextId := 1), None, []);
    var l2 := l1.(s := l1.s.(newDataBlocked := true));
    var l3 := l2.(peeked := Some(Pending(NewData, p)));
    var l4 := l2.(s := l2.s.(nextSendAttempt := 5));
    assert FORGOTTEN[..0] == [] && FORGOTTEN[..1][..0] == [] && FORGOTTEN[..2][..1] == FORGOTTEN[..1] && FORGOTTEN[..3][..2] == FORGOTTEN[..2];
    assert Run(FORGOTTEN[..1]) == l1;
    assert Run(FORGOTTEN[..2]) == l2 by {
      assert FindNew([p], 0, [], map[]) == FindNew([p], 1, [1], map[]);
    }
    assert DataBytes(p.chunks) == 20 by { assert p.chunks[1..] == []; }
    assert FindNew([p], 0, [], map[1 := OPEN]).at == 0;
    assert Run(FORGOTTEN[..3]) == l3;
    assert FORGOTTEN[..4] == FORGOTTEN;
  }

  // ----- The code -----

  lemma {:induction false} DataBytesAppend(chunks: seq<Chunk>, i: nat)
    requires i < |chunks|
    ensures DataBytes(chunks[i..]) == (if chunks[i].kind.Data? then chunks[i].size else 0) + DataBytes(chunks[i + 1..])
  {
    assert chunks[i..][1..] == chunks[i + 1..];
  }

  method CountDataBytes(chunks: seq<Chunk>) returns (total: nat)
    ensures total == DataBytes(chunks)
  {
    total := 0;
    var i := 0;
    while i < |chunks|
      invariant 0 <= i <= |chunks| && total + DataBytes(chunks[i..]) == DataBytes(chunks)
    {
      DataBytesAppend(chunks, i);
      if chunks[i].kind.Data? {
        total := total + chunks[i].size;
      }
      i := i + 1;
    }
  }

  /** Whether an allowance lets a packet out; if the window alone refuses it, that is noted. */
  method Admit(a: Allowance, p: Queued) returns (admitted: bool, noted: Allowance)
    ensures admitted <==> Admits(a, p)
    ensures noted == if RefusedByWindow(a, p) then a.(rwndBlocked := true) else a
  {
    noted := a;
    if !a.cwndOpen || a.burstSpent {
      return false, a;
    }
    var size := CountDataBytes(p.chunks);
    if a.zeroWindowProbe || size <= a.rwnd {
      return true, a;
    }
    return false, a.(rwndBlocked := true);
  }

  class Queue {
    var control: seq<Queued>
    var retransmission: seq<Queued>
    var newData: seq<Queued>
    var nextId: nat
    var newDataBlocked: bool
    var nextSendAttempt: int

    ghost function View(): Sends
      reads this
    {
      Sends(control, retransmission, newData, nextId, newDataBlocked, nextSendAttempt)
    }

    constructor ()
      ensures View() == NEW_SENDS
    {
      control, retransmission, newData, nextId, newDataBlocked, nextSendAttempt := [], [], [], 0, false, EPOCH;
    }

    method EnqueuePacket(p: Priority, location: Location, destination: nat, chunks: seq<Chunk>)
      modifies this
      ensures View() == Enqueue(old(View()), p, location, destination, chunks)
    {
      if p.Control? && |control| >= MAX_QUEUED_CONTROL {
        return;
      }
      var queued := Queued(nextId, location, destination, chunks);
      match p {
        case Control => control := control + [queued];
        case Retransmission => retransmission := retransmission + [queued];
        case NewData => newData := newData + [queued];
      }
      nextId, newDataBlocked := nextId + 1, false;
    }

    /** The packet to send next. `None` while backing off, and otherwise exactly when
        nothing urgent waits and no association may send its first packet of new DATA. */
    method PeekPacket(now: int, allowances: Allowances) returns (pending: Option<Pending>, noted: Allowances)
      modifies this`newDataBlocked
      ensures Peeked(pending, View(), noted) == Peek(old(View()), now, allowances)
      ensures pending.None? && now >= nextSendAttempt <==>
                && now >= nextSendAttempt && control == [] && retransmission == []
                && forall k :: 0 <= k < |newData| && FirstOfIts(newData, k) ==>
                     !(newData[k].location in allowances && Admits(allowances[newData[k].location], newData[k]))
    {
      hide Admits, RefusedByWindow;
      NothingFound(newData, 0, [], allowances, allowances);
      noted := allowances;
      if now < nextSendAttempt {
        return None, allowances;
      }
      if control != [] {
        return Some(Pending(Control, control[0])), allowances;
      }
      if retransmission != [] {
        return Some(Pending(Retransmission, retransmission[0])), allowances;
      }
      var refused: seq<Location> := [];
      var i := 0;
      while i < |newData|
        invariant 0 <= i <= |newData| && FindNew(newData, i, refused, noted) == FindNew(newData, 0, [], allowances)
        invariant newDataBlocked == old(newDataBlocked)
      {
        var location := newData[i].location;
        if location !in refused {
          if location in noted {
            var admitted, a := Admit(noted[location], newData[i]);
            if admitted {
              return Some(Pending(NewData, newData[i])), noted;
            }
            NotedAllowance(noted, location, a);
            noted := noted[location := a];
          }
          refused := refused + [location];
        }
        i := i + 1;
      }
      newDataBlocked := newData != [];
      pending := None;
    }

    /** Removes what was peeked, if it is still there. */
    method CommitPacket(p: Pending)
      modifies this
      ensures View() == Commit(old(View()), p)
    {
      match p.priority {
        case Control => control := WithoutId(control, p.packet.id);
        case Retransmission => retransmission := WithoutId(retransmission, p.packet.id);
        case NewData => newData := WithoutId(newData, p.packet.id);
      }
      nextSendAttempt := EPOCH;
    }

    /** Until then no peek finds a packet. */
    method Defer(retryAt: int)
      modifies this`nextSendAttempt
      ensures View() == old(View()).(nextSendAttempt := retryAt)
      ensures forall now, allowances :: now < retryAt ==> Peek(View(), now, allowances).pending.None?
    {
      nextSendAttempt := retryAt;
    }

    method PurgePackets(location: Location)
      modifies this`control, this`retransmission, this`newData
      ensures View() == Purge(old(View()), location)
    {
      control := Purged(control, location);
      retransmission := Purged(retransmission, location);
      newData := Purged(newData, location);
    }

    /** Both removals from the queued retransmissions: acknowledged DATA, or one kind of
        chunk with the ERROR bundled behind it. Packets left empty go. */
    method TrimRetransmissions(location: Location, t: Trim)
      modifies this`retransmission
      ensures View() == old(View()).(retransmission := Trimmed(old(retransmission), location, t))
    {
      hide TrimmedChunks;
      var retained: seq<Queued> := [];
      while retransmission != []
        invariant retained + Trimmed(retransmission, location, t) == Trimmed(old(retransmission), location, t)
        decreases |retransmission|
      {
        var queued := retransmission[0];
        TrimmedStep(retained, retransmission, location, t);
        retransmission := retransmission[1..];
        queued := queued.(chunks := TrimmedChunks(queued, location, t));
        if queued.chunks != [] {
          retained := retained + [queued];
        }
      }
      assert retained + [] == retained;
      retransmission := retained;
    }

    method NextDeadline() returns (d: Option<int>)
      ensures d == NextAttempt(View())
    {
      if control == [] && retransmission == [] && (newData == [] || newDataBlocked) {
        return None;
      }
      return Some(nextSendAttempt);
    }

    method Clear()
      modifies this
      ensures View() == NEW_SENDS.(nextId := old(nextId))
    {
      control, retransmission, newData, newDataBlocked, nextSendAttempt := [], [], [], false, EPOCH;
    }
  }

  lemma NotedAllowance(a: Allowances, location: Location, noted: Allowance)
    requires location in a
    ensures noted == a[location] ==> a[location := noted] == a
  {
  }

  lemma TrimmedStep(retained: seq<Queued>, q: seq<Queued>, location: Location, t: Trim)
    requires q != []
    ensures var kept := TrimmedChunks(q[0], location, t);
            retained + Trimmed(q, location, t) == (if kept == [] then retained else retained + [q[0].(chunks := kept)]) + Trimmed(q[1..], location, t)
  {
    hide TrimmedChunks;
  }
}
