/** What the send queue hands out and what it gives up, exactly: which packet a peek finds
    among everything queued, which associations it notes as held back by their window, the
    order in which packets are served, and what purging and trimming remove. */
module SendOrder {
  import opened SendQueue

  // ----- What a peek finds -----

  /** The association of packet `k` may send it. */
  predicate Admitted(newData: seq<Queued>, allowances: Allowances, k: nat)
    requires k < |newData|
  {
    newData[k].location in allowances && Admits(allowances[newData[k].location], newData[k])
  }

  /** Among the first `n` packets, the first of association `l` is refused by the window. */
  ghost predicate HeldByWindow(newData: seq<Queued>, allowances: Allowances, n: nat, l: Location)
    requires n <= |newData|
  {
    l in allowances && exists k :: 0 <= k < n && FirstOfIts(newData, k) && newData[k].location == l && RefusedByWindow(allowances[l], newData[k])
  }

  /** What is known after the first `n` packets have been looked at. */
  ghost predicate Looked(newData: seq<Queued>, n: nat, refused: seq<Location>, noted: Allowances, allowances: Allowances)
    requires n <= |newData|
  {
    && noted.Keys == allowances.Keys
    && (forall k :: 0 <= k < n ==> newData[k].location in refused)
    && (forall l <- refused :: exists k :: 0 <= k < n && newData[k].location == l)
    && (forall k :: 0 <= k < n && FirstOfIts(newData, k) ==> !Admitted(newData, allowances, k))
    && (forall l <- allowances :: noted[l] == allowances[l].(rwndBlocked := allowances[l].rwndBlocked || HeldByWindow(newData, allowances, n, l)))
  }

  lemma LookAtRefused(newData: seq<Queued>, n: nat, refused: seq<Location>, noted: Allowances, allowances: Allowances)
    requires n < |newData| && Looked(newData, n, refused, noted, allowances) && newData[n].location in refused
    ensures Looked(newData, n + 1, refused, noted, allowances)
  {
    hide Admits, RefusedByWindow, HeldByWindow, Admitted;
    var k :| 0 <= k < n && newData[k].location == newData[n].location;
    assert !FirstOfIts(newData, n);
    forall l <- allowances
      ensures HeldByWindow(newData, allowances, n + 1, l) <==> HeldByWindow(newData, allowances, n, l)
    {
      HeldAlready(newData, allowances, n, l);
    }
    hide FirstOfIts;
  }

  lemma HeldAlready(newData: seq<Queued>, allowances: Allowances, n: nat, l: Location)
    requires n < |newData| && !FirstOfIts(newData, n)
    ensures HeldByWindow(newData, allowances, n + 1, l) <==> HeldByWindow(newData, allowances, n, l)
  {
    hide RefusedByWindow, FirstOfIts;
  }

  lemma LookAtFirst(newData: seq<Queued>, n: nat, refused: seq<Location>, noted: Allowances, allowances: Allowances)
    requires n < |newData| && Looked(newData, n, refused, noted, allowances) && newData[n].location !in refused
    ensures FirstOfIts(newData, n)
    ensures newData[n].location in allowances ==>
              var l := newData[n].location;
              && !HeldByWindow(newData, allowances, n, l) && noted[l] == allowances[l]
    ensures Admitted(newData, noted, n) <==> Admitted(newData, allowances, n)
  {
    hide RefusedByWindow, DataBytes;
  }

  lemma LookOn(newData: seq<Queued>, n: nat, refused: seq<Location>, noted: Allowances, allowances: Allowances)
    requires n < |newData| && Looked(newData, n, refused, noted, allowances) && newData[n].location !in refused
    requires !Admitted(newData, noted, n)
    ensures var p := newData[n];
            var flagged := if p.location in noted && RefusedByWindow(noted[p.location], p) then noted[p.location := noted[p.location].(rwndBlocked := true)] else noted;
            Looked(newData, n + 1, refused + [p.location], flagged, allowances)
  {
    LookAtFirst(newData, n, refused, noted, allowances);
    hide Admits, RefusedByWindow;
    var p := newData[n];
    forall l <- refused + [p.location]
      ensures exists k :: 0 <= k < n + 1 && newData[k].location == l
    {
      if l in refused {
        var k :| 0 <= k < n && newData[k].location == l;
        assert newData[k].location == l;
      } else {
        assert newData[n].location == l;
      }
    }
    forall l <- allowances
      ensures HeldByWindow(newData, allowances, n + 1, l) <==>
                HeldByWindow(newData, allowances, n, l) || (l == p.location && RefusedByWindow(allowances[l], p))
    {
      if HeldByWindow(newData, allowances, n, l) {
        var k :| 0 <= k < n && FirstOfIts(newData, k) && newData[k].location == l && RefusedByWindow(allowances[l], newData[k]);
        assert FirstOfIts(newData, k);
      }
    }
  }

  /** The search stops at the first packet, in queue order, that is the first of its
      association and that it may send; and it notes exactly the associations whose first
      packet on the way was held back by the window alone. */
  lemma {:induction false} SearchFinds(newData: seq<Queued>, n: nat, refused: seq<Location>, noted: Allowances, allowances: Allowances)
    requires n <= |newData| && Looked(newData, n, refused, noted, allowances)
    ensures var r := FindNew(newData, n, refused, noted);
            && (forall k :: 0 <= k < r.at && FirstOfIts(newData, k) ==> !Admitted(newData, allowances, k))
            && (r.at < |newData| ==> FirstOfIts(newData, r.at) && Admitted(newData, allowances, r.at))
            && r.allowances.Keys == allowances.Keys
            && (forall l <- allowances :: r.allowances[l] == allowances[l].(rwndBlocked := allowances[l].rwndBlocked || HeldByWindow(newData, allowances, r.at, l)))
    decreases |newData| - n
  {
    hide Admits, RefusedByWindow, HeldByWindow;
    if n < |newData| {
      var p := newData[n];
      if p.location in refused {
        LookAtRefused(newData, n, refused, noted, allowances);
        SearchFinds(newData, n + 1, refused, noted, allowances);
      } else {
        LookAtFirst(newData, n, refused, noted, allowances);
        if !Admitted(newData, noted, n) {
          LookOn(newData, n, refused, noted, allowances);
          var flagged := if p.location in noted && RefusedByWindow(noted[p.location], p) then noted[p.location := noted[p.location].(rwndBlocked := true)] else noted;
          SearchFinds(newData, n + 1, refused + [p.location], flagged, allowances);
        }
      }
    }
  }

  /** The first packet of new DATA that may go. */
  ghost predicate FirstAdmitted(newData: seq<Queued>, allowances: Allowances, at: nat)
    requires at < |newData|
  {
    && FirstOfIts(newData, at) && Admitted(newData, allowances, at)
    && forall k :: 0 <= k < at && FirstOfIts(newData, k) ==> !Admitted(newData, allowances, k)
  }

  /** A peek, exactly: nothing while backing off; else the oldest control packet; else the
      oldest retransmission; else the first packet of new DATA that may go, or nothing. */
  lemma PeekIsByPriority(s: Sends, now: int, allowances: Allowances)
    ensures var p := Peek(s, now, allowances).pending;
            if now < s.nextSendAttempt then p == None
            else if s.control != [] then p == Some(Pending(Control, s.control[0]))
            else if s.retransmission != [] then p == Some(Pending(Retransmission, s.retransmission[0]))
            else if exists at :: 0 <= at < |s.newData| && FirstAdmitted(s.newData, allowances, at)
                 then p.Some? && p.value.priority.NewData? && exists at :: 0 <= at < |s.newData| && FirstAdmitted(s.newData, allowances, at) && p.value.packet == s.newData[at]
            else p == None
  {
    NothingLooked(s.newData, allowances);
    SearchFinds(s.newData, 0, [], allowances, allowances);
    hide FindNew, Admits, HeldByWindow, Looked;
    var at := FindNew(s.newData, 0, [], allowances).at;
    if at < |s.newData| {
      assert FirstAdmitted(s.newData, allowances, at);
    }
  }

  lemma NothingLooked(newData: seq<Queued>, allowances: Allowances)
    ensures Looked(newData, 0, [], allowances, allowances)
  {
  }

  /** What the event loop learns of an association held back by its window. */
  lemma PeekNotes(s: Sends, now: int, allowances: Allowances, l: Location)
    requires now >= s.nextSendAttempt && s.control == [] && s.retransmission == [] && l in allowances
    ensures var r := Peek(s, now, allowances);
            && l in r.allowances
            && (r.pending.None? ==> (r.allowances[l].rwndBlocked <==> allowances[l].rwndBlocked || HeldByWindow(s.newData, allowances, |s.newData|, l)))
            && r.allowances[l] == allowances[l].(rwndBlocked := r.allowances[l].rwndBlocked)
  {
    NothingLooked(s.newData, allowances);
    SearchFinds(s.newData, 0, [], allowances, allowances);
    hide FindNew, Admits, HeldByWindow, Looked;
  }

  // ----- The order of service -----

  /** One round of the event loop: peek, write, commit. */
  function Serve(s: Sends, now: int, allowances: Allowances): Sends {
    var p := Peek(s, now, allowances);
    if p.pending.None? then p.sends else Commit(p.sends, p.pending.value)
  }

  function Rounds(s: Sends, now: int, allowances: Allowances, n: nat): Sends {
    if n == 0 then s else Serve(Rounds(s, now, allowances, n - 1), now, allowances)
  }

  lemma HeadGoes(q: seq<Queued>)
    requires q != []
    ensures WithoutId(q, q[0].id) == q[1..]
  {
  }

  lemma ServesUrgent(s: Sends, now: int, allowances: Allowances)
    requires now >= s.nextSendAttempt && (s.control != [] || s.retransmission != [])
    ensures var r, urgent := Serve(s, now, allowances), s.control + s.retransmission;
            && r.control + r.retransmission == urgent[1..]
            && r.control == (if s.control != [] then s.control[1..] else [])
            && r.newData == s.newData && r.nextSendAttempt == EPOCH
            && Peek(s, now, allowances).pending.Some? && Peek(s, now, allowances).pending.value.packet == urgent[0]
  {
    hide FindNew, WithoutId;
    if s.control != [] {
      HeadGoes(s.control);
    } else {
      HeadGoes(s.retransmission);
    }
  }

  /** What is urgent is served first in, first out, control before retransmissions, and new
      DATA stays where it is until all of it has gone. */
  lemma {:induction false} ServedInOrder(s: Sends, now: int, allowances: Allowances, n: nat)
    requires now >= s.nextSendAttempt && now >= EPOCH && n <= |s.control| + |s.retransmission|
    ensures var r := Rounds(s, now, allowances, n);
            && r.control + r.retransmission == (s.control + s.retransmission)[n..]
            && r.control == (if n <= |s.control| then s.control[n..] else [])
            && r.newData == s.newData && now >= r.nextSendAttempt
            && (n < |s.control| + |s.retransmission| ==>
                  var p := Peek(r, now, allowances).pending; p.Some? && p.value.packet == (s.control + s.retransmission)[n])
    decreases n
  {
    hide Serve, Peek;
    var urgent := s.control + s.retransmission;
    if n > 0 {
      ServedInOrder(s, now, allowances, n - 1);
      ServesUrgent(Rounds(s, now, allowances, n - 1), now, allowances);
      assert urgent[n - 1..][1..] == urgent[n..];
    }
    if n < |urgent| {
      var r := Rounds(s, now, allowances, n);
      assert r.control + r.retransmission == urgent[n..] && urgent[n..][0] == urgent[n];
      ServesUrgent(r, now, allowances);
    }
  }

  /** A packet joins the end of its queue under an identifier not used before and wakes the
      event loop, unless it is control and 256 of those wait already. */
  lemma EnqueueAppends(s: Sends, p: Priority, location: Location, destination: nat, chunks: seq<Chunk>)
    requires Sound(s)
    ensures var r := Enqueue(s, p, location, destination, chunks);
            var q, q' := QueueFor(s, p), QueueFor(r, p);
            && (forall o: Priority :: o != p ==> QueueFor(r, o) == QueueFor(s, o))
            && (p.Control? && |s.control| >= 256 ==> r == s)
            && (!(p.Control? && |s.control| >= 256) ==>
                  && |q'| == |q| + 1 && q <= q'
                  && q'[|q|].location == location && q'[|q|].destination == destination && q'[|q|].chunks == chunks
                  && (forall o: Priority, x :: x in QueueFor(s, o) ==> x.id != q'[|q|].id)
                  && NextAttempt(r) == Some(s.nextSendAttempt))
  {
    hide Sound;
    EnqueueSound(s, p, Queued(s.nextId, location, destination, chunks));
  }

  // ----- What is removed -----

  /** Purging an association removes its packets and no others, and keeps the order. */
  lemma {:induction false} PurgedIs(q: seq<Queued>, location: Location, x: Queued)
    ensures x in Purged(q, location) <==> x in q && x.location != location
    ensures Shrinks(Purged(q, location), q)
  {
    PurgedShrinks(q, location);
    if q != [] {
      PurgedIs(q[1..], location, x);
      assert x in q <==> x == q[0] || x in q[1..];
    }
  }

  /** Trimming drops this chunk of this packet. */
  predicate Drops(p: Queued, location: Location, t: Trim, c: Chunk) {
    && p.location == location
    && match t
       case AckedData(acked) => c.kind.Data? && c.tsn in acked
       case OfKind(kind, destination) =>
         && (destination.None? || destination.value == p.destination)
         && (exists d <- p.chunks :: d.kind == kind)
         && (c.kind == kind || c.kind.OpError?)
  }

  lemma KeptIs(p: Queued, location: Location, t: Trim, c: Chunk)
    ensures c in TrimmedChunks(p, location, t) <==> c in p.chunks && !Drops(p, location, t, c)
  {
    if p.location == location {
      match t
      case AckedData(acked) => FilteredFrom(p.chunks, (c: Chunk) => c.kind.Data? && c.tsn in acked);
      case OfKind(kind, destination) => FilteredFrom(p.chunks, (c: Chunk) => c.kind == kind || c.kind.OpError?);
    }
  }

  /** `x` is what trimming leaves of `y`. */
  ghost predicate LeftOf(x: Queued, y: Queued, location: Location, t: Trim) {
    && x == y.(chunks := x.chunks) && x.chunks != []
    && forall c :: c in x.chunks <==> c in y.chunks && !Drops(y, location, t, c)
  }

  /** Trimming leaves of each packet the chunks it does not drop, and drops the packets it
      leaves none of. */
  lemma {:induction false} TrimmedIs(q: seq<Queued>, location: Location, t: Trim)
    ensures forall x <- Trimmed(q, location, t) :: exists y :: y in q && LeftOf(x, y, location, t)
    ensures forall y <- q :: (exists c :: c in y.chunks && !Drops(y, location, t, c)) ==> exists x :: x in Trimmed(q, location, t) && LeftOf(x, y, location, t)
  {
    hide TrimmedChunks, Drops, LeftOf;
    if q != [] {
      var rest := Trimmed(q[1..], location, t);
      var all := Trimmed(q, location, t);
      var head := q[0].(chunks := TrimmedChunks(q[0], location, t));
      TrimmedIs(q[1..], location, t);
      HeadIsLeft(q[0], location, t);
      forall x <- all
        ensures exists y :: y in q && LeftOf(x, y, location, t)
      {
        if x in rest {
          var y :| y in q[1..] && LeftOf(x, y, location, t);
          assert y in q;
        } else {
          assert q[0] in q && x == head;
        }
      }
      forall y <- q | exists c :: c in y.chunks && !Drops(y, location, t, c)
        ensures exists x :: x in all && LeftOf(x, y, location, t)
      {
        if y == q[0] {
          assert head in all;
        } else {
          assert y in q[1..];
          var x :| x in rest && LeftOf(x, y, location, t);
          assert x in all;
        }
      }
    }
  }

  lemma HeadIsLeft(y: Queued, location: Location, t: Trim)
    ensures var kept := TrimmedChunks(y, location, t);
            && (kept != [] ==> LeftOf(y.(chunks := kept), y, location, t))
            && ((exists c :: c in y.chunks && !Drops(y, location, t, c)) ==> kept != [])
  {
    hide TrimmedChunks, Drops;
    forall c
      ensures c in TrimmedChunks(y, location, t) <==> c in y.chunks && !Drops(y, location, t, c)
    {
      KeptIs(y, location, t, c);
    }
  }

  // ----- What an allowance admits -----

  lemma {:induction false} DataBytesAdds(a: seq<Chunk>, b: seq<Chunk>)
    ensures DataBytes(a + b) == DataBytes(a) + DataBytes(b)
  {
    if a == [] {
      assert a + b == b;
    } else {
      DataBytesAdds(a[1..], b);
      assert (a + b)[1..] == a[1..] + b;
    }
  }

  /** A chunk counts against the window exactly if it is DATA. */
  lemma OnlyDataCounts(p: Queued, c: Chunk)
    ensures DataBytes(p.chunks + [c]) == DataBytes(p.chunks) + (if c.kind == Data then c.size else 0)
  {
    DataBytesAdds(p.chunks, [c]);
    assert [c][1..] == [];
  }

  /** A closed congestion window or a spent burst admits nothing, and is not the window's
      doing; otherwise a probe admits anything, and without one a packet goes exactly if its
      DATA fits the window, and is held by the window if not. */
  lemma AllowanceIs(a: Allowance, p: Queued)
    ensures !a.cwndOpen || a.burstSpent ==> !Admits(a, p) && !RefusedByWindow(a, p)
    ensures a.cwndOpen && !a.burstSpent && a.zeroWindowProbe ==> Admits(a, p)
    ensures a.cwndOpen && !a.burstSpent && !a.zeroWindowProbe ==> (Admits(a, p) <==> DataBytes(p.chunks) <= a.rwnd)
    ensures a.cwndOpen && !a.burstSpent ==> (RefusedByWindow(a, p) <==> !Admits(a, p))
  {
  }
}
