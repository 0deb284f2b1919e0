/** The timer heap (src/expiration_queue.cpp). A heap cannot erase from the middle, so a
    cancelled or replaced timer stays in it under an old generation and is dropped when it
    surfaces. The class is proved to be a plain map from keys to timers: `timers` is what
    the caller sees, and no stale entry ever shows. */
module TimerHeap {

  datatype TimerKind = T1Init | T1Cookie | T3Rtx | DelayedSack | Heartbeat | T2Shutdown | T5ShutdownGuard | ZeroWindowProbe

  datatype Key = Key(location: nat, kind: TimerKind, path: nat)

  /** What a plain map would hold for a key. `retry` stands for the packet to send again. */
  datatype Timer = Timer(deadline: int, retry: nat)

  datatype Entry = Entry(key: Key, expiration: int, generation: nat, retry: nat)

  datatype Deadline = NoDeadline | At(time: int)

  type Timers = map<Key, Timer>

  // ----- The plain map -----

  function Due(timers: Timers, now: int): set<Key> {
    set k | k in timers && timers[k].deadline <= now
  }

  function NotDue(timers: Timers, now: int): Timers {
    map k | k in timers && timers[k].deadline > now :: timers[k]
  }

  function WithoutLocation(timers: Timers, location: nat): Timers {
    map k | k in timers && k.location != location :: timers[k]
  }

  function WithoutKind(timers: Timers, location: nat, kind: TimerKind): Timers {
    map k | k in timers && !(k.location == location && k.kind == kind) :: timers[k]
  }

  function KeysOf(expired: seq<Entry>): set<Key> {
    set i | 0 <= i < |expired| :: expired[i].key
  }

  /** Timers that fire, each once, in the order of their deadlines. */
  ghost predicate Fires(timers: Timers, expired: seq<Entry>) {
    && (forall i :: 0 <= i < |expired| ==> expired[i].key in timers && timers[expired[i].key] == Timer(expired[i].expiration, expired[i].retry))
    && (forall i, j :: 0 <= i < j < |expired| ==> expired[i].key != expired[j].key && expired[i].expiration <= expired[j].expiration)
  }

  /** `expired` fires exactly the timers due. */
  ghost predicate FiresDue(timers: Timers, now: int, expired: seq<Entry>) {
    Fires(timers, expired) && KeysOf(expired) == Due(timers, now)
  }

  ghost predicate IsNext(timers: Timers, d: Deadline) {
    match d
    case NoDeadline => timers == map[]
    case At(time) => (exists k :: k in timers && timers[k].deadline == time) && forall k <- timers :: time <= timers[k].deadline
  }

  /** Draining early and again is draining once: nothing fires twice or late. */
  lemma DrainAgain(timers: Timers, now: int, later: int)
    requires now <= later
    ensures NotDue(NotDue(timers, now), later) == NotDue(timers, later)
    ensures Due(timers, now) !! Due(NotDue(timers, now), later)
    ensures Due(timers, later) == Due(timers, now) + Due(NotDue(timers, now), later)
  {
  }

  /** With nothing due until `d`, waking at the next deadline misses no timer. */
  lemma NothingDueBeforeNext(timers: Timers, d: Deadline, now: int)
    requires IsNext(timers, d)
    ensures Due(timers, now) == {} <==> d == NoDeadline || now < d.time
  {
    if d.At? {
      var k :| k in timers && timers[k].deadline == d.time;
      assert now >= d.time ==> k in Due(timers, now);
    }
  }

  // ----- The heap -----

  /** The live entry of a key, if any: the one whose generation `active` holds. */
  predicate Live(active: map<Key, nat>, e: Entry) {
    e.key in active && active[e.key] == e.generation
  }

  lemma {:induction false} EarliestExists(queue: set<Entry>) returns (top: Entry)
    requires queue != {}
    ensures top in queue && forall e <- queue :: top.expiration <= e.expiration
    decreases |queue|
  {
    var e :| e in queue;
    var rest := queue - {e};
    if rest == {} {
      assert queue == {e};
      return e;
    }
    top := EarliestExists(rest);
    if e.expiration < top.expiration {
      top := e;
    }
    forall f <- queue
      ensures top.expiration <= f.expiration
    {
      assert f == e || f in rest;
    }
  }

  /** The heap and the live generations stand for a plain map. */
  ghost predicate Represents(queue: set<Entry>, active: map<Key, nat>, next: nat, timers: Timers) {
    && (forall e <- queue :: e.generation < next)
    && (forall e, f :: e in queue && f in queue && e.generation == f.generation ==> e == f)
    && timers.Keys == active.Keys
    && (forall k <- timers :: Entry(k, timers[k].deadline, active[k], timers[k].retry) in queue)
  }

  lemma Scheduled(queue: set<Entry>, active: map<Key, nat>, next: nat, timers: Timers, key: Key, expiration: int, retry: nat)
    requires Represents(queue, active, next, timers)
    ensures Represents(queue + {Entry(key, expiration, next, retry)}, active[key := next], next + 1, timers[key := Timer(expiration, retry)])
  {
  }

  /** Fewer live generations stand for fewer timers, with the heap untouched. */
  lemma Cancelled(queue: set<Entry>, active: map<Key, nat>, next: nat, timers: Timers, fewer: map<Key, nat>, left: Timers)
    requires Represents(queue, active, next, timers) && fewer.Keys == left.Keys
    requires forall k <- left :: k in timers && left[k] == timers[k] && fewer[k] == active[k]
    ensures Represents(queue, fewer, next, left)
  {
  }

  lemma StaleDropped(queue: set<Entry>, active: map<Key, nat>, next: nat, timers: Timers, e: Entry)
    requires Represents(queue, active, next, timers) && !Live(active, e)
    ensures Represents(queue - {e}, active, next, timers)
  {
  }

  /** A live entry is what the map holds for its key. */
  lemma LiveTaken(queue: set<Entry>, active: map<Key, nat>, next: nat, timers: Timers, e: Entry)
    requires Represents(queue, active, next, timers) && e in queue && Live(active, e)
    ensures e.key in timers && timers[e.key] == Timer(e.expiration, e.retry)
    ensures Represents(queue - {e}, active - {e.key}, next, timers - {e.key})
  {
    assert Entry(e.key, timers[e.key].deadline, active[e.key], timers[e.key].retry) == e;
    var left := timers - {e.key};
    forall k <- left
      ensures Entry(k, left[k].deadline, (active - {e.key})[k], left[k].retry) in queue - {e}
    {
      assert Entry(k, timers[k].deadline, active[k], timers[k].retry) in queue;
    }
  }

  ghost predicate NoneBefore(queue: set<Entry>, time: int) {
    forall e <- queue :: time <= e.expiration
  }

  /** Timers stand no earlier than what is left in the heap. */
  lemma TimersInHeap(queue: set<Entry>, active: map<Key, nat>, next: nat, timers: Timers, time: int)
    requires Represents(queue, active, next, timers) && NoneBefore(queue, time)
    ensures forall k <- timers :: time <= timers[k].deadline
  {
  }

  /** One more timer fires. */
  lemma FiresOneMore(before: Timers, expired: seq<Entry>, e: Entry)
    requires Fires(before, expired) && e.key in before && e.key !in KeysOf(expired) && before[e.key] == Timer(e.expiration, e.retry)
    requires expired != [] ==> expired[|expired| - 1].expiration <= e.expiration
    ensures Fires(before, expired + [e]) && KeysOf(expired + [e]) == KeysOf(expired) + {e.key}
  {
    var more := expired + [e];
    forall i | 0 <= i < |expired|
      ensures expired[i].key in KeysOf(expired) && expired[i].expiration <= e.expiration
    {
    }
    assert forall i :: 0 <= i < |expired| ==> more[i] == expired[i];
    forall k | k in KeysOf(expired) + {e.key}
      ensures k in KeysOf(more)
    {
      if k == e.key {
        assert more[|expired|].key == k;
      } else {
        var i :| 0 <= i < |expired| && expired[i].key == k;
        assert more[i].key == k;
      }
    }
  }

  /** All that fired was due, and all that was due fired. */
  lemma AllFired(before: Timers, expired: seq<Entry>, left: Timers, now: int)
    requires Fires(before, expired) && left == before - KeysOf(expired)
    requires forall i :: 0 <= i < |expired| ==> expired[i].expiration <= now
    requires forall k <- left :: now + 1 <= left[k].deadline
    ensures FiresDue(before, now, expired) && left == NotDue(before, now)
  {
    forall k <- before
      ensures k in KeysOf(expired) <==> before[k].deadline <= now
    {
      assert k !in KeysOf(expired) ==> k in left;
    }
  }

  class ExpirationQueue {
    var queue: set<Entry>
    var active: map<Key, nat>
    var nextGeneration: nat
    ghost var timers: Timers

    ghost predicate Valid()
      reads this
    {
      Represents(queue, active, nextGeneration, timers)
    }

    constructor ()
      ensures Valid() && timers == map[]
    {
      queue, active, nextGeneration, timers := {}, map[], 1, map[];
    }

    method Schedule(key: Key, expiration: int, retry: nat)
      requires Valid()
      modifies this
      ensures Valid() && timers == old(timers)[key := Timer(expiration, retry)]
    {
      Scheduled(queue, active, nextGeneration, timers, key, expiration, retry);
      var generation := nextGeneration;
      nextGeneration := nextGeneration + 1;
      active := active[key := generation];
      queue := queue + {Entry(key, expiration, generation, retry)};
      timers := timers[key := Timer(expiration, retry)];
    }

    method Cancel(key: Key)
      requires Valid()
      modifies this`active, this`timers
      ensures Valid() && timers == old(timers) - {key}
    {
      Cancelled(queue, active, nextGeneration, timers, active - {key}, timers - {key});
      active, timers := active - {key}, timers - {key};
    }

    method CancelAll(location: nat)
      requires Valid()
      modifies this`active, this`timers
      ensures Valid() && timers == WithoutLocation(old(timers), location)
    {
      var fewer := map k | k in active && k.location != location :: active[k];
      Cancelled(queue, active, nextGeneration, timers, fewer, WithoutLocation(timers, location));
      active, timers := fewer, WithoutLocation(timers, location);
    }

    method CancelAllOf(location: nat, kind: TimerKind)
      requires Valid()
      modifies this`active, this`timers
      ensures Valid() && timers == WithoutKind(old(timers), location, kind)
    {
      var fewer := map k | k in active && !(k.location == location && k.kind == kind) :: active[k];
      Cancelled(queue, active, nextGeneration, timers, fewer, WithoutKind(timers, location, kind));
      active, timers := fewer, WithoutKind(timers, location, kind);
    }

    method IsActive(key: Key) returns (r: bool)
      requires Valid()
      ensures r <==> key in timers
    {
      r := key in active;
    }

    method Clear()
      requires Valid()
      modifies this`queue, this`active, this`timers
      ensures Valid() && timers == map[]
    {
      queue, active, timers := {}, map[], map[];
    }

    /** Some entry with the earliest expiration, as the heap's top is. */
    method Top() returns (top: Entry)
      requires queue != {}
      ensures top in queue && NoneBefore(queue, top.expiration)
    {
      ghost var earliest := EarliestExists(queue);
      top :| top in queue && forall e <- queue :: top.expiration <= e.expiration;
    }

    method DrainExpired(now: int) returns (expired: seq<Entry>)
      requires Valid()
      modifies this`queue, this`active, this`timers
      ensures Valid()
      ensures FiresDue(old(timers), now, expired) && timers == NotDue(old(timers), now)
    {
      hide Represents, Fires, Live, KeysOf, NotDue, FiresDue, Due;
      expired := [];
      NothingFired(timers);
      while queue != {}
        invariant Valid() && Fires(old(timers), expired) && timers == old(timers) - KeysOf(expired)
        invariant forall i :: 0 <= i < |expired| ==> expired[i].expiration <= now && NoneBefore(queue, expired[i].expiration)
        decreases |queue|
      {
        var top := Top();
        if top.expiration > now {
          TimersInHeap(queue, active, nextGeneration, timers, now + 1);
          AllFired(old(timers), expired, timers, now);
          return;
        }
        if Live(active, top) {
          LiveTaken(queue, active, nextGeneration, timers, top);
          FiresOneMore(old(timers), expired, top);
          active, timers := active - {top.key}, timers - {top.key};
          expired := expired + [top];
        } else {
          StaleDropped(queue, active, nextGeneration, timers, top);
        }
        queue := queue - {top};
      }
      TimersInHeap(queue, active, nextGeneration, timers, now + 1);
      AllFired(old(timers), expired, timers, now);
    }

    /** Drops the stale entries on top; what is then on top is the next timer. */
    method NextDeadline() returns (d: Deadline)
      requires Valid()
      modifies this`queue
      ensures Valid() && IsNext(timers, d)
    {
      hide Represents, Live;
      while queue != {}
        invariant Valid()
        decreases |queue|
      {
        var top := Top();
        if Live(active, top) {
          LiveTaken(queue, active, nextGeneration, timers, top);
          TimersInHeap(queue, active, nextGeneration, timers, top.expiration);
          return At(top.expiration);
        }
        StaleDropped(queue, active, nextGeneration, timers, top);
        queue := queue - {top};
      }
      NothingLeft(active, nextGeneration, timers);
      return NoDeadline;
    }
  }

  lemma NothingFired(timers: Timers)
    ensures Fires(timers, []) && KeysOf([]) == {} && timers - KeysOf([]) == timers
  {
  }

  lemma NothingLeft(active: map<Key, nat>, next: nat, timers: Timers)
    requires Represents({}, active, next, timers)
    ensures timers == map[]
  {
  }
}
