/** Cutting queued messages into DATA chunks: `cut_new_data` of src/socket_event_loop.cpp
    and the queueing half of `sctp_send_data`. One call builds one packet. */
module Cutting {
  import opened Serial
  import opened ReceiveSpec

  const DATA_CHUNK_HEADER_SIZE: nat := 16

  /** Queued by the ULP; the bytes before `offset` are already cut. */
  datatype Outbound = Outbound(stream: U16, ssn: U16, unordered: bool, bytes: Bytes, offset: nat)

  function RoundUp(n: nat): nat {
    (n + 3) / 4 * 4
  }

  function RoundDown(n: nat): nat {
    n / 4 * 4
  }

  function WireSize(payload: nat): nat {
    DATA_CHUNK_HEADER_SIZE + RoundUp(payload)
  }

  /** What the association and the peer allow a packet to be. */
  datatype Limits = Limits(pmdcs: nat, rwnd: nat, peerMaxRwnd: nat, probe: bool)

  /** The largest payload of a fragment. */
  function FullFragment(pmdcs: nat): nat
    requires pmdcs >= 20
  {
    RoundDown(pmdcs - DATA_CHUNK_HEADER_SIZE)
  }

  function Minimum(a: nat, b: nat): nat {
    if a < b then a else b
  }

  /** What is left of the peer's window for the next chunk of a packet. */
  function WindowLeft(limits: Limits, packetBytes: nat, first: bool): nat
    requires packetBytes <= limits.pmdcs
  {
    var space := limits.pmdcs - packetBytes;
    if limits.probe && first then space
    else Minimum(space, if limits.rwnd > packetBytes then limits.rwnd - packetBytes else 0)
  }

  /** How many bytes of the message at the head go into the next chunk; 0 for none. */
  function Take(limits: Limits, m: Outbound, packetBytes: nat, first: bool): nat
    requires limits.pmdcs >= 20 && packetBytes <= limits.pmdcs && m.offset <= |m.bytes|
  {
    var full := FullFragment(limits.pmdcs);
    var take := Minimum(|m.bytes| - m.offset, full);
    var window := WindowLeft(limits, packetBytes, first);
    if WireSize(take) <= window then
      take
    else
      var cut := if window > DATA_CHUNK_HEADER_SIZE then RoundDown(window - DATA_CHUNK_HEADER_SIZE) else 0;
      if |m.bytes| <= full || cut == 0 || WireSize(cut) < limits.peerMaxRwnd / 2 then 0 else cut
  }

  function NextFragment(m: Outbound, take: nat): Fragment
    requires m.offset + take <= |m.bytes|
  {
    Fragment(m.stream, m.ssn, m.unordered, m.offset == 0, m.offset + take == |m.bytes|, m.bytes[m.offset..m.offset + take])
  }

  /** The queue once `take` bytes of its head have been cut. */
  function Advance(outbound: seq<Outbound>, take: nat): seq<Outbound>
    requires outbound != [] && outbound[0].offset + take <= |outbound[0].bytes|
  {
    var m := outbound[0];
    if m.offset + take == |m.bytes| then outbound[1..] else [m.(offset := m.offset + take)] + outbound[1..]
  }

  /** A queue holds messages with something left to cut, begun only at the head. */
  predicate ValidQueue(outbound: seq<Outbound>) {
    forall j :: 0 <= j < |outbound| ==> outbound[j].offset < |outbound[j].bytes| && (j > 0 ==> outbound[j].offset == 0)
  }

  function BytesLeft(outbound: seq<Outbound>): nat
    requires ValidQueue(outbound)
  {
    if outbound == [] then 0 else |outbound[0].bytes| - outbound[0].offset + BytesLeft(outbound[1..])
  }

  datatype Cut = Cut(fragments: seq<Fragment>, outbound: seq<Outbound>, packetBytes: nat)

  /** The arithmetic of one chunk. */
  lemma TakeFits(limits: Limits, m: Outbound, packetBytes: nat, first: bool)
    requires limits.pmdcs >= 20 && packetBytes <= limits.pmdcs && m.offset < |m.bytes|
    ensures var take := Take(limits, m, packetBytes, first);
            && take <= |m.bytes| - m.offset
            && (take > 0 ==> packetBytes + WireSize(take) <= limits.pmdcs && take <= FullFragment(limits.pmdcs))
            && (take > 0 && !(limits.probe && first) ==> packetBytes + WireSize(take) <= limits.rwnd)
            && (take > 0 && |m.bytes| <= FullFragment(limits.pmdcs) ==> m.offset + take == |m.bytes|)
  {
  }

  /** A fragment is cut short to fit the window only if its message could not go whole, and
      only if it still fills half the largest window the peer has offered. */
  lemma CutShortIsWorthwhile(limits: Limits, m: Outbound, packetBytes: nat, first: bool)
    requires limits.pmdcs >= 20 && packetBytes <= limits.pmdcs && m.offset < |m.bytes|
    ensures var take := Take(limits, m, packetBytes, first);
            0 < take < Minimum(|m.bytes| - m.offset, FullFragment(limits.pmdcs)) ==>
              && |m.bytes| > FullFragment(limits.pmdcs)
              && WireSize(take) >= limits.peerMaxRwnd / 2
              && WindowLeft(limits, packetBytes, first) - WireSize(take) < 4
  {
  }

  /** The rest of a packet that already takes `packetBytes`. */
  function CutFrom(limits: Limits, outbound: seq<Outbound>, packetBytes: nat, first: bool): (r: Cut)
    requires limits.pmdcs >= 20 && packetBytes <= limits.pmdcs && ValidQueue(outbound)
    ensures ValidQueue(r.outbound)
    ensures packetBytes <= r.packetBytes <= limits.pmdcs
    decreases BytesLeft(outbound)
  {
    if outbound == [] then
      Cut([], outbound, packetBytes)
    else
      var take := Take(limits, outbound[0], packetBytes, first);
      if take == 0 then
        Cut([], outbound, packetBytes)
      else
        TakeFits(limits, outbound[0], packetBytes, first);
        var rest := Advance(outbound, take);
        assert ValidQueue(rest) && BytesLeft(rest) == BytesLeft(outbound) - take by { AdvanceLeaves(outbound, take); }
        if limits.probe && first then
          Cut([NextFragment(outbound[0], take)], rest, packetBytes + WireSize(take))
        else
          var more := CutFrom(limits, rest, packetBytes + WireSize(take), false);
          more.(fragments := [NextFragment(outbound[0], take)] + more.fragments)
  }

  lemma AdvanceLeaves(outbound: seq<Outbound>, take: nat)
    requires ValidQueue(outbound) && outbound != [] && 0 < take <= |outbound[0].bytes| - outbound[0].offset
    ensures ValidQueue(Advance(outbound, take))
    ensures BytesLeft(Advance(outbound, take)) == BytesLeft(outbound) - take
  {
    var rest := Advance(outbound, take);
    if outbound[0].offset + take < |outbound[0].bytes| {
      assert rest[1..] == outbound[1..];
    }
  }

  // ----- What one packet is -----

  function PacketSize(fragments: seq<Fragment>): nat {
    if fragments == [] then 0 else WireSize(|fragments[0].bytes|) + PacketSize(fragments[1..])
  }

  /** A packet stays within the PMDCS and, unless it probes a closed window with a single
      chunk, within the peer's window; no chunk is empty or beyond a full fragment. */
  lemma {:induction false} PacketBounds(limits: Limits, outbound: seq<Outbound>, packetBytes: nat, first: bool)
    requires limits.pmdcs >= 20 && packetBytes <= limits.pmdcs && ValidQueue(outbound)
    requires !first && packetBytes > 0 ==> packetBytes <= limits.rwnd
    ensures var r := CutFrom(limits, outbound, packetBytes, first);
            && r.packetBytes == packetBytes + PacketSize(r.fragments) <= limits.pmdcs
            && (limits.probe && first ==> |r.fragments| <= 1)
            && (!(limits.probe && first) && r.fragments != [] ==> r.packetBytes <= limits.rwnd)
            && (forall x :: 0 <= x < |r.fragments| ==> 0 < |r.fragments[x].bytes| <= FullFragment(limits.pmdcs))
    decreases BytesLeft(outbound)
  {
    hide Take, FullFragment, WireSize, RoundUp, Advance;
    if outbound != [] {
      var take := Take(limits, outbound[0], packetBytes, first);
      if take > 0 {
        TakeFits(limits, outbound[0], packetBytes, first);
        AdvanceLeaves(outbound, take);
        var rest := Advance(outbound, take);
        if !(limits.probe && first) {
          PacketBounds(limits, rest, packetBytes + WireSize(take), false);
        }
      }
    }
  }

  /** What is cut is what the queue no longer holds. */
  lemma {:induction false} CutBytes(limits: Limits, outbound: seq<Outbound>, packetBytes: nat, first: bool)
    requires limits.pmdcs >= 20 && packetBytes <= limits.pmdcs && ValidQueue(outbound)
    ensures var r := CutFrom(limits, outbound, packetBytes, first);
            BytesLeft(outbound) == BytesLeft(r.outbound) + Payload(r.fragments)
    decreases BytesLeft(outbound)
  {
    hide Take, WireSize, RoundUp, Advance;
    if outbound != [] {
      var take := Take(limits, outbound[0], packetBytes, first);
      if take > 0 {
        TakeFits(limits, outbound[0], packetBytes, first);
        AdvanceLeaves(outbound, take);
        if !(limits.probe && first) {
          CutBytes(limits, Advance(outbound, take), packetBytes + WireSize(take), false);
        }
      }
    }
  }

  function Payload(fragments: seq<Fragment>): nat {
    if fragments == [] then 0 else |fragments[0].bytes| + Payload(fragments[1..])
  }

  // ----- Nothing that could be sent is left behind -----

  /** With `left` bytes of packet and window left, nothing of the head of the queue can go:
      its next chunk does not fit, and either it is not to be split or every smaller chunk
      of it that fits is less than half the largest window the peer has offered. */
  ghost predicate Exhausted(limits: Limits, outbound: seq<Outbound>, left: int)
    requires limits.pmdcs >= 20 && ValidQueue(outbound)
  {
    outbound != [] ==>
      var m, full := outbound[0], FullFragment(limits.pmdcs);
      && WireSize(Minimum(|m.bytes| - m.offset, full)) > left
      && (|m.bytes| > full ==> forall n: nat :: n % 4 == 0 && 0 < n && WireSize(n) <= left ==> WireSize(n) < limits.peerMaxRwnd / 2)
  }

  /** What is left of packet and window. */
  function Left(limits: Limits, packetBytes: nat): int {
    if limits.pmdcs < limits.rwnd then limits.pmdcs - packetBytes else limits.rwnd - packetBytes
  }

  lemma NothingFits(limits: Limits, outbound: seq<Outbound>, packetBytes: nat, first: bool)
    requires limits.pmdcs >= 20 && packetBytes <= limits.pmdcs && ValidQueue(outbound) && outbound != []
    requires !(limits.probe && first) && Take(limits, outbound[0], packetBytes, first) == 0
    ensures Exhausted(limits, outbound, Left(limits, packetBytes))
  {
    var m := outbound[0];
    var window := WindowLeft(limits, packetBytes, first);
    forall n: nat | |m.bytes| > FullFragment(limits.pmdcs) && n % 4 == 0 && 0 < n && WireSize(n) <= Left(limits, packetBytes)
      ensures WireSize(n) < limits.peerMaxRwnd / 2
    {
      assert n <= RoundDown(window - DATA_CHUNK_HEADER_SIZE);
    }
  }

  /** A packet is as full as it can be: unless it probes, it leaves nothing in the queue that
      could still have gone into it. */
  lemma {:induction false} PacketIsFull(limits: Limits, outbound: seq<Outbound>, packetBytes: nat, first: bool)
    requires limits.pmdcs >= 20 && packetBytes <= limits.pmdcs && ValidQueue(outbound)
    requires !(limits.probe && first)
    ensures var r := CutFrom(limits, outbound, packetBytes, first);
            Exhausted(limits, r.outbound, Left(limits, r.packetBytes))
    decreases BytesLeft(outbound)
  {
    hide Take, FullFragment, WireSize, Advance, Exhausted, Left;
    if outbound == [] {
      NothingQueued(limits, packetBytes);
    } else {
      var take := Take(limits, outbound[0], packetBytes, first);
      if take > 0 {
        TakeFits(limits, outbound[0], packetBytes, first);
        AdvanceLeaves(outbound, take);
        PacketIsFull(limits, Advance(outbound, take), packetBytes + WireSize(take), false);
      } else {
        NothingFits(limits, outbound, packetBytes, first);
      }
    }
  }

  lemma NothingQueued(limits: Limits, packetBytes: nat)
    requires limits.pmdcs >= 20
    ensures Exhausted(limits, [], Left(limits, packetBytes))
  {
  }

  /** A fragment that neither ends its message nor is full is the last of its packet, which
      then has less than four bytes left. */
  predicate FullOrLast(limits: Limits, fragments: seq<Fragment>, packetBytes: nat, x: nat)
    requires limits.pmdcs >= 20 && x < |fragments|
  {
    || fragments[x].ends
    || |fragments[x].bytes| == FullFragment(limits.pmdcs)
    || (x == |fragments| - 1 && Left(limits, packetBytes) < 4)
  }

  lemma {:induction false} ShortOnlyAtTheEnd(limits: Limits, outbound: seq<Outbound>, packetBytes: nat, first: bool, x: nat)
    requires limits.pmdcs >= 20 && packetBytes <= limits.pmdcs && ValidQueue(outbound)
    requires !(limits.probe && first) && x < |CutFrom(limits, outbound, packetBytes, first).fragments|
    ensures var r := CutFrom(limits, outbound, packetBytes, first);
            FullOrLast(limits, r.fragments, r.packetBytes, x)
    decreases BytesLeft(outbound)
  {
    hide Take, FullFragment, WireSize, Advance, Left;
    var take := Take(limits, outbound[0], packetBytes, first);
    TakeFits(limits, outbound[0], packetBytes, first);
    AdvanceLeaves(outbound, take);
    ShortFillsUp(limits, outbound, packetBytes, first);
    if x > 0 {
      ShortOnlyAtTheEnd(limits, Advance(outbound, take), packetBytes + WireSize(take), false, x - 1);
    }
  }

  /** After a short fragment nothing more goes into the packet. */
  lemma ShortFillsUp(limits: Limits, outbound: seq<Outbound>, packetBytes: nat, first: bool)
    requires limits.pmdcs >= 20 && packetBytes <= limits.pmdcs && ValidQueue(outbound) && outbound != []
    requires !(limits.probe && first)
    ensures var m, take := outbound[0], Take(limits, outbound[0], packetBytes, first);
            0 < take < Minimum(|m.bytes| - m.offset, FullFragment(limits.pmdcs)) ==>
              && packetBytes + WireSize(take) <= limits.pmdcs
              && Left(limits, packetBytes + WireSize(take)) < 4
              && ValidQueue(Advance(outbound, take))
              && CutFrom(limits, Advance(outbound, take), packetBytes + WireSize(take), false) == Cut([], Advance(outbound, take), packetBytes + WireSize(take))
  {
    var m, take := outbound[0], Take(limits, outbound[0], packetBytes, first);
    if 0 < take < Minimum(|m.bytes| - m.offset, FullFragment(limits.pmdcs)) {
      AdvanceLeaves(outbound, take);
      TakeFits(limits, m, packetBytes, first);
      CutShortIsWorthwhile(limits, m, packetBytes, first);
      hide WireSize, FullFragment, Take;
      assert WindowLeft(limits, packetBytes + WireSize(take), false) == WindowLeft(limits, packetBytes, first) - WireSize(take);
      TooTight(limits, m.(offset := m.offset + take), packetBytes + WireSize(take));
    }
  }

  lemma TooTight(limits: Limits, m: Outbound, packetBytes: nat)
    requires limits.pmdcs >= 20 && packetBytes <= limits.pmdcs && m.offset < |m.bytes| && WindowLeft(limits, packetBytes, false) < 4
    ensures Take(limits, m, packetBytes, false) == 0
  {
  }

  /** A probe of a closed window carries one chunk, as much of the head of the queue as a
      packet takes. */
  lemma ProbeIsOneChunk(limits: Limits, outbound: seq<Outbound>)
    requires limits.pmdcs >= 20 && ValidQueue(outbound) && limits.probe && outbound != []
    ensures var r := CutFrom(limits, outbound, 0, true);
            |r.fragments| == 1 && |r.fragments[0].bytes| == Minimum(|outbound[0].bytes| - outbound[0].offset, FullFragment(limits.pmdcs))
  {
  }

  /** With the window open something is always cut. */
  lemma SomethingIsCut(limits: Limits, outbound: seq<Outbound>)
    requires limits.pmdcs >= 20 && ValidQueue(outbound) && outbound != [] && (limits.probe || limits.rwnd >= limits.pmdcs)
    ensures CutFrom(limits, outbound, 0, true).fragments != []
  {
    if limits.probe {
      ProbeIsOneChunk(limits, outbound);
    } else {
      PacketIsFull(limits, outbound, 0, true);
    }
  }
}
