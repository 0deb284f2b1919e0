/** Serial-number arithmetic of TSNs (32 bits) and SSNs (16 bits), and what a SACK
    reports, as in include/sctp/utils.hpp.

    The wire carries TSNs modulo 2^32. Specifications elsewhere number TSNs without
    wrapping: index 0 is the initial TSN `t0`, and `Wire(t0, i)` is what index `i`
    looks like on the wire. `Unwrap` is the way back, relative to a nearby index. */
module Serial {

  const TSN_SPACE: int := 0x1_0000_0000
  const HALF_TSN_SPACE: int := 0x8000_0000
  const SSN_SPACE: int := 0x1_0000
  const HALF_SSN_SPACE: int := 0x8000
  const UINT16_MAX: int := 0xFFFF

  type Tsn = x: int | 0 <= x < 0x1_0000_0000
  type U16 = x: int | 0 <= x < 0x1_0000
  type Byte = x: int | 0 <= x < 0x100

  predicate TsnLt(a: Tsn, b: Tsn) {
    var distance := (b - a) % TSN_SPACE;
    distance != 0 && distance < HALF_TSN_SPACE
  }

  predicate TsnLte(a: Tsn, b: Tsn) {
    a == b || TsnLt(a, b)
  }

  predicate SsnGt(a: U16, b: U16) {
    var distance := (a - b) % SSN_SPACE;
    distance != 0 && distance < HALF_SSN_SPACE
  }

  /** The wire form of TSN index `i`. */
  function Wire(t0: Tsn, i: int): Tsn {
    (t0 + i) % TSN_SPACE
  }

  /** The index within half the TSN space of `near` that `tsn` stands for. */
  function Unwrap(t0: Tsn, near: int, tsn: Tsn): int {
    var distance := (tsn - t0 - near) % TSN_SPACE;
    if distance <= HALF_TSN_SPACE then near + distance else near + distance - TSN_SPACE
  }

  lemma WireOfUnwrap(t0: Tsn, near: int, tsn: Tsn)
    ensures Wire(t0, Unwrap(t0, near, tsn)) == tsn
    ensures near - HALF_TSN_SPACE < Unwrap(t0, near, tsn) <= near + HALF_TSN_SPACE
  {
  }

  lemma UnwrapOfWire(t0: Tsn, near: int, i: int)
    requires near - HALF_TSN_SPACE < i <= near + HALF_TSN_SPACE
    ensures Unwrap(t0, near, Wire(t0, i)) == i
  {
    WireOfUnwrap(t0, near, Wire(t0, i));
    WireInjective(t0, i, Unwrap(t0, near, Wire(t0, i)));
  }

  lemma WireInjective(t0: Tsn, i: int, j: int)
    requires -TSN_SPACE < i - j < TSN_SPACE
    ensures Wire(t0, i) == Wire(t0, j) <==> i == j
  {
  }

  /** Wrapping comparison is the comparison of indices, within half the space. */
  lemma TsnLtIsIndexOrder(t0: Tsn, i: int, j: int)
    requires -HALF_TSN_SPACE < i - j < HALF_TSN_SPACE
    ensures TsnLt(Wire(t0, i), Wire(t0, j)) <==> i < j
    ensures TsnLte(Wire(t0, i), Wire(t0, j)) <==> i <= j
  {
    WireDistance(t0, i, j);
    WireInjective(t0, i, j);
  }

  lemma WireDistance(t0: Tsn, i: int, j: int)
    ensures (Wire(t0, j) - Wire(t0, i)) % TSN_SPACE == (j - i) % TSN_SPACE
  {
  }

  lemma WireStep(t0: Tsn, i: int)
    ensures (Wire(t0, i) + 1) % TSN_SPACE == Wire(t0, i + 1)
    ensures (Wire(t0, i) - 1) % TSN_SPACE == Wire(t0, i - 1)
  {
  }

  /** Exactly when a TSN is at or below the cumulative point, when it is the next one and
      when it is too far above for a Gap Ack Block, read off its index. */
  lemma UnwrapClassifies(t0: Tsn, cum: int, tsn: Tsn)
    ensures var i := Unwrap(t0, cum, tsn); var last := Wire(t0, cum);
            && (TsnLte(tsn, last) <==> i <= cum)
            && (i > cum ==> (tsn - last) % TSN_SPACE == i - cum)
            && (tsn == (last + 1) % TSN_SPACE <==> i == cum + 1)
  {
    var i := Unwrap(t0, cum, tsn);
    WireOfUnwrap(t0, cum, tsn);
    WireDistance(t0, cum, i);
    WireDistance(t0, i, cum);
    WireStep(t0, cum);
    WireInjective(t0, i, cum + 1);
    WireInjective(t0, i, cum);
  }

  // ----- SACK reports -----

  datatype GapBlock = GapBlock(start: U16, end: U16)

  datatype SackChunk = SackChunk(cumulativeTsnAck: Tsn, aRwnd: nat, gaps: seq<GapBlock>, duplicates: seq<Tsn>)

  predicate InSomeBlock(gaps: seq<GapBlock>, offset: int) {
    exists b :: 0 <= b < |gaps| && gaps[b].start <= offset <= gaps[b].end
  }

  /** Whether a SACK reports `tsn` as received. */
  predicate SackAcknowledges(sack: SackChunk, tsn: Tsn) {
    || TsnLte(tsn, sack.cumulativeTsnAck)
    || (var offset := (tsn - sack.cumulativeTsnAck) % TSN_SPACE;
        offset <= UINT16_MAX && InSomeBlock(sack.gaps, offset))
  }

  /** What the decoder demands of the blocks of a SACK (src/serialize.cpp:421-434). */
  predicate BlocksDecode(gaps: seq<GapBlock>) {
    && (forall b :: 0 <= b < |gaps| ==> 0 < gaps[b].start <= gaps[b].end)
    && (forall b :: 0 < b < |gaps| ==> gaps[b - 1].end < gaps[b].start)
  }
}
