/** Bytes on the wire: network byte order and type-length-value parameters
    (section 3.2.1 of RFC 9260; src/serialize.cpp). */
module WireFormat {
  import opened Serial

  type Bytes = seq<Byte>

  type U32 = x: int | 0 <= x < 0x1_0000_0000

  const HEADER_SIZE: nat := 4

  datatype Option<T> = None | Some(value: T)

  // ----- Numbers -----

  function Be16(v: U16): (r: Bytes)
    ensures |r| == 2
  {
    [v / 0x100, v % 0x100]
  }

  function Be32(v: U32): (r: Bytes)
    ensures |r| == 4
  {
    Be16(v / 0x1_0000) + Be16(v % 0x1_0000)
  }

  function Read16(b: Bytes): U16
    requires |b| >= 2
  {
    var high: int, low: int := b[0], b[1];
    high * 0x100 + low
  }

  function Read32(b: Bytes): U32
    requires |b| >= 4
  {
    var high: int, low: int := Read16(b), Read16(b[2..]);
    high * 0x1_0000 + low
  }

  lemma ReadBe16(v: U16, rest: Bytes)
    ensures Read16(Be16(v) + rest) == v && (Be16(v) + rest)[2..] == rest
  {
  }

  lemma ReadBe32(v: U32, rest: Bytes)
    ensures Read32(Be32(v) + rest) == v && (Be32(v) + rest)[4..] == rest
  {
    hide Be16, Read16;
    var high, low := v / 0x1_0000, v % 0x1_0000;
    assert Be32(v) + rest == Be16(high) + (Be16(low) + rest);
    ReadBe16(high, Be16(low) + rest);
    ReadBe16(low, rest);
  }

  // ----- Padding -----

  function Padded(n: nat): nat {
    (n + 3) / 4 * 4
  }

  function Zeros(n: nat): (r: Bytes)
    ensures |r| == n
  {
    seq(n, _ => 0)
  }

  function Padding(n: nat): (r: Bytes)
    ensures |r| == Padded(n) - n < 4
  {
    Zeros(Padded(n) - n)
  }

  // ----- Parameters -----

  datatype Parameter = Parameter(kind: U16, value: Bytes)

  predicate Fits(p: Parameter) {
    HEADER_SIZE + |p.value| <= 0xFFFF
  }

  function EncodeParameter(p: Parameter): (r: Bytes)
    requires Fits(p)
    ensures |r| == Padded(HEADER_SIZE + |p.value|)
  {
    Be16(p.kind) + (Be16(HEADER_SIZE + |p.value|) + (p.value + Padding(HEADER_SIZE + |p.value|)))
  }

  /** A walk stands at a whole parameter; the last one may lack its padding. */
  predicate Stands(params: Bytes) {
    |params| >= HEADER_SIZE && HEADER_SIZE <= Read16(params[2..]) <= |params|
  }

  function LengthAt(params: Bytes): nat
    requires Stands(params)
  {
    Read16(params[2..])
  }

  function KindAt(params: Bytes): U16
    requires Stands(params)
  {
    Read16(params)
  }

  function ValueAt(params: Bytes): Bytes
    requires Stands(params)
  {
    params[HEADER_SIZE..LengthAt(params)]
  }

  /** Where the parameter here ends, padding included. */
  function EndAt(params: Bytes): (n: nat)
    requires Stands(params)
    ensures HEADER_SIZE <= n <= |params|
  {
    if Padded(LengthAt(params)) <= |params| then Padded(LengthAt(params)) else |params|
  }

  function First(params: Bytes): Bytes
    requires Stands(params)
  {
    params[..EndAt(params)]
  }

  function Rest(params: Bytes): (r: Bytes)
    requires Stands(params)
    ensures |r| < |params|
  {
    params[EndAt(params)..]
  }

  /** `find_parameter`. */
  function Find(params: Bytes, kind: U16): Option<Bytes>
    decreases |params|
  {
    if !Stands(params) then None
    else if KindAt(params) == kind then Some(ValueAt(params))
    else Find(Rest(params), kind)
  }

  /** What a walk reads. */
  function Parameters(params: Bytes): seq<Parameter>
    decreases |params|
  {
    if !Stands(params) then [] else [Parameter(KindAt(params), ValueAt(params))] + Parameters(Rest(params))
  }

  lemma EncodedStands(p: Parameter, rest: Bytes)
    requires Fits(p)
    ensures var b := EncodeParameter(p) + rest;
            && Stands(b) && LengthAt(b) == HEADER_SIZE + |p.value| && KindAt(b) == p.kind && ValueAt(b) == p.value
            && EndAt(b) == |EncodeParameter(p)| && First(b) == EncodeParameter(p) && Rest(b) == rest
  {
    hide Read16, Padded, Be16, Padding;
    var n := HEADER_SIZE + |p.value|;
    var tail := p.value + Padding(n) + rest;
    var b := EncodeParameter(p) + rest;
    assert b == Be16(p.kind) + (Be16(n) + tail);
    ReadBe16(p.kind, Be16(n) + tail);
    ReadBe16(n, tail);
    assert b[4..] == tail by {
      assert b[2..][2..] == b[4..];
    }
    assert b[4..n] == tail[..|p.value|];
  }

  function EncodeAll(ps: seq<Parameter>): Bytes
    requires forall p <- ps :: Fits(p)
  {
    if ps == [] then [] else EncodeParameter(ps[0]) + EncodeAll(ps[1..])
  }

  /** Walking over encoded parameters reads them back. */
  lemma {:induction false} WalkRoundTrip(ps: seq<Parameter>)
    requires forall p <- ps :: Fits(p)
    ensures Parameters(EncodeAll(ps)) == ps
    decreases |ps|
  {
    hide Stands, KindAt, ValueAt, Rest, EncodeParameter;
    if ps != [] {
      EncodedStands(ps[0], EncodeAll(ps[1..]));
      WalkRoundTrip(ps[1..]);
    } else {
      NothingStands();
    }
  }

  lemma NothingStands()
    ensures !Stands([])
  {
  }

  // ----- Scanning -----

  /** `recognized` is what is understood, as it stood; `reported` what is to be reported. */
  datatype ScanResult = ScanResult(recognized: Bytes, reported: seq<Bytes>)

  predicate ReportBit(kind: U16) {
    kind / 0x4000 % 2 == 1
  }

  predicate SkipBit(kind: U16) {
    kind / 0x8000 % 2 == 1
  }

  /** The bytes of an unrecognized parameter, padded. */
  function Report(params: Bytes): Bytes
    requires Stands(params)
  {
    params[..LengthAt(params)] + Padding(LengthAt(params))
  }

  /** `scan_parameters`: the upper two bits of an unknown type say whether to report it and
      whether to go on. */
  function Scan(params: Bytes, known: set<U16>): ScanResult
    decreases |params|
  {
    if !Stands(params) then
      ScanResult([], [])
    else
      var kind := KindAt(params);
      if kind in known then
        var more := Scan(Rest(params), known);
        more.(recognized := First(params) + more.recognized)
      else
        var reported := if ReportBit(kind) then [Report(params)] else [];
        if !SkipBit(kind) then ScanResult([], reported) else
          var more := Scan(Rest(params), known);
          more.(reported := reported + more.reported)
  }

  /** Reference: the first parameter of a kind before the scan stops. */
  function FirstBeforeStop(params: Bytes, known: set<U16>, kind: U16): Option<Bytes>
    decreases |params|
  {
    if !Stands(params) then None
    else if KindAt(params) == kind then Some(ValueAt(params))
    else if KindAt(params) !in known && !SkipBit(KindAt(params)) then None
    else FirstBeforeStop(Rest(params), known, kind)
  }

  /** A parameter stands by itself as it stood among others. */
  lemma FirstStands(params: Bytes, more: Bytes)
    requires Stands(params) && (|First(params)| % 4 == 0 || more == [])
    ensures var b := First(params) + more;
            && Stands(b) && KindAt(b) == KindAt(params) && ValueAt(b) == ValueAt(params)
            && First(b) == First(params) && Rest(b) == more
  {
    var b := First(params) + more;
    var n := EndAt(params);
    assert forall i :: 0 <= i < n ==> b[i] == params[i];
    assert b[2..][0] == params[2..][0] && b[2..][1] == params[2..][1];
    assert b[..n] == params[..n];
  }

  /** A parameter without its padding is the last. */
  lemma UnpaddedIsLast(params: Bytes, known: set<U16>)
    ensures Stands(params) && |First(params)| % 4 != 0 ==> Scan(Rest(params), known) == ScanResult([], [])
  {
    if Stands(params) && |First(params)| % 4 != 0 {
      assert EndAt(params) == |params|;
      assert Rest(params) == [];
    }
  }

  /** Scanning again finds the same and reports nothing. */
  lemma {:induction false} ScanIsIdempotent(params: Bytes, known: set<U16>)
    ensures Scan(Scan(params, known).recognized, known) == ScanResult(Scan(params, known).recognized, [])
    decreases |params|
  {
    hide KindAt, ValueAt, First, Rest, Stands, ReportBit, SkipBit, Report;
    if Stands(params) {
      ScanIsIdempotent(Rest(params), known);
      if KindAt(params) in known {
        UnpaddedIsLast(params, known);
        FirstStands(params, Scan(Rest(params), known).recognized);
      } else {
        NothingStands();
      }
    } else {
      NothingStands();
    }
  }

  /** Looking up what a scan recognized finds the first such parameter before the stop. */
  lemma {:induction false} FindAfterScan(params: Bytes, known: set<U16>, kind: U16)
    requires kind in known
    ensures Find(Scan(params, known).recognized, kind) == FirstBeforeStop(params, known, kind)
    decreases |params|
  {
    hide KindAt, ValueAt, First, Rest, Stands, ReportBit, SkipBit, Report;
    if Stands(params) {
      FindAfterScan(Rest(params), known, kind);
      if KindAt(params) in known {
        UnpaddedIsLast(params, known);
        FirstStands(params, Scan(Rest(params), known).recognized);
      } else {
        NothingStands();
      }
    } else {
      NothingStands();
    }
  }

  // ----- The code: walks that advance an offset -----

  predicate StandsFrom(params: Bytes, offset: nat) {
    offset <= |params| && Stands(params[offset..])
  }

  /** Where the next parameter begins, which may be past the end. */
  function NextFrom(params: Bytes, offset: nat): nat
    requires StandsFrom(params, offset)
  {
    offset + Padded(LengthAt(params[offset..]))
  }

  function From(params: Bytes, offset: nat): Bytes {
    if offset <= |params| then params[offset..] else []
  }

  lemma Advances(params: Bytes, offset: nat)
    requires StandsFrom(params, offset)
    ensures From(params, NextFrom(params, offset)) == Rest(params[offset..])
    ensures offset + HEADER_SIZE <= NextFrom(params, offset)
  {
    var n := LengthAt(params[offset..]);
    assert n <= Padded(n);
    if NextFrom(params, offset) <= |params| {
      assert params[offset..][Padded(n)..] == params[offset + Padded(n)..];
    }
  }

  method FindParameter(params: Bytes, kind: U16) returns (value: Option<Bytes>)
    ensures value == Find(params, kind)
  {
    hide Read16, Padded, Rest;
    var offset := 0;
    assert params[0..] == params;
    while offset + HEADER_SIZE <= |params|
      invariant Find(From(params, offset), kind) == Find(params, kind)
      decreases |params| + 4 - offset
    {
      var here := params[offset..];
      var parameterKind, length := Read16(here), Read16(here[2..]);
      if length < HEADER_SIZE || offset + length > |params| {
        return None;
      }
      if parameterKind == kind {
        assert here[HEADER_SIZE..length] == params[offset + HEADER_SIZE..offset + length];
        return Some(params[offset + HEADER_SIZE..offset + length]);
      }
      Advances(params, offset);
      offset := offset + Padded(length);
    }
    ShortStands(From(params, offset));
    return None;
  }

  lemma ShortStands(params: Bytes)
    ensures |params| < HEADER_SIZE ==> !Stands(params)
  {
  }

  lemma ScanStep(params: Bytes, known: set<U16>, offset: nat, recognized: Bytes, reported: seq<Bytes>)
    requires StandsFrom(params, offset)
    requires var rest := Scan(From(params, offset), known);
             Scan(params, known) == ScanResult(recognized + rest.recognized, reported + rest.reported)
    ensures var here := params[offset..];
            var kind := KindAt(here);
            var more := Scan(From(params, NextFrom(params, offset)), known);
            if kind in known then Scan(params, known) == ScanResult(recognized + First(here) + more.recognized, reported + more.reported)
            else
              var reports := if ReportBit(kind) then reported + [Report(here)] else reported;
              Scan(params, known) == if SkipBit(kind) then ScanResult(recognized + more.recognized, reports + more.reported) else ScanResult(recognized, reports)
  {
    hide Stands, KindAt, First, Rest, Report, ReportBit, SkipBit, NextFrom;
    Advances(params, offset);
    var here := params[offset..];
    var more := Scan(Rest(here), known);
    assert recognized + (First(here) + more.recognized) == recognized + First(here) + more.recognized;
    assert reported + ([Report(here)] + more.reported) == reported + [Report(here)] + more.reported;
    assert reported + ([] + more.reported) == reported + more.reported && reported + [] == reported && recognized + [] == recognized;
  }

  method ScanParameters(params: Bytes, known: set<U16>) returns (scan: ScanResult)
    ensures scan == Scan(params, known)
  {
    hide Read16, Padded, Rest, Scan, ReportBit, SkipBit, Padding;
    var recognized: Bytes, reported: seq<Bytes> := [], [];
    var offset := 0;
    assert params[0..] == params;
    while offset + HEADER_SIZE <= |params|
      invariant var rest := Scan(From(params, offset), known);
                Scan(params, known) == ScanResult(recognized + rest.recognized, reported + rest.reported)
      decreases |params| + 4 - offset
    {
      var here := params[offset..];
      var kind, length := Read16(here), Read16(here[2..]);
      if length < HEADER_SIZE || offset + length > |params| {
        break;
      }
      ScanStep(params, known, offset, recognized, reported);
      Advances(params, offset);
      var padded := Padded(length);
      if kind in known {
        var n := if padded <= |params| - offset then padded else |params| - offset;
        recognized := recognized + here[..n];
      } else {
        if ReportBit(kind) {
          reported := reported + [here[..length] + Padding(length)];
        }
        if !SkipBit(kind) {
          return ScanResult(recognized, reported);
        }
      }
      offset := offset + padded;
    }
    NothingMore(From(params, offset), known);
    assert recognized + [] == recognized && reported + [] == reported;
    return ScanResult(recognized, reported);
  }

  lemma NothingMore(params: Bytes, known: set<U16>)
    ensures !Stands(params) ==> Scan(params, known) == ScanResult([], [])
  {
  }
}
