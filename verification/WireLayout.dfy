/** The formats byte by byte (sections 3.1 to 3.3 of RFC 9260): where each field of a packet,
    a chunk and a parameter stands and in what order its bytes are, so that the round trips
    are those of the standard's encoding and not of just any. */
module WireLayout {
  import opened Serial
  import opened WireFormat
  import opened Codec

  /** Two bytes of `v` at `at`, the more significant first. */
  predicate Is16(data: Bytes, at: nat, v: U16) {
    at + 2 <= |data| && data[at] == v / 0x100 && data[at + 1] == v % 0x100
  }

  /** Four bytes of `v` at `at`, the most significant first. */
  predicate Is32(data: Bytes, at: nat, v: U32) {
    at + 4 <= |data|
    && data[at] == v / 0x100_0000 && data[at + 1] == v / 0x1_0000 % 0x100 && data[at + 2] == v / 0x100 % 0x100 && data[at + 3] == v % 0x100
  }

  lemma Put16(data: Bytes, at: nat, v: U16, rest: Bytes)
    requires at <= |data| && data[at..] == Be16(v) + rest
    ensures Is16(data, at, v) && data[at + 2..] == rest
  {
    assert data[at] == data[at..][0] && data[at + 1] == data[at..][1];
    assert data[at + 2..] == data[at..][2..];
  }

  lemma TopByte(v: U32, top: int, rest: int)
    requires v == 0x100_0000 * top + rest && 0 <= rest < 0x100_0000
    ensures v / 0x100_0000 == top
  {
  }

  lemma LowByte(v: U32, upper: int, low: int)
    requires v == 0x100 * upper + low && 0 <= low < 0x100
    ensures v / 0x100 == upper && v % 0x100 == low
  {
  }

  lemma BytesOf32(v: U32)
    ensures Be32(v) == [v / 0x100_0000, v / 0x1_0000 % 0x100, v / 0x100 % 0x100, v % 0x100]
  {
    var high, low := v / 0x1_0000, v % 0x1_0000;
    var b0, b1, b2, b3 := high / 0x100, high % 0x100, low / 0x100, low % 0x100;
    assert Be32(v) == [b0, b1, b2, b3];
    TopByte(v, b0, 0x1_0000 * b1 + low);
    LowByte(v, 0x100 * high + b2, b3);
    LowByte(0x100 * high + b2, high, b2);
  }

  lemma Put32(data: Bytes, at: nat, v: U32, rest: Bytes)
    requires at <= |data| && data[at..] == Be32(v) + rest
    ensures Is32(data, at, v) && data[at + 4..] == rest
  {
    BytesOf32(v);
    hide Be32;
    assert data[at] == data[at..][0] && data[at + 1] == data[at..][1] && data[at + 2] == data[at..][2] && data[at + 3] == data[at..][3];
    assert data[at + 4..] == data[at..][4..];
  }

  /** Source port, destination port and tag in network byte order, the checksum in the other,
      and the chunks behind them. */
  lemma PacketLayout(p: Packet, crc: Bytes -> U32)
    requires forall c <- p.chunks :: Framable(c)
    ensures var data, checksum := EncodePacket(p, crc), crc(Framed(p, 0));
            && Is16(data, 0, p.srcPort) && Is16(data, 2, p.dstPort) && Is32(data, 4, p.tag)
            && |data| >= 12
            && data[8] == checksum % 0x100 && data[9] == checksum / 0x100 % 0x100
            && data[10] == checksum / 0x1_0000 % 0x100 && data[11] == checksum / 0x100_0000
            && data[12..] == EncodeChunks(p.chunks)
  {
    var data, checksum := EncodePacket(p, crc), crc(Framed(p, 0));
    var d4 := Le32(checksum) + EncodeChunks(p.chunks);
    var d3 := Be32(p.tag) + d4;
    var d2 := Be16(p.dstPort) + d3;
    hide Be16, Be32, EncodeChunks, Framable;
    assert data[0..] == Be16(p.srcPort) + d2;
    Put16(data, 0, p.srcPort, d2);
    Put16(data, 2, p.dstPort, d3);
    Put32(data, 4, p.tag, d4);
    assert data[8..] == d4;
    assert forall i :: 0 <= i < 4 ==> data[8 + i] == data[8..][i] == Le32(checksum)[i];
    assert data[12..] == data[8..][4..] == EncodeChunks(p.chunks);
  }

  /** A chunk: type, flags, the length of header and body, the body, and zeros to a multiple of
      four bytes that the length does not count. */
  lemma ChunkLayout(c: Chunk)
    requires Framable(c) && HEADER_SIZE + |EncodeBody(c.value)| <= 0xFFFF
    ensures var data, body := EncodeChunk(c), EncodeBody(c.value);
            var n := HEADER_SIZE + |body|;
            && |data| % 4 == 0 && n <= |data| < n + 4
            && data[0] == c.kind && data[1] == c.flag && Is16(data, 2, n)
            && data[4..n] == body && (forall i :: n <= i < |data| ==> data[i] == 0)
  {
    hide EncodeBody, Matches, Encodable, Be16, EncodeChunk;
    FittingChunk(c);
    var data, body := EncodeChunk(c), EncodeBody(c.value);
    var n := HEADER_SIZE + |body|;
    assert data[2..] == Be16(n) + (body + Padding(n));
    Put16(data, 2, n, body + Padding(n));
    assert data[4..n] == data[4..][..|body|] == body;
    forall i | n <= i < |data|
      ensures data[i] == 0
    {
      assert data[i] == data[4..][i - 4];
    }
  }

  /** A parameter or error cause: type, length of header and value, value, zeros. */
  lemma ParameterLayout(p: Parameter)
    requires Fits(p)
    ensures var data := EncodeParameter(p);
            var n := HEADER_SIZE + |p.value|;
            && |data| % 4 == 0 && n <= |data| < n + 4
            && Is16(data, 0, p.kind) && Is16(data, 2, n) && data[4..n] == p.value
            && (forall i :: n <= i < |data| ==> data[i] == 0)
  {
    hide Be16;
    var data := EncodeParameter(p);
    var n := HEADER_SIZE + |p.value|;
    var tail := p.value + Padding(n);
    assert data[0..] == Be16(p.kind) + (Be16(n) + tail);
    Put16(data, 0, p.kind, Be16(n) + tail);
    Put16(data, 2, n, tail);
    assert data[4..n] == data[4..][..|p.value|] == p.value;
    forall i | n <= i < |data|
      ensures data[i] == 0
    {
      assert data[i] == data[4..][i - 4];
    }
  }

  lemma InitLayout(v: Value)
    requires v.InitValue?
    ensures var b := EncodeBody(v);
            && Is32(b, 0, v.tag) && Is32(b, 4, v.rwnd) && Is16(b, 8, v.outStreams) && Is16(b, 10, v.inStreams) && Is32(b, 12, v.tsn)
            && b[16..] == v.params
  {
    var b := EncodeBody(v);
    var d5 := Be32(v.tsn) + v.params;
    var d4 := Be16(v.inStreams) + d5;
    var d3 := Be16(v.outStreams) + d4;
    var d2 := Be32(v.rwnd) + d3;
    hide Be16, Be32;
    assert b[0..] == Be32(v.tag) + d2;
    Put32(b, 0, v.tag, d2);
    Put32(b, 4, v.rwnd, d3);
    Put16(b, 8, v.outStreams, d4);
    Put16(b, 10, v.inStreams, d5);
    Put32(b, 12, v.tsn, v.params);
  }

  lemma DataLayout(v: Value)
    requires v.DataValue?
    ensures var b := EncodeBody(v);
            Is32(b, 0, v.tsn) && Is16(b, 4, v.stream) && Is16(b, 6, v.ssn) && Is32(b, 8, v.protocol) && b[12..] == v.bytes
  {
    var b := EncodeBody(v);
    var d4 := Be32(v.protocol) + v.bytes;
    var d3 := Be16(v.ssn) + d4;
    var d2 := Be16(v.stream) + d3;
    hide Be16, Be32;
    assert b[0..] == Be32(v.tsn) + d2;
    Put32(b, 0, v.tsn, d2);
    Put16(b, 4, v.stream, d3);
    Put16(b, 6, v.ssn, d4);
    Put32(b, 8, v.protocol, v.bytes);
  }

  lemma {:induction false} GapAt(data: Bytes, at: nat, gaps: seq<GapBlock>, rest: Bytes, i: nat)
    requires (forall b <- gaps :: BlockFits(b)) && i < |gaps| && at <= |data| && data[at..] == EncodeGaps(gaps) + rest
    ensures Is16(data, at + 4 * i, gaps[i].start) && Is16(data, at + 4 * i + 2, gaps[i].end)
    decreases i
  {
    hide Be16;
    var more := EncodeGaps(gaps[1..]) + rest;
    assert data[at..] == Be16(gaps[0].start) + (Be16(gaps[0].end) + more);
    Put16(data, at, gaps[0].start, Be16(gaps[0].end) + more);
    Put16(data, at + 2, gaps[0].end, more);
    if i > 0 {
      GapAt(data, at + 4, gaps[1..], rest, i - 1);
    }
  }

  lemma {:induction false} TsnAt(front: Bytes, tsns: seq<U32>, i: nat)
    requires i < |tsns|
    ensures Is32(front + EncodeTsns(tsns), |front| + 4 * i, tsns[i])
    decreases i
  {
    var more := EncodeTsns(tsns[1..]);
    var t := Be32(tsns[0]);
    BytesOf32(tsns[0]);
    assert EncodeTsns(tsns) == t + more;
    hide Be32, EncodeTsns;
    var data := front + (t + more);
    if i == 0 {
      assert data[|front|] == t[0] && data[|front| + 1] == t[1] && data[|front| + 2] == t[2] && data[|front| + 3] == t[3];
    } else {
      TsnAt(front + t, tsns[1..], i - 1);
      assert front + t + more == data;
    }
  }

  lemma SackHead(v: Value)
    requires v.SackValue? && Encodable(v)
    ensures var b := EncodeBody(v);
            && Is32(b, 0, v.cum) && Is32(b, 4, v.rwnd) && Is16(b, 8, |v.gaps|) && Is16(b, 10, |v.duplicates|)
            && |b| >= 12 && b[12..] == EncodeGaps(v.gaps) + EncodeTsns(v.duplicates)
  {
    hide Be16, Be32, EncodeGaps, EncodeTsns, Is16, Is32;
    var b := EncodeBody(v);
    var d5 := EncodeGaps(v.gaps) + EncodeTsns(v.duplicates);
    var d4 := Be16(|v.duplicates|) + d5;
    var d3 := Be16(|v.gaps|) + d4;
    var d2 := Be32(v.rwnd) + d3;
    assert b[0..] == b;
    Put32(b, 0, v.cum, d2);
    Put32(b, 4, v.rwnd, d3);
    Put16(b, 8, |v.gaps|, d4);
    Put16(b, 10, |v.duplicates|, d5);
  }

  lemma SackLayout(v: Value, i: nat, j: nat)
    requires v.SackValue? && Encodable(v)
    ensures var b := EncodeBody(v);
            && |b| == 12 + 4 * |v.gaps| + 4 * |v.duplicates|
            && Is32(b, 0, v.cum) && Is32(b, 4, v.rwnd) && Is16(b, 8, |v.gaps|) && Is16(b, 10, |v.duplicates|)
            && (i < |v.gaps| ==> Is16(b, 12 + 4 * i, v.gaps[i].start) && Is16(b, 12 + 4 * i + 2, v.gaps[i].end))
            && (j < |v.duplicates| ==> Is32(b, 12 + 4 * |v.gaps| + 4 * j, v.duplicates[j]))
  {
    hide EncodeBody, EncodeGaps, EncodeTsns, Is16, Is32, Encodable;
    SackHead(v);
    BlocksFit(v);
    var b := EncodeBody(v);
    if i < |v.gaps| {
      GapAt(b, 12, v.gaps, EncodeTsns(v.duplicates), i);
    }
    if j < |v.duplicates| {
      TsnAt(b[..12] + EncodeGaps(v.gaps), v.duplicates, j);
      assert b[..12] + EncodeGaps(v.gaps) + EncodeTsns(v.duplicates) == b[..12] + b[12..] == b;
    }
    assert |b| == 12 + |b[12..]|;
  }

  lemma BlocksFit(v: Value)
    requires v.SackValue? && Encodable(v)
    ensures forall b <- v.gaps :: BlockFits(b)
  {
  }

  // ----- Unknown parameters -----

  /** The upper two bits of a parameter type, by range. */
  lemma TypeBits(kind: U16)
    ensures SkipBit(kind) <==> kind >= 0x8000
    ensures ReportBit(kind) <==> 0x4000 <= kind < 0x8000 || kind >= 0xC000
  {
  }

  /** The parameters a scan keeps: the known ones before the first that stops it. */
  function Kept(ps: seq<Parameter>, known: set<U16>): seq<Parameter> {
    if ps == [] then []
    else if ps[0].kind in known then [ps[0]] + Kept(ps[1..], known)
    else if ps[0].kind >= 0x8000 then Kept(ps[1..], known)
    else []
  }

  /** The parameters it reports: the unknown ones that ask for it, up to the one that stops it. */
  function Reported(ps: seq<Parameter>, known: set<U16>): seq<Parameter> {
    if ps == [] then []
    else if ps[0].kind in known then Reported(ps[1..], known)
    else (if 0x4000 <= ps[0].kind < 0x8000 || ps[0].kind >= 0xC000 then [ps[0]] else [])
         + (if ps[0].kind >= 0x8000 then Reported(ps[1..], known) else [])
  }

  function Encoded(ps: seq<Parameter>): seq<Bytes>
    requires forall p <- ps :: Fits(p)
  {
    if ps == [] then [] else [EncodeParameter(ps[0])] + Encoded(ps[1..])
  }

  lemma BackTo16(b: Bytes)
    requires |b| >= 2
    ensures Be16(Read16(b)) == b[..2]
  {
  }

  lemma ReportIsEncoded(params: Bytes)
    requires Stands(params)
    ensures var p := Parameter(KindAt(params), ValueAt(params));
            Fits(p) && Report(params) == EncodeParameter(p)
  {
    var n := LengthAt(params);
    BackTo16(params);
    BackTo16(params[2..]);
    assert params[2..][..2] == params[2..4];
    hide Read16, Be16;
    assert params[..n] == params[..2] + (params[2..4] + params[4..n]);
  }

  lemma {:induction false} ReportedFit(params: Bytes, known: set<U16>)
    ensures forall p <- Reported(Parameters(params), known) :: Fits(p)
    decreases |params|
  {
    hide Fits, KindAt, ValueAt, Rest, Stands;
    if Stands(params) {
      ReportedFit(Rest(params), known);
      ReportIsEncoded(params);
      var ps := Parameters(params);
      assert ps[1..] == Parameters(Rest(params));
    }
  }

  /** A scan, in terms of the parameters a walk reads: it keeps the known ones before the one
      that stops it, and reports the unknown ones that ask for it, whole and padded. */
  lemma {:induction false} ScanIsFilter(params: Bytes, known: set<U16>)
    ensures Parameters(Scan(params, known).recognized) == Kept(Parameters(params), known)
    ensures (forall p <- Reported(Parameters(params), known) :: Fits(p)) && Scan(params, known).reported == Encoded(Reported(Parameters(params), known))
    decreases |params|
  {
    hide Fits, KindAt, ValueAt, Rest, First, Stands, Report, ReportBit, SkipBit, EncodeParameter;
    ReportedFit(params, known);
    if Stands(params) {
      var ps := Parameters(params);
      assert ps[1..] == Parameters(Rest(params));
      ScanIsFilter(Rest(params), known);
      TypeBits(KindAt(params));
      if KindAt(params) in known {
        UnpaddedIsLast(params, known);
        FirstStands(params, Scan(Rest(params), known).recognized);
      } else {
        ReportIsEncoded(params);
        NothingStands();
        var p := Parameter(KindAt(params), ValueAt(params));
        var more := if SkipBit(KindAt(params)) then Reported(ps[1..], known) else [];
        EncodedFirst(p, more);
        assert Reported(ps, known) == if ReportBit(KindAt(params)) then [p] + more else more;
        assert SkipBit(KindAt(params)) || Encoded(more) == [];
        assert [] + Scan(Rest(params), known).reported == Scan(Rest(params), known).reported;
      }
    } else {
      NothingStands();
    }
  }

  lemma EncodedFirst(p: Parameter, ps: seq<Parameter>)
    requires Fits(p) && forall q <- ps :: Fits(q)
    ensures Encoded([p] + ps) == [EncodeParameter(p)] + Encoded(ps)
  {
    assert ([p] + ps)[1..] == ps;
  }
}
