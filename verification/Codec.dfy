/** Packets and chunks on the wire (section 3 of RFC 9260; src/serialize.cpp): what is
    encoded decodes to the same ports, tag and chunks, for every chunk type, through the
    padding inside chunks and between them. */
module Codec {
  import opened Serial
  import opened WireFormat
  import R = ReceiveSpec
  import S = SackReport

  // ----- Chunk types -----

  const DATA: Byte := 0
  const INIT: Byte := 1
  const INIT_ACK: Byte := 2
  const SACK: Byte := 3
  const HEARTBEAT: Byte := 4
  const HEARTBEAT_ACK: Byte := 5
  const ABORT: Byte := 6
  const SHUTDOWN: Byte := 7
  const SHUTDOWN_ACK: Byte := 8
  const OP_ERROR: Byte := 9
  const COOKIE_ECHO: Byte := 10
  const COOKIE_ACK: Byte := 11
  const SHUTDOWN_COMPLETE: Byte := 14

  const PARAM_HEARTBEAT_INFO: U16 := 1

  datatype Value =
    | InitValue(tag: U32, rwnd: U32, outStreams: U16, inStreams: U16, tsn: U32, params: Bytes)
    | CookieEchoValue(cookie: Bytes)
    | EmptyValue
    | ShutdownValue(cum: U32)
    | HeartbeatValue(info: Bytes)
    | DataValue(tsn: U32, stream: U16, ssn: U16, protocol: U32, bytes: Bytes, flags: Byte)
    | SackValue(cum: U32, rwnd: U32, gaps: seq<GapBlock>, duplicates: seq<U32>)
    | ErrorValue(causes: seq<Parameter>)
    | UnknownValue(body: Bytes)

  datatype Chunk = Chunk(kind: Byte, flag: Byte, value: Value)

  predicate Matches(kind: Byte, v: Value) {
    if kind == INIT || kind == INIT_ACK then v.InitValue?
    else if kind == COOKIE_ECHO then v.CookieEchoValue?
    else if kind == COOKIE_ACK || kind == SHUTDOWN_ACK || kind == SHUTDOWN_COMPLETE then v.EmptyValue?
    else if kind == SHUTDOWN then v.ShutdownValue?
    else if kind == HEARTBEAT || kind == HEARTBEAT_ACK then v.HeartbeatValue?
    else if kind == DATA then v.DataValue?
    else if kind == SACK then v.SackValue?
    else if kind == OP_ERROR || kind == ABORT then v.ErrorValue?
    else v.UnknownValue?
  }

  // ----- Bodies -----

  predicate BlockFits(b: GapBlock) {
    0 < b.start <= b.end <= 0xFFFF
  }

  /** What the encoder takes; anything else it refuses. */
  predicate Encodable(v: Value) {
    match v
    case HeartbeatValue(info) => HEADER_SIZE + |info| <= 0xFFFF
    case SackValue(_, _, gaps, duplicates) =>
      |gaps| <= 0xFFFF && |duplicates| <= 0xFFFF && forall b <- gaps :: BlockFits(b)
    case ErrorValue(causes) => forall p <- causes :: Fits(p)
    case _ => true
  }

  function EncodeGaps(gaps: seq<GapBlock>): (r: Bytes)
    requires forall b <- gaps :: BlockFits(b)
    ensures |r| == 4 * |gaps|
  {
    if gaps == [] then [] else Be16(gaps[0].start) + (Be16(gaps[0].end) + EncodeGaps(gaps[1..]))
  }

  function EncodeTsns(tsns: seq<U32>): (r: Bytes)
    ensures |r| == 4 * |tsns|
  {
    if tsns == [] then [] else Be32(tsns[0]) + EncodeTsns(tsns[1..])
  }

  function EncodeBody(v: Value): Bytes
    requires Encodable(v)
  {
    match v
    case InitValue(tag, rwnd, outStreams, inStreams, tsn, params) =>
      Be32(tag) + (Be32(rwnd) + (Be16(outStreams) + (Be16(inStreams) + (Be32(tsn) + params))))
    case CookieEchoValue(cookie) => cookie
    case EmptyValue => []
    case ShutdownValue(cum) => Be32(cum)
    case HeartbeatValue(info) => EncodeParameter(Parameter(PARAM_HEARTBEAT_INFO, info))
    case DataValue(tsn, stream, ssn, protocol, bytes, _) =>
      Be32(tsn) + (Be16(stream) + (Be16(ssn) + (Be32(protocol) + bytes)))
    case SackValue(cum, rwnd, gaps, duplicates) =>
      Be32(cum) + (Be32(rwnd) + (Be16(|gaps|) + (Be16(|duplicates|) + (EncodeGaps(gaps) + EncodeTsns(duplicates)))))
    case ErrorValue(causes) => EncodeAll(causes)
    case UnknownValue(body) => body
  }

  /** Gap blocks above `previous`, in order and apart. */
  predicate Ordered(gaps: seq<GapBlock>, previous: nat) {
    gaps == [] || (previous < gaps[0].start <= gaps[0].end && Ordered(gaps[1..], gaps[0].end))
  }

  function DecodeGaps(data: Bytes, n: nat, previous: nat): Option<seq<GapBlock>>
    requires |data| >= 4 * n
    decreases n
  {
    if n == 0 then Some([]) else
      var start, end := Read16(data), Read16(data[2..]);
      if start <= previous || end < start then None else
        var more := DecodeGaps(data[4..], n - 1, end);
        if more.None? then None else Some([GapBlock(start, end)] + more.value)
  }

  function DecodeTsns(data: Bytes, n: nat): seq<U32>
    requires |data| >= 4 * n
    decreases n
  {
    if n == 0 then [] else [Read32(data)] + DecodeTsns(data[4..], n - 1)
  }

  function DecodeCauses(data: Bytes): Option<seq<Parameter>>
    decreases |data|
  {
    if |data| < HEADER_SIZE then Some([])
    else if !Stands(data) then None
    else
      var more := DecodeCauses(Rest(data));
      if more.None? then None else Some([Parameter(KindAt(data), ValueAt(data))] + more.value)
  }

  function DecodeInit(data: Bytes): Option<Value> {
    if |data| < 16 then None else
      Some(InitValue(Read32(data), Read32(data[4..]), Read16(data[8..]), Read16(data[10..]), Read32(data[12..]), data[16..]))
  }

  function DecodeData(data: Bytes, flag: Byte): Option<Value> {
    if |data| < 12 then None else
      Some(DataValue(Read32(data), Read16(data[4..]), Read16(data[6..]), Read32(data[8..]), data[12..], flag % 8))
  }

  function DecodeSack(data: Bytes): Option<Value> {
    if |data| < 12 then None else
      var gapCount, duplicateCount := Read16(data[8..]), Read16(data[10..]);
      if 12 + gapCount * 4 + duplicateCount * 4 != |data| then None else
        var gaps := DecodeGaps(data[12..], gapCount, 0);
        if gaps.None? then None else
          Some(SackValue(Read32(data), Read32(data[4..]), gaps.value, DecodeTsns(data[12 + gapCount * 4..], duplicateCount)))
  }

  function DecodeValue(kind: Byte, flag: Byte, data: Bytes): Option<Value> {
    if kind == INIT || kind == INIT_ACK then DecodeInit(data)
    else if kind == COOKIE_ECHO then Some(CookieEchoValue(data))
    else if kind == COOKIE_ACK || kind == SHUTDOWN_ACK || kind == SHUTDOWN_COMPLETE then Some(EmptyValue)
    else if kind == SHUTDOWN then (if |data| != 4 then None else Some(ShutdownValue(Read32(data))))
    else if kind == HEARTBEAT || kind == HEARTBEAT_ACK then
      var info := Find(data, PARAM_HEARTBEAT_INFO);
      if info.None? then None else Some(HeartbeatValue(info.value))
    else if kind == DATA then DecodeData(data, flag)
    else if kind == SACK then DecodeSack(data)
    else if kind == OP_ERROR || kind == ABORT then
      var causes := DecodeCauses(data);
      if causes.None? then None else Some(ErrorValue(causes.value))
    else Some(UnknownValue(data))
  }

  // ----- Each body round trips -----

  lemma InitRoundTrip(tag: U32, rwnd: U32, outStreams: U16, inStreams: U16, tsn: U32, params: Bytes)
    ensures DecodeInit(EncodeBody(InitValue(tag, rwnd, outStreams, inStreams, tsn, params)))
         == Some(InitValue(tag, rwnd, outStreams, inStreams, tsn, params))
  {
    hide Be16, Be32, Read16, Read32;
    var d5 := Be32(tsn) + params;
    var d4 := Be16(inStreams) + d5;
    var d3 := Be16(outStreams) + d4;
    var d2 := Be32(rwnd) + d3;
    var d1 := Be32(tag) + d2;
    ReadBe32(tag, d2);
    ReadBe32(rwnd, d3);
    ReadBe16(outStreams, d4);
    ReadBe16(inStreams, d5);
    ReadBe32(tsn, params);
    assert d1[4..] == d2 && d1[8..] == d2[4..] && d1[10..] == d3[2..] && d1[12..] == d4[2..] && d1[16..] == d5[4..];
  }

  lemma DataRoundTrip(v: Value, flag: Byte)
    requires v.DataValue? && v.flags == flag % 8
    ensures DecodeData(EncodeBody(v), flag) == Some(v)
  {
    hide Be16, Be32, Read16, Read32;
    var d4 := Be32(v.protocol) + v.bytes;
    var d3 := Be16(v.ssn) + d4;
    var d2 := Be16(v.stream) + d3;
    var d1 := Be32(v.tsn) + d2;
    ReadBe32(v.tsn, d2);
    ReadBe16(v.stream, d3);
    ReadBe16(v.ssn, d4);
    ReadBe32(v.protocol, v.bytes);
    assert d1[4..] == d2 && d1[6..] == d2[2..] && d1[8..] == d3[2..] && d1[12..] == d4[4..];
  }

  /** Gap blocks decode exactly when they are in order and apart. */
  lemma {:induction false} GapsRoundTrip(gaps: seq<GapBlock>, previous: nat, rest: Bytes)
    requires forall b <- gaps :: BlockFits(b)
    ensures DecodeGaps(EncodeGaps(gaps) + rest, |gaps|, previous) == if Ordered(gaps, previous) then Some(gaps) else None
    decreases |gaps|
  {
    hide Be16, Read16;
    if gaps != [] {
      var more := EncodeGaps(gaps[1..]) + rest;
      FirstGap(gaps, rest);
      GapsRoundTrip(gaps[1..], gaps[0].end, rest);
      assert [gaps[0]] + gaps[1..] == gaps;
    }
  }

  lemma FirstGap(gaps: seq<GapBlock>, rest: Bytes)
    requires gaps != [] && forall b <- gaps :: BlockFits(b)
    ensures var data := EncodeGaps(gaps) + rest;
            Read16(data) == gaps[0].start && Read16(data[2..]) == gaps[0].end && data[4..] == EncodeGaps(gaps[1..]) + rest
  {
    var e := EncodeGaps(gaps[1..]);
    assert EncodeGaps(gaps) == Be16(gaps[0].start) + (Be16(gaps[0].end) + e);
    hide EncodeGaps, Be16, Read16;
    Regrouped(Be16(gaps[0].start), Be16(gaps[0].end), e, rest);
    TwoFields(gaps[0].start, gaps[0].end, e + rest);
  }

  lemma Regrouped(a: Bytes, b: Bytes, c: Bytes, d: Bytes)
    ensures (a + (b + c)) + d == a + (b + (c + d))
  {
  }

  lemma TwoFields(a: U16, b: U16, rest: Bytes)
    ensures var data := Be16(a) + (Be16(b) + rest);
            Read16(data) == a && Read16(data[2..]) == b && data[4..] == rest
  {
    hide Be16, Read16;
    var data := Be16(a) + (Be16(b) + rest);
    ReadBe16(a, Be16(b) + rest);
    ReadBe16(b, rest);
    assert data[4..] == data[2..][2..];
  }

  lemma {:induction false} TsnsRoundTrip(tsns: seq<U32>)
    ensures DecodeTsns(EncodeTsns(tsns), |tsns|) == tsns
  {
    hide Be32, Read32;
    if tsns != [] {
      ReadBe32(tsns[0], EncodeTsns(tsns[1..]));
      TsnsRoundTrip(tsns[1..]);
    }
  }

  /** A SACK round trips exactly when its gap blocks are in order and apart. */
  lemma SackRoundTrip(v: Value)
    requires v.SackValue? && Encodable(v)
    ensures DecodeSack(EncodeBody(v)) == if Ordered(v.gaps, 0) then Some(v) else None
  {
    hide Be16, Be32, Read16, Read32, EncodeGaps, EncodeTsns, DecodeGaps, DecodeTsns, Ordered;
    var tsns := EncodeTsns(v.duplicates);
    var d5 := EncodeGaps(v.gaps) + tsns;
    var d4 := Be16(|v.duplicates|) + d5;
    var d3 := Be16(|v.gaps|) + d4;
    var d2 := Be32(v.rwnd) + d3;
    var d1 := Be32(v.cum) + d2;
    ReadBe32(v.cum, d2);
    ReadBe32(v.rwnd, d3);
    ReadBe16(|v.gaps|, d4);
    ReadBe16(|v.duplicates|, d5);
    assert d1[4..] == d2 && d1[8..] == d2[4..] && d1[10..] == d3[2..] && d1[12..] == d4[2..];
    GapsRoundTrip(v.gaps, 0, tsns);
    assert d1[12 + |v.gaps| * 4..] == d5[4 * |v.gaps|..];
    TsnsRoundTrip(v.duplicates);
  }

  lemma {:induction false} CausesRoundTrip(causes: seq<Parameter>)
    requires forall p <- causes :: Fits(p)
    ensures DecodeCauses(EncodeAll(causes)) == Some(causes)
    decreases |causes|
  {
    hide Stands, KindAt, ValueAt, Rest, EncodeParameter, Padded;
    if causes != [] {
      EncodedStands(causes[0], EncodeAll(causes[1..]));
      LongEnough(EncodeAll(causes));
      CausesRoundTrip(causes[1..]);
      assert [causes[0]] + causes[1..] == causes;
    }
  }

  lemma LongEnough(data: Bytes)
    requires Stands(data)
    ensures |data| >= HEADER_SIZE
  {
  }

  lemma HeartbeatRoundTrip(info: Bytes)
    requires HEADER_SIZE + |info| <= 0xFFFF
    ensures Find(EncodeParameter(Parameter(PARAM_HEARTBEAT_INFO, info)), PARAM_HEARTBEAT_INFO) == Some(info)
  {
    var p := Parameter(PARAM_HEARTBEAT_INFO, info);
    EncodedStands(p, []);
    assert EncodeParameter(p) + [] == EncodeParameter(p);
  }

  /** What the encoder takes: a value of the chunk's type, within its limits. */
  predicate Framable(c: Chunk) {
    Matches(c.kind, c.value) && Encodable(c.value)
  }

  /** What the decoder then gives back: a length that fits 16 bits, the flags a DATA chunk
      keeps, and gap blocks in order. */
  predicate Decodable(c: Chunk)
    requires Framable(c)
  {
    && HEADER_SIZE + |EncodeBody(c.value)| <= 0xFFFF
    && (c.value.DataValue? ==> c.value.flags == c.flag % 8)
    && (c.value.SackValue? ==> Ordered(c.value.gaps, 0))
  }

  lemma ValueRoundTrip(c: Chunk)
    requires Framable(c) && Decodable(c)
    ensures DecodeValue(c.kind, c.flag, EncodeBody(c.value)) == Some(c.value)
  {
    hide DecodeInit, DecodeData, DecodeSack, DecodeCauses, EncodeAll, EncodeParameter, Find, Be32, Read32, EncodeGaps, EncodeTsns, Ordered;
    match c.value {
      case InitValue(tag, rwnd, outStreams, inStreams, tsn, params) => InitRoundTrip(tag, rwnd, outStreams, inStreams, tsn, params);
      case DataValue(_, _, _, _, _, _) => DataRoundTrip(c.value, c.flag);
      case SackValue(_, _, _, _) => SackRoundTrip(c.value);
      case ErrorValue(causes) => CausesRoundTrip(causes);
      case HeartbeatValue(info) => HeartbeatRoundTrip(info);
      case ShutdownValue(cum) =>
        ReadBe32(cum, []);
        assert Be32(cum) + [] == Be32(cum);
      case _ =>
    }
  }

  // ----- Chunks -----

  /** Cut or filled with zeros to a length. */
  function Resized(b: Bytes, n: nat): (r: Bytes)
    ensures |r| == n
  {
    if n <= |b| then b[..n] else b + Zeros(n - |b|)
  }

  /** The length is kept modulo 2^16, and the chunk is cut or padded to that. */
  function EncodeChunk(c: Chunk): Bytes
    requires Framable(c)
  {
    var body := EncodeBody(c.value);
    var length := (HEADER_SIZE + |body|) % 0x1_0000;
    Resized([c.kind, c.flag] + (Be16(length) + body), Padded(length))
  }

  /** A chunk whose length fits is whole and padded. */
  lemma FittingChunk(c: Chunk)
    requires Framable(c) && HEADER_SIZE + |EncodeBody(c.value)| <= 0xFFFF
    ensures var body := EncodeBody(c.value);
            var n := HEADER_SIZE + |body|;
            EncodeChunk(c) == [c.kind, c.flag] + (Be16(n) + (body + Padding(n)))
  {
    hide Be16, EncodeBody, Matches, Encodable;
    var body := EncodeBody(c.value);
    var n := HEADER_SIZE + |body|;
    assert Zeros(Padded(n) - n) == Padding(n);
    assert Padded(n) == n ==> Padding(n) == [];
  }

  function EncodeChunks(cs: seq<Chunk>): Bytes
    requires forall c <- cs :: Framable(c)
  {
    if cs == [] then [] else EncodeChunk(cs[0]) + EncodeChunks(cs[1..])
  }

  /** Where the next chunk begins: the last one may lack its padding. */
  function ChunkEnd(data: Bytes, length: nat): (n: nat)
    requires HEADER_SIZE <= length <= |data|
    ensures length <= n <= |data|
  {
    if Padded(length) <= |data| then Padded(length) else |data|
  }

  /** Chunk after chunk; `None` is where the decoder throws. */
  function DecodeChunks(data: Bytes): Option<seq<Chunk>>
    decreases |data|
  {
    if data == [] then Some([])
    else if |data| < HEADER_SIZE then None
    else
      var length := Read16(data[2..]);
      if length < HEADER_SIZE || length > |data| then None else
        var value := DecodeValue(data[0], data[1], data[HEADER_SIZE..length]);
        if value.None? then None else
          var more := DecodeChunks(data[ChunkEnd(data, length)..]);
          if more.None? then None else Some([Chunk(data[0], data[1], value.value)] + more.value)
  }

  lemma ChunkStands(c: Chunk, rest: Bytes)
    requires Framable(c) && HEADER_SIZE + |EncodeBody(c.value)| <= 0xFFFF
    ensures var data := EncodeChunk(c) + rest;
            var n := HEADER_SIZE + |EncodeBody(c.value)|;
            && |data| >= n && data[0] == c.kind && data[1] == c.flag && Read16(data[2..]) == n
            && data[HEADER_SIZE..n] == EncodeBody(c.value) && data[ChunkEnd(data, n)..] == rest
  {
    hide Be16, Read16, EncodeBody, Matches, Encodable, Padded, Padding, EncodeChunk;
    FittingChunk(c);
    var body := EncodeBody(c.value);
    var n := HEADER_SIZE + |body|;
    var tail := body + Padding(n) + rest;
    var data := EncodeChunk(c) + rest;
    assert data == [c.kind, c.flag] + (Be16(n) + tail);
    assert data[2..] == Be16(n) + tail;
    ReadBe16(n, tail);
    assert data[4..] == data[2..][2..] == tail;
    assert data[HEADER_SIZE..n] == tail[..|body|];
    assert data[Padded(n)..] == tail[Padded(n) - HEADER_SIZE..];
  }

  lemma FitsLength(c: Chunk)
    requires Framable(c) && Decodable(c)
    ensures HEADER_SIZE + |EncodeBody(c.value)| <= 0xFFFF
  {
  }

  lemma {:induction false} ChunksRoundTrip(cs: seq<Chunk>)
    requires forall c <- cs :: Framable(c) && Decodable(c)
    ensures DecodeChunks(EncodeChunks(cs)) == Some(cs)
    decreases |cs|
  {
    hide Framable, Decodable, EncodeChunk, DecodeValue, EncodeBody, Read16, ChunkEnd;
    if cs != [] {
      FitsLength(cs[0]);
      ChunkStands(cs[0], EncodeChunks(cs[1..]));
      ValueRoundTrip(cs[0]);
      ChunksRoundTrip(cs[1..]);
      assert [cs[0]] + cs[1..] == cs;
    }
  }

  // ----- Exactly when a chunk comes back -----

  lemma {:induction false} GapsDecoded(data: Bytes, n: nat, previous: nat)
    requires |data| >= 4 * n
    ensures DecodeGaps(data, n, previous).Some? ==> |DecodeGaps(data, n, previous).value| == n
    decreases n
  {
    hide Read16;
    if n > 0 {
      GapsDecoded(data[4..], n - 1, Read16(data[2..]));
    }
  }

  lemma {:induction false} TsnsDecoded(data: Bytes, n: nat)
    requires |data| >= 4 * n
    ensures |DecodeTsns(data, n)| == n
    decreases n
  {
    hide Read32;
    if n > 0 {
      TsnsDecoded(data[4..], n - 1);
    }
  }

  lemma {:induction false} FoundIsWithin(params: Bytes, kind: U16)
    ensures Find(params, kind).Some? ==> HEADER_SIZE + |Find(params, kind).value| <= |params|
    decreases |params|
  {
    hide Read16, Padded;
    if Stands(params) && KindAt(params) != kind {
      FoundIsWithin(Rest(params), kind);
    }
  }

  /** Causes read from data take no more than the data and its padding. */
  lemma {:induction false} CausesAreWithin(data: Bytes)
    requires DecodeCauses(data).Some? && forall p <- DecodeCauses(data).value :: Fits(p)
    ensures |EncodeAll(DecodeCauses(data).value)| <= |data| + 3
    decreases |data|
  {
    if Stands(data) {
      var rest := DecodeCauses(Rest(data)).value;
      var causes := DecodeCauses(data).value;
      assert causes == [Parameter(KindAt(data), ValueAt(data))] + rest;
      assert causes[1..] == rest;
      forall p <- rest
        ensures Fits(p)
      {
        assert p in causes;
      }
      CausesAreWithin(Rest(data));
      if Padded(LengthAt(data)) > |data| {
        assert Rest(data) == [];
        assert rest == [];
      }
    }
  }

  /** A value decoded from data encodes to no more than the data and its padding. */
  lemma DecodedIsWithin(kind: Byte, flag: Byte, data: Bytes, v: Value)
    requires DecodeValue(kind, flag, data) == Some(v) && Encodable(v)
    ensures |EncodeBody(v)| <= |data| + 3
  {
    hide Find, DecodeCauses, DecodeGaps, DecodeTsns, EncodeAll, Read16, Read32, Be16, Be32, Fits;
    match v {
      case HeartbeatValue(info) => FoundIsWithin(data, PARAM_HEARTBEAT_INFO);
      case ErrorValue(causes) => CausesAreWithin(data);
      case SackValue(_, _, gaps, duplicates) =>
        var gapCount: int, duplicateCount: int := Read16(data[8..]), Read16(data[10..]);
        GapsDecoded(data[12..], gapCount, 0);
        TsnsDecoded(data[12 + gapCount * 4..], duplicateCount);
      case _ =>
    }
  }

  /** What the header of an encoded chunk says, whether it fits or not. */
  lemma EncodedHeader(c: Chunk)
    requires Framable(c)
    ensures var data := EncodeChunk(c);
            var length := (HEADER_SIZE + |EncodeBody(c.value)|) % 0x1_0000;
            && |data| == Padded(length)
            && (length >= HEADER_SIZE ==> |data| >= length && data[0] == c.kind && data[1] == c.flag && Read16(data[2..]) == length)
  {
    hide Be16, Read16, EncodeBody, Matches, Encodable;
    var body := EncodeBody(c.value);
    var length := (HEADER_SIZE + |body|) % 0x1_0000;
    var full := [c.kind, c.flag] + (Be16(length) + body);
    var data := EncodeChunk(c);
    if length >= HEADER_SIZE {
      ReadBe16(length, body);
      assert full[2..] == Be16(length) + body;
      assert data[2..][0] == full[2..][0] && data[2..][1] == full[2..][1];
      SameRead16(data[2..], full[2..]);
    }
  }

  lemma SameRead16(a: Bytes, b: Bytes)
    requires |a| >= 2 && |b| >= 2 && a[0] == b[0] && a[1] == b[1]
    ensures Read16(a) == Read16(b)
  {
  }

  lemma FirstDecoded(data: Bytes)
    requires DecodeChunks(data).Some? && DecodeChunks(data).value != []
    ensures |data| >= HEADER_SIZE && HEADER_SIZE <= Read16(data[2..]) <= |data|
    ensures DecodeValue(data[0], data[1], data[HEADER_SIZE..Read16(data[2..])]) == Some(DecodeChunks(data).value[0].value)
  {
    hide DecodeValue, Read16;
  }

  /** A chunk whose length does not fit 16 bits is not what is decoded from it. */
  lemma LongChunkIsLost(c: Chunk)
    requires Framable(c) && HEADER_SIZE + |EncodeBody(c.value)| > 0xFFFF
    ensures DecodeChunks(EncodeChunk(c)) != Some([c])
  {
    hide DecodeValue, EncodeBody, EncodeChunk, Read16, Matches, Encodable;
    var data := EncodeChunk(c);
    var length := (HEADER_SIZE + |EncodeBody(c.value)|) % 0x1_0000;
    EncodedHeader(c);
    assert length <= HEADER_SIZE + |EncodeBody(c.value)| - 0x1_0000;
    if length < HEADER_SIZE {
      ShortIsLost(c);
    } else if DecodeChunks(data) == Some([c]) {
      FirstDecoded(data);
      DecodedIsWithin(c.kind, c.flag, data[HEADER_SIZE..length], c.value);
      assert false;
    }
  }

  lemma ShortIsLost(c: Chunk)
    requires Framable(c) && (HEADER_SIZE + |EncodeBody(c.value)|) % 0x1_0000 < HEADER_SIZE
    ensures DecodeChunks(EncodeChunk(c)) != Some([c])
  {
    hide EncodeBody, Matches, Encodable, DecodeValue;
    var body := EncodeBody(c.value);
    var length := (HEADER_SIZE + |body|) % 0x1_0000;
    if length > 0 {
      ReadBe16(length, body);
      var full := [c.kind, c.flag] + (Be16(length) + body);
      var data := EncodeChunk(c);
      assert data == full[..4];
      assert full[2..] == Be16(length) + body;
      SameRead16(data[2..], full[2..]);
    }
  }

  /** A chunk whose length fits comes back exactly if its value does. */
  lemma FittingComesBack(c: Chunk)
    requires Framable(c) && HEADER_SIZE + |EncodeBody(c.value)| <= 0xFFFF
    ensures DecodeChunks(EncodeChunk(c)) == Some([c]) <==> DecodeValue(c.kind, c.flag, EncodeBody(c.value)) == Some(c.value)
  {
    hide DecodeValue, EncodeBody, EncodeChunk, Read16, Matches, Encodable, ChunkEnd;
    ChunkStands(c, []);
    assert EncodeChunk(c) + [] == EncodeChunk(c);
    assert DecodeChunks([]) == Some([]);
    if DecodeChunks(EncodeChunk(c)) == Some([c]) {
      FirstDecoded(EncodeChunk(c));
    } else {
      assert [Chunk(c.kind, c.flag, c.value)] + [] == [c];
    }
  }

  lemma ValueComesBack(c: Chunk)
    requires Framable(c) && HEADER_SIZE + |EncodeBody(c.value)| <= 0xFFFF
    ensures DecodeValue(c.kind, c.flag, EncodeBody(c.value)) == Some(c.value) <==> Decodable(c)
  {
    hide DecodeInit, DecodeCauses, EncodeAll, EncodeParameter, Find, Be32, Read32, EncodeGaps, EncodeTsns, Ordered, DecodeSack, DecodeData;
    if Decodable(c) {
      ValueRoundTrip(c);
    } else if c.value.DataValue? {
      DataRoundTrip(c.value.(flags := c.flag % 8), c.flag);
    } else {
      SackRoundTrip(c.value);
    }
  }

  /** Of the chunks the encoder takes, exactly the decodable ones come back. */
  lemma ChunkComesBack(c: Chunk)
    requires Framable(c)
    ensures DecodeChunks(EncodeChunk(c)) == Some([c]) <==> Decodable(c)
  {
    hide DecodeChunks, EncodeChunk, EncodeBody, DecodeValue, Matches, Encodable, Ordered;
    if HEADER_SIZE + |EncodeBody(c.value)| > 0xFFFF {
      LongChunkIsLost(c);
    } else {
      FittingComesBack(c);
      ValueComesBack(c);
    }
  }

  // ----- Packets -----

  datatype Packet = Packet(srcPort: U16, dstPort: U16, tag: U32, checksum: U32, chunks: seq<Chunk>)

  /** The checksum is the one field in little-endian order (section 6.8 of RFC 9260). */
  function Le32(v: U32): (r: Bytes)
    ensures |r| == 4
  {
    [v % 0x100, v / 0x100 % 0x100, v / 0x1_0000 % 0x100, v / 0x100_0000]
  }

  function ReadLe32(b: Bytes): U32
    requires |b| >= 4
  {
    var b0: int, b1: int, b2: int, b3: int := b[0], b[1], b[2], b[3];
    b0 + 0x100 * b1 + 0x1_0000 * b2 + 0x100_0000 * b3
  }

  lemma ReadLe(v: U32, rest: Bytes)
    ensures ReadLe32(Le32(v) + rest) == v && (Le32(v) + rest)[4..] == rest
  {
    var low, high := v % 0x1_0000, v / 0x1_0000;
    assert v / 0x100 % 0x100 == low / 0x100 && v % 0x100 == low % 0x100;
    assert v / 0x100_0000 == high / 0x100 && v / 0x1_0000 % 0x100 == high % 0x100;
  }

  function Framed(p: Packet, checksum: U32): Bytes
    requires forall c <- p.chunks :: Framable(c)
  {
    Be16(p.srcPort) + (Be16(p.dstPort) + (Be32(p.tag) + (Le32(checksum) + EncodeChunks(p.chunks))))
  }

  /** The checksum covers the packet with the checksum field zero. */
  function EncodePacket(p: Packet, crc: Bytes -> U32): Bytes
    requires forall c <- p.chunks :: Framable(c)
  {
    Framed(p, crc(Framed(p, 0)))
  }

  function DecodePacket(data: Bytes): Option<Packet> {
    if |data| < 12 then None else
      var chunks := DecodeChunks(data[12..]);
      if chunks.None? then None else
        Some(Packet(Read16(data), Read16(data[2..]), Read32(data[4..]), ReadLe32(data[8..]), chunks.value))
  }

  lemma FrameReads(p: Packet, checksum: U32)
    requires forall c <- p.chunks :: Framable(c)
    ensures var data := Framed(p, checksum);
            && |data| >= 12 && data[12..] == EncodeChunks(p.chunks)
            && Read16(data) == p.srcPort && Read16(data[2..]) == p.dstPort && Read32(data[4..]) == p.tag && ReadLe32(data[8..]) == checksum
  {
    hide Be16, Be32, Le32, Read16, Read32, ReadLe32, EncodeChunks, Framable;
    var d4 := Le32(checksum) + EncodeChunks(p.chunks);
    var d3 := Be32(p.tag) + d4;
    var d2 := Be16(p.dstPort) + d3;
    var d1 := Be16(p.srcPort) + d2;
    ReadBe16(p.srcPort, d2);
    ReadBe16(p.dstPort, d3);
    ReadBe32(p.tag, d4);
    ReadLe(checksum, EncodeChunks(p.chunks));
    assert d1[4..] == d2[2..] && d1[8..] == d3[4..] && d1[12..] == d4[4..];
  }

  /** Decoding an encoded packet gives its ports, its tag and its chunks back. */
  lemma PacketRoundTrip(p: Packet, crc: Bytes -> U32)
    requires forall c <- p.chunks :: Framable(c) && Decodable(c)
    ensures DecodePacket(EncodePacket(p, crc)) == Some(p.(checksum := crc(Framed(p, 0))))
  {
    hide Framed, EncodeChunks, DecodeChunks, Framable, Decodable, Read16, Read32, ReadLe32;
    FrameReads(p, crc(Framed(p, 0)));
    ChunksRoundTrip(p.chunks);
  }

  /** The receiver's check: the field read is the checksum of the packet with it cleared. */
  function Cleared(data: Bytes): Bytes
    requires |data| >= 12
  {
    data[..8] + Zeros(4) + data[12..]
  }

  lemma ChecksumVerifies(p: Packet, crc: Bytes -> U32)
    requires forall c <- p.chunks :: Framable(c)
    ensures var data := EncodePacket(p, crc);
            |data| >= 12 && ReadLe32(data[8..]) == crc(Cleared(data))
  {
    hide EncodeChunks, Framable, Read16, Read32, ReadLe32, Be16, Be32, Le32, Cleared;
    var checksum := crc(Framed(p, 0));
    FrameReads(p, checksum);
    var head := Be16(p.srcPort) + Be16(p.dstPort) + Be32(p.tag);
    var chunks := EncodeChunks(p.chunks);
    assert Framed(p, checksum) == head + (Le32(checksum) + chunks);
    assert Framed(p, 0) == head + (Le32(0) + chunks);
    ClearedField(head, Le32(checksum), chunks);
    ZeroChecksum();
  }

  lemma ClearedField(head: Bytes, field: Bytes, rest: Bytes)
    requires |head| == 8 && |field| == 4
    ensures Cleared(head + (field + rest)) == head + (Zeros(4) + rest)
  {
    var data := head + (field + rest);
    assert data[..8] == head && data[12..] == rest;
  }

  lemma ZeroChecksum()
    ensures Le32(0) == Zeros(4)
  {
  }

  // ----- The SACKs this endpoint builds -----

  lemma {:induction false} OrderedIsBlocksDecode(gaps: seq<GapBlock>, previous: nat)
    requires BlocksDecode(gaps) && (gaps != [] ==> previous < gaps[0].start)
    ensures Ordered(gaps, previous)
    decreases |gaps|
  {
    if gaps != [] {
      assert |gaps| > 1 ==> gaps[1 - 1].end < gaps[1].start;
      var rest := gaps[1..];
      forall b | 0 < b < |rest|
        ensures rest[b - 1].end < rest[b].start
      {
        assert gaps[b + 1 - 1].end < gaps[b + 1].start;
      }
      OrderedIsBlocksDecode(rest, gaps[0].end);
    }
  }

  function SackChunkOf(sack: SackChunk, flag: Byte): Chunk
    requires sack.aRwnd < 0x1_0000_0000
  {
    Chunk(SACK, flag, SackValue(sack.cumulativeTsnAck, sack.aRwnd, sack.gaps, sack.duplicates))
  }

  /** A SACK built from any reorder buffer can be put on the wire, and decodes to itself,
      as long as its length fits 16 bits. */
  lemma BuiltSackDecodes(t0: Tsn, rx: R.Rx, window: U32, duplicates: seq<Tsn>, flag: Byte)
    requires R.InReach(rx.cum, rx.ooo)
    requires var sack := S.SackOf(t0, rx, window, duplicates);
             HEADER_SIZE + 12 + 4 * |sack.gaps| + 4 * |sack.duplicates| <= 0xFFFF
    ensures var c := SackChunkOf(S.SackOf(t0, rx, window, duplicates), flag);
            Framable(c) && Decodable(c) && DecodeChunks(EncodeChunks([c])) == Some([c])
  {
    S.SackIsExact(t0, rx, window, duplicates, rx.cum);
    hide S.SackOf, Be16, Be32, DecodeChunks, EncodeChunks;
    var sack := S.SackOf(t0, rx, window, duplicates);
    assert sack.aRwnd < 0x1_0000_0000 by { SackWindow(t0, rx, window, duplicates); }
    var c := SackChunkOf(sack, flag);
    forall b <- sack.gaps
      ensures BlockFits(b)
    {
      var i :| 0 <= i < |sack.gaps| && sack.gaps[i] == b;
    }
    OrderedIsBlocksDecode(sack.gaps, 0);
    ChunksRoundTrip([c]);
  }

  lemma SackWindow(t0: Tsn, rx: R.Rx, window: U32, duplicates: seq<Tsn>)
    ensures S.SackOf(t0, rx, window, duplicates).aRwnd == window
  {
  }

  // ----- The code -----

  lemma Appends(a: Bytes, b: Bytes, c: Bytes)
    ensures a + (b + c) == (a + b) + c
  {
  }

  lemma NothingEncoded()
    ensures EncodeAll([]) == [] && EncodeGaps([]) == []
  {
  }

  lemma CausesFrom(causes: seq<Parameter>, i: nat)
    requires i < |causes| && forall p <- causes :: Fits(p)
    ensures EncodeAll(causes[i..]) == EncodeParameter(causes[i]) + EncodeAll(causes[i + 1..])
  {
    assert causes[i..][1..] == causes[i + 1..];
  }

  lemma GapsFrom(gaps: seq<GapBlock>, i: nat)
    requires i < |gaps| && forall b <- gaps :: BlockFits(b)
    ensures EncodeGaps(gaps[i..]) == Be16(gaps[i].start) + (Be16(gaps[i].end) + EncodeGaps(gaps[i + 1..]))
  {
    assert gaps[i..][1..] == gaps[i + 1..];
  }

  /** `serialize_error_chunk`; a cause too long is refused. */
  method SerializeCauses(causes: seq<Parameter>) returns (r: Option<Bytes>)
    ensures r.None? <==> exists p <- causes :: !Fits(p)
    ensures r.Some? ==> r.value == EncodeAll(causes)
  {
    hide EncodeParameter, Fits, EncodeAll;
    if exists p <- causes :: !Fits(p) {
      return None;
    }
    var out: Bytes := [];
    var i := 0;
    assert causes[0..] == causes;
    while i < |causes|
      invariant 0 <= i <= |causes| && out + EncodeAll(causes[i..]) == EncodeAll(causes)
    {
      CausesFrom(causes, i);
      Appends(out, EncodeParameter(causes[i]), EncodeAll(causes[i + 1..]));
      out := out + EncodeParameter(causes[i]);
      i := i + 1;
    }
    NothingEncoded();
    assert causes[i..] == [] && out + [] == out;
    return Some(out);
  }

  /** The lists of `serialize_sack_chunk`; a block that is empty or reversed is refused. */
  method SerializeGaps(gaps: seq<GapBlock>) returns (r: Option<Bytes>)
    ensures r.None? <==> exists b <- gaps :: !BlockFits(b)
    ensures r.Some? ==> r.value == EncodeGaps(gaps)
  {
    hide Be16, EncodeGaps, BlockFits;
    if exists b <- gaps :: !BlockFits(b) {
      return None;
    }
    var out: Bytes := [];
    var i := 0;
    assert gaps[0..] == gaps;
    while i < |gaps|
      invariant 0 <= i <= |gaps| && out + EncodeGaps(gaps[i..]) == EncodeGaps(gaps)
    {
      GapsFrom(gaps, i);
      TwoAppends(out, Be16(gaps[i].start), Be16(gaps[i].end), EncodeGaps(gaps[i + 1..]));
      out := out + Be16(gaps[i].start) + Be16(gaps[i].end);
      i := i + 1;
    }
    NothingEncoded();
    assert gaps[i..] == [] && out + [] == out;
    return Some(out);
  }

  lemma TwoAppends(a: Bytes, b: Bytes, c: Bytes, d: Bytes)
    ensures a + (b + (c + d)) == (a + b + c) + d
  {
  }

  method SerializeTsns(tsns: seq<U32>) returns (out: Bytes)
    ensures out == EncodeTsns(tsns)
  {
    hide Be32;
    out := [];
    var i := 0;
    assert tsns[0..] == tsns;
    while i < |tsns|
      invariant 0 <= i <= |tsns| && out + EncodeTsns(tsns[i..]) == EncodeTsns(tsns)
    {
      assert tsns[i..][0] == tsns[i] && tsns[i..][1..] == tsns[i + 1..];
      Appends(out, Be32(tsns[i]), EncodeTsns(tsns[i + 1..]));
      out := out + Be32(tsns[i]);
      i := i + 1;
    }
    assert tsns[i..] == [] && out + [] == out;
  }

  /** The body of a chunk, or `None` where the encoder throws. */
  method SerializeBody(v: Value) returns (r: Option<Bytes>)
    ensures r.None? <==> !Encodable(v)
    ensures r.Some? ==> r.value == EncodeBody(v)
  {
    hide Be16, Be32, EncodeGaps, EncodeTsns, EncodeAll, Fits, EncodeParameter;
    match v {
      case HeartbeatValue(info) =>
        HeartbeatFits(info);
        return if HEADER_SIZE + |info| > 0xFFFF then None else Some(EncodeParameter(Parameter(PARAM_HEARTBEAT_INFO, info)));
      case ErrorValue(causes) =>
        r := SerializeCauses(causes);
      case SackValue(cum, rwnd, gaps, duplicates) =>
        if |gaps| > 0xFFFF || |duplicates| > 0xFFFF {
          return None;
        }
        var blocks := SerializeGaps(gaps);
        if blocks.None? {
          return None;
        }
        var tsns := SerializeTsns(duplicates);
        return Some(Be32(cum) + (Be32(rwnd) + (Be16(|gaps|) + (Be16(|duplicates|) + (blocks.value + tsns)))));
      case _ =>
        return Some(EncodeBody(v));
    }
  }

  lemma HeartbeatFits(info: Bytes)
    ensures Fits(Parameter(PARAM_HEARTBEAT_INFO, info)) <==> HEADER_SIZE + |info| <= 0xFFFF
  {
  }

  /** `serialize_chunk`: room for the header is left and filled in once the body is known,
      and the buffer is resized to the length the header has room for. */
  method SerializeChunk(c: Chunk, out: Bytes) returns (r: Option<Bytes>)
    ensures r.None? <==> !Framable(c)
    ensures r.Some? ==> r.value == out + EncodeChunk(c)
  {
    hide Be16, EncodeBody, Matches, Encodable, Padded;
    var start := |out|;
    var buffer := out + Zeros(HEADER_SIZE);
    if !Matches(c.kind, c.value) {
      return None;
    }
    var body := SerializeBody(c.value);
    if body.None? {
      return None;
    }
    buffer := buffer + body.value;
    var length := (|buffer| - start) % 0x1_0000;
    buffer := buffer[start := c.kind][start + 1 := c.flag][start + 2 := Be16(length)[0]][start + 3 := Be16(length)[1]];
    ghost var chunk := [c.kind, c.flag] + (Be16(length) + body.value);
    assert buffer == out + chunk;
    ResizedBehind(out, chunk, Padded(length));
    buffer := Resized(buffer, start + Padded(length));
    return Some(buffer);
  }

  lemma ResizedBehind(a: Bytes, b: Bytes, n: nat)
    ensures Resized(a + b, |a| + n) == a + Resized(b, n)
  {
  }

  /** `serialize_sctp_packet`: the checksum field is written last. */
  method SerializePacket(p: Packet, crc: Bytes -> U32) returns (r: Option<Bytes>)
    ensures r.None? <==> exists c <- p.chunks :: !Framable(c)
    ensures r.Some? ==> r.value == EncodePacket(p, crc)
  {
    hide Be16, Be32, Framable, EncodeChunk, EncodeChunks, Le32;
    var out := Be16(p.srcPort) + Be16(p.dstPort) + Be32(p.tag) + Le32(0);
    ghost var head := out;
    ghost var all := forall c <- p.chunks :: Framable(c);
    var i := 0;
    assert p.chunks[0..] == p.chunks;
    while i < |p.chunks|
      invariant 0 <= i <= |p.chunks| && forall j :: 0 <= j < i ==> Framable(p.chunks[j])
      invariant all ==> out + EncodeChunks(p.chunks[i..]) == head + EncodeChunks(p.chunks)
    {
      var c := p.chunks[i];
      assert c in p.chunks;
      var more := SerializeChunk(c, out);
      if more.None? {
        return None;
      }
      if all {
        ChunksFrom(p.chunks, i);
        Appends(out, EncodeChunk(c), EncodeChunks(p.chunks[i + 1..]));
      }
      out := more.value;
      i := i + 1;
    }
    assert all;
    NothingFramed();
    assert p.chunks[i..] == [] && out + [] == out;
    PatchChecksum(p, out, crc(out));
    out := out[..8] + Le32(crc(out)) + out[12..];
    return Some(out);
  }

  lemma ChunksFrom(cs: seq<Chunk>, i: nat)
    requires i < |cs| && forall c <- cs :: Framable(c)
    ensures EncodeChunks(cs[i..]) == EncodeChunk(cs[i]) + EncodeChunks(cs[i + 1..])
  {
    hide EncodeChunk;
    assert cs[i..][1..] == cs[i + 1..];
  }

  lemma NothingFramed()
    ensures EncodeChunks([]) == []
  {
  }

  lemma PatchChecksum(p: Packet, out: Bytes, checksum: U32)
    requires forall c <- p.chunks :: Framable(c)
    requires out == Be16(p.srcPort) + Be16(p.dstPort) + Be32(p.tag) + Le32(0) + EncodeChunks(p.chunks)
    ensures out == Framed(p, 0) && out[..8] + Le32(checksum) + out[12..] == Framed(p, checksum)
  {
    hide Be16, Be32, Le32, EncodeChunks, Framable;
    var head := Be16(p.srcPort) + Be16(p.dstPort) + Be32(p.tag);
    var chunks := EncodeChunks(p.chunks);
    assert Framed(p, checksum) == head + Le32(checksum) + chunks;
    assert Framed(p, 0) == head + Le32(0) + chunks;
    assert out[..8] == head && out[12..] == chunks;
  }

  /** The loops of `deserialize_sack_chunk` over its gap blocks. */
  method DeserializeGaps(data: Bytes, n: nat) returns (r: Option<seq<GapBlock>>)
    requires |data| >= 4 * n
    ensures r == DecodeGaps(data, n, 0)
  {
    hide Read16;
    var gaps: seq<GapBlock> := [];
    var previousEnd, offset := 0, 0;
    var i := 0;
    assert data[0..] == data;
    while i < n
      invariant 0 <= i <= n && offset == 4 * i && 0 <= previousEnd
      invariant var rest := DecodeGaps(data[offset..], n - i, previousEnd);
                var all := DecodeGaps(data, n, 0);
                if rest.None? then all.None? else all.Some? && all.value == gaps + rest.value
    {
      var start, end := Read16(data[offset..]), Read16(data[offset + 2..]);
      assert data[offset..][2..] == data[offset + 2..] && data[offset..][4..] == data[offset + 4..];
      if start <= previousEnd || end < start {
        return None;
      }
      gaps, previousEnd, offset, i := gaps + [GapBlock(start, end)], end, offset + 4, i + 1;
    }
    assert gaps + [] == gaps;
    return Some(gaps);
  }

  /** `deserialize_error_chunk`. */
  method DeserializeCauses(data: Bytes) returns (r: Option<seq<Parameter>>)
    ensures r == DecodeCauses(data)
  {
    hide Read16, Padded, Rest, DecodeCauses;
    var causes: seq<Parameter> := [];
    var offset := 0;
    assert data[0..] == data;
    while offset + HEADER_SIZE <= |data|
      invariant var rest := DecodeCauses(From(data, offset));
                var all := DecodeCauses(data);
                if rest.None? then all.None? else all.Some? && all.value == causes + rest.value
      decreases |data| + 4 - offset
    {
      var here := data[offset..];
      var code, length := Read16(here), Read16(here[2..]);
      CauseRefused(here);
      if length < HEADER_SIZE || offset + length > |data| {
        return None;
      }
      Advances(data, offset);
      CauseRead(here);
      assert here[HEADER_SIZE..length] == data[offset + HEADER_SIZE..offset + length];
      causes := causes + [Parameter(code, data[offset + HEADER_SIZE..offset + length])];
      offset := offset + Padded(length);
    }
    CausesEnd(From(data, offset));
    assert causes + [] == causes;
    return Some(causes);
  }

  lemma CauseRefused(data: Bytes)
    ensures |data| >= HEADER_SIZE && !Stands(data) ==> DecodeCauses(data) == None
  {
  }

  lemma CauseRead(data: Bytes)
    requires Stands(data)
    ensures var more := DecodeCauses(Rest(data));
            DecodeCauses(data) == if more.None? then None else Some([Parameter(KindAt(data), ValueAt(data))] + more.value)
  {
    hide KindAt, ValueAt, Rest;
    LongEnough(data);
  }

  lemma CausesEnd(data: Bytes)
    ensures |data| < HEADER_SIZE ==> DecodeCauses(data) == Some([])
  {
  }

  /** `deserialize_sctp_packet`. */
  method DeserializePacket(data: Bytes) returns (r: Option<Packet>)
    ensures r == DecodePacket(data)
  {
    hide Read16, Read32, ReadLe32, DecodeValue;
    if |data| < 12 {
      return None;
    }
    var chunks: seq<Chunk> := [];
    var offset := 12;
    while offset < |data|
      invariant 12 <= offset <= |data|
      invariant var rest := DecodeChunks(data[offset..]);
                var all := DecodeChunks(data[12..]);
                if rest.None? then all.None? else all.Some? && all.value == chunks + rest.value
    {
      var here := data[offset..];
      if |here| < HEADER_SIZE {
        return None;
      }
      var length := Read16(here[2..]);
      if length < HEADER_SIZE || length > |here| {
        return None;
      }
      var value := DecodeValue(here[0], here[1], here[HEADER_SIZE..length]);
      if value.None? {
        return None;
      }
      chunks := chunks + [Chunk(here[0], here[1], value.value)];
      assert here[ChunkEnd(here, length)..] == data[offset + ChunkEnd(here, length)..];
      offset := offset + ChunkEnd(here, length);
    }
    assert data[offset..] == [] && chunks + [] == chunks;
    return Some(Packet(Read16(data), Read16(data[2..]), Read32(data[4..]), ReadLe32(data[8..]), chunks));
  }
}
