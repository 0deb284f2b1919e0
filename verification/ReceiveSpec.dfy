/** The receive path of src/socket_handlers.cpp as functions on values: reassembly,
    early assembly, per-stream ordering, eviction, partial delivery and the handling of
    one DATA packet. TSNs are indices that do not wrap (see Serial); SSNs keep their
    16 bits. The class `ReceivePath.Receiver` is the code proved against these functions. */
module ReceiveSpec {
  import opened Serial

  const RWND: nat := 65535

  type Bytes = seq<Byte>

  /** A DATA chunk without its TSN: where it belongs, its U, B and E bits, its payload. */
  datatype Fragment = Fragment(stream: U16, ssn: U16, unordered: bool, begins: bool, ends: bool, bytes: Bytes)

  datatype Held = Held(data: Fragment, assembled: bool)

  datatype Delivery = Delivery(bytes: Bytes, complete: bool, stream: U16)

  datatype InboundStream = InboundStream(nextSsn: U16, early: map<U16, Bytes>)

  datatype Reassembly = Reassembly(open: bool, partiallyDelivered: bool, unordered: bool, stream: U16, ssn: U16, bytes: Bytes)

  const IDLE := Reassembly(false, false, false, 0, 0, [])

  /** Everything above the reorder buffer: the open message, the streams, the deliveries
      held behind a partial delivery and those handed up while handling this packet. */
  datatype Assembly = Assembly(message: Reassembly, streams: map<U16, InboundStream>, held: seq<Delivery>, up: seq<Delivery>)

  datatype Outcome = Outcome(a: Assembly, ok: bool)

  function StreamOf(streams: map<U16, InboundStream>, id: U16): InboundStream {
    if id in streams then streams[id] else InboundStream(0, map[])
  }

  predicate PartialOpen(a: Assembly) {
    a.message.open && a.message.partiallyDelivered
  }

  function HandUp(a: Assembly, d: Delivery): Assembly {
    if PartialOpen(a) then a.(held := a.held + [d]) else a.(up := a.up + [d])
  }

  function Increment(ssn: U16): U16 {
    (ssn + 1) % SSN_SPACE
  }

  /** Hands up the early messages of a stream that are next in turn. */
  function Drain(a: Assembly, id: U16): Assembly
    decreases |StreamOf(a.streams, id).early|
  {
    var s := StreamOf(a.streams, id);
    if s.nextSsn in s.early then
      var rest := s.early - {s.nextSsn};
      assert s.early.Keys == rest.Keys + {s.nextSsn};
      assert |s.early.Keys| == |rest.Keys| + 1;
      var next := InboundStream(Increment(s.nextSsn), rest);
      Drain(HandUp(a, Delivery(s.early[s.nextSsn], true, id)).(streams := a.streams[id := next]), id)
    else
      a
  }

  function AdvanceStream(a: Assembly, id: U16): Assembly {
    var s := StreamOf(a.streams, id);
    Drain(a.(streams := a.streams[id := s.(nextSsn := Increment(s.nextSsn))]), id)
  }

  function OrderMessage(a: Assembly, id: U16, ssn: U16, unordered: bool, bytes: Bytes): Outcome {
    if unordered then
      Outcome(HandUp(a, Delivery(bytes, true, id)), true)
    else
      var s := StreamOf(a.streams, id);
      if ssn != s.nextSsn then
        if SsnGt(ssn, s.nextSsn) && ssn !in s.early then
          Outcome(a.(streams := a.streams[id := s.(early := s.early[ssn := bytes])]), true)
        else
          Outcome(a, false)
      else
        Outcome(AdvanceStream(HandUp(a, Delivery(bytes, true, id)), id), true)
  }

  predicate Continues(f: Fragment, m: Reassembly) {
    f.stream == m.stream && f.unordered == m.unordered && (f.unordered || f.ssn == m.ssn)
  }

  /** Takes the next chunk in TSN order; not ok if it neither begins a message nor
      continues the open one. */
  function Reassemble(a: Assembly, f: Fragment, keep: bool): Outcome {
    if f.begins == a.message.open || (!f.begins && !Continues(f, a.message)) then
      Outcome(a, false)
    else
      var m := (if f.begins then Reassembly(true, false, f.unordered, f.stream, f.ssn, []) else a.message).(open := !f.ends);
      if !keep then
        Outcome(a.(message := m), true)
      else
        var bytes := m.bytes + f.bytes;
        var cleared := m.(bytes := []);
        if m.partiallyDelivered then
          var d := Delivery(bytes, f.ends, m.stream);
          if f.ends then
            Outcome(a.(message := cleared, up := a.up + [d] + a.held, held := []), true)
          else
            Outcome(a.(message := cleared, up := a.up + [d]), true)
        else if !f.ends then
          Outcome(a.(message := m.(bytes := bytes)), true)
        else
          OrderMessage(a.(message := cleared), m.stream, m.ssn, m.unordered, bytes)
  }

  // ----- The reorder buffer -----

  type Reorder = map<int, Held>

  /** Every held TSN is above the cumulative point and within reach of a Gap Ack Block. */
  predicate InReach(cum: int, ooo: Reorder) {
    forall k <- ooo :: cum < k <= cum + UINT16_MAX
  }

  predicate Usable(ooo: Reorder, i: int) {
    i in ooo && !ooo[i].assembled && ooo[i].data.bytes != []
  }

  predicate SameMessage(f: Fragment, g: Fragment) {
    f.stream == g.stream && f.unordered == g.unordered && (f.unordered || f.ssn == g.ssn)
  }

  datatype Found = None | At(index: int)

  /** Walks down from `i` to the fragment that begins the message of `like`. */
  function FirstFragment(cum: int, ooo: Reorder, i: int, like: Fragment): (r: Found)
    requires InReach(cum, ooo) && Usable(ooo, i)
    ensures r.At? ==> r.index <= i
    decreases i - cum
  {
    if ooo[i].data.begins then
      At(i)
    else if Usable(ooo, i - 1) && !ooo[i - 1].data.ends && SameMessage(ooo[i - 1].data, like) then
      FirstFragment(cum, ooo, i - 1, like)
    else
      None
  }

  /** Walks up from `i` to the fragment that ends the message of `like`. */
  function LastFragment(cum: int, ooo: Reorder, i: int, like: Fragment): (r: Found)
    requires InReach(cum, ooo) && Usable(ooo, i)
    ensures r.At? ==> i <= r.index
    decreases cum + UINT16_MAX - i
  {
    if ooo[i].data.ends then
      At(i)
    else if Usable(ooo, i + 1) && !ooo[i + 1].data.begins && SameMessage(ooo[i + 1].data, like) then
      LastFragment(cum, ooo, i + 1, like)
    else
      None
  }

  /** The payloads held for TSNs `first` up to but excluding `end`, in TSN order. */
  function Gather(ooo: Reorder, first: int, end: int): Bytes
    decreases end - first
  {
    if end <= first then [] else
      Gather(ooo, first, end - 1) + (if end - 1 in ooo then ooo[end - 1].data.bytes else [])
  }

  function MarkAssembled(ooo: Reorder, first: int, last: int): Reorder {
    map k | k in ooo :: if first <= k <= last then Held(ooo[k].data.(bytes := []), true) else ooo[k]
  }

  datatype Rx = Rx(cum: int, ooo: Reorder, a: Assembly)

  datatype RxOutcome = RxOutcome(rx: Rx, ok: bool)

  /** Takes the message of chunk `i` out of the buffer if all of it is there. */
  function AssembleEarly(rx: Rx, i: int): RxOutcome
    requires InReach(rx.cum, rx.ooo)
  {
    if !Usable(rx.ooo, i) then
      RxOutcome(rx, true)
    else
      var f := rx.ooo[i].data;
      match FirstFragment(rx.cum, rx.ooo, i, f)
      case None => RxOutcome(rx, true)
      case At(first) =>
        match LastFragment(rx.cum, rx.ooo, i, f)
        case None => RxOutcome(rx, true)
        case At(last) =>
          var o := OrderMessage(rx.a, f.stream, f.ssn, f.unordered, Gather(rx.ooo, first, last + 1));
          RxOutcome(rx.(ooo := MarkAssembled(rx.ooo, first, last), a := o.a), o.ok)
  }

  /** Moves the cumulative point over what the buffer holds next in turn. */
  function ReadBuffer(rx: Rx): (r: RxOutcome)
    requires InReach(rx.cum, rx.ooo)
    ensures r.ok ==> InReach(r.rx.cum, r.rx.ooo) && r.rx.cum + 1 !in r.rx.ooo && rx.cum <= r.rx.cum
    decreases |rx.ooo|
  {
    var i := rx.cum + 1;
    if i !in rx.ooo then
      RxOutcome(rx, true)
    else
      var h := rx.ooo[i];
      var o := Reassemble(rx.a, h.data, !h.assembled && h.data.bytes != []);
      var rest := rx.ooo - {i};
      assert rx.ooo.Keys == rest.Keys + {i};
      assert |rx.ooo.Keys| == |rest.Keys| + 1;
      if !o.ok then RxOutcome(rx, false) else ReadBuffer(Rx(i, rest, o.a))
  }

  /** The highest TSN in (cum, top] held and not assembled. */
  function HighestEvictable(cum: int, ooo: Reorder, top: int): (r: Found)
    ensures r.At? ==> r.index in ooo && !ooo[r.index].assembled && cum < r.index <= top
    ensures r.At? ==> forall k <- ooo :: r.index < k <= top ==> ooo[k].assembled
    ensures r.None? ==> forall k <- ooo :: cum < k <= top ==> ooo[k].assembled
    decreases top - cum
  {
    if top <= cum then None
    else if top in ooo && !ooo[top].assembled then At(top)
    else HighestEvictable(cum, ooo, top - 1)
  }

  /** The entry dropped to make room for TSN `i`, if there is one above it. */
  function Evicted(rx: Rx, i: int): (r: Found)
    ensures r.At? ==> r.index in rx.ooo && !rx.ooo[r.index].assembled
  {
    match HighestEvictable(rx.cum, rx.ooo, rx.cum + UINT16_MAX)
    case None => None
    case At(k) => if i > k then None else At(k)
  }

  ghost predicate BlockedOnCumulative(rx: Rx) {
    || (exists k <- rx.ooo :: rx.ooo[k].assembled)
    || (exists id <- rx.a.streams :: rx.a.streams[id].early != map[])
  }

  /** What became of one DATA chunk. */
  datatype Verdict = Duplicate | Dropped | Accepted | Violation

  datatype Step = Step(rx: Rx, used: int, verdict: Verdict)

  function Emptied(f: Fragment): Fragment {
    f.(bytes := [])
  }

  /** Room for a chunk when the buffer is full: an eviction, or nothing at all for the
      chunk that the complete ones are waiting for. */
  ghost function MadeRoom(rx: Rx, used: int, i: int): Step {
    if used < RWND then
      Step(rx, used, Accepted)
    else match Evicted(rx, i)
      case At(k) => Step(rx.(ooo := rx.ooo - {k}), used - |rx.ooo[k].data.bytes|, Accepted)
      case None => Step(rx, used, if i == rx.cum + 1 && BlockedOnCumulative(rx) then Accepted else Dropped)
  }

  /** Stores or consumes a chunk there is room for. */
  function Place(rx: Rx, i: int, f: Fragment, valid: bool): (r: RxOutcome)
    requires InReach(rx.cum, rx.ooo) && rx.cum < i <= rx.cum + UINT16_MAX && i !in rx.ooo
    ensures r.ok ==> InReach(r.rx.cum, r.rx.ooo) && rx.cum <= r.rx.cum
  {
    if i == rx.cum + 1 then
      var o := Reassemble(rx.a, f, valid);
      if !o.ok then RxOutcome(rx, false) else ReadBuffer(rx.(cum := i, a := o.a))
    else if !valid then
      RxOutcome(rx.(ooo := rx.ooo[i := Held(Emptied(f), false)]), true)
    else
      AssembleEarly(rx.(ooo := rx.ooo[i := Held(f, false)]), i)
  }

  /** One DATA chunk with TSN index `i`, with `used` bytes of the receive buffer taken. */
  ghost function HandleChunk(rx: Rx, used: int, inStreams: nat, i: int, f: Fragment): (s: Step)
    requires InReach(rx.cum, rx.ooo)
    ensures !s.verdict.Violation? ==> InReach(s.rx.cum, s.rx.ooo) && rx.cum <= s.rx.cum
  {
    if i <= rx.cum || i in rx.ooo then
      Step(rx, used, Duplicate)
    else if i > rx.cum + UINT16_MAX then
      Step(rx, used, Dropped)
    else
      var room := MadeRoom(rx, used, i);
      if room.verdict == Dropped then
        room
      else
        var valid := f.stream < inStreams;
        var o := Place(room.rx, i, f, valid);
        Step(o.rx, room.used + (if valid then |f.bytes| else 0), if o.ok then Accepted else Violation)
  }

  /** Gives the ULP what there is of a message the window cannot take the rest of. */
  function DeliverPartially(a: Assembly, used: int, pmdcs: nat): Assembly {
    var m := a.message;
    if m.open && m.bytes != [] && used + pmdcs > RWND && (m.unordered || m.ssn == StreamOf(a.streams, m.stream).nextSsn) then
      var b := a.(up := a.up + [Delivery(m.bytes, false, m.stream)], message := m.(bytes := [], partiallyDelivered := true));
      if m.unordered then b else AdvanceStream(b, m.stream)
    else
      a
  }

  // ----- Bytes held back -----

  /** The total weight of the values of a map. */
  ghost function Weigh<K(!new), V>(m: map<K, V>, w: V -> nat): nat
    decreases |m|
  {
    if m == map[] then 0 else
      var k :| k in m;
      assert |m.Keys| == |(m - {k}).Keys| + 1 by { assert m.Keys == (m - {k}).Keys + {k}; }
      w(m[k]) + Weigh(m - {k}, w)
  }

  function HeldSize(h: Held): nat {
    |h.data.bytes|
  }

  function Size(b: Bytes): nat {
    |b|
  }

  ghost function EarlySize(s: InboundStream): nat {
    Weigh(s.early, Size)
  }

  function DeliveredBytes(ds: seq<Delivery>): nat {
    if ds == [] then 0 else DeliveredBytes(ds[..|ds| - 1]) + |ds[|ds| - 1].bytes|
  }

  /** User data held back from the ULP: for reordering, reassembly or ordered delivery. */
  ghost function HeldBytes(rx: Rx): nat {
    |rx.a.message.bytes| + Weigh(rx.ooo, HeldSize) + Weigh(rx.a.streams, EarlySize) + DeliveredBytes(rx.a.held)
  }

  // ----- A DATA packet -----

  datatype DataChunk = DataChunk(tsn: Tsn, data: Fragment)

  datatype Handled = Handled(rx: Rx, used: int, violation: bool, duplicates: seq<Tsn>, dropped: bool)

  /** The chunks of a packet in turn, up to the first violation. */
  ghost function HandleChunks(t0: Tsn, rx: Rx, used: int, inStreams: nat, chunks: seq<DataChunk>): (r: Handled)
    requires InReach(rx.cum, rx.ooo)
    ensures !r.violation ==> InReach(r.rx.cum, r.rx.ooo)
    decreases |chunks|
  {
    if chunks == [] then
      Handled(rx, used, false, [], false)
    else
      var s := HandleChunk(rx, used, inStreams, Unwrap(t0, rx.cum, chunks[0].tsn), chunks[0].data);
      if s.verdict.Violation? then
        Handled(s.rx, s.used, true, [], false)
      else
        var rest := HandleChunks(t0, s.rx, s.used, inStreams, chunks[1..]);
        rest.(duplicates := (if s.verdict.Duplicate? then [chunks[0].tsn] else []) + rest.duplicates,
              dropped := s.verdict.Dropped? || rest.dropped)
  }

  /** A whole packet, with `buffered` bytes waiting to be read by the ULP. */
  ghost function HandlePacket(t0: Tsn, rx: Rx, buffered: nat, inStreams: nat, pmdcs: nat, chunks: seq<DataChunk>): (r: Handled)
    requires InReach(rx.cum, rx.ooo)
    ensures !r.violation ==> InReach(r.rx.cum, r.rx.ooo)
  {
    var start := rx.(a := rx.a.(up := []));
    var r := HandleChunks(t0, start, buffered + HeldBytes(rx), inStreams, chunks);
    if r.violation then r else r.(rx := r.rx.(a := DeliverPartially(r.rx.a, r.used, pmdcs)))
  }
}
