/** The State Cookie and its authentication (sections 5.1.3 and 5.1.5 of RFC 9260;
    src/serialize.cpp and src/cookie_auth.cpp). The MAC is any function of a secret and a
    body. Clock readings are nanoseconds; cookies are dated in microseconds. */
module CookieAuth {
  import opened Serial
  import opened WireFormat

  const STATE_COOKIE_VERSION: Byte := 1
  const STATE_COOKIE_BODY_SIZE: nat := 64
  const STATE_COOKIE_MAC_SIZE: nat := 32
  const STATE_COOKIE_SIZE: nat := 96
  const VALID_COOKIE_LIFE: nat := 60_000_000           // microseconds
  const MAX_COOKIE_LIFE: nat := 120_000_000            // microseconds
  const COOKIE_SECRET_ROTATION: int := 3_600_000_000_000 // nanoseconds
  const LOCAL_OUT_STREAMS: U16 := 10
  const LOCAL_MAX_IN_STREAMS: U16 := 65535

  type U64 = x: int | 0 <= x < 0x1_0000_0000_0000_0000

  datatype StateCookie = StateCookie(
    version: Byte, generation: Byte, created: U64, lifespan: U32,
    srcPort: U16, dstPort: U16, peerIpv4: U32, peerUdpPort: U16,
    localTag: U32, peerTag: U32, localTsn: U32, peerTsn: U32, peerRwnd: U32,
    localOut: U16, localIn: U16, peerOut: U16, peerIn: U16,
    localTie: U32, peerTie: U32, addresses: seq<U32>)

  // ----- The cookie on the wire -----

  function EncodeAddresses(addresses: seq<U32>): (r: Bytes)
    ensures |r| == 4 * |addresses|
  {
    if addresses == [] then [] else Be32(addresses[0]) + EncodeAddresses(addresses[1..])
  }

  /** All but the MAC. */
  function EncodeCookie(c: StateCookie): (r: Bytes)
    requires |c.addresses| <= 0xFFFF
    ensures |r| == STATE_COOKIE_BODY_SIZE + 4 * |c.addresses|
  {
    [c.version, c.generation] + (Be16(0) + (Be32(c.created / 0x1_0000_0000) + (Be32(c.created % 0x1_0000_0000) + (Be32(c.lifespan)
    + (Be16(c.srcPort) + (Be16(c.dstPort) + (Be32(c.peerIpv4) + (Be16(c.peerUdpPort) + (Be16(|c.addresses|) + EncodeTail(c))))))))))
  }

  function EncodeTail(c: StateCookie): (r: Bytes)
    ensures |r| == 36 + 4 * |c.addresses|
  {
    Be32(c.localTag) + (Be32(c.peerTag) + (Be32(c.localTsn) + (Be32(c.peerTsn) + (Be32(c.peerRwnd)
    + (Be16(c.localOut) + (Be16(c.localIn) + (Be16(c.peerOut) + (Be16(c.peerIn)
    + (Be32(c.localTie) + (Be32(c.peerTie) + EncodeAddresses(c.addresses)))))))))))
  }

  function DecodeAddresses(data: Bytes, n: nat): seq<U32>
    requires |data| >= 4 * n
    decreases n
  {
    if n == 0 then [] else [Read32(data)] + DecodeAddresses(data[4..], n - 1)
  }

  /** Refuses a wrong size or version; the fields stand at fixed offsets. */
  function DecodeCookie(data: Bytes): Option<StateCookie> {
    if |data| < STATE_COOKIE_SIZE then None else
      var count := Read16(data[26..]);
      if data[0] != STATE_COOKIE_VERSION || |data| != STATE_COOKIE_SIZE + 4 * count then None else
        var high: int, low: int := Read32(data[4..]), Read32(data[8..]);
        Some(StateCookie(
          data[0], data[1], high * 0x1_0000_0000 + low, Read32(data[12..]),
          Read16(data[16..]), Read16(data[18..]), Read32(data[20..]), Read16(data[24..]),
          Read32(data[28..]), Read32(data[32..]), Read32(data[36..]), Read32(data[40..]), Read32(data[44..]),
          Read16(data[48..]), Read16(data[50..]), Read16(data[52..]), Read16(data[54..]),
          Read32(data[56..]), Read32(data[60..]), DecodeAddresses(data[STATE_COOKIE_BODY_SIZE..], count)))
  }

  lemma At16(data: Bytes, offset: nat, v: U16, rest: Bytes)
    requires offset <= |data| && data[offset..] == Be16(v) + rest
    ensures offset + 2 <= |data| && Read16(data[offset..]) == v && data[offset + 2..] == rest
  {
    ReadBe16(v, rest);
    assert data[offset..][2..] == data[offset + 2..];
  }

  lemma At32(data: Bytes, offset: nat, v: U32, rest: Bytes)
    requires offset <= |data| && data[offset..] == Be32(v) + rest
    ensures offset + 4 <= |data| && Read32(data[offset..]) == v && data[offset + 4..] == rest
  {
    ReadBe32(v, rest);
    assert data[offset..][4..] == data[offset + 4..];
  }

  lemma {:induction false} AddressesRoundTrip(addresses: seq<U32>, mac: Bytes)
    ensures DecodeAddresses(EncodeAddresses(addresses) + mac, |addresses|) == addresses
    decreases |addresses|
  {
    hide Be32, Read32;
    if addresses != [] {
      var rest := EncodeAddresses(addresses[1..]) + mac;
      assert EncodeAddresses(addresses) + mac == Be32(addresses[0]) + rest;
      ReadBe32(addresses[0], rest);
      AddressesRoundTrip(addresses[1..], mac);
    }
  }

  /** The first half of a cookie, as read from `data`. */
  ghost predicate ReadsHead(data: Bytes, c: StateCookie) {
    && |data| >= 28
    && data[0] == c.version && data[1] == c.generation
    && Read32(data[4..]) == c.created / 0x1_0000_0000 && Read32(data[8..]) == c.created % 0x1_0000_0000
    && Read32(data[12..]) == c.lifespan && Read16(data[16..]) == c.srcPort && Read16(data[18..]) == c.dstPort
    && Read32(data[20..]) == c.peerIpv4 && Read16(data[24..]) == c.peerUdpPort && Read16(data[26..]) == |c.addresses|
  }

  ghost predicate ReadsTail(data: Bytes, c: StateCookie) {
    && |data| >= 64
    && Read32(data[28..]) == c.localTag && Read32(data[32..]) == c.peerTag && Read32(data[36..]) == c.localTsn
    && Read32(data[40..]) == c.peerTsn && Read32(data[44..]) == c.peerRwnd
    && Read16(data[48..]) == c.localOut && Read16(data[50..]) == c.localIn && Read16(data[52..]) == c.peerOut && Read16(data[54..]) == c.peerIn
    && Read32(data[56..]) == c.localTie && Read32(data[60..]) == c.peerTie
  }

  /** `A + (B + (... + X)) + Y` with the last two taken together. */
  lemma HeadReads(data: Bytes, c: StateCookie, mac: Bytes)
    requires |c.addresses| <= 0xFFFF && data == EncodeCookie(c) + mac
    ensures ReadsHead(data, c) && data[28..] == EncodeTail(c) + mac
  {
    var d9 := EncodeTail(c) + mac;
    var d8 := Be16(|c.addresses|) + d9;
    var d7 := Be16(c.peerUdpPort) + d8;
    var d6 := Be32(c.peerIpv4) + d7;
    var d5 := Be16(c.dstPort) + d6;
    var d4 := Be16(c.srcPort) + d5;
    var d3 := Be32(c.lifespan) + d4;
    var d2 := Be32(c.created % 0x1_0000_0000) + d3;
    var d1 := Be32(c.created / 0x1_0000_0000) + d2;
    hide Be16, Be32, Read16, Read32, EncodeTail;
    assert data == [c.version, c.generation] + (Be16(0) + d1);
    assert data[2..] == Be16(0) + d1;
    At16(data, 2, 0, d1);
    At32(data, 4, c.created / 0x1_0000_0000, d2);
    At32(data, 8, c.created % 0x1_0000_0000, d3);
    At32(data, 12, c.lifespan, d4);
    At16(data, 16, c.srcPort, d5);
    At16(data, 18, c.dstPort, d6);
    At32(data, 20, c.peerIpv4, d7);
    At16(data, 24, c.peerUdpPort, d8);
    At16(data, 26, |c.addresses|, d9);
  }

  lemma TailReads(data: Bytes, c: StateCookie, mac: Bytes)
    requires |data| >= 28 && data[28..] == EncodeTail(c) + mac
    ensures ReadsTail(data, c) && data[64..] == EncodeAddresses(c.addresses) + mac
  {
    var e11 := EncodeAddresses(c.addresses) + mac;
    var e10 := Be32(c.peerTie) + e11;
    var e9 := Be32(c.localTie) + e10;
    var e8 := Be16(c.peerIn) + e9;
    var e7 := Be16(c.peerOut) + e8;
    var e6 := Be16(c.localIn) + e7;
    var e5 := Be16(c.localOut) + e6;
    var e4 := Be32(c.peerRwnd) + e5;
    var e3 := Be32(c.peerTsn) + e4;
    var e2 := Be32(c.localTsn) + e3;
    var e1 := Be32(c.peerTag) + e2;
    hide Be16, Be32, Read16, Read32, EncodeAddresses;
    assert data[28..] == Be32(c.localTag) + e1;
    At32(data, 28, c.localTag, e1);
    At32(data, 32, c.peerTag, e2);
    At32(data, 36, c.localTsn, e3);
    At32(data, 40, c.peerTsn, e4);
    At32(data, 44, c.peerRwnd, e5);
    At16(data, 48, c.localOut, e6);
    At16(data, 50, c.localIn, e7);
    At16(data, 52, c.peerOut, e8);
    At16(data, 54, c.peerIn, e9);
    At32(data, 56, c.localTie, e10);
    At32(data, 60, c.peerTie, e11);
  }

  /** A cookie decodes to itself, whatever its MAC. */
  lemma CookieRoundTrip(c: StateCookie, mac: Bytes)
    requires c.version == STATE_COOKIE_VERSION && |c.addresses| <= 0xFFFF && |mac| == STATE_COOKIE_MAC_SIZE
    ensures DecodeCookie(EncodeCookie(c) + mac) == Some(c)
  {
    hide EncodeCookie, EncodeTail, EncodeAddresses, DecodeAddresses, Read16, Read32;
    var data := EncodeCookie(c) + mac;
    HeadReads(data, c, mac);
    TailReads(data, c, mac);
    AddressesRoundTrip(c.addresses, mac);
  }

  // ----- Secrets -----

  type Hmac = (Bytes, Bytes) -> Bytes

  /** The keys held, and when the current one was drawn. */
  datatype Keys = Keys(initialized: bool, current: Bytes, previous: Bytes, havePrevious: bool, generation: Byte, rotatedAt: int)

  const NO_KEYS := Keys(false, [], [], false, 0, 0)

  /** `rotate_if_due`: a new key once the current one is an hour old, the old one kept. */
  function Rotated(k: Keys, now: int, drawn: Bytes): Keys {
    if !k.initialized then k.(initialized := true, current := drawn, rotatedAt := now)
    else if now - k.rotatedAt < COOKIE_SECRET_ROTATION then k
    else Keys(true, drawn, k.current, true, (k.generation + 1) % 0x100, now)
  }

  function SecretFor(k: Keys, wanted: Byte): Option<Bytes> {
    if !k.initialized then None
    else if wanted == k.generation then Some(k.current)
    else if k.havePrevious && wanted == (k.generation - 1) % 0x100 then Some(k.previous)
    else None
  }

  // ----- Making and checking cookies -----

  /** What an INIT and the answer to it put into a cookie. */
  datatype Request = Request(
    srcPort: U16, dstPort: U16, peerIpv4: U32, peerUdpPort: U16,
    localTag: U32, localTsn: U32, peerTag: U32, peerTsn: U32, peerRwnd: U32, peerOut: U16, peerIn: U16,
    localTie: U32, peerTie: U32, incrementMs: U32, addresses: seq<U32>)

  function Lifespan(incrementMs: U32): U32 {
    var wanted := VALID_COOKIE_LIFE + incrementMs * 1000;
    if wanted < MAX_COOKIE_LIFE then wanted else MAX_COOKIE_LIFE
  }

  function CookieFor(r: Request, generation: Byte, created: U64): StateCookie {
    StateCookie(STATE_COOKIE_VERSION, generation, created, Lifespan(r.incrementMs),
                r.srcPort, r.dstPort, r.peerIpv4, r.peerUdpPort,
                r.localTag, r.peerTag, r.localTsn, r.peerTsn, r.peerRwnd,
                LOCAL_OUT_STREAMS, LOCAL_MAX_IN_STREAMS, r.peerOut, r.peerIn,
                r.localTie, r.peerTie, r.addresses)
  }

  /** A signed cookie: the body and its MAC under the current key. */
  function Signed(hmac: Hmac, k: Keys, r: Request, created: U64): Bytes
    requires |r.addresses| <= 0xFFFF
  {
    var body := EncodeCookie(CookieFor(r, k.generation, created));
    body + hmac(k.current, body)
  }

  datatype Verdict = Valid(cookie: StateCookie) | Malformed | UnknownSecret | BadMac | WrongEndpoint | Stale(cookie: StateCookie, staleness: U32)

  /** The packet a cookie comes back in. */
  datatype Echo = Echo(srcPort: U16, dstPort: U16, tag: U32, from: U32)

  predicate FromEndpoint(c: StateCookie, e: Echo) {
    && c.srcPort == e.srcPort && c.dstPort == e.dstPort && c.localTag == e.tag
    && (e.from == c.peerIpv4 || e.from in c.addresses)
  }

  function Aged(c: StateCookie, now: U64): Verdict {
    if now < c.created then Stale(c, 0)
    else if now - c.created <= c.lifespan then Valid(c)
    else
      var overshoot := now - c.created - c.lifespan;
      Stale(c, if overshoot > 0xFFFF_FFFF then 0xFFFF_FFFF else overshoot)
  }

  function Verified(hmac: Hmac, k: Keys, data: Bytes, e: Echo, now: U64): Verdict {
    var decoded := DecodeCookie(data);
    if decoded.None? then Malformed else
      var c := decoded.value;
      var secret := SecretFor(k, c.generation);
      if secret.None? then UnknownSecret
      else
        var bodySize := |data| - STATE_COOKIE_MAC_SIZE;
        if hmac(secret.value, data[..bodySize]) != data[bodySize..] then BadMac
        else if !FromEndpoint(c, e) then WrongEndpoint
        else Aged(c, now)
  }

  // ----- Completeness across rotations -----

  /** A later call that may rotate, and the key it would draw. */
  datatype Call = Call(now: int, drawn: Bytes)

  function AfterCalls(k: Keys, calls: seq<Call>): Keys
    decreases |calls|
  {
    if calls == [] then k else AfterCalls(Rotated(k, calls[0].now, calls[0].drawn), calls[1..])
  }

  /** The key of generation `g` is held: as the current one, or as the previous one, drawn
      out no earlier than `since`. */
  predicate Holds(k: Keys, g: Byte, secret: Bytes, since: int) {
    && k.initialized
    && ((k.generation == g && k.current == secret)
        || (k.generation == (g + 1) % 0x100 && k.havePrevious && k.previous == secret && since <= k.rotatedAt))
  }

  lemma HeldIsFound(k: Keys, g: Byte, secret: Bytes, since: int)
    requires Holds(k, g, secret, since)
    ensures SecretFor(k, g) == Some(secret)
  {
  }

  lemma {:induction false} StaysHeld(k: Keys, g: Byte, secret: Bytes, since: int, calls: seq<Call>)
    requires Holds(k, g, secret, since)
    requires forall i :: 0 <= i < |calls| ==> since <= calls[i].now < since + COOKIE_SECRET_ROTATION
    ensures Holds(AfterCalls(k, calls), g, secret, since)
    decreases |calls|
  {
    if calls != [] {
      StaysHeld(Rotated(k, calls[0].now, calls[0].drawn), g, secret, since, calls[1..]);
    }
  }

  function Microseconds(clock: nat): nat {
    clock / 1000
  }

  lemma ShortEnough(created: nat, now: nat, lifespan: nat)
    requires created <= now && Microseconds(now) - Microseconds(created) <= lifespan <= MAX_COOKIE_LIFE
    ensures now < created + COOKIE_SECRET_ROTATION
  {
  }

  /** A cookie that was made here, whatever calls have been made since: while its key is held
      and it comes back with its ports and tag, from its source or a listed address, it is
      judged by its age alone, valid up to its lifespan and stale by exactly the excess past
      it; from elsewhere it is refused; and without the key it is unknown, or refused for its
      MAC. */
  lemma CookieVerifies(hmac: Hmac, before: Keys, started: int, drawn: Bytes, r: Request, created: nat, calls: seq<Call>, e: Echo, now: nat)
    requires (forall s, b :: |hmac(s, b)| == STATE_COOKIE_MAC_SIZE) && |r.addresses| <= 0xFFFF
    requires Microseconds(created) < 0x1_0000_0000_0000_0000 && Microseconds(now) < 0x1_0000_0000_0000_0000
    ensures var k := Rotated(before, started, drawn);
            var c := CookieFor(r, k.generation, Microseconds(created));
            var held := SecretFor(AfterCalls(k, calls), k.generation);
            Verified(hmac, AfterCalls(k, calls), Signed(hmac, k, r, Microseconds(created)), e, Microseconds(now)) ==
            if held.None? then UnknownSecret
            else if hmac(held.value, EncodeCookie(c)) != hmac(k.current, EncodeCookie(c)) then BadMac
            else if e != Echo(r.srcPort, r.dstPort, r.localTag, e.from) || !(e.from == r.peerIpv4 || e.from in r.addresses) then WrongEndpoint
            else Aged(c, Microseconds(now))
  {
    var k := Rotated(before, started, drawn);
    hide Rotated;
    var c := CookieFor(r, k.generation, Microseconds(created));
    var body := EncodeCookie(c);
    var mac := hmac(k.current, body);
    assert |mac| == STATE_COOKIE_MAC_SIZE;
    CookieRoundTrip(c, mac);
    hide AfterCalls, SecretFor, DecodeCookie, EncodeCookie, Aged, Microseconds;
    var data := body + mac;
    assert data[..|body|] == body && data[|body|..] == mac;
  }

  lemma OlderIsLess(created: nat, now: nat)
    requires created <= now
    ensures Microseconds(created) <= Microseconds(now)
  {
  }

  /** Within the lifespan of a cookie its key is found, whatever rotations there were. */
  lemma KeyIsFound(before: Keys, started: int, drawn: Bytes, r: Request, created: nat, calls: seq<Call>, now: nat)
    requires created <= now && Microseconds(now) - Microseconds(created) <= Lifespan(r.incrementMs)
    requires forall i :: 0 <= i < |calls| ==> created <= calls[i].now <= now
    ensures var k := Rotated(before, started, drawn);
            SecretFor(AfterCalls(k, calls), k.generation) == Some(k.current)
  {
    var k := Rotated(before, started, drawn);
    assert k.initialized;
    hide Rotated, AfterCalls, SecretFor;
    ShortEnough(created, now, Lifespan(r.incrementMs));
    hide Microseconds;
    StaysHeld(k, k.generation, k.current, created, calls);
    HeldIsFound(AfterCalls(k, calls), k.generation, k.current, created);
  }

  lemma YoungIsValid(r: Request, generation: Byte, created: U64, now: U64)
    requires created <= now && now - created <= Lifespan(r.incrementMs)
    ensures var c := CookieFor(r, generation, created); Aged(c, now) == Valid(c)
  {
    hide Lifespan;
  }

  /** Within its lifespan a cookie's key is always still held. */
  lemma CookieIsComplete(hmac: Hmac, before: Keys, started: int, drawn: Bytes, r: Request, created: nat, calls: seq<Call>, e: Echo, now: nat)
    requires (forall s, b :: |hmac(s, b)| == STATE_COOKIE_MAC_SIZE) && |r.addresses| <= 0xFFFF
    requires started <= created <= now && Microseconds(now) < 0x1_0000_0000_0000_0000
    requires forall i :: 0 <= i < |calls| ==> created <= calls[i].now <= now
    requires Microseconds(now) - Microseconds(created) <= Lifespan(r.incrementMs)
    requires e == Echo(r.srcPort, r.dstPort, r.localTag, e.from) && (e.from == r.peerIpv4 || e.from in r.addresses)
    ensures Microseconds(created) < 0x1_0000_0000_0000_0000
    ensures var k := Rotated(before, started, drawn);
            var c := CookieFor(r, k.generation, Microseconds(created));
            Verified(hmac, AfterCalls(k, calls), Signed(hmac, k, r, Microseconds(created)), e, Microseconds(now)) == Valid(c)
  {
    var k := Rotated(before, started, drawn);
    hide *;
    OlderIsLess(created, now);
    KeyIsFound(before, started, drawn, r, created, calls, now);
    YoungIsValid(r, k.generation, Microseconds(created), Microseconds(now));
    CookieVerifies(hmac, before, started, drawn, r, created, calls, e, now);
  }

  lemma OneCall(k: Keys, call: Call)
    ensures AfterCalls(k, [call]) == Rotated(k, call.now, call.drawn)
  {
    assert [call][1..] == [];
  }

  /** Keys do not last: the first call an hour after a key was drawn replaces it, and the
      first an hour after that forgets it, so that its cookies are unknown. */
  lemma OldKeysAreForgotten(k: Keys, first: Call, second: Call)
    requires k.initialized && first.now >= k.rotatedAt + COOKIE_SECRET_ROTATION && second.now >= first.now + COOKIE_SECRET_ROTATION
    ensures var once, twice := AfterCalls(k, [first]), AfterCalls(k, [first, second]);
            && once.current == first.drawn && SecretFor(once, k.generation) == Some(k.current)
            && twice.current == second.drawn && SecretFor(twice, k.generation) == None
            && SecretFor(twice, once.generation) == Some(first.drawn)
  {
    var once := Rotated(k, first.now, first.drawn);
    OneCall(k, first);
    OneCall(once, second);
    assert [first, second][1..] == [second];
    assert AfterCalls(k, [first, second]) == AfterCalls(once, [second]);
  }

  /** What a cookie brings back of the INIT it was made for and of the answer to it. */
  lemma CookieBringsBack(r: Request, generation: Byte, created: U64)
    ensures var c := CookieFor(r, generation, created);
            && Request(c.srcPort, c.dstPort, c.peerIpv4, c.peerUdpPort, c.localTag, c.localTsn, c.peerTag, c.peerTsn, c.peerRwnd,
                       c.peerOut, c.peerIn, c.localTie, c.peerTie, r.incrementMs, c.addresses) == r
            && c.generation == generation && c.created == created
            && (r.incrementMs <= 60_000 ==> c.lifespan == 60_000_000 + 1000 * r.incrementMs)
            && (r.incrementMs >= 60_000 ==> c.lifespan == 120_000_000)
  {
  }

  /** Which bytes are accepted at all, read at their offsets: of the right size and version,
      signed with a key held under the generation they name, for the ports and tag they came
      with, from the address they were made for or one they list, and not too old. */
  lemma ValidMeans(hmac: Hmac, k: Keys, data: Bytes, e: Echo, now: U64)
    ensures Verified(hmac, k, data, e, now).Valid? <==>
              && |data| >= 96 && data[0] == 1 && |data| == 96 + 4 * Read16(data[26..])
              && SecretFor(k, data[1]).Some? && hmac(SecretFor(k, data[1]).value, data[..|data| - 32]) == data[|data| - 32..]
              && Read16(data[16..]) == e.srcPort && Read16(data[18..]) == e.dstPort && Read32(data[28..]) == e.tag
              && (e.from == Read32(data[20..]) || e.from in DecodeAddresses(data[64..], Read16(data[26..])))
              && var created := Read32(data[4..]) as int * 0x1_0000_0000 + Read32(data[8..]);
                 created <= now <= created + Read32(data[12..])
  {
    hide Read16, Read32, DecodeAddresses, SecretFor;
  }

  // ----- The code -----

  class Authorizer {
    const hmac: Hmac
    var current: Bytes
    var previous: Bytes
    var generation: Byte
    var havePrevious: bool
    var initialized: bool
    var rotatedAt: int

    ghost function View(): Keys
      reads this
    {
      Keys(initialized, current, previous, havePrevious, generation, rotatedAt)
    }

    constructor (hmac: Hmac)
      ensures View() == NO_KEYS && this.hmac == hmac
    {
      this.hmac := hmac;
      current, previous, generation, havePrevious, initialized, rotatedAt := [], [], 0, false, false, 0;
    }

    /** `drawn` is what the random source gives, should it be asked. */
    method RotateIfDue(now: int, drawn: Bytes)
      modifies this
      ensures View() == Rotated(old(View()), now, drawn)
    {
      if !initialized {
        current, initialized, rotatedAt := drawn, true, now;
        return;
      }
      if now - rotatedAt < COOKIE_SECRET_ROTATION {
        return;
      }
      previous, havePrevious := current, true;
      current := drawn;
      generation := (generation + 1) % 0x100;
      rotatedAt := now;
    }

    method FindSecret(wanted: Byte) returns (secret: Option<Bytes>)
      ensures secret == SecretFor(View(), wanted)
    {
      if !initialized {
        return None;
      }
      if wanted == generation {
        return Some(current);
      }
      if havePrevious && wanted == (generation - 1) % 0x100 {
        return Some(previous);
      }
      return None;
    }

    /** `now` and `created` are the two readings of the clock that it makes. */
    method Generate(now: int, created: nat, drawn: Bytes, r: Request) returns (cookie: Bytes)
      requires |r.addresses| <= 0xFFFF && Microseconds(created) < 0x1_0000_0000_0000_0000
      modifies this
      ensures View() == Rotated(old(View()), now, drawn)
      ensures cookie == Signed(hmac, View(), r, Microseconds(created))
    {
      RotateIfDue(now, drawn);
      var body := EncodeCookie(CookieFor(r, generation, Microseconds(created)));
      cookie := body + hmac(current, body);
    }

    method Verify(data: Bytes, e: Echo, clock: nat) returns (verdict: Verdict)
      requires Microseconds(clock) < 0x1_0000_0000_0000_0000
      ensures verdict == Verified(hmac, View(), data, e, Microseconds(clock))
    {
      var decoded := DecodeCookie(data);
      if decoded.None? {
        return Malformed;
      }
      var c := decoded.value;
      var secret := FindSecret(c.generation);
      if secret.None? {
        return UnknownSecret;
      }
      var bodySize := |data| - STATE_COOKIE_MAC_SIZE;
      if hmac(secret.value, data[..bodySize]) != data[bodySize..] {
        return BadMac;
      }
      var listed := e.from == c.peerIpv4 || e.from in c.addresses;
      if c.srcPort != e.srcPort || c.dstPort != e.dstPort || c.localTag != e.tag || !listed {
        return WrongEndpoint;
      }
      var now := Microseconds(clock);
      if now < c.created {
        return Stale(c, 0);
      }
      var age := now - c.created;
      if age > c.lifespan {
        var overshoot := age - c.lifespan;
        return Stale(c, if overshoot > 0xFFFF_FFFF then 0xFFFF_FFFF else overshoot);
      }
      return Valid(c);
    }
  }
}
