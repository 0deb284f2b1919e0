/** Setting an association up: the four-way handshake with its cookies, collisions and
    retries (sections 5.1 and 5.2 of RFC 9260; src/socket_handlers.cpp and
    src/socket_timers.cpp). What one endpoint does with one message is a function of its
    TCB; the class `Listener` is the code that does it in place. */
module Handshake {
  import opened Transmission

  const MAX_INIT_RETRANSMITS: nat := 8
  const MAX_STALE_COOKIE_RETRIES: nat := 2

  datatype Option<T> = None | Some(value: T)

  /** A verification tag and the initial TSN drawn with it. */
  datatype Id = Id(tag: nat, tsn: nat)

  datatype Cookie = Cookie(local: Id, peer: Id, localTie: nat, peerTie: nat)

  /** What `answers` records, the cookie a reply is about, is not on the wire and no handler
      looks at it. */
  datatype Message =
    | Init(from: Id)
    | InitAck(vtag: nat, from: Id, cookie: Cookie)
    | CookieEcho(cookie: Cookie)
    | CookieAck(vtag: nat, answers: Cookie)
    | StaleCookie(vtag: nat, answers: Cookie)

  datatype Tcb = Tcb(
    state: AssociationState, own: Id, peer: Id, localTie: nat, peerTie: nat,
    initRetransmits: nat, cookieRetransmits: nat, staleRetries: nat)

  /** What a message leaves: the TCB, and what is sent back. */
  datatype Outcome = Outcome(tcb: Option<Tcb>, reply: Option<Message>)

  /** What an endpoint draws at random while handling an INIT. */
  datatype Draw = Draw(id: Id, localTie: nat, peerTie: nat)

  /** Past the handshake. */
  predicate Up(state: AssociationState) {
    !state.CookieWait? && !state.CookieEchoed?
  }

  function NewAssociation(id: Id): Tcb {
    Tcb(CookieWait, id, Id(0, 0), 0, 0, 0, 0, 0)
  }

  function FromCookie(c: Cookie): Tcb {
    Tcb(Established, c.local, c.peer, 0, 0, 0, 0, 0)
  }

  function WithTies(t: Tcb, draw: Draw): Tcb {
    if t.localTie == 0 then t.(localTie := draw.localTie, peerTie := draw.peerTie) else t
  }

  /** An INIT is answered from the state the TCB is in, and changes only its Tie-Tags. */
  function OnInit(tcb: Option<Tcb>, from: Id, draw: Draw): Outcome {
    if from.tag == 0 then
      Outcome(tcb, None)
    else
      match tcb
      case None => Outcome(tcb, Some(InitAck(from.tag, draw.id, Cookie(draw.id, from, 0, 0))))
      case Some(t) =>
        match t.state
        case ShutdownAckSent => Outcome(tcb, None)
        case CookieWait => Outcome(tcb, Some(InitAck(from.tag, t.own, Cookie(t.own, from, 0, 0))))
        case _ =>
          var u := WithTies(t, draw);
          var local := if t.state.CookieEchoed? then t.own else draw.id;
          Outcome(Some(u), Some(InitAck(from.tag, local, Cookie(local, from, u.localTie, u.peerTie))))
  }

  /** An INIT ACK addressed to this TCB is taken once, in COOKIE-WAIT. */
  function OnInitAck(tcb: Option<Tcb>, vtag: nat, from: Id, cookie: Cookie): Outcome {
    match tcb
    case None => Outcome(tcb, None)
    case Some(t) =>
      if vtag != t.own.tag || !t.state.CookieWait? then Outcome(tcb, None)
      else if from.tag == 0 then Outcome(None, None)
      else Outcome(Some(t.(peer := from, state := CookieEchoed)), Some(CookieEcho(cookie)))
  }

  predicate LocalMatch(t: Tcb, c: Cookie) {
    c.local.tag == t.own.tag
  }

  predicate PeerMatch(t: Tcb, c: Cookie) {
    c.peer.tag == t.peer.tag
  }

  predicate TiesMatch(t: Tcb, c: Cookie) {
    c.localTie != 0 && c.localTie == t.localTie && c.peerTie == t.peerTie
  }

  /** A cookie that verifies, as Table 12 of section 5.2.4 of RFC 9260 has it. */
  function OnCookieEcho(tcb: Option<Tcb>, c: Cookie, stale: bool): Outcome {
    match tcb
    case None =>
      if stale then Outcome(tcb, Some(StaleCookie(c.peer.tag, c))) else Outcome(Some(FromCookie(c)), Some(CookieAck(c.peer.tag, c)))
    case Some(t) =>
      if stale && !(LocalMatch(t, c) && PeerMatch(t, c)) then
        Outcome(tcb, Some(StaleCookie(c.peer.tag, c)))
      else if LocalMatch(t, c) && PeerMatch(t, c) then
        Outcome(Some(if t.state.CookieEchoed? then t.(state := Established) else t), Some(CookieAck(c.peer.tag, c)))
      else if !LocalMatch(t, c) && !PeerMatch(t, c) && TiesMatch(t, c) then
        if t.state.ShutdownAckSent? then Outcome(tcb, None) else Outcome(Some(FromCookie(c)), Some(CookieAck(c.peer.tag, c)))
      else if LocalMatch(t, c) then
        Outcome(Some(t.(peer := c.peer, state := if Up(t.state) then t.state else Established)), Some(CookieAck(c.peer.tag, c)))
      else
        Outcome(tcb, None)
  }

  function OnCookieAck(tcb: Option<Tcb>, vtag: nat): Outcome {
    match tcb
    case None => Outcome(tcb, None)
    case Some(t) =>
      Outcome(Some(if vtag == t.own.tag && t.state.CookieEchoed? then t.(state := Established) else t), None)
  }

  /** A Stale Cookie error starts the handshake over, twice at most. */
  function OnStaleCookie(tcb: Option<Tcb>, vtag: nat): Outcome {
    match tcb
    case None => Outcome(tcb, None)
    case Some(t) =>
      if vtag != t.own.tag || !t.state.CookieEchoed? then Outcome(tcb, None)
      else if t.staleRetries >= MAX_STALE_COOKIE_RETRIES then Outcome(None, None)
      else
        var u := t.(state := CookieWait, peer := t.peer.(tag := 0), initRetransmits := 0, cookieRetransmits := 0, staleRetries := t.staleRetries + 1);
        Outcome(Some(u), Some(Init(t.own)))
  }

  function OnMessage(tcb: Option<Tcb>, m: Message, draw: Draw, stale: bool): Outcome {
    match m
    case Init(from) => OnInit(tcb, from, draw)
    case InitAck(vtag, from, cookie) => OnInitAck(tcb, vtag, from, cookie)
    case CookieEcho(cookie) => OnCookieEcho(tcb, cookie, stale)
    case CookieAck(vtag, _) => OnCookieAck(tcb, vtag)
    case StaleCookie(vtag, _) => OnStaleCookie(tcb, vtag)
  }

  /** T1-init or T1-cookie goes off: the message is sent again, eight times at most. */
  function OnT1(tcb: Option<Tcb>, timesInit: bool): Option<Tcb> {
    match tcb
    case None => tcb
    case Some(t) =>
      if timesInit && t.state.CookieWait? then
        if t.initRetransmits >= MAX_INIT_RETRANSMITS then None else Some(t.(initRetransmits := t.initRetransmits + 1))
      else if !timesInit && t.state.CookieEchoed? then
        if t.cookieRetransmits >= MAX_INIT_RETRANSMITS then None else Some(t.(cookieRetransmits := t.cookieRetransmits + 1))
      else tcb
  }

  // ----- Cookies -----

  /** Every row of the table, for every TCB: which cookies are acknowledged, which refused as
      stale and which ignored; an endpoint that acknowledges a cookie is left with the tags of
      the cookie, and refusing or ignoring one changes nothing. */
  lemma CookieIsJudged(tcb: Option<Tcb>, c: Cookie, stale: bool)
    ensures var r := OnCookieEcho(tcb, c, stale);
            var both := tcb.Some? && LocalMatch(tcb.value, c) && PeerMatch(tcb.value, c);
            && (r.reply == Some(CookieAck(c.peer.tag, c)) <==>
                  both || (!stale && (tcb.None? || LocalMatch(tcb.value, c) || (TellsRestart(tcb.value, c) && !tcb.value.state.ShutdownAckSent?))))
            && (r.reply == Some(StaleCookie(c.peer.tag, c)) <==> stale && !both)
            && (r.reply.Some? ==> r.reply.value == CookieAck(c.peer.tag, c) || r.reply.value == StaleCookie(c.peer.tag, c))
            && (r.reply == Some(CookieAck(c.peer.tag, c)) ==>
                  r.tcb.Some? && r.tcb.value.own.tag == c.local.tag && r.tcb.value.peer.tag == c.peer.tag && !r.tcb.value.state.CookieEchoed?)
            && (r.reply != Some(CookieAck(c.peer.tag, c)) ==> r.tcb == tcb)
  {
  }

  /** A fresh cookie that tells of a restart leaves the association of the cookie, whatever
      was there before, except in SHUTDOWN-ACK-SENT. One that does not, keeps the TCB's own
      tag and TSN and everything in it but the peer's. */
  lemma RestartReplaces(t: Tcb, c: Cookie)
    requires !t.state.ShutdownAckSent?
    ensures var r := OnCookieEcho(Some(t), c, false).tcb;
            && r.Some?
            && (TellsRestart(t, c) ==> r.value.state.Established? && r.value.own == c.local && r.value.peer == c.peer && r.value.localTie == 0 && r.value.peerTie == 0)
            && (!TellsRestart(t, c) ==> r.value == t.(state := r.value.state, peer := r.value.peer) && (Up(t.state) ==> r.value.state == t.state))
  {
  }

  /** Four messages set an association up, whatever the tags drawn: both ends are established
      and each holds the other's tag and initial TSN. */
  lemma HandshakeSucceeds(id: Id, draw: Draw)
    requires id.tag != 0 && draw.id.tag != 0
    ensures var init := Init(id);
            var answered := OnMessage(None, init, draw, false);
            && answered.tcb.None? && answered.reply.Some?
            && var echoed := OnMessage(Some(NewAssociation(id)), answered.reply.value, draw, false);
            && echoed.reply.Some?
            && var accepted := OnMessage(None, echoed.reply.value, draw, false);
            && accepted.reply.Some?
            && var done := OnMessage(echoed.tcb, accepted.reply.value, draw, false);
            && accepted.tcb.Some? && accepted.tcb.value.state.Established? && accepted.tcb.value.own == draw.id && accepted.tcb.value.peer == id
            && done.tcb.Some? && done.tcb.value.state.Established? && done.tcb.value.own == id && done.tcb.value.peer == draw.id
  {
  }

  /** Two ends that open at the same time meet in one association: each answers the other's
      INIT, takes the answer to its own, and the two cookies establish both. */
  lemma CollisionSucceeds(a: Id, b: Id, draw: Draw)
    requires a.tag != 0 && b.tag != 0
    ensures var left, right := Some(NewAssociation(a)), Some(NewAssociation(b));
            var fromRight, fromLeft := OnMessage(right, Init(a), draw, false), OnMessage(left, Init(b), draw, false);
            && fromRight.reply.Some? && fromLeft.reply.Some?
            && var echoLeft, echoRight := OnMessage(fromLeft.tcb, fromRight.reply.value, draw, false), OnMessage(fromRight.tcb, fromLeft.reply.value, draw, false);
            && echoLeft.reply.Some? && echoRight.reply.Some?
            && var doneRight, doneLeft := OnMessage(echoRight.tcb, echoLeft.reply.value, draw, false), OnMessage(echoLeft.tcb, echoRight.reply.value, draw, false);
            && doneLeft.tcb.Some? && doneLeft.tcb.value.state.Established? && doneLeft.tcb.value.own == a && doneLeft.tcb.value.peer == b
            && doneRight.tcb.Some? && doneRight.tcb.value.state.Established? && doneRight.tcb.value.own == b && doneRight.tcb.value.peer == a
  {
  }

  // ----- A shutdown is not undone -----

  /** The tags of a cookie that tells of a restarted peer. */
  predicate TellsRestart(t: Tcb, c: Cookie) {
    !LocalMatch(t, c) && !PeerMatch(t, c) && TiesMatch(t, c)
  }

  /** Among all messages and timers, only the cookie of a restarted peer takes a shutdown
      back to ESTABLISHED, and from SHUTDOWN-ACK-SENT nothing does. */
  lemma OnlyRestartUndoesShutdown(t: Tcb, m: Message, draw: Draw, stale: bool)
    requires Up(t.state) && !t.state.Established?
    ensures var r := OnMessage(Some(t), m, draw, stale).tcb;
            && r.Some?
            && (r.value.state == t.state || r.value.state.Established?)
            && (r.value.state.Established? <==> m.CookieEcho? && !stale && TellsRestart(t, m.cookie) && !t.state.ShutdownAckSent?)
    ensures forall timesInit :: OnT1(Some(t), timesInit) == Some(t)
  {
  }

  // ----- Forming takes boundedly many steps -----

  predicate Forming(tcb: Option<Tcb>) {
    tcb.Some? && !Up(tcb.value.state)
  }

  predicate Counted(t: Tcb) {
    t.initRetransmits <= MAX_INIT_RETRANSMITS && t.cookieRetransmits <= MAX_INIT_RETRANSMITS && t.staleRetries <= MAX_STALE_COOKIE_RETRIES
  }

  datatype Left = Left(retries: nat, state: nat, retransmits: nat)

  /** What a forming association has left to spend. */
  function LeftOf(t: Tcb): Left
    requires Counted(t) && !Up(t.state)
  {
    Left(MAX_STALE_COOKIE_RETRIES - t.staleRetries, if t.state.CookieWait? then 1 else 0,
         MAX_INIT_RETRANSMITS - (if t.state.CookieWait? then t.initRetransmits else t.cookieRetransmits))
  }

  predicate Less(a: Left, b: Left) {
    || a.retries < b.retries
    || (a.retries == b.retries && a.state < b.state)
    || (a.retries == b.retries && a.state == b.state && a.retransmits < b.retransmits)
  }

  /** An INIT ACK without a cookie or streams, or with a host name, ends the attempt. */
  function OnUnusableInitAck(tcb: Option<Tcb>, vtag: nat): Option<Tcb> {
    if tcb.Some? && vtag == tcb.value.own.tag && tcb.value.state.CookieWait? then None else tcb
  }

  /** Anything that may happen to a TCB: a timer, or any message. */
  datatype FormingStep =
    | T1(timesInit: bool)
    | Gets(m: Message, draw: Draw, stale: bool)
    | GetsUnusableInitAck(vtag: nat)

  function Takes(t: Tcb, s: FormingStep): Option<Tcb> {
    match s
    case T1(timesInit) => OnT1(Some(t), timesInit)
    case Gets(m, draw, stale) => OnMessage(Some(t), m, draw, stale).tcb
    case GetsUnusableInitAck(vtag) => OnUnusableInitAck(Some(t), vtag)
  }

  /** A T1 expiry, an INIT ACK heeded, or a Stale Cookie error honoured. */
  predicate Spends(t: Tcb, s: FormingStep) {
    match s
    case T1(timesInit) => if timesInit then t.state.CookieWait? else t.state.CookieEchoed?
    case Gets(m, _, _) =>
      || (m.InitAck? && t.state.CookieWait? && m.vtag == t.own.tag)
      || (m.StaleCookie? && t.state.CookieEchoed? && m.vtag == t.own.tag)
    case GetsUnusableInitAck(vtag) => t.state.CookieWait? && vtag == t.own.tag
  }

  /** Whatever happens to an association and leaves it forming takes from what it has left to
      spend, if it is one of those three, and otherwise leaves that alone. */
  lemma FormingSpends(t: Tcb, s: FormingStep)
    requires Counted(t) && !Up(t.state) && Forming(Takes(t, s))
    ensures var u := Takes(t, s).value;
            Counted(u) && if Spends(t, s) then Less(LeftOf(u), LeftOf(t)) else LeftOf(u) == LeftOf(t)
  {
  }

  /** Forming ends with removal exactly when a limit is reached, or an INIT ACK that is heeded
      cannot be used. */
  lemma RemovedAtTheLimit(t: Tcb, s: FormingStep)
    requires Counted(t) && !Up(t.state)
    ensures Takes(t, s).None? <==>
              && Spends(t, s)
              && match s
                 case T1(timesInit) => (if timesInit then t.initRetransmits else t.cookieRetransmits) == MAX_INIT_RETRANSMITS
                 case Gets(m, _, _) => if m.InitAck? then m.from.tag == 0 else t.staleRetries == MAX_STALE_COOKIE_RETRIES
                 case GetsUnusableInitAck(_) => true
  {
  }

  /** A number of steps that is enough. */
  function Budget(left: Left): nat {
    left.retries * 18 + left.state * 9 + left.retransmits
  }

  /** A run of an initiator that is still forming, with anything at all happening to it. */
  ghost predicate IsForming(tcbs: seq<Tcb>, steps: seq<FormingStep>) {
    && |tcbs| == |steps| + 1
    && tcbs[0].state.CookieWait? && tcbs[0].initRetransmits == tcbs[0].cookieRetransmits == tcbs[0].staleRetries == 0
    && (forall j :: 0 <= j < |tcbs| ==> !Up(tcbs[j].state))
    && (forall j :: 0 <= j < |steps| ==> Takes(tcbs[j], steps[j]) == Some(tcbs[j + 1]))
  }

  /** How many of the first `n` steps spend something. */
  function Spent(tcbs: seq<Tcb>, steps: seq<FormingStep>, n: nat): nat
    requires n <= |steps| <= |tcbs|
  {
    if n == 0 then 0 else Spent(tcbs, steps, n - 1) + (if Spends(tcbs[n - 1], steps[n - 1]) then 1 else 0)
  }

  lemma {:induction false} BudgetShrinks(tcbs: seq<Tcb>, steps: seq<FormingStep>, j: nat)
    requires IsForming(tcbs, steps) && j < |tcbs|
    ensures Counted(tcbs[j]) && Budget(LeftOf(tcbs[j])) + Spent(tcbs, steps, j) <= 53
    decreases j
  {
    hide Takes, Spends, LeftOf;
    if j > 0 {
      BudgetShrinks(tcbs, steps, j - 1);
      assert !Up(tcbs[j - 1].state) && !Up(tcbs[j].state) && Takes(tcbs[j - 1], steps[j - 1]) == Some(tcbs[j]);
      SpendsBudget(tcbs[j - 1], steps[j - 1]);
    } else {
      WholeBudget(tcbs[0]);
    }
  }

  lemma WholeBudget(t: Tcb)
    requires t.state.CookieWait? && t.initRetransmits == t.cookieRetransmits == t.staleRetries == 0
    ensures Counted(t) && Budget(LeftOf(t)) == 53
  {
  }

  lemma SpendsBudget(t: Tcb, s: FormingStep)
    requires Counted(t) && !Up(t.state) && Forming(Takes(t, s))
    ensures var u := Takes(t, s).value;
            Counted(u) && Budget(LeftOf(u)) + (if Spends(t, s) then 1 else 0) <= Budget(LeftOf(t))
  {
    FormingSpends(t, s);
  }

  /** However much else arrives, an initiator establishes or is removed within 54 T1
      expiries, INIT ACKs accepted and Stale Cookie errors honoured. */
  lemma HandshakeTerminates(tcbs: seq<Tcb>, steps: seq<FormingStep>)
    requires IsForming(tcbs, steps)
    ensures Spent(tcbs, steps, |steps|) <= 53
  {
    BudgetShrinks(tcbs, steps, |steps|);
  }

  // ----- The code -----

  /** What an INIT or INIT ACK says of its sender, its own address among the rest. */
  datatype InitChunk = InitChunk(from: Id, outStreams: nat, inStreams: nat, hostName: bool, addresses: set<nat>)

  /** An ABORT sent back; the tag is the receiver's own when reflected. */
  datatype Abort = Abort(vtag: nat, reflected: bool)

  predicate Usable(chunk: InitChunk) {
    chunk.outStreams != 0 && chunk.inStreams != 0 && !chunk.hostName
  }

  /** An association whose addresses an INIT may not extend. */
  predicate Settled(tcb: Option<Tcb>) {
    tcb.Some? && !tcb.value.state.CookieWait? && !tcb.value.state.ShutdownAckSent?
  }

  /** The TCB an endpoint keeps for one peer. */
  class Association {
    var state: AssociationState
    var own: Id
    var peer: Id
    var localTie: nat
    var peerTie: nat
    var initRetransmits: nat
    var cookieRetransmits: nat
    var staleCookieRetries: nat
    var addresses: set<nat>

    ghost function View(): Tcb
      reads this
    {
      Tcb(state, own, peer, localTie, peerTie, initRetransmits, cookieRetransmits, staleCookieRetries)
    }

    /** `init_new_association`, of the initiator. */
    constructor Opening(id: Id, destination: nat)
      ensures View() == NewAssociation(id) && addresses == {destination}
    {
      addresses := {destination};
      state, own, peer := CookieWait, id, Id(0, 0);
      localTie, peerTie, initRetransmits, cookieRetransmits, staleCookieRetries := 0, 0, 0, 0, 0;
    }

    /** `init_new_association`, from a cookie. */
    constructor Cookied(c: Cookie, listed: set<nat>)
      ensures View() == FromCookie(c) && addresses == listed
    {
      addresses := listed;
      state, own, peer := Established, c.local, c.peer;
      localTie, peerTie, initRetransmits, cookieRetransmits, staleCookieRetries := 0, 0, 0, 0, 0;
    }
  }

  /** What an endpoint holds for one peer: a TCB or none. */
  class Listener {
    var association: Association?

    ghost function View(): Option<Tcb>
      reads this, association
    {
      if association == null then None else Some(association.View())
    }

    /** The peer's addresses. */
    ghost function Known(): set<nat>
      reads this, association
    {
      if association == null then {} else association.addresses
    }

    constructor ()
      ensures View() == None
    {
      association := null;
    }

    /** The chunk is looked at before the TCB: one it cannot use is answered with an ABORT
        and nothing changes, and so is one that adds addresses to a live association. */
    method HandleInit(chunk: InitChunk, draw: Draw) returns (reply: Option<Message>, abort: Option<Abort>, shutdownAck: Option<nat>)
      modifies this, association
      ensures shutdownAck ==
                if abort.None? && old(View()).Some? && old(View()).value.state.ShutdownAckSent? then Some(old(View()).value.peer.tag) else None
      ensures abort == if chunk.from.tag == 0 then Some(Abort(0, true))
                       else if !Usable(chunk) || (Settled(old(View())) && !(chunk.addresses <= old(Known()))) then Some(Abort(chunk.from.tag, false))
                       else None
      ensures abort.Some? ==> View() == old(View()) && reply == None
      ensures abort.None? ==> View() == OnInit(old(View()), chunk.from, draw).tcb && reply == OnInit(old(View()), chunk.from, draw).reply
      ensures Known() == old(Known())
    {
      reply, abort, shutdownAck := None, None, None;
      if chunk.from.tag == 0 {
        return None, Some(Abort(0, true)), None;
      }
      if chunk.outStreams == 0 || chunk.inStreams == 0 || chunk.hostName {
        return None, Some(Abort(chunk.from.tag, false)), None;
      }
      var local, localTie, peerTie := draw.id, 0, 0;
      if association != null {
        var state := association.state;
        if state.ShutdownAckSent? {
          return None, None, Some(association.peer.tag);
        }
        if !state.CookieWait? && !(chunk.addresses <= association.addresses) {
          return None, Some(Abort(chunk.from.tag, false)), None;
        }
        if state.CookieWait? || state.CookieEchoed? {
          local := association.own;
        }
        if !state.CookieWait? {
          if association.localTie == 0 {
            association.localTie, association.peerTie := draw.localTie, draw.peerTie;
          }
          localTie, peerTie := association.localTie, association.peerTie;
        }
      }
      reply := Some(InitAck(chunk.from.tag, local, Cookie(local, chunk.from, localTie, peerTie)));
    }

    /** An INIT ACK it cannot use, or without a cookie, ends the attempt with an ABORT. */
    method HandleInitAck(vtag: nat, chunk: InitChunk, cookie: Option<Cookie>) returns (reply: Option<Message>, abort: Option<Abort>)
      modifies this, association
      ensures var heeded := old(View()).Some? && vtag == old(View()).value.own.tag && old(View()).value.state.CookieWait?;
              abort == if !heeded then None
                       else if chunk.from.tag == 0 then Some(Abort(vtag, true))
                       else if cookie.None? || !Usable(chunk) then Some(Abort(chunk.from.tag, false))
                       else None
      ensures abort.Some? ==> View() == None && reply == None
      ensures chunk.from.tag != 0 && (cookie.None? || !Usable(chunk)) ==> View() == OnUnusableInitAck(old(View()), vtag)
      ensures abort.None? && cookie.Some? ==>
                View() == OnInitAck(old(View()), vtag, chunk.from, cookie.value).tcb && reply == OnInitAck(old(View()), vtag, chunk.from, cookie.value).reply
      ensures abort.None? && cookie.None? ==> View() == old(View()) && reply == None
      ensures abort.None? ==> Known() == if reply.Some? then old(Known()) + chunk.addresses else old(Known())
    {
      if association == null || vtag != association.own.tag || !association.state.CookieWait? {
        return None, None;
      }
      if chunk.from.tag == 0 {
        association := null;
        return None, Some(Abort(vtag, true));
      }
      if cookie.None? || chunk.outStreams == 0 || chunk.inStreams == 0 || chunk.hostName {
        association := null;
        return None, Some(Abort(chunk.from.tag, false));
      }
      association.addresses := association.addresses + chunk.addresses;
      association.peer, association.state := chunk.from, CookieEchoed;
      return Some(CookieEcho(cookie.value)), None;
    }

    /** `listed` are the addresses the cookie gives. A peer that restarts while the SHUTDOWN
        ACK is out is sent that again, under the old tag, and an ERROR under its new one. */
    method HandleCookieEcho(c: Cookie, stale: bool, listed: set<nat>)
      returns (reply: Option<Message>, shutdownAck: Option<nat>, error: Option<nat>)
      modifies this, association
      ensures var busy := old(View()).Some? && old(View()).value.state.ShutdownAckSent? && !stale && TellsRestart(old(View()).value, c);
              && shutdownAck == (if busy then Some(old(View()).value.peer.tag) else None)
              && error == (if busy then Some(c.peer.tag) else None)
      ensures View() == OnCookieEcho(old(View()), c, stale).tcb && reply == OnCookieEcho(old(View()), c, stale).reply
    {
      shutdownAck, error := None, None;
      if association == null {
        if stale {
          return Some(StaleCookie(c.peer.tag, c)), None, None;
        }
        association := new Association.Cookied(c, listed);
        return Some(CookieAck(c.peer.tag, c)), None, None;
      }
      var tcb := association;
      var localMatch, peerMatch := c.local.tag == tcb.own.tag, c.peer.tag == tcb.peer.tag;
      var tieTagsMatch := c.localTie != 0 && c.localTie == tcb.localTie && c.peerTie == tcb.peerTie;
      if stale && !(localMatch && peerMatch) {
        return Some(StaleCookie(c.peer.tag, c)), None, None;
      }
      if localMatch && peerMatch {
        if tcb.state.CookieEchoed? {
          tcb.state := Established;
        }
      } else if !localMatch && !peerMatch && tieTagsMatch {
        if tcb.state.ShutdownAckSent? {
          return None, Some(tcb.peer.tag), Some(c.peer.tag);
        }
        association := new Association.Cookied(c, listed);
      } else if localMatch {
        tcb.addresses := tcb.addresses + listed;
        tcb.peer := c.peer;
        if tcb.state.CookieWait? || tcb.state.CookieEchoed? {
          tcb.state := Established;
        }
      } else {
        return None, None, None;
      }
      reply := Some(CookieAck(c.peer.tag, c));
    }

    method HandleCookieAck(vtag: nat)
      modifies association
      ensures View() == OnCookieAck(old(View()), vtag).tcb
    {
      if association != null && vtag == association.own.tag && association.state.CookieEchoed? {
        association.state := Established;
      }
    }

    method HandleStaleCookie(vtag: nat) returns (reply: Option<Message>)
      modifies this, association
      ensures View() == OnStaleCookie(old(View()), vtag).tcb && reply == OnStaleCookie(old(View()), vtag).reply
    {
      if association == null || vtag != association.own.tag || !association.state.CookieEchoed? {
        return None;
      }
      if association.staleCookieRetries >= MAX_STALE_COOKIE_RETRIES {
        association := null;
        return None;
      }
      association.staleCookieRetries := association.staleCookieRetries + 1;
      association.state, association.peer := CookieWait, association.peer.(tag := 0);
      association.initRetransmits, association.cookieRetransmits := 0, 0;
      reply := Some(Init(association.own));
    }

    method ExpireT1(timesInit: bool)
      modifies this, association
      ensures View() == OnT1(old(View()), timesInit)
    {
      if association == null || association.state != (if timesInit then CookieWait else CookieEchoed) {
        return;
      }
      var retransmits := if timesInit then association.initRetransmits else association.cookieRetransmits;
      if retransmits >= MAX_INIT_RETRANSMITS {
        association := null;
      } else if timesInit {
        association.initRetransmits := retransmits + 1;
      } else {
        association.cookieRetransmits := retransmits + 1;
      }
    }
  }
}
