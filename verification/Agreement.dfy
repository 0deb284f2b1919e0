/** Two endpoints that may each open the association, over a network that loses,
    duplicates and reorders, with cookies that may turn out stale and be retried. While no
    TCB is removed, the two agree on tags and initial TSNs in every state of a run if and
    only if each COOKIE ACK that establishes an endpoint answers the cookie that gave it
    the tag it holds. Runs that heed a Stale Cookie error only for the cookie last echoed,
    and take no refused cookie for a retransmission, always agree; two runs show what each
    of those conditions prevents. */
module Agreement {
  import opened Transmission
  import opened Handshake

  datatype Side = Side(
    tcb: Option<Tcb>,
    sent: set<Message>,        // everything it ever sent
    drawn: set<Id>,            // the tags and TSNs it drew
    began: Option<Id>,         // what it associated with
    echoed: set<Cookie>,       // the cookies it echoed
    last: Option<Cookie>)      // and the last of them

  datatype Event =
    | Associates(id: Id)
    | Receives(m: Message, draw: Draw, stale: bool)
    | T1Fires(timesInit: bool)
    | Shuts(state: AssociationState)

  const NEW_SIDE := Side(None, {}, {}, None, {}, None)

  predicate Fresh(s: Side, id: Id) {
    id.tag != 0 && forall d <- s.drawn :: d.tag != id.tag
  }

  function Said(s: Side, reply: Option<Message>): Side {
    match reply
    case None => s
    case Some(m) =>
      if m.CookieEcho? then s.(sent := s.sent + {m}, echoed := s.echoed + {m.cookie}, last := Some(m.cookie))
      else s.(sent := s.sent + {m})
  }

  /** One event at `s`, whose peer is `o`. */
  ghost predicate Acts(s: Side, o: Side, e: Event, s': Side) {
    match e
    case Associates(id) =>
      && s.tcb.None? && Fresh(s, id)
      && s' == s.(tcb := Some(NewAssociation(id)), sent := s.sent + {Init(id)}, drawn := s.drawn + {id}, began := Some(id))
    case Receives(m, draw, stale) =>
      && m in o.sent && Fresh(s, draw.id) && draw.localTie != 0 && draw.peerTie != 0
      && var r := OnMessage(s.tcb, m, draw, stale);
         s' == Said(s.(tcb := r.tcb, drawn := s.drawn + {draw.id}), r.reply)
    case T1Fires(timesInit) => s' == s.(tcb := OnT1(s.tcb, timesInit))
    case Shuts(state) =>
      && s.tcb.Some? && Up(s.tcb.value.state) && Up(state) && !state.Established?
      && s' == s.(tcb := Some(s.tcb.value.(state := state)))
  }

  // ----- What holds of an endpoint and its peer -----

  ghost predicate Draws(s: Side) {
    && (forall x, y :: x in s.drawn && y in s.drawn && x.tag == y.tag ==> x == y)
    && (forall x <- s.drawn :: x.tag != 0)
  }

  /** A cookie made by `s` for `o`. Tie-Tags are put in it only by a TCB, and then it names
      that TCB's own tag or the TCB is up. */
  ghost predicate Genuine(s: Side, o: Side, c: Cookie) {
    && o.began == Some(c.peer) && c.local in s.drawn
    && (c.localTie != 0 ==> s.tcb.Some? && (c.local == s.tcb.value.own || Up(s.tcb.value.state)))
  }

  /** What `s` says is so: it opened under one tag, its cookies are for the peer's, and it
      is up under the tag of a cookie it acknowledges. */
  ghost predicate Truthful(s: Side, o: Side, m: Message) {
    match m
    case Init(from) => s.began == Some(from)
    case InitAck(vtag, from, cookie) => Genuine(s, o, cookie) && vtag == cookie.peer.tag && from == cookie.local
    case CookieEcho(cookie) => Genuine(o, s, cookie)
    case CookieAck(vtag, c) =>
      vtag == c.peer.tag && o.began == Some(c.peer) && s.tcb.Some? && Up(s.tcb.value.state) && s.tcb.value.own == c.local
    case StaleCookie(vtag, c) => true
  }

  ghost predicate Standing(s: Side, o: Side, t: Tcb) {
    && t.own in s.drawn
    && (s.began.Some? ==> t.own == s.began.value)
    && (t.state.CookieWait? ==> s.began.Some? && t.peer.tag == 0)
    && (t.state.CookieEchoed? ==> s.began.Some? && t.peer in o.drawn)
    && (Up(t.state) ==> o.tcb.Some? && t.peer == o.tcb.value.own)
  }

  ghost predicate SideInv(s: Side, o: Side) {
    && Draws(s)
    && (forall m <- s.sent :: Truthful(s, o, m))
    && (s.tcb.None? ==> s.began.None?)
    && (s.tcb.Some? ==> Standing(s, o, s.tcb.value))
  }

  ghost predicate Inv(s: Side, o: Side) {
    SideInv(s, o) && SideInv(o, s)
  }

  // ----- What a step may change -----

  /** From `s` to `s'` nothing is taken back that the peer may rely on. */
  ghost predicate Grows(s: Side, s': Side) {
    && s.drawn <= s'.drawn && s.sent <= s'.sent
    && (s.began.Some? ==> s'.began == s.began)
    && (s.tcb.Some? ==> s'.tcb.Some? && s'.tcb.value.own == s.tcb.value.own && (Up(s.tcb.value.state) ==> Up(s'.tcb.value.state)))
  }

  /** A step at `s` leaves its peer's part of the invariant. */
  lemma PeerKeeps(s: Side, o: Side, s': Side)
    requires SideInv(o, s) && Grows(s, s')
    ensures SideInv(o, s')
  {
    forall m <- o.sent
      ensures Truthful(o, s', m)
    {
      assert Truthful(o, s, m);
    }
  }

  /** What `s` has said stays truthful; what it says now has to be. */
  lemma SaysKeeps(s: Side, o: Side, s': Side)
    requires Inv(s, o) && Grows(s, s') && Draws(s')
    requires forall m <- s'.sent :: m in s.sent || Truthful(s', o, m)
    requires s'.tcb.None? ==> s'.began.None?
    requires s'.tcb.Some? ==> Standing(s', o, s'.tcb.value)
    ensures Inv(s', o)
  {
    forall m <- s'.sent
      ensures Truthful(s', o, m)
    {
      assert m in s.sent ==> Truthful(s, o, m);
    }
    PeerKeeps(s, o, s');
  }

  lemma DrawsMore(s: Side, id: Id)
    requires Draws(s) && Fresh(s, id)
    ensures Draws(s.(drawn := s.drawn + {id}))
  {
  }

  // ----- Each event -----

  predicate Stays(s: Side, s': Side) {
    s.tcb.Some? ==> s'.tcb.Some?
  }

  lemma AssociatesKeeps(s: Side, o: Side, id: Id, s': Side)
    requires Inv(s, o) && Acts(s, o, Associates(id), s')
    ensures Inv(s', o)
  {
    DrawsMore(s, id);
    SaysKeeps(s, o, s');
  }

  lemma InitKeeps(s: Side, o: Side, from: Id, draw: Draw, stale: bool, s': Side)
    requires Inv(s, o) && Acts(s, o, Receives(Init(from), draw, stale), s')
    ensures Inv(s', o)
  {
    assert Truthful(o, s, Init(from));
    DrawsMore(s, draw.id);
    SaysKeeps(s, o, s');
  }

  lemma InitAckKeeps(s: Side, o: Side, m: Message, draw: Draw, stale: bool, s': Side)
    requires m.InitAck? && Inv(s, o) && Acts(s, o, Receives(m, draw, stale), s') && Stays(s, s')
    ensures Inv(s', o)
  {
    assert Truthful(o, s, m);
    DrawsMore(s, draw.id);
    SaysKeeps(s, o, s');
  }

  /** A COOKIE ACK that establishes an endpoint. */
  predicate HeedsAck(s: Side, e: Event) {
    e.Receives? && e.m.CookieAck? && s.tcb.Some? && s.tcb.value.state.CookieEchoed? && e.m.vtag == s.tcb.value.own.tag
  }

  /** It answers the cookie that gave the endpoint the tag it holds for its peer. */
  predicate Bound(s: Side, e: Event) {
    HeedsAck(s, e) ==> e.m.answers.local == s.tcb.value.peer
  }

  lemma CookieAckKeeps(s: Side, o: Side, m: Message, draw: Draw, stale: bool, s': Side)
    requires m.CookieAck? && Inv(s, o) && Acts(s, o, Receives(m, draw, stale), s') && Bound(s, Receives(m, draw, stale))
    ensures Inv(s', o)
  {
    assert Truthful(o, s, m);
    DrawsMore(s, draw.id);
    SaysKeeps(s, o, s');
  }

  /** The cookie the peer echoed is never one of a restart. */
  lemma NoRestart(s: Side, o: Side, c: Cookie)
    requires Inv(s, o) && Genuine(s, o, c) && s.tcb.Some?
    ensures o.tcb.Some? && c.peer == o.tcb.value.own
    ensures TiesMatch(s.tcb.value, c) ==> LocalMatch(s.tcb.value, c) || PeerMatch(s.tcb.value, c)
  {
  }

  /** A cookie is ignored, refused, or accepted, and then the endpoint is up under the
      cookie's tag and knows its peer. */
  lemma EchoIsAnswered(s: Side, o: Side, c: Cookie, stale: bool)
    requires Inv(s, o) && Genuine(s, o, c)
    ensures var r := OnCookieEcho(s.tcb, c, stale);
            && (r.reply.None? ==> r.tcb == s.tcb)
            && (r.reply.Some? ==> r.reply.value == StaleCookie(c.peer.tag, c) || r.reply.value == CookieAck(c.peer.tag, c))
            && (r.reply == Some(StaleCookie(c.peer.tag, c)) ==> r.tcb == s.tcb)
            && (r.reply == Some(CookieAck(c.peer.tag, c)) ==>
                  && r.tcb.Some? && Up(r.tcb.value.state) && r.tcb.value.own == c.local
                  && o.tcb.Some? && r.tcb.value.peer == o.tcb.value.own
                  && (s.tcb.Some? ==> r.tcb.value.own == s.tcb.value.own))
  {
    if s.tcb.Some? {
      NoRestart(s, o, c);
    }
  }

  lemma CookieEchoKeeps(s: Side, o: Side, c: Cookie, draw: Draw, stale: bool, s': Side)
    requires Inv(s, o) && Acts(s, o, Receives(CookieEcho(c), draw, stale), s')
    ensures Inv(s', o)
  {
    assert Truthful(o, s, CookieEcho(c));
    EchoIsAnswered(s, o, c, stale);
    hide OnCookieEcho;
    DrawsMore(s, draw.id);
    SaysKeeps(s, o, s');
  }

  lemma StaleCookieKeeps(s: Side, o: Side, m: Message, draw: Draw, stale: bool, s': Side)
    requires m.StaleCookie? && Inv(s, o) && Acts(s, o, Receives(m, draw, stale), s') && Stays(s, s')
    ensures Inv(s', o)
  {
    DrawsMore(s, draw.id);
    SaysKeeps(s, o, s');
  }

  lemma TimerKeeps(s: Side, o: Side, timesInit: bool, s': Side)
    requires Inv(s, o) && Acts(s, o, T1Fires(timesInit), s') && Stays(s, s')
    ensures Inv(s', o)
  {
    SaysKeeps(s, o, s');
  }

  lemma ShutsKeeps(s: Side, o: Side, state: AssociationState, s': Side)
    requires Inv(s, o) && Acts(s, o, Shuts(state), s')
    ensures Inv(s', o)
  {
    SaysKeeps(s, o, s');
  }

  lemma EventKeeps(s: Side, o: Side, e: Event, s': Side)
    requires Inv(s, o) && Acts(s, o, e, s') && Stays(s, s') && Bound(s, e)
    ensures Inv(s', o)
  {
    hide Inv, Acts, Stays, Bound;
    match e
    case Associates(id) => AssociatesKeeps(s, o, id, s');
    case T1Fires(timesInit) => TimerKeeps(s, o, timesInit, s');
    case Shuts(state) => ShutsKeeps(s, o, state, s');
    case Receives(m, draw, stale) =>
      match m {
        case Init(from) => InitKeeps(s, o, from, draw, stale, s');
        case InitAck(_, _, _) => InitAckKeeps(s, o, m, draw, stale, s');
        case CookieEcho(cookie) => CookieEchoKeeps(s, o, cookie, draw, stale, s');
        case CookieAck(_, _) => CookieAckKeeps(s, o, m, draw, stale, s');
        case StaleCookie(_, _) => StaleCookieKeeps(s, o, m, draw, stale, s');
      }
  }

  predicate IsUp(s: Side) {
    s.tcb.Some? && Up(s.tcb.value.state)
  }

  /** `s` knows its peer by the peer's own tag and initial TSN. */
  predicate KnowsPeer(s: Side, o: Side) {
    s.tcb.Some? && o.tcb.Some? && s.tcb.value.peer == o.tcb.value.own
  }

  /** A COOKIE ACK heeded for another tag leaves both ends up, and apart. */
  lemma UnboundBreaks(s: Side, o: Side, e: Event, s': Side)
    requires Inv(s, o) && Acts(s, o, e, s') && !Bound(s, e)
    ensures IsUp(s') && IsUp(o) && !KnowsPeer(s', o)
  {
    assert Truthful(o, s, e.m);
  }

  // ----- Runs -----

  datatype Net = Net(left: Side, right: Side)

  datatype NetEvent = AtLeft(e: Event) | AtRight(e: Event)

  ghost predicate NetActs(n: Net, e: NetEvent, n': Net) {
    match e
    case AtLeft(e) => Acts(n.left, n.right, e, n'.left) && n'.right == n.right
    case AtRight(e) => Acts(n.right, n.left, e, n'.right) && n'.left == n.left
  }

  ghost predicate IsRun(nets: seq<Net>, events: seq<NetEvent>) {
    && |nets| == |events| + 1
    && nets[0] == Net(NEW_SIDE, NEW_SIDE)
    && forall j :: 0 <= j < |events| ==> NetActs(nets[j], events[j], nets[j + 1])
  }

  ghost predicate NoneRemoved(nets: seq<Net>) {
    forall j :: 0 < j < |nets| ==> Stays(nets[j - 1].left, nets[j].left) && Stays(nets[j - 1].right, nets[j].right)
  }

  predicate NetBound(n: Net, e: NetEvent) {
    match e
    case AtLeft(e) => Bound(n.left, e)
    case AtRight(e) => Bound(n.right, e)
  }

  /** Two endpoints that are up hold each other's tags and initial TSNs. */
  predicate Agrees(n: Net) {
    IsUp(n.left) && IsUp(n.right) ==> KnowsPeer(n.left, n.right) && KnowsPeer(n.right, n.left)
  }

  lemma NetKeeps(n: Net, e: NetEvent, n': Net)
    requires Inv(n.left, n.right) && NetActs(n, e, n') && Stays(n.left, n'.left) && Stays(n.right, n'.right) && NetBound(n, e)
    ensures Inv(n'.left, n'.right)
  {
    hide Inv, Acts, Bound, Stays;
    Symmetric(n.left, n.right);
    match e {
      case AtLeft(e) => EventKeeps(n.left, n.right, e, n'.left);
      case AtRight(e) =>
        EventKeeps(n.right, n.left, e, n'.right);
        Symmetric(n'.right, n'.left);
    }
  }

  /** As long as every COOKIE ACK heeded was bound, the invariant holds. */
  lemma {:induction false} RunStaysInStep(nets: seq<Net>, events: seq<NetEvent>, j: nat)
    requires IsRun(nets, events) && NoneRemoved(nets) && j < |nets|
    requires forall k :: 0 <= k < j ==> NetBound(nets[k], events[k])
    ensures Inv(nets[j].left, nets[j].right)
    decreases j
  {
    hide Inv, Acts, Bound, Stays;
    if j == 0 {
      NewSidesInv();
    } else {
      RunStaysInStep(nets, events, j - 1);
      assert NetActs(nets[j - 1], events[j - 1], nets[j]) && NetBound(nets[j - 1], events[j - 1]);
      NetKeeps(nets[j - 1], events[j - 1], nets[j]);
    }
  }

  lemma NewSidesInv()
    ensures Inv(NEW_SIDE, NEW_SIDE)
  {
  }

  lemma Symmetric(s: Side, o: Side)
    requires Inv(s, o)
    ensures Inv(o, s)
  {
  }

  /** An endpoint that is up knows its peer, as long as every COOKIE ACK heeded was bound. */
  lemma BoundAgrees(nets: seq<Net>, events: seq<NetEvent>, j: nat)
    requires IsRun(nets, events) && NoneRemoved(nets) && j < |nets|
    requires forall k :: 0 <= k < j ==> NetBound(nets[k], events[k])
    ensures Agrees(nets[j])
    ensures IsUp(nets[j].left) ==> KnowsPeer(nets[j].left, nets[j].right)
    ensures IsUp(nets[j].right) ==> KnowsPeer(nets[j].right, nets[j].left)
  {
    RunStaysInStep(nets, events, j);
  }

  /** The first COOKIE ACK heeded that was not bound ends agreement. */
  lemma {:induction false} AgreementBinds(nets: seq<Net>, events: seq<NetEvent>, j: nat)
    requires IsRun(nets, events) && NoneRemoved(nets) && j < |events|
    requires forall i :: 0 <= i < |nets| ==> Agrees(nets[i])
    ensures forall k :: 0 <= k <= j ==> NetBound(nets[k], events[k])
    decreases j
  {
    if j > 0 {
      AgreementBinds(nets, events, j - 1);
    }
    RunStaysInStep(nets, events, j);
    UnboundDisagrees(nets[j], events[j], nets[j + 1]);
  }

  lemma UnboundDisagrees(n: Net, e: NetEvent, n': Net)
    requires Inv(n.left, n.right) && NetActs(n, e, n') && Agrees(n')
    ensures NetBound(n, e)
  {
    hide Inv, Acts, Bound;
    Symmetric(n.left, n.right);
    match e {
      case AtLeft(e) =>
        if !Bound(n.left, e) {
          UnboundBreaks(n.left, n.right, e, n'.left);
        }
      case AtRight(e) =>
        if !Bound(n.right, e) {
          UnboundBreaks(n.right, n.left, e, n'.right);
        }
    }
  }

  /** Handshake agreement, for every run with any loss, duplication, reordering, collision,
      stale cookies and retries in which no TCB is removed: the ends agree throughout if
      and only if every COOKIE ACK heeded answers the cookie of the tag held. */
  lemma HandshakeAgrees(nets: seq<Net>, events: seq<NetEvent>)
    requires IsRun(nets, events) && NoneRemoved(nets)
    ensures (forall j :: 0 <= j < |nets| ==> Agrees(nets[j])) <==> (forall k :: 0 <= k < |events| ==> NetBound(nets[k], events[k]))
  {
    hide Agrees, NetBound, NetActs, Stays;
    if forall k :: 0 <= k < |events| ==> NetBound(nets[k], events[k]) {
      forall j | 0 <= j < |nets|
        ensures Agrees(nets[j])
      {
        BoundAgrees(nets, events, j);
      }
    }
    if (forall j :: 0 <= j < |nets| ==> Agrees(nets[j])) && |events| > 0 {
      AgreementBinds(nets, events, |events| - 1);
    }
  }

  // ----- Runs that are always bound -----

  predicate Accepted(s: Side, c: Cookie) {
    CookieAck(c.peer.tag, c) in s.sent
  }

  predicate Refused(s: Side, c: Cookie) {
    StaleCookie(c.peer.tag, c) in s.sent
  }

  /** A Stale Cookie error that sends the initiator back to COOKIE-WAIT. */
  predicate Heeds(s: Side, e: Event) {
    e.Receives? && e.m.StaleCookie? && s.tcb.Some? && s.tcb.value.state.CookieEchoed? && e.m.vtag == s.tcb.value.own.tag
  }

  /** Before an event: an error to be heeded is about the cookie last echoed, and a cookie
      refused before is stale still and not taken for a retransmission. */
  predicate Orderly(s: Side, e: Event) {
    && (Heeds(s, e) ==> s.last == Some(e.m.answers))
    && (e.Receives? && e.m.CookieEcho? && Refused(s, e.m.cookie) ==>
          e.stale && !(s.tcb.Some? && LocalMatch(s.tcb.value, e.m.cookie) && PeerMatch(s.tcb.value, e.m.cookie)))
  }

  /** Of the cookies `s` echoed all but the last were refused, and the last too if `s` has
      started over. What `s` answered it answered one way. */
  ghost predicate InTurn(s: Side, o: Side) {
    && (forall c :: CookieEcho(c) in s.sent ==> c in s.echoed)
    && (forall c <- s.echoed :: CookieEcho(c) in s.sent && (s.last == Some(c) || Refused(o, c)))
    && (forall m <- s.sent :: (m.CookieAck? || m.StaleCookie? ==> m.vtag == m.answers.peer.tag && m.answers in o.echoed))
    && (forall c: Cookie :: !(Accepted(s, c) && Refused(s, c)))
    && (s.tcb.Some? && s.tcb.value.state.CookieWait? ==> forall c <- s.echoed :: Refused(o, c))
    && (s.tcb.Some? && s.tcb.value.state.CookieEchoed? ==> s.last.Some? && s.last.value.local == s.tcb.value.peer)
  }

  ghost predicate BothInTurn(s: Side, o: Side) {
    InTurn(s, o) && InTurn(o, s)
  }

  /** In turn, a COOKIE ACK heeded is about the cookie last echoed. */
  lemma InTurnIsBound(s: Side, o: Side, e: Event, s': Side)
    requires BothInTurn(s, o) && Acts(s, o, e, s')
    ensures Bound(s, e)
  {
    if HeedsAck(s, e) {
      assert Accepted(o, e.m.answers);
      assert s.last == Some(e.m.answers);
    }
  }

  lemma PeerInTurn(s: Side, o: Side, s': Side)
    requires InTurn(o, s) && s.sent <= s'.sent && s.echoed <= s'.echoed
    ensures InTurn(o, s')
  {
  }

  /** What an event other than a cookie echoed leaves. */
  lemma SaysNothingOfCookies(s: Side, o: Side, s': Side)
    requires BothInTurn(s, o) && s.sent <= s'.sent && s'.echoed == s.echoed && s'.last == s.last
    requires forall m <- s'.sent :: m in s.sent || m.Init? || m.InitAck?
    requires s'.tcb.Some? && s'.tcb.value.state.CookieWait? ==> forall c <- s.echoed :: Refused(o, c)
    requires s'.tcb.Some? && s'.tcb.value.state.CookieEchoed? ==>
               s.tcb.Some? && s.tcb.value.state.CookieEchoed? && s'.tcb.value.peer == s.tcb.value.peer
    ensures BothInTurn(s', o)
  {
    PeerInTurn(s, o, s');
    forall c: Cookie
      ensures !(Accepted(s', c) && Refused(s', c))
    {
      assert !(Accepted(s, c) && Refused(s, c));
    }
  }

  lemma InitAckInTurn(s: Side, o: Side, m: Message, draw: Draw, stale: bool, s': Side)
    requires m.InitAck? && Inv(s, o) && BothInTurn(s, o) && Acts(s, o, Receives(m, draw, stale), s')
    ensures BothInTurn(s', o)
  {
    hide InTurn;
    if OnInitAck(s.tcb, m.vtag, m.from, m.cookie).reply.None? {
      InitAckIgnored(s, o, m, draw, stale, s');
    } else {
      InitAckTaken(s, o, m, draw, stale, s');
    }
  }

  lemma InitAckIgnored(s: Side, o: Side, m: Message, draw: Draw, stale: bool, s': Side)
    requires m.InitAck? && BothInTurn(s, o) && Acts(s, o, Receives(m, draw, stale), s')
    requires OnInitAck(s.tcb, m.vtag, m.from, m.cookie).reply.None?
    ensures BothInTurn(s', o)
  {
    SaysNothingOfCookies(s, o, s');
  }

  lemma InitAckTaken(s: Side, o: Side, m: Message, draw: Draw, stale: bool, s': Side)
    requires m.InitAck? && Inv(s, o) && BothInTurn(s, o) && Acts(s, o, Receives(m, draw, stale), s')
    requires OnInitAck(s.tcb, m.vtag, m.from, m.cookie).reply.Some?
    ensures BothInTurn(s', o)
  {
    assert Truthful(o, s, m);
    PeerInTurn(s, o, s');
    forall c: Cookie
      ensures !(Accepted(s', c) && Refused(s', c))
    {
      assert !(Accepted(s, c) && Refused(s, c));
    }
  }

  /** A cookie accepted before matches both tags, and one refused before does not. */
  lemma EchoInTurn(s: Side, o: Side, c: Cookie, draw: Draw, stale: bool, s': Side)
    requires Inv(s, o) && BothInTurn(s, o) && Acts(s, o, Receives(CookieEcho(c), draw, stale), s') && Orderly(s, Receives(CookieEcho(c), draw, stale))
    ensures BothInTurn(s', o)
  {
    assert Truthful(o, s, CookieEcho(c));
    EchoIsAnswered(s, o, c, stale);
    AnsweredOneWay(s, o, c, stale);
    hide OnCookieEcho;
    PeerInTurn(s, o, s');
    forall d: Cookie
      ensures !(Accepted(s', d) && Refused(s', d))
    {
      assert !(Accepted(s, d) && Refused(s, d));
    }
  }

  lemma AnsweredOneWay(s: Side, o: Side, c: Cookie, stale: bool)
    requires Inv(s, o) && Genuine(s, o, c)
    requires Refused(s, c) ==> stale && !(s.tcb.Some? && LocalMatch(s.tcb.value, c) && PeerMatch(s.tcb.value, c))
    ensures var r := OnCookieEcho(s.tcb, c, stale).reply;
            && (r == Some(StaleCookie(c.peer.tag, c)) ==> !Accepted(s, c))
            && (r == Some(CookieAck(c.peer.tag, c)) ==> !Refused(s, c))
  {
    if Accepted(s, c) {
      assert Truthful(s, o, CookieAck(c.peer.tag, c));
    }
  }

  lemma RetryInTurn(s: Side, o: Side, m: Message, draw: Draw, stale: bool, s': Side)
    requires m.StaleCookie? && BothInTurn(s, o) && Acts(s, o, Receives(m, draw, stale), s') && Orderly(s, Receives(m, draw, stale))
    ensures BothInTurn(s', o)
  {
    if Heeds(s, Receives(m, draw, stale)) {
      assert Refused(o, m.answers);
    }
    SaysNothingOfCookies(s, o, s');
  }

  lemma EventStaysInTurn(s: Side, o: Side, e: Event, s': Side)
    requires Inv(s, o) && BothInTurn(s, o) && Acts(s, o, e, s') && Orderly(s, e)
    ensures BothInTurn(s', o)
  {
    if e.Receives? && e.m.InitAck? {
      InitAckInTurn(s, o, e.m, e.draw, e.stale, s');
    } else if e.Receives? && e.m.CookieEcho? {
      EchoInTurn(s, o, e.m.cookie, e.draw, e.stale, s');
    } else if e.Receives? && e.m.StaleCookie? {
      RetryInTurn(s, o, e.m, e.draw, e.stale, s');
    } else {
      OthersInTurn(s, o, e, s');
    }
  }

  lemma OthersInTurn(s: Side, o: Side, e: Event, s': Side)
    requires Inv(s, o) && BothInTurn(s, o) && Acts(s, o, e, s')
    requires !(e.Receives? && (e.m.InitAck? || e.m.CookieEcho? || e.m.StaleCookie?))
    ensures BothInTurn(s', o)
  {
    if e.Associates? {
      NothingEchoed(s, o);
    }
    SaysNothingOfCookies(s, o, s');
  }

  lemma NothingEchoed(s: Side, o: Side)
    requires Inv(s, o) && BothInTurn(s, o) && s.tcb.None?
    ensures s.echoed == {}
  {
    forall c: Cookie
      ensures c !in s.echoed
    {
      assert c in s.echoed ==> Truthful(s, o, CookieEcho(c));
    }
  }

  predicate NetOrderly(n: Net, e: NetEvent) {
    match e
    case AtLeft(e) => Orderly(n.left, e)
    case AtRight(e) => Orderly(n.right, e)
  }

  lemma NetStaysInTurn(n: Net, e: NetEvent, n': Net)
    requires Inv(n.left, n.right) && BothInTurn(n.left, n.right) && NetActs(n, e, n') && NetOrderly(n, e)
    ensures NetBound(n, e) && BothInTurn(n'.left, n'.right)
  {
    Symmetric(n.left, n.right);
    hide Inv, InTurn, Acts, Orderly, Bound;
    match e {
      case AtLeft(e) =>
        InTurnIsBound(n.left, n.right, e, n'.left);
        EventStaysInTurn(n.left, n.right, e, n'.left);
      case AtRight(e) =>
        InTurnIsBound(n.right, n.left, e, n'.right);
        EventStaysInTurn(n.right, n.left, e, n'.right);
    }
  }

  lemma {:induction false} OrderlyStaysInTurn(nets: seq<Net>, events: seq<NetEvent>, j: nat)
    requires IsRun(nets, events) && NoneRemoved(nets) && j < |nets|
    requires forall k :: 0 <= k < |events| ==> NetOrderly(nets[k], events[k])
    ensures forall k :: 0 <= k < j ==> NetBound(nets[k], events[k])
    ensures BothInTurn(nets[j].left, nets[j].right)
    decreases j
  {
    hide Inv, BothInTurn, NetActs, NetOrderly, NetBound, Stays;
    if j == 0 {
      NewSidesInTurn();
    } else {
      OrderlyStaysInTurn(nets, events, j - 1);
      RunStaysInStep(nets, events, j - 1);
      assert NetActs(nets[j - 1], events[j - 1], nets[j]) && NetOrderly(nets[j - 1], events[j - 1]);
      NetStaysInTurn(nets[j - 1], events[j - 1], nets[j]);
    }
  }

  lemma NewSidesInTurn()
    ensures BothInTurn(NEW_SIDE, NEW_SIDE)
  {
  }

  /** Orderly runs agree, stale cookies and their retries included; and an endpoint that is
      up knows its peer although the peer may not be up yet. */
  lemma OrderlyRunsAgree(nets: seq<Net>, events: seq<NetEvent>, j: nat)
    requires IsRun(nets, events) && NoneRemoved(nets) && j < |nets|
    requires forall k :: 0 <= k < |events| ==> NetOrderly(nets[k], events[k])
    ensures Agrees(nets[j])
    ensures IsUp(nets[j].left) ==> KnowsPeer(nets[j].left, nets[j].right)
    ensures IsUp(nets[j].right) ==> KnowsPeer(nets[j].right, nets[j].left)
  {
    hide NetOrderly, NetBound, NetActs, Stays, BothInTurn;
    OrderlyStaysInTurn(nets, events, j);
    BoundAgrees(nets, events, j);
  }

  // ----- The peer's tag is unknown exactly in COOKIE-WAIT -----

  predicate Tagged(m: Message) {
    match m
    case Init(from) => from.tag != 0
    case InitAck(vtag, from, cookie) => from.tag != 0 && cookie.peer.tag != 0 && cookie.local.tag != 0
    case CookieEcho(cookie) => cookie.peer.tag != 0 && cookie.local.tag != 0
    case CookieAck(_, _) => true
    case StaleCookie(_, _) => true
  }

  ghost predicate TagsKnown(s: Side) {
    && (forall m <- s.sent :: Tagged(m))
    && (s.tcb.Some? ==> s.tcb.value.own.tag != 0 && (s.tcb.value.peer.tag == 0 <==> s.tcb.value.state.CookieWait?))
  }

  lemma EventKeepsTags(s: Side, o: Side, e: Event, s': Side)
    requires TagsKnown(s) && TagsKnown(o) && Acts(s, o, e, s')
    ensures TagsKnown(s')
  {
    if e.Receives? {
      assert Tagged(e.m);
    }
  }

  /** In every run, orderly or not, the peer's tag is zero exactly in COOKIE-WAIT. */
  lemma {:induction false} PeerTagZeroExactlyInCookieWait(nets: seq<Net>, events: seq<NetEvent>, j: nat)
    requires IsRun(nets, events) && j < |nets|
    ensures TagsKnown(nets[j].left) && TagsKnown(nets[j].right)
    decreases j
  {
    hide Acts, TagsKnown;
    if j == 0 {
      assert TagsKnown(NEW_SIDE) by { NewSideTags(); }
    } else {
      PeerTagZeroExactlyInCookieWait(nets, events, j - 1);
      var n, n' := nets[j - 1], nets[j];
      assert NetActs(n, events[j - 1], n');
      match events[j - 1] {
        case AtLeft(e) => EventKeepsTags(n.left, n.right, e, n'.left);
        case AtRight(e) => EventKeepsTags(n.right, n.left, e, n'.right);
      }
    }
  }

  lemma NewSideTags()
    ensures TagsKnown(NEW_SIDE)
  {
  }

  // ----- Why the events must be orderly -----

  const OPENER := Id(1, 100)
  const COLLIDER := Id(2, 150)

  function DrawOf(k: nat): Draw {
    Draw(Id(10 + k, 200 + k), 30, 31)
  }

  function CookieOf(k: nat): Cookie {
    Cookie(DrawOf(k).id, OPENER, 0, 0)
  }

  /** The left end's cookie is found stale when it arrives late; the error is duplicated,
      and the copy arrives once the retry has already been accepted. The INIT that follows
      is answered with a new tag, and the delayed COOKIE ACK of the retry confirms it. */
  const STALE_RUN: seq<NetEvent> := [
    AtLeft(Associates(OPENER)),
    AtRight(Receives(Init(OPENER), DrawOf(0), false)),
    AtLeft(Receives(InitAck(1, DrawOf(0).id, CookieOf(0)), DrawOf(1), false)),
    AtRight(Receives(CookieEcho(CookieOf(0)), DrawOf(2), true)),
    AtLeft(Receives(StaleCookie(1, CookieOf(0)), DrawOf(3), false)),
    AtRight(Receives(Init(OPENER), DrawOf(4), false)),
    AtLeft(Receives(InitAck(1, DrawOf(4).id, CookieOf(4)), DrawOf(5), false)),
    AtRight(Receives(CookieEcho(CookieOf(4)), DrawOf(6), false)),
    AtLeft(Receives(StaleCookie(1, CookieOf(0)), DrawOf(7), false)),
    AtRight(Receives(Init(OPENER), DrawOf(8), false)),
    AtLeft(Receives(InitAck(1, DrawOf(8).id, Cookie(DrawOf(8).id, OPENER, 30, 31)), DrawOf(9), false)),
    AtLeft(Receives(CookieAck(1, CookieOf(4)), DrawOf(10), false))]

  const COLLIDED := Cookie(COLLIDER, OPENER, 0, 0)

  /** Both ends open. The right end refuses the left one's cookie as stale, then learns the
      left end's tag from an INIT ACK, and takes a copy of the same cookie for a
      retransmission. The left end heeds the refusal, and the acknowledgement of the copy
      confirms the tag its next INIT is answered with. */
  const REVIVED_RUN: seq<NetEvent> := [
    AtLeft(Associates(OPENER)),
    AtRight(Associates(COLLIDER)),
    AtRight(Receives(Init(OPENER), DrawOf(0), false)),
    AtLeft(Receives(InitAck(1, COLLIDER, COLLIDED), DrawOf(1), false)),
    AtRight(Receives(CookieEcho(COLLIDED), DrawOf(2), true)),
    AtLeft(Receives(Init(COLLIDER), DrawOf(3), false)),
    AtRight(Receives(InitAck(2, OPENER, Cookie(OPENER, COLLIDER, 30, 31)), DrawOf(4), false)),
    AtRight(Receives(CookieEcho(COLLIDED), DrawOf(5), true)),
    AtLeft(Receives(StaleCookie(1, COLLIDED), DrawOf(6), false)),
    AtRight(Receives(Init(OPENER), DrawOf(7), false)),
    AtLeft(Receives(InitAck(1, DrawOf(7).id, Cookie(DrawOf(7).id, OPENER, 30, 31)), DrawOf(8), false)),
    AtLeft(Receives(CookieAck(1, COLLIDED), DrawOf(9), false))]

  ghost predicate LowDraws(n: Net, k: nat) {
    forall d :: d in n.left.drawn || d in n.right.drawn ==> d.tag < 10 + k
  }

  /** A message arrives at one end. */
  lemma Arrives(n: Net, atLeft: bool, m: Message, k: nat, stale: bool) returns (n': Net)
    requires LowDraws(n, k) && m in (if atLeft then n.right.sent else n.left.sent)
    ensures var s, s' := if atLeft then n.left else n.right, if atLeft then n'.left else n'.right;
            var r := OnMessage(s.tcb, m, DrawOf(k), stale);
            && s'.tcb == r.tcb && s'.sent == s.sent + (if r.reply.Some? then {r.reply.value} else {})
            && s'.last == (if r.reply.Some? && r.reply.value.CookieEcho? then Some(r.reply.value.cookie) else s.last)
            && (if atLeft then n'.right == n.right else n'.left == n.left)
    ensures var e := Receives(m, DrawOf(k), stale);
            NetActs(n, if atLeft then AtLeft(e) else AtRight(e), n')
    ensures LowDraws(n', k + 1)
  {
    var s := if atLeft then n.left else n.right;
    var r := OnMessage(s.tcb, m, DrawOf(k), stale);
    hide OnMessage;
    var s' := Said(s.(tcb := r.tcb, drawn := s.drawn + {DrawOf(k).id}), r.reply);
    n' := if atLeft then n.(left := s') else n.(right := s');
  }

  lemma Opens() returns (n: Net)
    ensures NetActs(Net(NEW_SIDE, NEW_SIDE), AtLeft(Associates(OPENER)), n) && LowDraws(n, 0)
    ensures n.left.tcb == Some(NewAssociation(OPENER)) && n.right == NEW_SIDE && Init(OPENER) in n.left.sent
  {
    n := Net(Side(Some(NewAssociation(OPENER)), {Init(OPENER)}, {OPENER}, Some(OPENER), {}, None), NEW_SIDE);
  }

  lemma OpensToo(n: Net) returns (n': Net)
    requires LowDraws(n, 0) && n.right == NEW_SIDE
    ensures NetActs(n, AtRight(Associates(COLLIDER)), n') && LowDraws(n', 0)
    ensures n'.left == n.left && n'.right.tcb == Some(NewAssociation(COLLIDER)) && Init(COLLIDER) in n'.right.sent
  {
    n' := n.(right := Side(Some(NewAssociation(COLLIDER)), {Init(COLLIDER)}, {COLLIDER}, Some(COLLIDER), {}, None));
  }

  /** Both ends are up, and the left one holds a tag for its peer that is not the peer's. */
  predicate Disagrees(n: Net) {
    !Agrees(n) && n.left.tcb.Some? && n.right.tcb.Some? && n.left.tcb.value.peer.tag != n.right.tcb.value.own.tag
  }

  ghost predicate NeverBoth(s: Side) {
    forall c: Cookie :: !(Accepted(s, c) && Refused(s, c))
  }

  /** Agreement fails if an error about an earlier cookie is heeded, though no cookie refused
      is ever accepted. */
  lemma StaleCookieBreaksAgreement() returns (nets: seq<Net>)
    ensures IsRun(nets, STALE_RUN) && Disagrees(nets[12]) && !NetBound(nets[11], STALE_RUN[11])
    ensures var e := STALE_RUN[8].e; Heeds(nets[8].left, e) && nets[8].left.last != Some(e.m.answers)
    ensures NeverBoth(nets[12].right)
  {
    hide NetActs, LowDraws;
    var n0 := Net(NEW_SIDE, NEW_SIDE);
    var n1 := Opens();
    var n2 := Arrives(n1, false, Init(OPENER), 0, false);
    var n3 := Arrives(n2, true, InitAck(1, DrawOf(0).id, CookieOf(0)), 1, false);
    var n4 := Arrives(n3, false, CookieEcho(CookieOf(0)), 2, true);
    var n5 := Arrives(n4, true, StaleCookie(1, CookieOf(0)), 3, false);
    var n6 := Arrives(n5, false, Init(OPENER), 4, false);
    var n7 := Arrives(n6, true, InitAck(1, DrawOf(4).id, CookieOf(4)), 5, false);
    var n8 := Arrives(n7, false, CookieEcho(CookieOf(4)), 6, false);
    var n9 := Arrives(n8, true, StaleCookie(1, CookieOf(0)), 7, false);
    var n10 := Arrives(n9, false, Init(OPENER), 8, false);
    var n11 := Arrives(n10, true, InitAck(1, DrawOf(8).id, Cookie(DrawOf(8).id, OPENER, 30, 31)), 9, false);
    var n12 := Arrives(n11, true, CookieAck(1, CookieOf(4)), 10, false);
    nets := [n0, n1, n2, n3, n4, n5, n6, n7, n8, n9, n10, n11, n12];
  }

  /** It fails too if a cookie refused as stale is accepted later, though every error heeded
      is about the cookie last echoed. */
  lemma RevivedCookieBreaksAgreement() returns (nets: seq<Net>)
    ensures IsRun(nets, REVIVED_RUN) && Disagrees(nets[12]) && !NetBound(nets[11], REVIVED_RUN[11])
    ensures Accepted(nets[8].right, COLLIDED) && Refused(nets[8].right, COLLIDED)
    ensures nets[8].left.last == Some(COLLIDED)
  {
    hide NetActs, LowDraws;
    var n0 := Net(NEW_SIDE, NEW_SIDE);
    var n1 := Opens();
    var n2 := OpensToo(n1);
    var n3 := Arrives(n2, false, Init(OPENER), 0, false);
    var n4 := Arrives(n3, true, InitAck(1, COLLIDER, COLLIDED), 1, false);
    var n5 := Arrives(n4, false, CookieEcho(COLLIDED), 2, true);
    var n6 := Arrives(n5, true, Init(COLLIDER), 3, false);
    var n7 := Arrives(n6, false, InitAck(2, OPENER, Cookie(OPENER, COLLIDER, 30, 31)), 4, false);
    var n8 := Arrives(n7, false, CookieEcho(COLLIDED), 5, true);
    var n9 := Arrives(n8, true, StaleCookie(1, COLLIDED), 6, false);
    var n10 := Arrives(n9, false, Init(OPENER), 7, false);
    var n11 := Arrives(n10, true, InitAck(1, DrawOf(7).id, Cookie(DrawOf(7).id, OPENER, 30, 31)), 8, false);
    var n12 := Arrives(n11, true, CookieAck(1, COLLIDED), 9, false);
    nets := [n0, n1, n2, n3, n4, n5, n6, n7, n8, n9, n10, n11, n12];
  }
}
