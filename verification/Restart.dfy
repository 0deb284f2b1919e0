/** A peer that restarts (section 5.2.2 of RFC 9260). One end is up; the other loses its TCB
    and opens again under a new tag, while everything either ever sent is still in the
    network. Through any loss, duplication, reordering, stale cookies and retries, if the end
    that restarted comes up the two agree, if and only if every COOKIE ACK it heeds answers
    the cookie of the tag it holds. */
module Restart {
  import opened Transmission
  import opened Handshake
  import opened Agreement

  /** What is fixed at the restart: the old and the new tag of the end that restarted, and
      the tags the other end had drawn. */
  datatype Before = Before(was: Id, becomes: Id, drawn: set<Id>)

  /** A cookie made for the INIT of the restart. Until one is accepted it carries the
      Tie-Tags of the association it will replace. */
  ghost predicate ForRestart(b: Before, s: Side, c: Cookie) {
    && c.peer == b.becomes && c.local in s.drawn && c.local !in b.drawn
    && (s.tcb.Some? && s.tcb.value.peer == b.was ==>
          c.localTie != 0 && c.localTie == s.tcb.value.localTie && c.peerTie == s.tcb.value.peerTie)
  }

  /** A cookie from before; its Tie-Tags do not match those of the new association. */
  ghost predicate FromBefore(b: Before, s: Side, c: Cookie) {
    && c.peer == b.was && c.local in b.drawn
    && (s.tcb.Some? && s.tcb.value.peer == b.becomes ==> !Ties(s.tcb.value, c))
  }

  predicate Ties(t: Tcb, c: Cookie) {
    c.localTie != 0 && c.localTie == t.localTie
  }

  // ----- The end that stayed up -----

  ghost predicate SurvivorSays(b: Before, s: Side, m: Message) {
    match m
    case Init(from) => true
    case InitAck(vtag, from, c) => vtag == b.becomes.tag ==> from == c.local && ForRestart(b, s, c)
    case CookieEcho(c) => c.local.tag != b.becomes.tag && c.peer.tag != 0
    case CookieAck(vtag, c) => vtag == b.becomes.tag ==> s.tcb.Some? && s.tcb.value.peer == b.becomes && s.tcb.value.own == c.local
    case StaleCookie(vtag, c) => true
  }

  /** Up, in the old association or in the one the restart replaced it by. */
  ghost predicate Survives(b: Before, s: Side) {
    && IsUp(s) && Draws(s) && b.drawn <= s.drawn && s.tcb.value.own in s.drawn
    && (|| (s.tcb.value.peer == b.was && s.tcb.value.own in b.drawn)
        || (s.tcb.value.peer == b.becomes && s.tcb.value.own !in b.drawn))
    && (forall m <- s.sent :: SurvivorSays(b, s, m))
  }

  // ----- The end that restarted -----

  ghost predicate RestarterSays(b: Before, s: Side, m: Message) {
    match m
    case Init(from) => from.tag == b.becomes.tag ==> from == b.becomes
    case CookieEcho(c) => ForRestart(b, s, c) || FromBefore(b, s, c)
    case _ => true
  }

  ghost predicate Restarts(b: Before, s: Side, o: Side) {
    && o.tcb.Some? && o.tcb.value.own == b.becomes
    && (o.tcb.value.state.CookieWait? ==> o.tcb.value.peer.tag == 0)
    && (IsUp(o) ==> KnowsPeer(o, s) && KnowsPeer(s, o))
    && (forall m <- o.sent :: RestarterSays(b, s, m))
    && (forall m <- s.sent :: m.CookieEcho? ==> !Ties(o.tcb.value, m.cookie))
  }

  ghost predicate RestartInv(b: Before, s: Side, o: Side) {
    && b.becomes.tag != 0 && b.was.tag != b.becomes.tag
    && Survives(b, s) && Restarts(b, s, o)
  }

  /** Tie-Tags are drawn at random: none is drawn that a cookie in the network carries. */
  ghost predicate NewTies(s: Side, o: Side, e: Event) {
    e.Receives? ==> forall m <- s.sent + o.sent :: m.InitAck? || m.CookieEcho? ==> m.cookie.localTie != e.draw.localTie
  }

  // ----- Events at the end that stayed up -----

  /** With the association unchanged but for its state and Tie-Tags, what was said stands. */
  lemma SaidStands(b: Before, s: Side, o: Side, s': Side, reply: Option<Message>)
    requires RestartInv(b, s, o) && IsUp(s') && Draws(s') && s.drawn <= s'.drawn
    requires s'.tcb.value.own == s.tcb.value.own && s'.tcb.value.peer == s.tcb.value.peer
    requires s.tcb.value.localTie != 0 ==> s'.tcb.value.localTie == s.tcb.value.localTie && s'.tcb.value.peerTie == s.tcb.value.peerTie
    requires s'.tcb.value.localTie == s.tcb.value.localTie || forall m <- o.sent :: m.CookieEcho? ==> m.cookie.localTie != s'.tcb.value.localTie
    requires forall m <- s'.sent :: m in s.sent || (reply == Some(m) && SurvivorSays(b, s', m))
    requires forall m <- s'.sent :: m.CookieEcho? ==> m in s.sent
    ensures RestartInv(b, s', o)
  {
    forall m <- s'.sent
      ensures SurvivorSays(b, s', m)
    {
      if m in s.sent {
        assert SurvivorSays(b, s, m);
      }
    }
    forall m <- o.sent
      ensures RestarterSays(b, s', m)
    {
      assert RestarterSays(b, s, m);
    }
  }

  lemma InitAtSurvivor(b: Before, s: Side, o: Side, e: Event, s': Side)
    requires RestartInv(b, s, o) && Acts(s, o, e, s') && NewTies(s, o, e) && e.Receives? && e.m.Init?
    ensures RestartInv(b, s', o)
  {
    DrawsMore(s, e.draw.id);
    assert RestarterSays(b, s, e.m);
    SaidStands(b, s, o, s', OnInit(s.tcb, e.m.from, e.draw).reply);
  }

  /** An old cookie is ignored, refused, or acknowledged to the old tag. */
  lemma OldCookieAtSurvivor(b: Before, s: Side, o: Side, c: Cookie, stale: bool)
    requires RestartInv(b, s, o) && FromBefore(b, s, c)
    ensures var r := OnCookieEcho(s.tcb, c, stale);
            r.tcb == s.tcb && (r.reply.Some? ==> r.reply.value == CookieAck(b.was.tag, c) || r.reply.value == StaleCookie(b.was.tag, c))
  {
    hide SurvivorSays, RestarterSays;
    assert c.local in s.drawn;
  }

  /** The cookie of the restart replaces the old association, or is taken for a
      retransmission, and otherwise changes nothing. */
  lemma NewCookieAtSurvivor(b: Before, s: Side, o: Side, c: Cookie, stale: bool)
    requires RestartInv(b, s, o) && ForRestart(b, s, c)
    ensures var r := OnCookieEcho(s.tcb, c, stale);
            && (r.tcb == s.tcb || (s.tcb.value.peer == b.was && r.tcb == Some(FromCookie(c))))
            && (r.reply.Some? ==> r.reply.value == CookieAck(b.becomes.tag, c) || r.reply.value == StaleCookie(b.becomes.tag, c))
            && (r.reply == Some(CookieAck(b.becomes.tag, c)) ==> r.tcb.Some? && r.tcb.value.peer == b.becomes && r.tcb.value.own == c.local)
  {
    hide SurvivorSays, RestarterSays;
  }

  lemma EchoAtSurvivor(b: Before, s: Side, o: Side, e: Event, s': Side)
    requires RestartInv(b, s, o) && Acts(s, o, e, s') && e.Receives? && e.m.CookieEcho?
    ensures RestartInv(b, s', o)
  {
    var c := e.m.cookie;
    assert RestarterSays(b, s, e.m);
    DrawsMore(s, e.draw.id);
    if ForRestart(b, s, c) {
      NewCookieAtSurvivor(b, s, o, c, e.stale);
    } else {
      OldCookieAtSurvivor(b, s, o, c, e.stale);
    }
    hide OnCookieEcho, Draws;
    if s'.tcb == s.tcb {
      SaidStands(b, s, o, s', OnCookieEcho(s.tcb, c, e.stale).reply);
    } else {
      Replaced(b, s, o, c, s', OnCookieEcho(s.tcb, c, e.stale).reply);
    }
  }

  /** The old association gives way to the cookie's. */
  lemma Replaced(b: Before, s: Side, o: Side, c: Cookie, s': Side, reply: Option<Message>)
    requires RestartInv(b, s, o) && ForRestart(b, s, c) && s.tcb.value.peer == b.was
    requires s'.tcb == Some(FromCookie(c)) && Draws(s') && s.drawn <= s'.drawn
    requires forall m <- s'.sent :: m in s.sent || (reply == Some(m) && (m == CookieAck(b.becomes.tag, c) || m.StaleCookie?))
    ensures RestartInv(b, s', o)
  {
    hide Draws;
    forall m <- s'.sent
      ensures SurvivorSays(b, s', m)
    {
      assert m in s.sent ==> SurvivorSays(b, s, m);
    }
    forall m <- o.sent
      ensures RestarterSays(b, s', m)
    {
      assert RestarterSays(b, s, m);
    }
  }

  lemma SurvivorKeeps(b: Before, s: Side, o: Side, e: Event, s': Side)
    requires RestartInv(b, s, o) && Acts(s, o, e, s') && NewTies(s, o, e)
    ensures RestartInv(b, s', o)
  {
    if e.Receives? && e.m.Init? {
      InitAtSurvivor(b, s, o, e, s');
    } else if e.Receives? && e.m.CookieEcho? {
      EchoAtSurvivor(b, s, o, e, s');
    } else {
      UpIgnores(b, s, o, e, s');
    }
  }

  lemma UpIgnores(b: Before, s: Side, o: Side, e: Event, s': Side)
    requires RestartInv(b, s, o) && Acts(s, o, e, s') && !(e.Receives? && (e.m.Init? || e.m.CookieEcho?))
    ensures RestartInv(b, s', o)
  {
    if e.Receives? {
      DrawsMore(s, e.draw.id);
    }
    SaidStands(b, s, o, s', None);
  }

  // ----- Events at the end that restarted -----

  /** What the restarted end may become. */
  lemma RestarterStands(b: Before, s: Side, o: Side, o': Side)
    requires RestartInv(b, s, o) && o'.tcb.Some? && o'.tcb.value.own == b.becomes
    requires o'.tcb.value.state.CookieWait? ==> o'.tcb.value.peer.tag == 0
    requires IsUp(o') ==> KnowsPeer(o', s) && KnowsPeer(s, o')
    requires forall m <- o'.sent :: m in o.sent || RestarterSays(b, s, m)
    requires o'.tcb.value.localTie == o.tcb.value.localTie || forall m <- s.sent :: m.CookieEcho? ==> m.cookie.localTie != o'.tcb.value.localTie
    ensures RestartInv(b, s, o')
  {
    hide Survives;
    forall m <- o'.sent
      ensures RestarterSays(b, s, m)
    {
      assert m in o.sent ==> RestarterSays(b, s, m);
    }
  }

  lemma InitAtRestarter(b: Before, s: Side, o: Side, e: Event, o': Side)
    requires RestartInv(b, s, o) && Acts(o, s, e, o') && NewTies(s, o, e) && e.Receives? && e.m.Init?
    ensures RestartInv(b, s, o')
  {
    hide Survives;
    RestarterStands(b, s, o, o');
  }

  lemma InitAckAtRestarter(b: Before, s: Side, o: Side, e: Event, o': Side)
    requires RestartInv(b, s, o) && Acts(o, s, e, o') && Stays(o, o') && e.Receives? && e.m.InitAck?
    ensures RestartInv(b, s, o')
  {
    assert SurvivorSays(b, s, e.m);
    RestarterStands(b, s, o, o');
  }

  lemma EchoAtRestarter(b: Before, s: Side, o: Side, e: Event, o': Side)
    requires RestartInv(b, s, o) && Acts(o, s, e, o') && e.Receives? && e.m.CookieEcho?
    ensures RestartInv(b, s, o')
  {
    assert SurvivorSays(b, s, e.m);
    hide Survives;
    RestarterStands(b, s, o, o');
  }

  lemma AckAtRestarter(b: Before, s: Side, o: Side, e: Event, o': Side)
    requires RestartInv(b, s, o) && Acts(o, s, e, o') && Bound(o, e) && e.Receives? && e.m.CookieAck?
    ensures RestartInv(b, s, o')
  {
    assert SurvivorSays(b, s, e.m);
    RestarterStands(b, s, o, o');
  }

  lemma RestarterKeeps(b: Before, s: Side, o: Side, e: Event, o': Side)
    requires RestartInv(b, s, o) && Acts(o, s, e, o') && NewTies(s, o, e) && Stays(o, o') && Bound(o, e)
    ensures RestartInv(b, s, o')
  {
    hide NewTies, Survives;
    match e
    case Receives(m, _, _) =>
      match m {
        case Init(_) => InitAtRestarter(b, s, o, e, o');
        case InitAck(_, _, _) => InitAckAtRestarter(b, s, o, e, o');
        case CookieEcho(_) => EchoAtRestarter(b, s, o, e, o');
        case CookieAck(_, _) => AckAtRestarter(b, s, o, e, o');
        case StaleCookie(_, _) => RestarterStands(b, s, o, o');
      }
    case _ => RestarterStands(b, s, o, o');
  }

  /** A COOKIE ACK heeded for another tag leaves both ends up, and apart. */
  lemma UnboundRestartBreaks(b: Before, s: Side, o: Side, e: Event, o': Side)
    requires RestartInv(b, s, o) && Acts(o, s, e, o') && !Bound(o, e)
    ensures IsUp(o') && IsUp(s) && !KnowsPeer(o', s)
  {
    assert SurvivorSays(b, s, e.m);
  }

  // ----- Runs -----

  /** The right end loses its TCB and opens again; the left end is up. */
  ghost predicate RightRestarts(n: Net, id: Id, n': Net) {
    && Inv(n.left, n.right) && IsUp(n.left)
    && n'.left == n.left && Acts(n.right.(tcb := None), n.left, Associates(id), n'.right)
  }

  /** Everything old is told from everything new. */
  lemma RestartBegins(n: Net, id: Id, n': Net)
    requires RightRestarts(n, id, n')
    ensures RestartInv(Before(n.left.tcb.value.peer, id, n.left.drawn), n'.left, n'.right)
  {
    var b := Before(n.left.tcb.value.peer, id, n.left.drawn);
    var s, o := n.left, n.right;
    assert o.tcb.Some? && b.was == o.tcb.value.own && b.was in o.drawn;
    assert o.began.Some? ==> o.began.value == b.was;
    forall m <- s.sent
      ensures SurvivorSays(b, s, m)
    {
      assert Truthful(s, o, m);
    }
    forall m <- n'.right.sent
      ensures RestarterSays(b, s, m)
    {
      assert m in o.sent ==> Truthful(o, s, m);
    }
  }

  /** A run from the restart on. */
  ghost predicate IsRestartRun(n: Net, id: Id, nets: seq<Net>, events: seq<NetEvent>) {
    && |nets| == |events| + 1
    && RightRestarts(n, id, nets[0])
    && forall j :: 0 <= j < |events| ==> NetActs(nets[j], events[j], nets[j + 1]) && NewTies(nets[j].left, nets[j].right, events[j].e)
  }

  predicate RightBound(n: Net, e: NetEvent) {
    e.AtRight? ==> Bound(n.right, e.e)
  }

  /** If the end that restarted is up, both are and they agree. */
  predicate RestartAgreed(n: Net) {
    IsUp(n.right) ==> IsUp(n.left) && KnowsPeer(n.left, n.right) && KnowsPeer(n.right, n.left)
  }

  lemma RestartStep(b: Before, n: Net, e: NetEvent, n': Net)
    requires RestartInv(b, n.left, n.right) && NetActs(n, e, n') && NewTies(n.left, n.right, e.e)
    requires Stays(n.right, n'.right) && RightBound(n, e)
    ensures RestartInv(b, n'.left, n'.right)
  {
    hide RestartInv, Acts, NewTies, Stays, Bound;
    match e
    case AtLeft(e) => SurvivorKeeps(b, n.left, n.right, e, n'.left);
    case AtRight(e) => RestarterKeeps(b, n.left, n.right, e, n'.right);
  }

  lemma RunStepAt(n: Net, id: Id, nets: seq<Net>, events: seq<NetEvent>, j: nat)
    requires IsRestartRun(n, id, nets, events) && NoneRemoved(nets) && j + 1 < |nets|
    ensures j < |events| && NetActs(nets[j], events[j], nets[j + 1]) && NewTies(nets[j].left, nets[j].right, events[j].e)
    ensures Stays(nets[j].right, nets[j + 1].right)
  {
    hide NetActs, NewTies, Stays, RightRestarts;
  }

  lemma RunBegins(n: Net, id: Id, nets: seq<Net>, events: seq<NetEvent>)
    requires IsRestartRun(n, id, nets, events)
    ensures |nets| == |events| + 1 && RightRestarts(n, id, nets[0])
  {
  }

  lemma {:induction false} RestartStaysInStep(n: Net, id: Id, nets: seq<Net>, events: seq<NetEvent>, j: nat)
    requires IsRestartRun(n, id, nets, events) && NoneRemoved(nets) && j < |nets|
    requires |nets| == |events| + 1 && forall k :: 0 <= k < j ==> RightBound(nets[k], events[k])
    ensures n.left.tcb.Some? && RestartInv(Before(n.left.tcb.value.peer, id, n.left.drawn), nets[j].left, nets[j].right)
    decreases j
  {
    hide *;
    if j == 0 {
      RunBegins(n, id, nets, events);
      WasUp(n, id, nets[0]);
      RestartBegins(n, id, nets[0]);
    } else {
      RestartStaysInStep(n, id, nets, events, j - 1);
      RunStepAt(n, id, nets, events, j - 1);
      RestartStep(Before(n.left.tcb.value.peer, id, n.left.drawn), nets[j - 1], events[j - 1], nets[j]);
    }
  }

  lemma WasUp(n: Net, id: Id, n': Net)
    requires RightRestarts(n, id, n')
    ensures n.left.tcb.Some?
  {
  }

  lemma {:induction false} RestartAgreementBinds(n: Net, id: Id, nets: seq<Net>, events: seq<NetEvent>, j: nat)
    requires IsRestartRun(n, id, nets, events) && NoneRemoved(nets) && |nets| == |events| + 1 && j <= |events|
    requires forall i :: 0 <= i < |nets| ==> RestartAgreed(nets[i])
    ensures forall k :: 0 <= k < j ==> RightBound(nets[k], events[k])
    decreases j
  {
    hide *;
    if j > 0 {
      RestartAgreementBinds(n, id, nets, events, j - 1);
      RestartStaysInStep(n, id, nets, events, j - 1);
      RunStepAt(n, id, nets, events, j - 1);
      assert RestartAgreed(nets[j]);
      UnboundDisagreesAfterRestart(Before(n.left.tcb.value.peer, id, n.left.drawn), nets[j - 1], events[j - 1], nets[j]);
    }
  }

  lemma UnboundDisagreesAfterRestart(b: Before, n: Net, e: NetEvent, n': Net)
    requires RestartInv(b, n.left, n.right) && NetActs(n, e, n') && RestartAgreed(n')
    ensures RightBound(n, e)
  {
    hide RestartInv, Acts, Bound;
    if e.AtRight? && !Bound(n.right, e.e) {
      UnboundRestartBreaks(b, n.left, n.right, e.e, n'.right);
    }
  }

  lemma InvAgrees(b: Before, n: Net)
    requires RestartInv(b, n.left, n.right)
    ensures RestartAgreed(n) && IsUp(n.left)
  {
  }

  /** Agreement after a restart, for every run in which no TCB is lost again: the end that
      restarted, once up, agrees with the one that stayed up throughout if and only if every
      COOKIE ACK it heeds answers the cookie of the tag it holds. */
  lemma RestartAgrees(n: Net, id: Id, nets: seq<Net>, events: seq<NetEvent>)
    requires IsRestartRun(n, id, nets, events) && NoneRemoved(nets) && |nets| == |events| + 1
    ensures (forall j :: 0 <= j < |nets| ==> RestartAgreed(nets[j])) <==> (forall k :: 0 <= k < |events| ==> RightBound(nets[k], events[k]))
  {
    hide *;
    if forall k :: 0 <= k < |events| ==> RightBound(nets[k], events[k]) {
      forall j | 0 <= j < |nets|
        ensures RestartAgreed(nets[j])
      {
        RestartStaysInStep(n, id, nets, events, j);
        InvAgrees(Before(n.left.tcb.value.peer, id, n.left.drawn), nets[j]);
      }
    }
    if forall j :: 0 <= j < |nets| ==> RestartAgreed(nets[j]) {
      RestartAgreementBinds(n, id, nets, events, |events|);
    }
  }

  /** And it does come up: four messages replace the association of the end that stayed up by
      a new one that both agree on, whatever it was, unless that end is in SHUTDOWN-ACK-SENT. */
  lemma RestartSucceeds(t: Tcb, id: Id, draw: Draw)
    requires Up(t.state) && !t.state.ShutdownAckSent?
    requires id.tag != 0 && id.tag != t.peer.tag && draw.id.tag != 0 && draw.id.tag != t.own.tag && draw.localTie != 0
    ensures var answered := OnMessage(Some(t), Init(id), draw, false);
            && answered.reply.Some?
            && var echoed := OnMessage(Some(NewAssociation(id)), answered.reply.value, draw, false);
            && echoed.reply.Some?
            && var accepted := OnMessage(answered.tcb, echoed.reply.value, draw, false);
            && accepted.reply.Some?
            && var done := OnMessage(echoed.tcb, accepted.reply.value, draw, false);
            && accepted.tcb == Some(FromCookie(Cookie(draw.id, id, 0, 0)))
            && done.tcb.Some? && done.tcb.value.state.Established? && done.tcb.value.own == id && done.tcb.value.peer == draw.id
  {
  }
}
