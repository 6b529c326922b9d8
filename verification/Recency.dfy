/**
  Which setup message of a peer the registry speaks for. Accepted keys travel from
  the handler's stack through the connection's queue to the registry, so the last key
  to reach it need not be from the last message accepted. Every step of a run is
  numbered; a message is named by the step that brought it.
*/
module Recency {
  import opened Basics
  import opened Freshness
  import opened SignedMessages
  import opened Setup
  import opened Registry
  import opened Byos

  // --- the most recent accepted setup message ---

  /** What an arrival makes a handler emit, and for whom. */
  datatype Birth = Birth(conn: ConnectionId, peer: PeerId, event: HandlerEvent)

  function BirthOf(env: Env, n: Node, step: Step): Option<Birth> {
    if step.Arrive? && step.conn in n.conns then
      var p := n.conns[step.conn].peer;
      var emitted := Emitted(env.Ep(p), env.scheme, step.event, step.now);
      if emitted == [] then None else Some(Birth(step.conn, p, emitted[0]))
    else None
  }

  predicate Accepts(birth: Option<Birth>, p: PeerId) {
    birth.Some? && birth.value.peer == p && birth.value.event.AppKeyReceived?
  }

  /** The last setup message accepted from p since p was last fully disconnected. */
  function LatestAccepted(env: Env, trace: seq<Step>, p: PeerId): Option<nat> {
    if trace == [] then None
    else
      var m := |trace| - 1;
      var n := After(env, trace[..m]);
      if Accepts(BirthOf(env, n, trace[m]), p) then Some(m)
      else if RegistryOp(n, trace[m]) == Some(ConnectionClosed(p, 0)) then None
      else LatestAccepted(env, trace[..m], p)
  }

  // --- following messages ---

  /** The messages behind the events of a connection, position by position. */
  datatype Stamps = Stamps(pending: seq<nat>, inFlight: seq<nat>)

  predicate In(st: Stamps, i: nat) {
    i in st.pending || i in st.inFlight
  }

  function All(st: Stamps): set<nat> {
    (set i | i in st.pending) + set i | i in st.inFlight
  }

  /**
    History of a run: what each step brought, where messages are, which message each
    registration and each latest acceptance comes from, which messages a connection
    took with it when it closed, and which gave way in the registry to an older one.
  */
  datatype Hist = Hist(
    births: seq<Option<Birth>>,
    stamps: map<ConnectionId, Stamps>,
    origin: map<PeerId, nat>,
    latest: map<PeerId, nat>,
    lost: set<nat>,
    overtaken: set<nat>)

  const NO_HISTORY: Hist := Hist([], map[], map[], map[], {}, {})

  function NextStamps(h: Hist, birth: Option<Birth>, step: Step): map<ConnectionId, Stamps> {
    var st := h.stamps;
    match step
    case Open(c, _) => if c in st then st else st[c := Stamps([], [])]
    case Arrive(c, _, _) =>
      if birth.Some? && c in st then st[c := st[c].(pending := st[c].pending + [|h.births|])] else st
    case PollHandler(c) =>
      if c in st && st[c].pending != [] then
        var m := |st[c].pending| - 1;
        st[c := Stamps(st[c].pending[..m], st[c].inFlight + [st[c].pending[m]])]
      else st
    case ReachBehaviour(c) =>
      if c in st && st[c].inFlight != [] then st[c := st[c].(inFlight := st[c].inFlight[1..])] else st
    case Close(c) => st - {c}
    case _ => st
  }

  /** The message that reaches the behaviour in a step. */
  function Reaching(h: Hist, step: Step): Option<nat> {
    if step.ReachBehaviour? && step.conn in h.stamps && h.stamps[step.conn].inFlight != []
    then Some(h.stamps[step.conn].inFlight[0])
    else None
  }

  function NextOrigin(h: Hist, op: Option<RegOp>, reaching: Option<nat>): map<PeerId, nat> {
    match op
    case Some(KeyReceived(p, _)) => if reaching.Some? then h.origin[p := reaching.value] else h.origin
    case Some(ConnectionClosed(p, remaining)) => if remaining == 0 then h.origin - {p} else h.origin
    case None => h.origin
  }

  function NextLatest(h: Hist, birth: Option<Birth>, op: Option<RegOp>): map<PeerId, nat> {
    if birth.Some? && birth.value.event.AppKeyReceived? then h.latest[birth.value.peer := |h.births|]
    else if op.Some? && op.value.ConnectionClosed? && op.value.remaining == 0 then h.latest - {op.value.peer}
    else h.latest
  }

  function NextLost(h: Hist, step: Step): set<nat> {
    if step.Close? && step.conn in h.stamps then h.lost + All(h.stamps[step.conn]) else h.lost
  }

  function NextOvertaken(h: Hist, op: Option<RegOp>, reaching: Option<nat>): set<nat> {
    if op.Some? && op.value.KeyReceived? && reaching.Some?
       && op.value.peer in h.origin && reaching.value < h.origin[op.value.peer]
    then h.overtaken + {h.origin[op.value.peer]}
    else h.overtaken
  }

  function NextHist(env: Env, n: Node, h: Hist, step: Step): Hist {
    var birth, op, reaching := BirthOf(env, n, step), RegistryOp(n, step), Reaching(h, step);
    Hist(h.births + [birth], NextStamps(h, birth, step), NextOrigin(h, op, reaching),
         NextLatest(h, birth, op), NextLost(h, step), NextOvertaken(h, op, reaching))
  }

  function History(env: Env, trace: seq<Step>): Hist {
    if trace == [] then NO_HISTORY
    else
      var front := trace[..|trace| - 1];
      NextHist(env, After(env, front), History(env, front), trace[|trace| - 1])
  }

  // --- what the history keeps ---

  predicate Born(births: seq<Option<Birth>>, i: nat, c: ConnectionId, p: PeerId, e: HandlerEvent) {
    i < |births| && births[i] == Some(Birth(c, p, e))
  }

  /** Every event stands at the position of the message that brought it. */
  ghost predicate Tracks(h: Hist, c: ConnectionId, p: PeerId, events: seq<HandlerEvent>, stamps: seq<nat>) {
    && |events| == |stamps|
    && forall x :: 0 <= x < |stamps| ==> Born(h.births, stamps[x], c, p, events[x])
  }

  predicate Distinct(s: seq<nat>) {
    forall x, y :: 0 <= x < y < |s| ==> s[x] != s[y]
  }

  /** No key on its way is from a message newer than the latest accepted one. */
  ghost predicate Bounded(h: Hist, p: PeerId, st: Stamps) {
    forall i: nat :: In(st, i) && i < |h.births| && Accepts(h.births[i], p) ==> p in h.latest && i <= h.latest[p]
  }

  /** The stamps st follow the events of connection c. */
  ghost predicate Follows(h: Hist, c: ConnectionId, conn: Conn, st: Stamps) {
    && Tracks(h, c, conn.peer, conn.handler.pending, st.pending)
    && Tracks(h, c, conn.peer, conn.inFlight, st.inFlight)
    && Distinct(st.pending) && Distinct(st.inFlight)
    && (forall i :: i in st.pending ==> i !in st.inFlight)
    && Bounded(h, conn.peer, st)
  }

  ghost predicate ConnOk(h: Hist, c: ConnectionId, conn: Conn) {
    c in h.stamps && Follows(h, c, conn, h.stamps[c])
  }

  /** The message is on its way to the registry. */
  ghost predicate Carried(h: Hist, i: nat) {
    && i < |h.births| && h.births[i].Some?
    && h.births[i].value.conn in h.stamps
    && In(h.stamps[h.births[i].value.conn], i)
  }

  /** Message i of p is in exactly one of four places. */
  ghost predicate Placed(h: Hist, p: PeerId, i: nat) {
    var current := p in h.origin && h.origin[p] == i;
    && (Carried(h, i) ==> i !in h.lost && i !in h.overtaken && !current)
    && (i in h.lost ==> i !in h.overtaken && !current)
    && (i in h.overtaken ==> !current)
    && (Carried(h, i) || i in h.lost || i in h.overtaken || current)
  }

  ghost predicate PeerOk(r: Reg, h: Hist, p: PeerId) {
    && (p in h.origin <==> p in r.transportIds)
    && (p in h.origin ==>
          && h.origin[p] < |h.births| && Accepts(h.births[h.origin[p]], p)
          && h.births[h.origin[p]].value.event.appPublicKey == r.transportIds[p]
          && p in h.latest && h.origin[p] <= h.latest[p])
    && (p in h.latest ==>
          h.latest[p] < |h.births| && Accepts(h.births[h.latest[p]], p) && Placed(h, p, h.latest[p]))
  }

  ghost predicate Past(h: Hist) {
    && (forall i :: i in h.lost ==> i < |h.births|)
    && (forall i :: i in h.overtaken ==> i < |h.births|)
  }

  ghost predicate Inv(n: Node, h: Hist) {
    && h.stamps.Keys == n.conns.Keys
    && Past(h)
    && (forall c :: c in n.conns ==> ConnOk(h, c, n.conns[c]))
    && (forall p :: PeerOk(n.reg, h, p))
  }

  // --- connections under a step ---

  /** More history, with a latest message no older, changes nothing about a connection. */
  lemma FollowsLater(h: Hist, h': Hist, c: ConnectionId, conn: Conn, st: Stamps)
    requires Follows(h, c, conn, st) && h.births <= h'.births
    requires conn.peer in h.latest ==> conn.peer in h'.latest && h.latest[conn.peer] <= h'.latest[conn.peer]
    ensures Follows(h', c, conn, st)
  {
    forall i: nat | In(st, i) ensures i < |h.births| {
      if i in st.pending {
        var x :| 0 <= x < |st.pending| && st.pending[x] == i;
        assert Born(h.births, st.pending[x], c, conn.peer, conn.handler.pending[x]);
      } else {
        var x :| 0 <= x < |st.inFlight| && st.inFlight[x] == i;
        assert Born(h.births, st.inFlight[x], c, conn.peer, conn.inFlight[x]);
      }
    }
  }

  /** The handler pushes the event of message i. */
  lemma FollowsPush(h: Hist, c: ConnectionId, conn: Conn, st: Stamps, i: nat, e: HandlerEvent, conn': Conn)
    requires Follows(h, c, conn, st)
    requires Born(h.births, i, c, conn.peer, e) && !In(st, i)
    requires e.AppKeyReceived? ==> conn.peer in h.latest && i <= h.latest[conn.peer]
    requires conn'.peer == conn.peer && conn'.inFlight == conn.inFlight
    requires conn'.handler.pending == conn.handler.pending + [e]
    ensures Follows(h, c, conn', st.(pending := st.pending + [i]))
  {
    var st' := st.(pending := st.pending + [i]);
    assert forall j: nat :: In(st', j) <==> In(st, j) || j == i;
    assert forall x :: 0 <= x < |st.pending| ==> st.pending[x] != i;
  }

  /** The newest pending event joins the queue. */
  lemma FollowsMove(h: Hist, c: ConnectionId, conn: Conn, st: Stamps, conn': Conn, st': Stamps)
    requires Follows(h, c, conn, st) && st.pending != []
    requires var m := |st.pending| - 1;
             && st' == Stamps(st.pending[..m], st.inFlight + [st.pending[m]])
             && conn'.peer == conn.peer
             && conn'.handler.pending == conn.handler.pending[..m]
             && conn'.inFlight == conn.inFlight + [conn.handler.pending[m]]
    ensures Follows(h, c, conn', st')
  {
    var m := |st.pending| - 1;
    var i := st.pending[m];
    assert Born(h.births, i, c, conn.peer, conn.handler.pending[m]);
    assert st.pending == st'.pending + [i];
    assert i !in st'.pending && i !in st.inFlight;
    assert forall j: nat :: In(st', j) <==> In(st, j);
  }

  /** The head of the queue leaves it. */
  lemma FollowsDrop(h: Hist, c: ConnectionId, conn: Conn, st: Stamps, conn': Conn)
    requires Follows(h, c, conn, st) && st.inFlight != []
    requires conn'.peer == conn.peer && conn'.handler == conn.handler && conn'.inFlight == conn.inFlight[1..]
    ensures Follows(h, c, conn', st.(inFlight := st.inFlight[1..]))
  {
    var st' := st.(inFlight := st.inFlight[1..]);
    forall x | 0 <= x < |st'.inFlight| ensures Born(h.births, st'.inFlight[x], c, conn'.peer, conn'.inFlight[x]) {
      assert Born(h.births, st.inFlight[x + 1], c, conn.peer, conn.inFlight[x + 1]);
    }
    assert forall i: nat :: In(st', i) ==> In(st, i);
  }

  /** While a peer has a connection left, its latest accepted message is only replaced by a newer one. */
  lemma LatestGrows(env: Env, n: Node, h: Hist, step: Step, c: ConnectionId)
    requires c in n.conns && !(step.Close? && step.conn == c)
    requires n.conns[c].peer in h.latest && h.latest[n.conns[c].peer] < |h.births|
    ensures var p, latest' := n.conns[c].peer, NextHist(env, n, h, step).latest;
            p in latest' && h.latest[p] <= latest'[p]
  {
    var p := n.conns[c].peer;
    if step.Close? && step.conn in n.conns && n.conns[step.conn].peer == p {
      var others := set d | d in n.conns && d != step.conn && n.conns[d].peer == n.conns[step.conn].peer;
      assert c in others;
    }
  }

  lemma FollowsStill(env: Env, n: Node, h: Hist, step: Step, c: ConnectionId)
    requires c in n.conns && !(step.Close? && step.conn == c)
    requires ConnOk(h, c, n.conns[c]) && PeerOk(n.reg, h, n.conns[c].peer)
    ensures Follows(NextHist(env, n, h, step), c, n.conns[c], h.stamps[c])
  {
    if n.conns[c].peer in h.latest {
      LatestGrows(env, n, h, step, c);
    }
    FollowsLater(h, NextHist(env, n, h, step), c, n.conns[c], h.stamps[c]);
  }

  lemma StampsOld(h: Hist, c: ConnectionId, conn: Conn)
    requires ConnOk(h, c, conn)
    ensures !In(h.stamps[c], |h.births|)
  {
    var st := h.stamps[c];
    assert forall x :: 0 <= x < |st.pending| ==> Born(h.births, st.pending[x], c, conn.peer, conn.handler.pending[x]);
    assert forall x :: 0 <= x < |st.inFlight| ==> Born(h.births, st.inFlight[x], c, conn.peer, conn.inFlight[x]);
  }

  lemma ArriveConn(env: Env, n: Node, h: Hist, c: ConnectionId, e: ConnectionEvent, now: Clock)
    requires c in n.conns && ConnOk(h, c, n.conns[c]) && PeerOk(n.reg, h, n.conns[c].peer)
    ensures var step := Arrive(c, e, now);
            ConnOk(NextHist(env, n, h, step), c, NextConns(env, n, step)[c])
  {
    var step, conn := Arrive(c, e, now), n.conns[c];
    var h', conn' := NextHist(env, n, h, step), NextConns(env, n, step)[c];
    FollowsStill(env, n, h, step, c);
    var emitted := Emitted(env.Ep(conn.peer), env.scheme, e, now);
    if emitted == [] {
      assert conn'.handler.pending == conn.handler.pending;
    } else {
      assert emitted == [emitted[0]];
      StampsOld(h, c, conn);
      FollowsPush(h', c, conn, h.stamps[c], |h.births|, emitted[0], conn');
    }
  }

  lemma PollConn(env: Env, n: Node, h: Hist, c: ConnectionId)
    requires c in n.conns && ConnOk(h, c, n.conns[c]) && PeerOk(n.reg, h, n.conns[c].peer)
    ensures ConnOk(NextHist(env, n, h, PollHandler(c)), c, NextConns(env, n, PollHandler(c))[c])
  {
    var step, conn := PollHandler(c), n.conns[c];
    var h', conn' := NextHist(env, n, h, step), NextConns(env, n, step)[c];
    FollowsStill(env, n, h, step, c);
    if conn.handler.pending != [] {
      FollowsMove(h', c, conn, h.stamps[c], conn', h'.stamps[c]);
    } else {
      assert conn'.inFlight == conn.inFlight;
    }
  }

  lemma ReachConn(env: Env, n: Node, h: Hist, c: ConnectionId)
    requires c in n.conns && ConnOk(h, c, n.conns[c]) && PeerOk(n.reg, h, n.conns[c].peer)
    ensures ConnOk(NextHist(env, n, h, ReachBehaviour(c)), c, NextConns(env, n, ReachBehaviour(c))[c])
  {
    var step, conn := ReachBehaviour(c), n.conns[c];
    var h', conn' := NextHist(env, n, h, step), NextConns(env, n, step)[c];
    FollowsStill(env, n, h, step, c);
    if conn.inFlight != [] {
      FollowsDrop(h', c, conn, h.stamps[c], conn');
    }
  }

  lemma ConnStep(env: Env, n: Node, h: Hist, step: Step, c: ConnectionId)
    requires h.stamps.Keys == n.conns.Keys && c in NextConns(env, n, step)
    requires c in n.conns ==> ConnOk(h, c, n.conns[c]) && PeerOk(n.reg, h, n.conns[c].peer)
    ensures ConnOk(NextHist(env, n, h, step), c, NextConns(env, n, step)[c])
  {
    if c in n.conns {
      if step == PollHandler(c) {
        PollConn(env, n, h, c);
      } else if step == ReachBehaviour(c) {
        ReachConn(env, n, h, c);
      } else if step.Arrive? && step.conn == c {
        ArriveConn(env, n, h, c, step.event, step.now);
      } else {
        FollowsStill(env, n, h, step, c);
      }
    }
  }

  // --- peers under a step ---

  /** What a connection carries was brought by its own peer on it. */
  lemma StampBorn(h: Hist, c: ConnectionId, conn: Conn, i: nat)
    requires ConnOk(h, c, conn) && In(h.stamps[c], i)
    ensures i < |h.births| && h.births[i].Some?
    ensures h.births[i].value.conn == c && h.births[i].value.peer == conn.peer
    ensures Carried(h, i)
  {
    var st := h.stamps[c];
    if i in st.pending {
      var x :| 0 <= x < |st.pending| && st.pending[x] == i;
      assert Born(h.births, st.pending[x], c, conn.peer, conn.handler.pending[x]);
    } else {
      var x :| 0 <= x < |st.inFlight| && st.inFlight[x] == i;
      assert Born(h.births, st.inFlight[x], c, conn.peer, conn.inFlight[x]);
    }
  }

  /** Messages whose place a step does not change. */
  lemma PeerKept(r: Reg, h: Hist, r': Reg, h': Hist, p: PeerId)
    requires PeerOk(r, h, p) && h.births <= h'.births
    requires Lookup(r'.transportIds, p) == Lookup(r.transportIds, p)
    requires Lookup(h'.origin, p) == Lookup(h.origin, p)
    requires Lookup(h'.latest, p) == Lookup(h.latest, p)
    requires p in h.latest ==>
               && var i := h.latest[p];
                  && (Carried(h', i) <==> Carried(h, i))
                  && (i in h'.lost <==> i in h.lost)
                  && (i in h'.overtaken <==> i in h.overtaken)
    ensures PeerOk(r', h', p)
  {
  }

  lemma ArrivePeer(env: Env, n: Node, h: Hist, step: Step, p: PeerId)
    requires Past(h) && PeerOk(n.reg, h, p) && step.Arrive? && h.stamps.Keys == n.conns.Keys
    ensures PeerOk(Next(env, n, step).reg, NextHist(env, n, h, step), p)
  {
    var h' := NextHist(env, n, h, step);
    if Accepts(BirthOf(env, n, step), p) {
      var i := |h.births|;
      assert h'.births[i] == BirthOf(env, n, step) && i in h'.stamps[step.conn].pending;
      assert Carried(h', i);
    } else {
      PeerKept(n.reg, h, n.reg, h', p);
    }
  }

  lemma ReachPeer(env: Env, n: Node, h: Hist, c: ConnectionId, p: PeerId)
    requires PeerOk(n.reg, h, p) && h.stamps.Keys == n.conns.Keys
    requires c in n.conns && n.conns[c].inFlight != []
    requires ConnOk(h, c, n.conns[c]) && PeerOk(n.reg, h, n.conns[c].peer)
    ensures PeerOk(Next(env, n, ReachBehaviour(c)).reg, NextHist(env, n, h, ReachBehaviour(c)), p)
  {
    var step, conn, st := ReachBehaviour(c), n.conns[c], h.stamps[c];
    var n', h' := Next(env, n, step), NextHist(env, n, h, step);
    var o, event := st.inFlight[0], conn.inFlight[0];
    assert Born(h.births, o, c, conn.peer, event);
    forall i: nat | i < |h.births| && i != o ensures Carried(h', i) <==> Carried(h, i) {
      assert i in st.inFlight <==> i in st.inFlight[1..];
    }
    if p != conn.peer || !event.AppKeyReceived? {
      PeerKept(n.reg, h, n'.reg, h', p);
    } else {
      assert In(st, o);
      assert !Carried(h', o);
      assert Carried(h, o);
    }
  }

  lemma ClosePeer(env: Env, n: Node, h: Hist, c: ConnectionId, p: PeerId)
    requires PeerOk(n.reg, h, p) && h.stamps.Keys == n.conns.Keys
    requires c in n.conns && ConnOk(h, c, n.conns[c])
    ensures PeerOk(Next(env, n, Close(c)).reg, NextHist(env, n, h, Close(c)), p)
  {
    var step, q := Close(c), n.conns[c].peer;
    var n', h' := Next(env, n, step), NextHist(env, n, h, step);
    if p in h.latest {
      var i := h.latest[p];
      if In(h.stamps[c], i) {
        StampBorn(h, c, n.conns[c], i);
      } else {
        assert i !in All(h.stamps[c]);
        assert Carried(h', i) <==> Carried(h, i);
      }
    }
    if p != q {
      PeerKept(n.reg, h, n'.reg, h', p);
    }
  }

  lemma PeerStep(env: Env, n: Node, h: Hist, step: Step, p: PeerId)
    requires Inv(n, h)
    ensures PeerOk(Next(env, n, step).reg, NextHist(env, n, h, step), p)
  {
    assert PeerOk(n.reg, h, p);
    if step.Arrive? {
      ArrivePeer(env, n, h, step, p);
    } else if step.ReachBehaviour? && step.conn in n.conns && n.conns[step.conn].inFlight != [] {
      assert ConnOk(h, step.conn, n.conns[step.conn]) && PeerOk(n.reg, h, n.conns[step.conn].peer);
      ReachPeer(env, n, h, step.conn, p);
    } else if step.Close? && step.conn in n.conns {
      ClosePeer(env, n, h, step.conn, p);
    } else if step.PollHandler? {
      PollPeer(env, n, h, step.conn, p);
    } else {
      if step.ReachBehaviour? && step.conn in n.conns {
        assert ConnOk(h, step.conn, n.conns[step.conn]);
      }
      StillPeer(env, n, h, step, p);
    }
  }

  /** A poll moves a message without taking it off the connection. */
  lemma PollPeer(env: Env, n: Node, h: Hist, c: ConnectionId, p: PeerId)
    requires PeerOk(n.reg, h, p) && h.stamps.Keys == n.conns.Keys
    ensures PeerOk(Next(env, n, PollHandler(c)).reg, NextHist(env, n, h, PollHandler(c)), p)
  {
    var h' := NextHist(env, n, h, PollHandler(c));
    if c in h.stamps && h.stamps[c].pending != [] {
      var st, st' := h.stamps[c], h'.stamps[c];
      assert st.pending == st'.pending + [st.pending[|st.pending| - 1]];
      assert forall i: nat :: In(st', i) <==> In(st, i);
    }
    PeerKept(n.reg, h, n.reg, h', p);
  }

  lemma StillPeer(env: Env, n: Node, h: Hist, step: Step, p: PeerId)
    requires PeerOk(n.reg, h, p) && h.stamps.Keys == n.conns.Keys
    requires step.Open? || step.PollBehaviour? || step.Message?
             || (step.Close? && step.conn !in n.conns)
             || (step.ReachBehaviour? && Reaching(h, step).None? && RegistryOp(n, step).None?)
    ensures PeerOk(Next(env, n, step).reg, NextHist(env, n, h, step), p)
  {
    var h' := NextHist(env, n, h, step);
    if step.Close? {
      assert h'.stamps == h.stamps;
    }
    PeerKept(n.reg, h, n.reg, h', p);
  }

  // --- whole runs ---

  lemma InvStep(env: Env, n: Node, h: Hist, step: Step)
    requires Inv(n, h)
    ensures Inv(Next(env, n, step), NextHist(env, n, h, step))
  {
    var n', h' := Next(env, n, step), NextHist(env, n, h, step);
    ConnsStep(env, n, h, step);
    forall p ensures PeerOk(n'.reg, h', p) {
      PeerStep(env, n, h, step, p);
    }
    PastStep(env, n, h, step);
  }

  lemma ConnsStep(env: Env, n: Node, h: Hist, step: Step)
    requires Inv(n, h)
    ensures var conns', h' := NextConns(env, n, step), NextHist(env, n, h, step);
            && h'.stamps.Keys == conns'.Keys
            && forall c :: c in conns' ==> ConnOk(h', c, conns'[c])
  {
    var conns', h' := NextConns(env, n, step), NextHist(env, n, h, step);
    forall c | c in conns' ensures ConnOk(h', c, conns'[c]) {
      ConnStep(env, n, h, step, c);
    }
    if step.Arrive? && step.conn in n.conns {
      assert h'.stamps.Keys == h.stamps.Keys;
    }
  }

  lemma PastStep(env: Env, n: Node, h: Hist, step: Step)
    requires Inv(n, h)
    ensures Past(NextHist(env, n, h, step))
  {
    if step.Close? && step.conn in n.conns {
      forall i: nat | i in All(h.stamps[step.conn]) ensures i < |h.births| {
        StampBorn(h, step.conn, n.conns[step.conn], i);
      }
    }
    if op :| op == RegistryOp(n, step) && op.Some? && op.value.peer in h.origin {
      assert PeerOk(n.reg, h, op.value.peer);
    }
  }

  lemma {:induction false} HistoryInv(env: Env, trace: seq<Step>)
    ensures Inv(After(env, trace), History(env, trace))
    ensures |History(env, trace).births| == |trace|
  {
    if trace != [] {
      var front := trace[..|trace| - 1];
      HistoryInv(env, front);
      InvStep(env, After(env, front), History(env, front), trace[|trace| - 1]);
    }
  }

  lemma {:induction false} LatestIsHistory(env: Env, trace: seq<Step>, p: PeerId)
    ensures LatestAccepted(env, trace, p) == Lookup(History(env, trace).latest, p)
  {
    if trace != [] {
      var front := trace[..|trace| - 1];
      LatestIsHistory(env, front, p);
      HistoryInv(env, front);
    }
  }

  lemma {:induction false} BirthsAt(env: Env, trace: seq<Step>, j: nat)
    requires j < |trace|
    ensures |History(env, trace).births| == |trace|
    ensures History(env, trace).births[j] == BirthOf(env, After(env, trace[..j]), trace[j])
  {
    HistoryInv(env, trace);
    var front := trace[..|trace| - 1];
    HistoryInv(env, front);
    if j < |front| {
      BirthsAt(env, front, j);
      assert front[..j] == trace[..j];
    }
  }

  /** An accepted message in the history is an accepted setup message of the run. */
  lemma AcceptedInRun(env: Env, trace: seq<Step>, i: nat, p: PeerId)
    requires i < |History(env, trace).births| && Accepts(History(env, trace).births[i], p)
    ensures i < |trace| && trace[i].Arrive?
    ensures AcceptedAt(env, trace, i, trace[i].conn, p, History(env, trace).births[i].value.event.appPublicKey)
  {
    HistoryInv(env, trace);
    BirthsAt(env, trace, i);
  }

  /** Message i has left its connection, was not dropped with it, and did not give way to an older one. */
  ghost predicate Settled(env: Env, trace: seq<Step>, i: nat) {
    var h := History(env, trace);
    !Carried(h, i) && i !in h.lost && i !in h.overtaken
  }

  /** The message behind the registration of p. */
  ghost function Registered(env: Env, trace: seq<Step>, p: PeerId): Option<nat> {
    Lookup(History(env, trace).origin, p)
  }

  /**
    In every run, p is registered under the key of some accepted setup message of p no
    newer than the latest; and that message is the latest if and only if the latest is
    no longer under way, was not lost in a close, and was not overtaken by an older one.
  */
  lemma RegisteredIsLatestIff(env: Env, trace: seq<Step>, p: PeerId)
    ensures var reg, latest := Registered(env, trace, p), LatestAccepted(env, trace, p);
            && (reg.Some? <==> p in After(env, trace).reg.transportIds)
            && (reg.Some? ==>
                  && latest.Some? && reg.value <= latest.value < |trace|
                  && trace[reg.value].Arrive?
                  && AcceptedAt(env, trace, reg.value, trace[reg.value].conn, p,
                                After(env, trace).reg.transportIds[p]))
            && (latest.Some? ==> (reg == latest <==> Settled(env, trace, latest.value)))
  {
    HistoryInv(env, trace);
    LatestIsHistory(env, trace, p);
    assert PeerOk(After(env, trace).reg, History(env, trace), p);
    if Registered(env, trace, p).Some? {
      AcceptedInRun(env, trace, Registered(env, trace, p).value, p);
    }
  }

  /**
    Identity and recency: the key of every delivered message is that of an accepted
    setup message o of its peer; o is the peer's most recent accepted setup message l
    if and only if l is settled.
  */
  lemma IdentityIsLatestIff(env: Env, trace: seq<Step>, i: nat)
    requires DeliveredAt(env, trace, i)
    ensures var t, p := trace[..i], trace[i].peer;
            exists k, o: nat, l: nat ::
              && k in env.allowlist && SpeaksFor(env, trace[i].msg, k)
              && LatestAccepted(env, t, p) == Some(l) && o <= l < |t| && t[o].Arrive?
              && AcceptedAt(env, t, o, t[o].conn, p, k)
              && (o == l <==> Settled(env, t, l))
  {
    var t, m := trace[..i], trace[i];
    var k := ClaimedKey(env, After(env, t).reg, m.peer, m.msg, m.first, m.second);
    RegisteredIsLatestIff(env, t, m.peer);
    var o, l := Registered(env, t, m.peer).value, LatestAccepted(env, t, m.peer).value;
    assert AcceptedAt(env, t, o, t[o].conn, m.peer, k);
  }

  // --- a discipline under which it is always the latest ---

  predicate NoKeys(conn: Conn) {
    && (forall x :: 0 <= x < |conn.handler.pending| ==> !conn.handler.pending[x].AppKeyReceived?)
    && (forall x :: 0 <= x < |conn.inFlight| ==> !conn.inFlight[x].AppKeyReceived?)
  }

  /** No connection of p carries a key. */
  predicate Quiet(n: Node, p: PeerId) {
    forall c :: c in n.conns && n.conns[c].peer == p ==> NoKeys(n.conns[c])
  }

  /** The step accepts a setup message of p or closes a connection of p. */
  predicate Disturbs(env: Env, n: Node, step: Step, p: PeerId) {
    || Accepts(BirthOf(env, n, step), p)
    || (step.Close? && step.conn in n.conns && n.conns[step.conn].peer == p)
  }

  /** Setup messages of p are accepted, and connections of p closed, only while p is quiet. */
  predicate Orderly(env: Env, trace: seq<Step>, p: PeerId) {
    trace == [] ||
    var front := trace[..|trace| - 1];
    var n := After(env, front);
    Orderly(env, front, p) && (Disturbs(env, n, trace[|trace| - 1], p) ==> Quiet(n, p))
  }

  /** The latest message is the only one under way, and is neither lost nor overtaken. */
  ghost predicate OnlyLatest(h: Hist, p: PeerId) {
    && (forall i: nat :: i < |h.births| && Accepts(h.births[i], p) && Carried(h, i) ==>
          p in h.latest && h.latest[p] == i)
    && (p in h.latest ==> h.latest[p] !in h.lost && h.latest[p] !in h.overtaken)
  }

  lemma QuietCarriesNone(n: Node, h: Hist, p: PeerId, i: nat)
    requires Inv(n, h) && Quiet(n, p) && i < |h.births| && Accepts(h.births[i], p)
    ensures !Carried(h, i)
  {
    if Carried(h, i) {
      var c := h.births[i].value.conn;
      assert ConnOk(h, c, n.conns[c]);
      StampBorn(h, c, n.conns[c], i);
    }
  }

  /** No step puts an old message back on its way. */
  lemma CarriedBefore(env: Env, n: Node, h: Hist, step: Step, i: nat)
    requires i < |h.births| && Carried(NextHist(env, n, h, step), i)
    ensures Carried(h, i)
  {
    var c, h' := h.births[i].value.conn, NextHist(env, n, h, step);
    assert h'.births[i] == h.births[i];
    if step.PollHandler? && step.conn == c && c in h.stamps && h.stamps[c].pending != [] {
      assert h.stamps[c].pending[|h.stamps[c].pending| - 1] in h.stamps[c].pending;
    }
  }

  lemma OnlyLatestCarried(env: Env, n: Node, h: Hist, step: Step, p: PeerId, i: nat)
    requires Inv(n, h) && OnlyLatest(h, p) && (Disturbs(env, n, step, p) ==> Quiet(n, p))
    requires var h' := NextHist(env, n, h, step); i < |h'.births| && Accepts(h'.births[i], p) && Carried(h', i)
    ensures var h' := NextHist(env, n, h, step); p in h'.latest && h'.latest[p] == i
  {
    if i < |h.births| {
      assert h.births[i] == NextHist(env, n, h, step).births[i];
      CarriedBefore(env, n, h, step, i);
      if Disturbs(env, n, step, p) {
        QuietCarriesNone(n, h, p, i);
      }
    }
  }

  lemma LatestNotLost(env: Env, n: Node, h: Hist, step: Step, p: PeerId)
    requires Inv(n, h) && OnlyLatest(h, p) && p in h.latest && (Disturbs(env, n, step, p) ==> Quiet(n, p))
    ensures h.latest[p] !in NextLost(h, step)
  {
    assert PeerOk(n.reg, h, p);
    var l := h.latest[p];
    if step.Close? && step.conn in n.conns && In(h.stamps[step.conn], l) {
      assert ConnOk(h, step.conn, n.conns[step.conn]);
      StampBorn(h, step.conn, n.conns[step.conn], l);
      QuietCarriesNone(n, h, p, l);
    }
  }

  lemma LatestNotOvertaken(n: Node, h: Hist, step: Step, p: PeerId)
    requires Inv(n, h) && OnlyLatest(h, p) && p in h.latest
    ensures h.latest[p] !in NextOvertaken(h, RegistryOp(n, step), Reaching(h, step))
  {
    assert PeerOk(n.reg, h, p);
    if step.ReachBehaviour? && step.conn in n.conns && n.conns[step.conn].inFlight != [] {
      var c := step.conn;
      var o := h.stamps[c].inFlight[0];
      assert ConnOk(h, c, n.conns[c]) && PeerOk(n.reg, h, n.conns[c].peer);
      assert Born(h.births, o, c, n.conns[c].peer, n.conns[c].inFlight[0]);
      assert Carried(h, o);
    }
  }

  lemma OnlyLatestSafe(env: Env, n: Node, h: Hist, step: Step, p: PeerId)
    requires Inv(n, h) && OnlyLatest(h, p) && (Disturbs(env, n, step, p) ==> Quiet(n, p))
    ensures var h' := NextHist(env, n, h, step);
            p in h'.latest ==> h'.latest[p] !in h'.lost && h'.latest[p] !in h'.overtaken
  {
    if p in h.latest {
      LatestNotLost(env, n, h, step, p);
      LatestNotOvertaken(n, h, step, p);
    }
  }

  lemma {:induction false} OrderlyRun(env: Env, trace: seq<Step>, p: PeerId)
    requires Orderly(env, trace, p)
    ensures OnlyLatest(History(env, trace), p)
  {
    if trace != [] {
      var front, last := trace[..|trace| - 1], trace[|trace| - 1];
      var n, h, h' := After(env, front), History(env, front), History(env, trace);
      OrderlyRun(env, front, p);
      HistoryInv(env, front);
      OnlyLatestSafe(env, n, h, last, p);
      forall i: nat | i < |h'.births| && Accepts(h'.births[i], p) && Carried(h', i)
        ensures p in h'.latest && h'.latest[p] == i
      {
        OnlyLatestCarried(env, n, h, last, p, i);
      }
    }
  }

  /**
    In an orderly run, whenever p is quiet the registry holds for p exactly the key of
    p's most recent accepted setup message, and nothing when there is none.
  */
  lemma OrderlyRegistersLatest(env: Env, trace: seq<Step>, p: PeerId)
    requires Orderly(env, trace, p) && Quiet(After(env, trace), p)
    ensures var latest, t := LatestAccepted(env, trace, p), After(env, trace).reg.transportIds;
            match latest
            case None => p !in t
            case Some(l) =>
              l < |trace| && trace[l].Arrive? && p in t && AcceptedAt(env, trace, l, trace[l].conn, p, t[p])
  {
    OrderlyRun(env, trace, p);
    HistoryInv(env, trace);
    LatestIsHistory(env, trace, p);
    RegisteredIsLatestIff(env, trace, p);
    if l :| LatestAccepted(env, trace, p) == Some(l) {
      assert PeerOk(After(env, trace).reg, History(env, trace), p);
      QuietCarriesNone(After(env, trace), History(env, trace), p, l);
    }
  }

  /**
    Identity in orderly runs: a message delivered from p while p is quiet is signed by
    the key of p's most recent accepted setup message.
  */
  lemma OrderlyIdentity(env: Env, trace: seq<Step>, i: nat)
    requires DeliveredAt(env, trace, i)
    requires Orderly(env, trace[..i], trace[i].peer) && Quiet(After(env, trace[..i]), trace[i].peer)
    ensures var t, p := trace[..i], trace[i].peer;
            exists k, l: nat ::
              && k in env.allowlist && SpeaksFor(env, trace[i].msg, k)
              && LatestAccepted(env, t, p) == Some(l) && l < |t| && t[l].Arrive?
              && AcceptedAt(env, t, l, t[l].conn, p, k)
  {
    var t, m := trace[..i], trace[i];
    var k := ClaimedKey(env, After(env, t).reg, m.peer, m.msg, m.first, m.second);
    OrderlyRegistersLatest(env, t, m.peer);
    var l := LatestAccepted(env, t, m.peer).value;
    assert AcceptedAt(env, t, l, t[l].conn, m.peer, k);
  }

  // --- the three ways it is not the latest ---

  /** The registry speaks for `held` while the most recent accepted message carries `newest`. */
  ghost predicate Outdated(env: Env, trace: seq<Step>, p: PeerId, held: PublicKey, newest: PublicKey) {
    var latest := LatestAccepted(env, trace, p);
    && Quiet(After(env, trace), p)
    && Lookup(After(env, trace).reg.transportIds, p) == Some(held)
    && latest.Some? && latest.value < |trace| && trace[latest.value].Arrive?
    && AcceptedAt(env, trace, latest.value, trace[latest.value].conn, p, newest)
  }

  /** Connections and registered keys of peers after a run. */
  ghost predicate Shot(env: Env, trace: seq<Step>, conns: map<ConnectionId, Conn>, ids: map<PeerId, PublicKey>) {
    After(env, trace).conns == conns && After(env, trace).reg.transportIds == ids
  }

  function Accept(c: ConnectionId, signed: Signed<SetupMessage>, now: Clock): Step {
    Arrive(c, FullyNegotiatedInbound(signed), now)
  }

  function Fresh(env: Env, p: PeerId): Conn {
    Conn(p, NewHandler(env.appPublicKey, env.Ep(p)), [])
  }

  /** A connection of p on which setup has ended, with the given events pending and queued. */
  function Holding(env: Env, p: PeerId, pending: seq<HandlerEvent>, queued: seq<HandlerEvent>): Conn {
    Conn(p, HandlerState(NewHandler(env.appPublicKey, env.Ep(p)).outbound, pending, false), queued)
  }

  lemma OpenShot(env: Env, trace: seq<Step>, conns: map<ConnectionId, Conn>, ids: map<PeerId, PublicKey>,
                 c: ConnectionId, p: PeerId)
    requires Shot(env, trace, conns, ids) && c !in conns
    ensures Shot(env, trace + [Open(c, p)], conns[c := Fresh(env, p)], ids)
  {
    AfterSnoc(env, trace, Open(c, p));
  }

  lemma AcceptShot(env: Env, trace: seq<Step>, conns: map<ConnectionId, Conn>, ids: map<PeerId, PublicKey>,
                   c: ConnectionId, signed: Signed<SetupMessage>, now: Clock, k: PublicKey)
    requires Shot(env, trace, conns, ids) && c in conns
    requires Judge(env.Ep(conns[c].peer), env.scheme, signed, now) == AppKeyReceived(k)
    ensures var h := conns[c].handler;
            Shot(env, trace + [Accept(c, signed, now)],
                 conns[c := conns[c].(handler := HandlerState(h.outbound, h.pending + [AppKeyReceived(k)], false))], ids)
    ensures LatestAccepted(env, trace + [Accept(c, signed, now)], conns[c].peer) == Some(|trace|)
    ensures AcceptedAt(env, trace + [Accept(c, signed, now)], |trace|, c, conns[c].peer, k)
  {
    AcceptStep(env, trace, c, signed, now, k);
    assert (trace + [Accept(c, signed, now)])[..|trace|] == trace;
  }

  lemma PollShot(env: Env, trace: seq<Step>, conns: map<ConnectionId, Conn>, ids: map<PeerId, PublicKey>, c: ConnectionId)
    requires Shot(env, trace, conns, ids) && c in conns && conns[c].handler.pending != []
    ensures var k := conns[c];
            var m := |k.handler.pending| - 1;
            Shot(env, trace + [PollHandler(c)],
                 conns[c := Conn(k.peer, k.handler.(pending := k.handler.pending[..m]),
                                 k.inFlight + [k.handler.pending[m]])], ids)
  {
    PollStep(env, trace, c);
  }

  lemma RegisterShot(env: Env, trace: seq<Step>, conns: map<ConnectionId, Conn>, ids: map<PeerId, PublicKey>,
                     c: ConnectionId, k: PublicKey)
    requires Shot(env, trace, conns, ids)
    requires c in conns && conns[c].inFlight != [] && conns[c].inFlight[0] == AppKeyReceived(k)
    ensures Shot(env, trace + [ReachBehaviour(c)],
                 conns[c := conns[c].(inFlight := conns[c].inFlight[1..])], ids[conns[c].peer := k])
  {
    RegisterStep(env, trace, c, k);
  }

  /** Closing d while its peer has another connection c. */
  lemma CloseShot(env: Env, trace: seq<Step>, conns: map<ConnectionId, Conn>, ids: map<PeerId, PublicKey>,
                  c: ConnectionId, d: ConnectionId)
    requires Shot(env, trace, conns, ids)
    requires c in conns && d in conns && c != d && conns[c].peer == conns[d].peer
    ensures Shot(env, trace + [Close(d)], conns - {d}, ids)
    ensures LatestAccepted(env, trace + [Close(d)], conns[d].peer) == LatestAccepted(env, trace, conns[d].peer)
  {
    AfterSnoc(env, trace, Close(d));
    var n := After(env, trace);
    var others := set e | e in n.conns && e != d && n.conns[e].peer == n.conns[d].peer;
    assert c in others && Remaining(n, d) == |others|;
    assert (trace + [Close(d)])[..|trace|] == trace;
  }

  predicate Passing(more: seq<Step>) {
    forall i :: 0 <= i < |more| ==> more[i].PollHandler? || more[i].ReachBehaviour?
  }

  /** Polls and deliveries accept nothing. */
  lemma {:induction false} LatestStays(env: Env, trace: seq<Step>, more: seq<Step>, p: PeerId)
    requires Passing(more)
    ensures LatestAccepted(env, trace + more, p) == LatestAccepted(env, trace, p)
  {
    if more == [] {
      assert trace + more == trace;
    } else {
      var m := |more| - 1;
      LatestStays(env, trace, more[..m], p);
      assert (trace + more)[..|trace + more| - 1] == trace + more[..m];
    }
  }

  lemma OutdatedAfter(env: Env, trace: seq<Step>, more: seq<Step>, conns: map<ConnectionId, Conn>,
                      ids: map<PeerId, PublicKey>, l: nat, p: PeerId, c: ConnectionId, newest: PublicKey)
    requires LatestAccepted(env, trace + more, p) == Some(l) && AcceptedAt(env, trace, l, c, p, newest)
    requires Shot(env, trace + more, conns, ids) && p in ids
    requires forall d :: d in conns ==> NoKeys(conns[d])
    ensures Outdated(env, trace + more, p, ids[p], newest)
  {
    assert (trace + more)[..l] == trace[..l];
  }

  lemma OutdatedByPassing(env: Env, trace: seq<Step>, more: seq<Step>, conns: map<ConnectionId, Conn>,
                          ids: map<PeerId, PublicKey>, l: nat, p: PeerId, c: ConnectionId, newest: PublicKey)
    requires LatestAccepted(env, trace, p) == Some(l) && AcceptedAt(env, trace, l, c, p, newest)
    requires Passing(more) && Shot(env, trace + more, conns, ids) && p in ids
    requires forall d :: d in conns ==> NoKeys(conns[d])
    ensures Outdated(env, trace + more, p, ids[p], newest)
  {
    LatestStays(env, trace, more, p);
    OutdatedAfter(env, trace, more, conns, ids, l, p, c, newest);
  }

  lemma PollOne(env: Env, t: seq<Step>, conns: map<ConnectionId, Conn>, ids: map<PeerId, PublicKey>,
                p: PeerId, c: ConnectionId, rest: seq<HandlerEvent>, e: HandlerEvent, queue: seq<HandlerEvent>)
    requires Shot(env, t, conns, ids) && c in conns && conns[c] == Holding(env, p, rest + [e], queue)
    ensures Shot(env, t + [PollHandler(c)], conns[c := Holding(env, p, rest, queue + [e])], ids)
  {
    assert (rest + [e])[..|rest|] == rest;
    PollShot(env, t, conns, ids, c);
  }

  lemma PollPoll(env: Env, t: seq<Step>, p: PeerId, c: ConnectionId, a: HandlerEvent, b: HandlerEvent)
    requires Shot(env, t, map[c := Holding(env, p, [a, b], [])], map[])
    ensures Shot(env, t + [PollHandler(c)] + [PollHandler(c)], map[c := Holding(env, p, [], [b, a])], map[])
  {
    assert [a, b] == [a] + [b] && [a] == [] + [a] && [b] == [] + [b] && [b, a] == [b] + [a];
    PollOne(env, t, map[c := Holding(env, p, [a, b], [])], map[], p, c, [a], b, []);
    PollOne(env, t + [PollHandler(c)], map[c := Holding(env, p, [a], [b])], map[], p, c, [], a, [b]);
  }

  lemma ReachReach(env: Env, t: seq<Step>, p: PeerId, c: ConnectionId, ka: PublicKey, kb: PublicKey)
    requires Shot(env, t, map[c := Holding(env, p, [], [AppKeyReceived(kb), AppKeyReceived(ka)])], map[])
    ensures Shot(env, t + [ReachBehaviour(c)] + [ReachBehaviour(c)], map[c := Holding(env, p, [], [])], map[p := ka])
  {
    var both, one := [AppKeyReceived(kb), AppKeyReceived(ka)], [AppKeyReceived(ka)];
    assert both[1..] == one && one[1..] == [];
    RegisterShot(env, t, map[c := Holding(env, p, [], both)], map[], c, kb);
    RegisterShot(env, t + [ReachBehaviour(c)], map[c := Holding(env, p, [], one)], map[p := kb], c, ka);
    assert map[p := kb][p := ka] == map[p := ka];
  }

  lemma TwoOnOne(env: Env, p: PeerId, c: ConnectionId, a: Signed<SetupMessage>, b: Signed<SetupMessage>,
                 now: Clock, ka: PublicKey, kb: PublicKey)
    requires Judge(env.Ep(p), env.scheme, a, now) == AppKeyReceived(ka)
    requires Judge(env.Ep(p), env.scheme, b, now) == AppKeyReceived(kb)
    ensures var t := [Open(c, p), Accept(c, a, now), Accept(c, b, now)];
            && Shot(env, t, map[c := Holding(env, p, [AppKeyReceived(ka), AppKeyReceived(kb)], [])], map[])
            && LatestAccepted(env, t, p) == Some(2) && AcceptedAt(env, t, 2, c, p, kb)
  {
    var t1, t2 := [Open(c, p)], [Open(c, p), Accept(c, a, now)];
    assert t1 == [] + [Open(c, p)] && t2 == t1 + [Accept(c, a, now)];
    assert [Open(c, p), Accept(c, a, now), Accept(c, b, now)] == t2 + [Accept(c, b, now)];
    OpenShot(env, [], map[], map[], c, p);
    AcceptShot(env, t1, map[c := Fresh(env, p)], map[], c, a, now, ka);
    var one := map[c := Holding(env, p, [AppKeyReceived(ka)], [])];
    assert [] + [AppKeyReceived(ka)] == [AppKeyReceived(ka)];
    assert Shot(env, t2, one, map[]);
    AcceptShot(env, t2, one, map[], c, b, now, kb);
    assert [AppKeyReceived(ka)] + [AppKeyReceived(kb)] == [AppKeyReceived(ka), AppKeyReceived(kb)];
  }

  /** Two setup messages accepted on one connection before it is polled: the stack reverses them. */
  lemma ReversedByStack(env: Env, p: PeerId, c: ConnectionId, a: Signed<SetupMessage>, b: Signed<SetupMessage>,
                        now: Clock, ka: PublicKey, kb: PublicKey)
    requires Judge(env.Ep(p), env.scheme, a, now) == AppKeyReceived(ka)
    requires Judge(env.Ep(p), env.scheme, b, now) == AppKeyReceived(kb)
    ensures Outdated(env, [Open(c, p), Accept(c, a, now), Accept(c, b, now)]
                          + [PollHandler(c), PollHandler(c), ReachBehaviour(c), ReachBehaviour(c)], p, ka, kb)
  {
    var t := [Open(c, p), Accept(c, a, now), Accept(c, b, now)];
    var more := [PollHandler(c), PollHandler(c), ReachBehaviour(c), ReachBehaviour(c)];
    TwoOnOne(env, p, c, a, b, now, ka, kb);
    PollPoll(env, t, p, c, AppKeyReceived(ka), AppKeyReceived(kb));
    ReachReach(env, t + [PollHandler(c)] + [PollHandler(c)], p, c, ka, kb);
    assert t + more == t + [PollHandler(c)] + [PollHandler(c)] + [ReachBehaviour(c)] + [ReachBehaviour(c)];
    OutdatedByPassing(env, t, more, map[c := Holding(env, p, [], [])], map[p := ka], 2, p, c, kb);
  }

  /** Two connections of p, and a message accepted on the first. */
  lemma TwoOpen(env: Env, p: PeerId, c: ConnectionId, d: ConnectionId, a: Signed<SetupMessage>, now: Clock, ka: PublicKey)
    requires c != d && Judge(env.Ep(p), env.scheme, a, now) == AppKeyReceived(ka)
    ensures Shot(env, [Open(c, p), Open(d, p), Accept(c, a, now)],
                 map[c := Holding(env, p, [AppKeyReceived(ka)], []), d := Fresh(env, p)], map[])
  {
    var t1, t2 := [Open(c, p)], [Open(c, p), Open(d, p)];
    assert t1 == [] + [Open(c, p)] && t2 == t1 + [Open(d, p)];
    assert [Open(c, p), Open(d, p), Accept(c, a, now)] == t2 + [Accept(c, a, now)];
    OpenShot(env, [], map[], map[], c, p);
    OpenShot(env, t1, map[c := Fresh(env, p)], map[], d, p);
    AcceptShot(env, t2, map[c := Fresh(env, p), d := Fresh(env, p)], map[], c, a, now, ka);
    assert [] + [AppKeyReceived(ka)] == [AppKeyReceived(ka)];
  }

  lemma FirstRegistered(env: Env, t: seq<Step>, p: PeerId, c: ConnectionId, d: ConnectionId, ka: PublicKey)
    requires c != d
    requires Shot(env, t, map[c := Holding(env, p, [AppKeyReceived(ka)], []), d := Fresh(env, p)], map[])
    ensures Shot(env, t + [PollHandler(c)] + [ReachBehaviour(c)],
                 map[c := Holding(env, p, [], []), d := Fresh(env, p)], map[p := ka])
  {
    var one := [AppKeyReceived(ka)];
    assert one[1..] == [] && one == [] + one;
    PollOne(env, t, map[c := Holding(env, p, one, []), d := Fresh(env, p)], map[], p, c, [], one[0], []);
    RegisterShot(env, t + [PollHandler(c)], map[c := Holding(env, p, [], one), d := Fresh(env, p)], map[], c, ka);
  }

  /** A newer message accepted on a second connection that closes before its key has left it. */
  lemma LostInClose(env: Env, p: PeerId, c: ConnectionId, d: ConnectionId, a: Signed<SetupMessage>, b: Signed<SetupMessage>,
                    now: Clock, ka: PublicKey, kb: PublicKey)
    requires c != d
    requires Judge(env.Ep(p), env.scheme, a, now) == AppKeyReceived(ka)
    requires Judge(env.Ep(p), env.scheme, b, now) == AppKeyReceived(kb)
    ensures Outdated(env, [Open(c, p), Open(d, p), Accept(c, a, now)] + [PollHandler(c)] + [ReachBehaviour(c)]
                          + [Accept(d, b, now)] + [Close(d)], p, ka, kb)
  {
    var t := [Open(c, p), Open(d, p), Accept(c, a, now)] + [PollHandler(c)] + [ReachBehaviour(c)];
    TwoOpen(env, p, c, d, a, now, ka);
    FirstRegistered(env, [Open(c, p), Open(d, p), Accept(c, a, now)], p, c, d, ka);
    SecondLost(env, t, p, c, d, b, now, ka, kb);
  }

  lemma SecondLost(env: Env, t: seq<Step>, p: PeerId, c: ConnectionId, d: ConnectionId, b: Signed<SetupMessage>,
                   now: Clock, ka: PublicKey, kb: PublicKey)
    requires c != d && Judge(env.Ep(p), env.scheme, b, now) == AppKeyReceived(kb)
    requires Shot(env, t, map[c := Holding(env, p, [], []), d := Fresh(env, p)], map[p := ka])
    ensures Outdated(env, t + [Accept(d, b, now)] + [Close(d)], p, ka, kb)
  {
    var both := map[c := Holding(env, p, [], []), d := Holding(env, p, [AppKeyReceived(kb)], [])];
    AcceptShot(env, t, map[c := Holding(env, p, [], []), d := Fresh(env, p)], map[p := ka], d, b, now, kb);
    assert [] + [AppKeyReceived(kb)] == [AppKeyReceived(kb)];
    assert Shot(env, t + [Accept(d, b, now)], both, map[p := ka]);
    CloseShot(env, t + [Accept(d, b, now)], both, map[p := ka], c, d);
    assert both - {d} == map[c := Holding(env, p, [], [])];
    OutdatedAfter(env, t + [Accept(d, b, now)], [Close(d)], map[c := Holding(env, p, [], [])], map[p := ka], |t|, p, d, kb);
  }

  lemma BothQueued(env: Env, t: seq<Step>, p: PeerId, c: ConnectionId, d: ConnectionId, a: HandlerEvent, b: HandlerEvent)
    requires c != d
    requires Shot(env, t, map[c := Holding(env, p, [a], []), d := Holding(env, p, [b], [])], map[])
    ensures Shot(env, t + [PollHandler(c)] + [PollHandler(d)],
                 map[c := Holding(env, p, [], [a]), d := Holding(env, p, [], [b])], map[])
  {
    var waiting := map[c := Holding(env, p, [a], []), d := Holding(env, p, [b], [])];
    assert [a] == [] + [a] && [b] == [] + [b];
    PollOne(env, t, waiting, map[], p, c, [], a, []);
    PollOne(env, t + [PollHandler(c)], waiting[c := Holding(env, p, [], [a])], map[], p, d, [], b, []);
  }

  lemma SecondThenFirst(env: Env, t: seq<Step>, p: PeerId, c: ConnectionId, d: ConnectionId, ka: PublicKey, kb: PublicKey)
    requires c != d
    requires Shot(env, t, map[c := Holding(env, p, [], [AppKeyReceived(ka)]), d := Holding(env, p, [], [AppKeyReceived(kb)])], map[])
    ensures Shot(env, t + [ReachBehaviour(d)] + [ReachBehaviour(c)],
                 map[c := Holding(env, p, [], []), d := Holding(env, p, [], [])], map[p := ka])
  {
    var qa, qb := [AppKeyReceived(ka)], [AppKeyReceived(kb)];
    assert qa[1..] == [] && qb[1..] == [];
    RegisterShot(env, t, map[c := Holding(env, p, [], qa), d := Holding(env, p, [], qb)], map[], d, kb);
    RegisterShot(env, t + [ReachBehaviour(d)], map[c := Holding(env, p, [], qa), d := Holding(env, p, [], [])], map[p := kb], c, ka);
    assert map[p := kb][p := ka] == map[p := ka];
  }

  /** Two messages accepted on two connections, whose keys reach the behaviour in the other order. */
  lemma OvertakenAcross(env: Env, p: PeerId, c: ConnectionId, d: ConnectionId, a: Signed<SetupMessage>, b: Signed<SetupMessage>,
                        now: Clock, ka: PublicKey, kb: PublicKey)
    requires c != d
    requires Judge(env.Ep(p), env.scheme, a, now) == AppKeyReceived(ka)
    requires Judge(env.Ep(p), env.scheme, b, now) == AppKeyReceived(kb)
    ensures Outdated(env, [Open(c, p), Open(d, p), Accept(c, a, now)] + [Accept(d, b, now)]
                          + [PollHandler(c), PollHandler(d), ReachBehaviour(d), ReachBehaviour(c)], p, ka, kb)
  {
    var t3 := [Open(c, p), Open(d, p), Accept(c, a, now)];
    TwoOpen(env, p, c, d, a, now, ka);
    AcceptShot(env, t3, map[c := Holding(env, p, [AppKeyReceived(ka)], []), d := Fresh(env, p)], map[], d, b, now, kb);
    assert [] + [AppKeyReceived(kb)] == [AppKeyReceived(kb)];
    assert Shot(env, t3 + [Accept(d, b, now)],
                map[c := Holding(env, p, [AppKeyReceived(ka)], []), d := Holding(env, p, [AppKeyReceived(kb)], [])], map[]);
    Interleaved(env, t3 + [Accept(d, b, now)], p, c, d, ka, kb, 3);
  }

  lemma Interleaved(env: Env, t: seq<Step>, p: PeerId, c: ConnectionId, d: ConnectionId, ka: PublicKey, kb: PublicKey, l: nat)
    requires c != d
    requires Shot(env, t, map[c := Holding(env, p, [AppKeyReceived(ka)], []), d := Holding(env, p, [AppKeyReceived(kb)], [])], map[])
    requires LatestAccepted(env, t, p) == Some(l) && AcceptedAt(env, t, l, d, p, kb)
    ensures Outdated(env, t + [PollHandler(c), PollHandler(d), ReachBehaviour(d), ReachBehaviour(c)], p, ka, kb)
  {
    var more := [PollHandler(c), PollHandler(d), ReachBehaviour(d), ReachBehaviour(c)];
    OtherWayRound(env, t, p, c, d, ka, kb);
    OutdatedByPassing(env, t, more, map[c := Holding(env, p, [], []), d := Holding(env, p, [], [])], map[p := ka], l, p, d, kb);
  }

  lemma OtherWayRound(env: Env, t: seq<Step>, p: PeerId, c: ConnectionId, d: ConnectionId, ka: PublicKey, kb: PublicKey)
    requires c != d
    requires Shot(env, t, map[c := Holding(env, p, [AppKeyReceived(ka)], []), d := Holding(env, p, [AppKeyReceived(kb)], [])], map[])
    ensures Shot(env, t + [PollHandler(c), PollHandler(d), ReachBehaviour(d), ReachBehaviour(c)],
                 map[c := Holding(env, p, [], []), d := Holding(env, p, [], [])], map[p := ka])
  {
    BothQueued(env, t, p, c, d, AppKeyReceived(ka), AppKeyReceived(kb));
    SecondThenFirst(env, t + [PollHandler(c)] + [PollHandler(d)], p, c, d, ka, kb);
    assert t + [PollHandler(c), PollHandler(d), ReachBehaviour(d), ReachBehaviour(c)]
        == t + [PollHandler(c)] + [PollHandler(d)] + [ReachBehaviour(d)] + [ReachBehaviour(c)];
  }
}
