/**
  A BYOS node as one transition system: connections with their handlers, the key
  registry, and the gate that decides which requests and responses reach the
  application. Swarm, clock and peers are the environment: any step may come at
  any time, and a step about a connection that does not exist changes nothing.
*/
module Byos {
  import opened Basics
  import opened Freshness
  import opened SignedMessages
  import opened Setup
  import opened Registry
  import Codec
  import EventStack

  datatype ProtocolId = SetupProtocol | GossipProtocol | RequestResponseProtocol

  datatype ReqRespVersion = ReqRespV1 | ReqRespV2

  datatype RequestMessage = RequestMessage(
    version: ReqRespVersion, protocol: ProtocolId, message: seq<Byte>,
    publicKey: PublicKey, date: U64, destination: PeerId)

  datatype ResponseMessage = ResponseMessage(
    version: ReqRespVersion, protocol: ProtocolId, message: seq<Byte>,
    appPublicKey: PublicKey, date: U64)

  /** What never changes while the node runs. */
  datatype Env = Env(
    local: PeerId,
    appPublicKey: PublicKey,
    allowlist: set<PublicKey>,
    maxAge: Duration,
    maxSkew: Duration,
    scheme: Scheme,
    serializeRequest: RequestMessage -> Option<seq<Byte>>,
    serializeResponse: ResponseMessage -> Option<seq<Byte>>)
  {
    function Ep(remote: PeerId): Endpoint {
      Endpoint(local, remote, maxAge, maxSkew)
    }

    function RequestKind(): Kind<RequestMessage> {
      Kind(serializeRequest, (m: RequestMessage) => m.publicKey)
    }

    function ResponseKind(): Kind<ResponseMessage> {
      Kind(serializeResponse, (m: ResponseMessage) => m.appPublicKey)
    }
  }

  // --- the request/response gate ---

  /** An inbound message after deserialization; None when that failed. */
  datatype Inbound =
    | Request(request: Option<Signed<RequestMessage>>)
    | Response(response: Option<Signed<ResponseMessage>>)

  datatype Verdict = Deliver(payload: seq<Byte>) | Drop(reason: DropReason)

  datatype DropReason =
    | Undecodable | BadSignature | WrongDestination | NotAllowed
    | KeyMismatch | NoStoredKey | FromFuture | WrongProtocol | WrongVersion | TooOld

  /** Why the claimed key may not speak for this peer, if it may not. */
  function KeyProblem(env: Env, r: Reg, peer: PeerId, key: PublicKey): Option<DropReason> {
    if key !in env.allowlist then Some(NotAllowed)
    else
      match Lookup(r.transportIds, peer)
      case None => Some(NoStoredKey)
      case Some(expected) => if expected != key then Some(KeyMismatch) else None
  }

  function JudgeRequest(env: Env, r: Reg, peer: PeerId, signed: Signed<RequestMessage>, first: Clock, second: Clock): Verdict {
    var m := signed.message;
    if !Authentic(env.RequestKind(), env.scheme.verifier, signed) then Drop(BadSignature)
    else if m.destination != env.local then Drop(WrongDestination)
    else if KeyProblem(env, r, peer, m.publicKey).Some? then Drop(KeyProblem(env, r, peer, m.publicKey).value)
    else if !NotFromFuture(m.date, first, env.maxSkew) then Drop(FromFuture)
    else if m.protocol != RequestResponseProtocol then Drop(WrongProtocol)
    else if m.version != ReqRespV2 then Drop(WrongVersion)
    else if !NotStale(m.date, second, env.maxAge) then Drop(TooOld)
    else Deliver(m.message)
  }

  function JudgeResponse(env: Env, r: Reg, peer: PeerId, signed: Signed<ResponseMessage>, first: Clock, second: Clock): Verdict {
    var m := signed.message;
    if !Authentic(env.ResponseKind(), env.scheme.verifier, signed) then Drop(BadSignature)
    else if KeyProblem(env, r, peer, m.appPublicKey).Some? then Drop(KeyProblem(env, r, peer, m.appPublicKey).value)
    else if !NotFromFuture(m.date, first, env.maxSkew) then Drop(FromFuture)
    else if m.protocol != RequestResponseProtocol then Drop(WrongProtocol)
    else if m.version != ReqRespV2 then Drop(WrongVersion)
    else if !NotStale(m.date, second, env.maxAge) then Drop(TooOld)
    else Deliver(m.message)
  }

  function JudgeInbound(env: Env, r: Reg, peer: PeerId, msg: Inbound, first: Clock, second: Clock): Verdict {
    match msg
    case Request(Some(signed)) => JudgeRequest(env, r, peer, signed, first, second)
    case Response(Some(signed)) => JudgeResponse(env, r, peer, signed, first, second)
    case _ => Drop(Undecodable)
  }

  /** The message is signed by the key it claims, and that key is k. */
  ghost predicate SpeaksFor(env: Env, msg: Inbound, k: PublicKey) {
    match msg
    case Request(Some(signed)) =>
      signed.message.publicKey == k
      && Covers(env.scheme.verifier, k, env.serializeRequest(signed.message), signed.signature)
    case Response(Some(signed)) =>
      signed.message.appPublicKey == k
      && Covers(env.scheme.verifier, k, env.serializeResponse(signed.message), signed.signature)
    case _ => false
  }

  // --- the transition system ---

  /** One connection: its peer, its handler, and handler events on their way to the behaviour. */
  datatype Conn = Conn(peer: PeerId, handler: HandlerState, inFlight: seq<HandlerEvent>)

  datatype Node = Node(conns: map<ConnectionId, Conn>, reg: Reg, events: seq<BehaviourEvent>)

  const START: Node := Node(map[], EMPTY, [])

  datatype Step =
    | Open(conn: ConnectionId, peer: PeerId)
    | Arrive(conn: ConnectionId, event: ConnectionEvent, now: Clock)
    | PollHandler(conn: ConnectionId)
    | ReachBehaviour(conn: ConnectionId)
    | Close(conn: ConnectionId)
    | PollBehaviour
    | Message(peer: PeerId, msg: Inbound, first: Clock, second: Clock)

  /** `remaining_established`: the peer's other connections. */
  function Remaining(n: Node, c: ConnectionId): nat
    requires c in n.conns
  {
    |set d | d in n.conns && d != c && n.conns[d].peer == n.conns[c].peer|
  }

  /** What a step does to the registry, if anything. */
  function RegistryOp(n: Node, step: Step): Option<RegOp> {
    match step
    case ReachBehaviour(c) =>
      if c in n.conns && n.conns[c].inFlight != [] && n.conns[c].inFlight[0].AppKeyReceived?
      then Some(KeyReceived(n.conns[c].peer, n.conns[c].inFlight[0].appPublicKey))
      else None
    case Close(c) =>
      if c in n.conns then Some(ConnectionClosed(n.conns[c].peer, Remaining(n, c))) else None
    case _ => None
  }

  function NextConns(env: Env, n: Node, step: Step): map<ConnectionId, Conn> {
    match step
    case Open(c, p) =>
      if c in n.conns then n.conns
      else n.conns[c := Conn(p, NewHandler(env.appPublicKey, env.Ep(p)), [])]
    case Arrive(c, e, now) =>
      if c !in n.conns then n.conns
      else
        var k := n.conns[c];
        n.conns[c := k.(handler := AfterEvent(env.Ep(k.peer), env.scheme, k.handler, e, now))]
    case PollHandler(c) =>
      if c !in n.conns then n.conns
      else
        var k := n.conns[c];
        var out := PollOutcome(k.handler);
        n.conns[c := Conn(k.peer, AfterPoll(k.handler), k.inFlight + if out.Notify? then [out.event] else [])]
    case ReachBehaviour(c) =>
      if c !in n.conns || n.conns[c].inFlight == [] then n.conns
      else n.conns[c := n.conns[c].(inFlight := n.conns[c].inFlight[1..])]
    case Close(c) => n.conns - {c}
    case _ => n.conns
  }

  /** The behaviour's event stack under a step. */
  function StackOp(n: Node, step: Step): seq<EventStack.Op<BehaviourEvent>> {
    match step
    case ReachBehaviour(c) =>
      if c in n.conns && n.conns[c].inFlight != []
      then [EventStack.Push(BehaviourEvent(n.conns[c].peer, c, n.conns[c].inFlight[0]))]
      else []
    case PollBehaviour => [EventStack.Pop]
    case _ => []
  }

  function Next(env: Env, n: Node, step: Step): Node {
    var op := RegistryOp(n, step);
    var stack := StackOp(n, step);
    Node(NextConns(env, n, step),
         if op.Some? then Apply(n.reg, op.value) else n.reg,
         if stack == [] then n.events else EventStack.Step(n.events, stack[0]))
  }

  function After(env: Env, trace: seq<Step>): Node {
    if trace == [] then START else Next(env, After(env, trace[..|trace| - 1]), trace[|trace| - 1])
  }

  // --- provenance of keys ---

  /** Step s is an accepted setup message carrying k on connection c with peer p. */
  ghost predicate AcceptedAt(env: Env, trace: seq<Step>, s: nat, c: ConnectionId, p: PeerId, k: PublicKey) {
    && s < |trace|
    && trace[s].Arrive? && trace[s].conn == c && trace[s].event.FullyNegotiatedInbound?
    && var n := After(env, trace[..s]);
       && c in n.conns && n.conns[c].peer == p
       && Judge(env.Ep(p), env.scheme, trace[s].event.signed, trace[s].now) == AppKeyReceived(k)
  }

  ghost predicate Carries(conn: Conn, k: PublicKey) {
    AppKeyReceived(k) in conn.handler.pending || AppKeyReceived(k) in conn.inFlight
  }

  /** A key that a step puts on a connection was already there or was just accepted. */
  lemma CarriedBefore(env: Env, n: Node, step: Step, c: ConnectionId, k: PublicKey)
    requires var n' := Next(env, n, step); c in n'.conns && Carries(n'.conns[c], k)
    ensures c in n.conns && n.conns[c].peer == Next(env, n, step).conns[c].peer
    ensures || Carries(n.conns[c], k)
            || (&& step.Arrive? && step.conn == c && step.event.FullyNegotiatedInbound?
                && Judge(env.Ep(n.conns[c].peer), env.scheme, step.event.signed, step.now) == AppKeyReceived(k))
  {
  }

  /** Every key a live connection carries comes from a message accepted on that connection. */
  lemma {:induction false} Provenance(env: Env, trace: seq<Step>, c: ConnectionId, k: PublicKey)
    requires c in After(env, trace).conns && Carries(After(env, trace).conns[c], k)
    ensures exists s: nat :: AcceptedAt(env, trace, s, c, After(env, trace).conns[c].peer, k)
  {
    var front, last := trace[..|trace| - 1], trace[|trace| - 1];
    var n := After(env, front);
    CarriedBefore(env, n, last, c, k);
    if Carries(n.conns[c], k) {
      Provenance(env, front, c, k);
      var s: nat :| AcceptedAt(env, front, s, c, n.conns[c].peer, k);
      assert trace[..s] == front[..s];
      assert AcceptedAt(env, trace, s, c, n.conns[c].peer, k);
    } else {
      assert AcceptedAt(env, trace, |front|, c, n.conns[c].peer, k);
    }
  }

  /** The registry operation made by each step of a run. */
  function Ops(env: Env, trace: seq<Step>): (ops: seq<Option<RegOp>>)
    ensures |ops| == |trace|
  {
    if trace == [] then []
    else
      var front := trace[..|trace| - 1];
      Ops(env, front) + [RegistryOp(After(env, front), trace[|trace| - 1])]
  }

  lemma {:induction false} OpsAt(env: Env, trace: seq<Step>, j: nat)
    requires j < |trace|
    ensures Ops(env, trace)[j] == RegistryOp(After(env, trace[..j]), trace[j])
  {
    var front := trace[..|trace| - 1];
    if j < |front| {
      OpsAt(env, front, j);
      assert front[..j] == trace[..j];
    }
  }

  /** The steps that did touch the registry, in order. */
  function Log(ops: seq<Option<RegOp>>): seq<RegOp> {
    if ops == [] then []
    else
      var last := ops[|ops| - 1];
      Log(ops[..|ops| - 1]) + if last.Some? then [last.value] else []
  }

  /** The registry of a node run is the replay of its log, so the registry's history theorems apply to it. */
  lemma {:induction false} NodeRegistryIsReplay(env: Env, trace: seq<Step>)
    ensures After(env, trace).reg == Replay(Log(Ops(env, trace)))
  {
    if trace != [] {
      var front := trace[..|trace| - 1];
      NodeRegistryIsReplay(env, front);
      var op := RegistryOp(After(env, front), trace[|trace| - 1]);
      LogSnoc(Ops(env, front), op);
    }
  }

  lemma LogSnoc(ops: seq<Option<RegOp>>, op: Option<RegOp>)
    ensures Replay(Log(ops + [op])) == if op.Some? then Apply(Replay(Log(ops)), op.value) else Replay(Log(ops))
  {
    assert (ops + [op])[..|ops|] == ops;
    if op.Some? {
      assert Log(ops + [op])[..|Log(ops)|] == Log(ops);
    } else {
      assert Log(ops) + [] == Log(ops);
    }
  }

  /** Operation r registers k for p and none since gives p another key or fully disconnects it. */
  ghost predicate StillRegistered(ops: seq<Option<RegOp>>, r: nat, p: PeerId, k: PublicKey) {
    && r < |ops|
    && ops[r] == Some(KeyReceived(p, k))
    && forall j: nat :: r < j < |ops| && ops[j].Some? ==> !Supersedes(ops[j].value, p)
  }

  lemma LookupBefore(r: Reg, op: Option<RegOp>, p: PeerId, k: PublicKey)
    requires Lookup((if op.Some? then Apply(r, op.value) else r).transportIds, p) == Some(k)
    ensures || op == Some(KeyReceived(p, k))
            || ((op.Some? ==> !Supersedes(op.value, p)) && Lookup(r.transportIds, p) == Some(k))
  {
  }

  /** A registered key was registered at some step that still stands. */
  lemma {:induction false} RegistryOrigin(env: Env, trace: seq<Step>, p: PeerId, k: PublicKey)
    requires Lookup(After(env, trace).reg.transportIds, p) == Some(k)
    ensures exists r: nat :: StillRegistered(Ops(env, trace), r, p, k)
  {
    var m := |trace| - 1;
    var n := After(env, trace[..m]);
    var op := RegistryOp(n, trace[m]);
    LookupBefore(n.reg, op, p, k);
    if op == Some(KeyReceived(p, k)) {
      assert StillRegistered(Ops(env, trace), m, p, k);
    } else {
      RegistryOrigin(env, trace[..m], p, k);
      var r: nat :| StillRegistered(Ops(env, trace[..m]), r, p, k);
      assert StillRegistered(Ops(env, trace), r, p, k);
    }
  }

  /** The setup message behind an identity: accepted at s, registered at r. */
  ghost predicate Bound(env: Env, trace: seq<Step>, s: nat, r: nat, p: PeerId, k: PublicKey) {
    && s < r
    && StillRegistered(Ops(env, trace), r, p, k)
    && trace[r].ReachBehaviour?
    && trace[s].Arrive? && trace[s].conn == trace[r].conn && trace[s].event.FullyNegotiatedInbound?
    && var signed := trace[s].event.signed;
       && SignedBy(env.scheme, signed, k)
       && signed.message.localTransportId == p
       && signed.message.remoteTransportId == env.local
       && InWindow(signed.message.date, SecsOrDefault(trace[s].now), env.maxAge, env.maxSkew)
  }

  /** The message of step i passes the gate and reaches the application. */
  ghost predicate DeliveredAt(env: Env, trace: seq<Step>, i: nat) {
    && i < |trace| && trace[i].Message?
    && JudgeInbound(env, After(env, trace[..i]).reg, trace[i].peer, trace[i].msg, trace[i].first, trace[i].second).Deliver?
  }

  lemma ClaimedKey(env: Env, r: Reg, p: PeerId, msg: Inbound, first: Clock, second: Clock) returns (k: PublicKey)
    requires JudgeInbound(env, r, p, msg, first, second).Deliver?
    ensures k in env.allowlist && SpeaksFor(env, msg, k) && Lookup(r.transportIds, p) == Some(k)
  {
    k := if msg.Request? then msg.request.value.message.publicKey else msg.response.value.message.appPublicKey;
  }

  lemma RegisteredIsBound(env: Env, trace: seq<Step>, p: PeerId, k: PublicKey) returns (s: nat, r: nat)
    requires Lookup(After(env, trace).reg.transportIds, p) == Some(k)
    ensures Bound(env, trace, s, r, p, k)
  {
    RegistryOrigin(env, trace, p, k);
    r :| StillRegistered(Ops(env, trace), r, p, k);
    OpsAt(env, trace, r);
    var before, c := trace[..r], trace[r].conn;
    Provenance(env, before, c, k);
    s :| AcceptedAt(env, before, s, c, p, k);
    AcceptedIff(env.Ep(p), env.scheme, trace[s].event.signed, trace[s].now, k);
  }

  /**
    Identity binding over whole runs. A message from p that reaches the application
    is signed by an allowlisted key k; k is the key of the last setup message
    registered for p, with no full disconnect of p since; that setup message was
    signed by k, named exactly p and this node, and was fresh when it arrived.
  */
  lemma IdentityBinding(env: Env, trace: seq<Step>, i: nat)
    requires DeliveredAt(env, trace, i)
    ensures exists k, s: nat, r: nat ::
              && k in env.allowlist && SpeaksFor(env, trace[i].msg, k)
              && Bound(env, trace[..i], s, r, trace[i].peer, k)
  {
    var n, m := After(env, trace[..i]), trace[i];
    var k := ClaimedKey(env, n.reg, m.peer, m.msg, m.first, m.second);
    var s, r := RegisteredIsBound(env, trace[..i], m.peer, k);
  }

  lemma AfterSnoc(env: Env, trace: seq<Step>, step: Step)
    ensures After(env, trace + [step]) == Next(env, After(env, trace), step)
  {
    assert (trace + [step])[..|trace|] == trace;
  }

  /** An accepted setup message puts its key on top of the handler's stack. */
  lemma AcceptStep(env: Env, trace: seq<Step>, c: ConnectionId, signed: Signed<SetupMessage>, now: Clock, k: PublicKey)
    requires var n := After(env, trace);
             c in n.conns && Judge(env.Ep(n.conns[c].peer), env.scheme, signed, now) == AppKeyReceived(k)
    ensures var n, n' := After(env, trace), After(env, trace + [Arrive(c, FullyNegotiatedInbound(signed), now)]);
            var h := n.conns[c].handler;
            && n'.reg == n.reg
            && n'.conns == n.conns[c := n.conns[c].(handler :=
                 HandlerState(h.outbound, h.pending + [AppKeyReceived(k)], false))]
  {
    AfterSnoc(env, trace, Arrive(c, FullyNegotiatedInbound(signed), now));
  }

  /** A poll moves the top of the stack to the end of the connection's queue. */
  lemma PollStep(env: Env, trace: seq<Step>, c: ConnectionId)
    requires var n := After(env, trace); c in n.conns && n.conns[c].handler.pending != []
    ensures var n, n' := After(env, trace), After(env, trace + [PollHandler(c)]);
            var k := n.conns[c];
            var m := |k.handler.pending| - 1;
            && n'.reg == n.reg
            && n'.conns == n.conns[c := Conn(k.peer, k.handler.(pending := k.handler.pending[..m]),
                                             k.inFlight + [k.handler.pending[m]])]
  {
    AfterSnoc(env, trace, PollHandler(c));
  }

  /** A key at the head of the queue enters the registry. */
  lemma RegisterStep(env: Env, trace: seq<Step>, c: ConnectionId, k: PublicKey)
    requires var n := After(env, trace);
             c in n.conns && n.conns[c].inFlight != [] && n.conns[c].inFlight[0] == AppKeyReceived(k)
    ensures var n, n' := After(env, trace), After(env, trace + [ReachBehaviour(c)]);
            && n'.reg == Apply(n.reg, KeyReceived(n.conns[c].peer, k))
            && n'.conns == n.conns[c := n.conns[c].(inFlight := n.conns[c].inFlight[1..])]
  {
    AfterSnoc(env, trace, ReachBehaviour(c));
  }

  /**
    The other direction: an acceptable setup message on an open connection with an
    empty queue, once polled and passed on, registers its key for the peer both ways.
  */
  lemma AcceptedKeyIsRegistered(env: Env, trace: seq<Step>, c: ConnectionId, signed: Signed<SetupMessage>, now: Clock)
    requires var n := After(env, trace);
             && c in n.conns && n.conns[c].inFlight == []
             && var p := n.conns[c].peer;
                && SignedBy(env.scheme, signed, signed.message.appPublicKey)
                && signed.message.localTransportId == p
                && signed.message.remoteTransportId == env.local
                && InWindow(signed.message.date, SecsOrDefault(now), env.maxAge, env.maxSkew)
    ensures var p, k := After(env, trace).conns[c].peer, signed.message.appPublicKey;
            var n' := After(env, trace + [Arrive(c, FullyNegotiatedInbound(signed), now), PollHandler(c), ReachBehaviour(c)]);
            && Lookup(n'.reg.transportIds, p) == Some(k)
            && Lookup(n'.reg.appPublicKeys, k) == Some(p)
  {
    var n, k := After(env, trace), signed.message.appPublicKey;
    var a, b, d := Arrive(c, FullyNegotiatedInbound(signed), now), PollHandler(c), ReachBehaviour(c);
    AcceptedIff(env.Ep(n.conns[c].peer), env.scheme, signed, now, k);
    AcceptStep(env, trace, c, signed, now, k);
    PollStep(env, trace + [a], c);
    RegisterStep(env, trace + [a] + [b], c, k);
    assert trace + [a, b, d] == trace + [a] + [b] + [d];
  }

  /** What both gates ask of the key, the date, the protocol and the version. */
  ghost predicate Admits(env: Env, r: Reg, p: PeerId, key: PublicKey, version: ReqRespVersion, protocol: ProtocolId,
                         date: U64, first: Clock, second: Clock) {
    && key in env.allowlist
    && Lookup(r.transportIds, p) == Some(key)
    && protocol == RequestResponseProtocol && version == ReqRespV2
    && InWindow(date, SecsOrDefault(second), env.maxAge, env.maxSkew)
    && date <= SecsOrDefault(first) + env.maxSkew.secs
  }

  /**
    A request is delivered, and then as it was sent, exactly when it is signed by the
    key it claims, addressed to this node, of the right protocol and version, inside the
    window of its two readings, and its key is allowlisted and registered for the peer.
  */
  lemma RequestDeliveredIff(env: Env, r: Reg, p: PeerId, signed: Signed<RequestMessage>, first: Clock, second: Clock)
    requires NotAfter(first, second) && NoOverflow(first, env.maxSkew)
    ensures var m, msg := signed.message, Request(Some(signed));
            var verdict := JudgeInbound(env, r, p, msg, first, second);
            && (verdict.Deliver? ==> verdict == Deliver(m.message))
            && (verdict.Deliver? <==>
                  && SpeaksFor(env, msg, m.publicKey)
                  && m.destination == env.local
                  && Admits(env, r, p, m.publicKey, m.version, m.protocol, m.date, first, second))
  {
    AuthenticIff(env.RequestKind(), env.scheme.verifier, signed);
    TwoReadings(signed.message.date, first, second, env.maxAge, env.maxSkew);
  }

  /** As for requests, except that a response names no destination. */
  lemma ResponseDeliveredIff(env: Env, r: Reg, p: PeerId, signed: Signed<ResponseMessage>, first: Clock, second: Clock)
    requires NotAfter(first, second) && NoOverflow(first, env.maxSkew)
    ensures var m, msg := signed.message, Response(Some(signed));
            var verdict := JudgeInbound(env, r, p, msg, first, second);
            && (verdict.Deliver? ==> verdict == Deliver(m.message))
            && (verdict.Deliver? <==>
                  && SpeaksFor(env, msg, m.appPublicKey)
                  && Admits(env, r, p, m.appPublicKey, m.version, m.protocol, m.date, first, second))
  {
    AuthenticIff(env.ResponseKind(), env.scheme.verifier, signed);
    TwoReadings(signed.message.date, first, second, env.maxAge, env.maxSkew);
  }

  /** The message of step i reaches the application as `payload`. */
  ghost predicate DeliveredAs(env: Env, trace: seq<Step>, i: nat, payload: seq<Byte>) {
    && DeliveredAt(env, trace, i)
    && JudgeInbound(env, After(env, trace[..i]).reg, trace[i].peer, trace[i].msg, trace[i].first, trace[i].second)
       == Deliver(payload)
  }

  /** An honest end's setup bytes, in any chunking, become its key in the registry. */
  lemma HonestKeyIsRegistered(env: Env, trace: seq<Step>, c: ConnectionId, f: SetupFormat, signer: Signer, key: PublicKey,
                              date: U64, chunks: seq<seq<Byte>>, now: Clock)
    requires var n := After(env, trace); c in n.conns && n.conns[c].inFlight == []
    requires var up := OutboundUpgrade(key, After(env, trace).conns[c].peer, env.local);
             HonestBytes(f, env.scheme, signer, up, date, Codec.Concat(chunks))
    requires InWindow(date, SecsOrDefault(now), env.maxAge, env.maxSkew)
    ensures var n' := After(env, trace + Handshake(c, f, chunks, now));
            Lookup(n'.reg.transportIds, After(env, trace).conns[c].peer) == Some(key)
  {
    var up := OutboundUpgrade(key, After(env, trace).conns[c].peer, env.local);
    HonestArrival(f, env.scheme, signer, up, date, chunks);
    AcceptedKeyIsRegistered(env, trace, c, OutboundMessage(env.scheme, signer, up, date).value, now);
  }

  /** The bytes of a setup message arrive, and what becomes of them reaches the behaviour. */
  function Handshake(c: ConnectionId, f: SetupFormat, chunks: seq<seq<Byte>>, now: Clock): seq<Step> {
    [Arrive(c, InboundUpgrade(f, chunks), now), PollHandler(c), ReachBehaviour(c)]
  }

  lemma MessageStep(env: Env, trace: seq<Step>, p: PeerId, msg: Inbound, first: Clock, second: Clock, payload: seq<Byte>)
    requires JudgeInbound(env, After(env, trace).reg, p, msg, first, second) == Deliver(payload)
    ensures DeliveredAs(env, trace + [Message(p, msg, first, second)], |trace|, payload)
  {
    assert (trace + [Message(p, msg, first, second)])[..|trace|] == trace;
  }

  /**
    The whole path for an honest peer: its setup bytes, in any chunking, on an open
    connection, then its signed request: the run delivers the request, provided its key
    is allowlisted and both dates are in the window.
  */
  lemma HonestPeerIsHeard(env: Env, trace: seq<Step>, c: ConnectionId, f: SetupFormat, signer: Signer, key: PublicKey,
                          date: U64, chunks: seq<seq<Byte>>, now: Clock,
                          request: RequestMessage, first: Clock, second: Clock)
    requires var n := After(env, trace); c in n.conns && n.conns[c].inFlight == []
    requires var up := OutboundUpgrade(key, After(env, trace).conns[c].peer, env.local);
             HonestBytes(f, env.scheme, signer, up, date, Codec.Concat(chunks))
    requires InWindow(date, SecsOrDefault(now), env.maxAge, env.maxSkew)
    requires key in env.allowlist && Sign(env.RequestKind(), signer, request).Some?
    requires request == RequestMessage(ReqRespV2, RequestResponseProtocol, request.message, key, request.date, env.local)
    requires NotAfter(first, second) && NoOverflow(first, env.maxSkew)
    requires InWindow(request.date, SecsOrDefault(second), env.maxAge, env.maxSkew)
    requires request.date <= SecsOrDefault(first) + env.maxSkew.secs
    ensures var p, t := After(env, trace).conns[c].peer, trace + Handshake(c, f, chunks, now);
            var msg := Request(Sign(env.RequestKind(), signer, request));
            DeliveredAs(env, t + [Message(p, msg, first, second)], |t|, request.message)
  {
    var p, t := After(env, trace).conns[c].peer, trace + Handshake(c, f, chunks, now);
    var signed := Sign(env.RequestKind(), signer, request).value;
    HonestKeyIsRegistered(env, trace, c, f, signer, key, date, chunks, now);
    SignedVerifies(env.RequestKind(), signer, env.scheme.verifier, request);
    AuthenticIff(env.RequestKind(), env.scheme.verifier, signed);
    RequestDeliveredIff(env, After(env, t).reg, p, signed, first, second);
    MessageStep(env, t, p, Request(Some(signed)), first, second, request.message);
  }

  /** The same for its signed response. */
  lemma HonestResponseIsHeard(env: Env, trace: seq<Step>, c: ConnectionId, f: SetupFormat, signer: Signer, key: PublicKey,
                              date: U64, chunks: seq<seq<Byte>>, now: Clock,
                              response: ResponseMessage, first: Clock, second: Clock)
    requires var n := After(env, trace); c in n.conns && n.conns[c].inFlight == []
    requires var up := OutboundUpgrade(key, After(env, trace).conns[c].peer, env.local);
             HonestBytes(f, env.scheme, signer, up, date, Codec.Concat(chunks))
    requires InWindow(date, SecsOrDefault(now), env.maxAge, env.maxSkew)
    requires key in env.allowlist && Sign(env.ResponseKind(), signer, response).Some?
    requires response == ResponseMessage(ReqRespV2, RequestResponseProtocol, response.message, key, response.date)
    requires NotAfter(first, second) && NoOverflow(first, env.maxSkew)
    requires InWindow(response.date, SecsOrDefault(second), env.maxAge, env.maxSkew)
    requires response.date <= SecsOrDefault(first) + env.maxSkew.secs
    ensures var p, t := After(env, trace).conns[c].peer, trace + Handshake(c, f, chunks, now);
            var msg := Response(Sign(env.ResponseKind(), signer, response));
            DeliveredAs(env, t + [Message(p, msg, first, second)], |t|, response.message)
  {
    var p, t := After(env, trace).conns[c].peer, trace + Handshake(c, f, chunks, now);
    var signed := Sign(env.ResponseKind(), signer, response).value;
    HonestKeyIsRegistered(env, trace, c, f, signer, key, date, chunks, now);
    SignedVerifies(env.ResponseKind(), signer, env.scheme.verifier, response);
    AuthenticIff(env.ResponseKind(), env.scheme.verifier, signed);
    ResponseDeliveredIff(env, After(env, t).reg, p, signed, first, second);
    MessageStep(env, t, p, Response(Some(signed)), first, second, response.message);
  }

  // --- registered peers are connected ---

  ghost predicate Connected(n: Node, p: PeerId) {
    exists c :: c in n.conns && n.conns[c].peer == p
  }

  /** Connection c is the only one of its peer. */
  ghost predicate LastOf(n: Node, c: ConnectionId) {
    c in n.conns && forall d :: d in n.conns && n.conns[d].peer == n.conns[c].peer ==> d == c
  }

  lemma RemainingIffOthers(n: Node, c: ConnectionId)
    requires c in n.conns
    ensures Remaining(n, c) == 0 <==> LastOf(n, c)
  {
    var others := set d | d in n.conns && d != c && n.conns[d].peer == n.conns[c].peer;
    if d :| d in n.conns && d != c && n.conns[d].peer == n.conns[c].peer {
      assert d in others;
    } else {
      assert others == {};
    }
  }

  /**
    Closing a peer's last connection leaves the peer without a registered key; closing
    another one leaves the registry as it is.
  */
  lemma CloseUnregistersIffLast(env: Env, trace: seq<Step>, c: ConnectionId)
    requires c in After(env, trace).conns
    ensures var n, n' := After(env, trace), After(env, trace + [Close(c)]);
            && (LastOf(n, c) ==> n.conns[c].peer !in n'.reg.transportIds)
            && (!LastOf(n, c) ==> n'.reg == n.reg)
  {
    AfterSnoc(env, trace, Close(c));
    RemainingIffOthers(After(env, trace), c);
  }

  lemma StaysConnected(env: Env, n: Node, step: Step, p: PeerId)
    requires Connected(n, p)
    ensures Connected(Next(env, n, step), p) || (step.Close? && LastOf(n, step.conn) && n.conns[step.conn].peer == p)
  {
    var n' := Next(env, n, step);
    var c :| c in n.conns && n.conns[c].peer == p;
    if step != Close(c) {
      assert c in n'.conns && n'.conns[c].peer == p;
    } else if d :| d in n.conns && d != c && n.conns[d].peer == p {
      assert d in n'.conns && n'.conns[d].peer == p;
    }
  }

  /** In every run, every peer with a registered key has an open connection. */
  lemma {:induction false} RegisteredIsConnected(env: Env, trace: seq<Step>, p: PeerId)
    requires p in After(env, trace).reg.transportIds
    ensures Connected(After(env, trace), p)
  {
    var front, last := trace[..|trace| - 1], trace[|trace| - 1];
    var n := After(env, front);
    if p in n.reg.transportIds {
      RegisteredIsConnected(env, front, p);
    } else {
      assert n.conns[last.conn].peer == p;
    }
    StaysConnected(env, n, last, p);
    if last.Close? && LastOf(n, last.conn) {
      RemainingIffOthers(n, last.conn);
    }
  }

  // --- the behaviour's event stack ---

  function StackOps(env: Env, trace: seq<Step>): seq<EventStack.Op<BehaviourEvent>> {
    if trace == [] then []
    else
      var front := trace[..|trace| - 1];
      StackOps(env, front) + StackOp(After(env, front), trace[|trace| - 1])
  }

  lemma {:induction false} BehaviourIsStack(env: Env, trace: seq<Step>)
    ensures After(env, trace).events == EventStack.Run([], StackOps(env, trace))
  {
    if trace != [] {
      var front, last := trace[..|trace| - 1], trace[|trace| - 1];
      BehaviourIsStack(env, front);
      var op := StackOp(After(env, front), last);
      if op == [] {
        assert StackOps(env, front) + op == StackOps(env, front);
      } else {
        EventStack.RunSnoc([], StackOps(env, front), op[0]);
      }
    }
  }

  /**
    What reaches the behaviour is taken as `SetupBehaviour` takes it, reported with its
    peer and connection, and the next thing polled.
  */
  lemma ReachedIsReported(env: Env, trace: seq<Step>, c: ConnectionId)
    requires var n := After(env, trace); c in n.conns && n.conns[c].inFlight != []
    ensures var n := After(env, trace);
            var t := trace + [ReachBehaviour(c)];
            && EventStack.Popped(After(env, t).events, EventStack.Pop)
               == [BehaviourEvent(n.conns[c].peer, c, n.conns[c].inFlight[0])]
            && After(env, t + [PollBehaviour]).events == n.events
            && After(env, t).reg == AfterHandlerEvent(n.reg, n.conns[c].peer, n.conns[c].inFlight[0])
  {
    AfterSnoc(env, trace, ReachBehaviour(c));
    AfterSnoc(env, trace + [ReachBehaviour(c)], PollBehaviour);
  }

  /** Events that reached the behaviour are those handed to the swarm plus those still stacked. */
  lemma BehaviourConservation(env: Env, trace: seq<Step>)
    ensures var ops := StackOps(env, trace);
            multiset(EventStack.Produced(ops))
            == multiset(EventStack.Delivered([], ops)) + multiset(After(env, trace).events)
  {
    BehaviourIsStack(env, trace);
    EventStack.Conservation([], StackOps(env, trace));
  }
}
