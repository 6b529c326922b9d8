/** The setup handshake on one connection: message, upgrade and connection handler. */
module Setup {
  import opened Basics
  import opened Freshness
  import opened SignedMessages
  import EventStack
  import Codec

  datatype SetupVersion = V1

  datatype SetupMessage = SetupMessage(
    version: SetupVersion,
    appPublicKey: PublicKey,
    localTransportId: PeerId,
    remoteTransportId: PeerId,
    date: U64)

  type Serializer = SetupMessage -> Option<seq<Byte>>

  function SetupKind(serialize: Serializer): Kind<SetupMessage> {
    Kind(serialize, (m: SetupMessage) => m.appPublicKey)
  }

  datatype UpgradeError = NegotiationRefused | UpgradeFailed(detail: string)

  datatype SetupError =
    | SignatureVerificationFailed
    | TransportIdMismatch
    | StaleMessage
    | FutureMessage
    | OutboundError(detail: string)
    | InboundError(detail: string)

  datatype HandlerEvent =
    | AppKeyReceived(appPublicKey: PublicKey)
    | NegotiationFailed
    | ErrorDuringSetupHandshake(error: SetupError)

  datatype ConnectionEvent =
    | FullyNegotiatedInbound(signed: Signed<SetupMessage>)
    | DialUpgradeError(error: UpgradeError)
    | ListenUpgradeError(detail: string)
    | OtherConnectionEvent

  /** What the handler of one connection knows about it. */
  datatype Endpoint = Endpoint(local: PeerId, remote: PeerId, maxAge: Duration, maxSkew: Duration)

  /** Signature verification and message serialization, as the node finds them. */
  datatype Scheme = Scheme(verifier: Verifier, serialize: Serializer)

  datatype OutboundUpgrade = OutboundUpgrade(appPublicKey: PublicKey, local: PeerId, remote: PeerId)

  datatype HandlerState = HandlerState(
    outbound: Option<OutboundUpgrade>,
    pending: seq<HandlerEvent>,
    keepAlive: bool)

  datatype PollResult = Notify(event: HandlerEvent) | RequestSubstream(upgrade: OutboundUpgrade) | Pending

  function NewHandler(appPublicKey: PublicKey, ep: Endpoint): HandlerState {
    HandlerState(Some(OutboundUpgrade(appPublicKey, ep.local, ep.remote)), [], true)
  }

  /** Verdict on a received setup message, checks in the order the handler makes them. */
  function Judge(ep: Endpoint, scheme: Scheme, signed: Signed<SetupMessage>, now: Clock): HandlerEvent {
    var m := signed.message;
    if !Authentic(SetupKind(scheme.serialize), scheme.verifier, signed) then
      ErrorDuringSetupHandshake(SignatureVerificationFailed)
    else if m.remoteTransportId != ep.local || m.localTransportId != ep.remote then
      ErrorDuringSetupHandshake(TransportIdMismatch)
    else
      match SetupCheck(m.date, now, ep.maxAge, ep.maxSkew)
      case Stale => ErrorDuringSetupHandshake(StaleMessage)
      case Future => ErrorDuringSetupHandshake(FutureMessage)
      case Fresh => AppKeyReceived(m.appPublicKey)
  }

  /** The events one connection event makes the handler push: at most one. */
  function Emitted(ep: Endpoint, scheme: Scheme, e: ConnectionEvent, now: Clock): (r: seq<HandlerEvent>)
    ensures |r| <= 1
  {
    match e
    case FullyNegotiatedInbound(signed) => [Judge(ep, scheme, signed, now)]
    case DialUpgradeError(NegotiationRefused) => [NegotiationFailed]
    case DialUpgradeError(UpgradeFailed(d)) => [ErrorDuringSetupHandshake(OutboundError(d))]
    case ListenUpgradeError(d) => [ErrorDuringSetupHandshake(InboundError(d))]
    case OtherConnectionEvent => []
  }

  function AfterEvent(ep: Endpoint, scheme: Scheme, h: HandlerState, e: ConnectionEvent, now: Clock): HandlerState {
    HandlerState(
      h.outbound,
      h.pending + Emitted(ep, scheme, e, now),
      if e.FullyNegotiatedInbound? || e.DialUpgradeError? then false else h.keepAlive)
  }

  function PollOutcome(h: HandlerState): PollResult {
    if h.pending != [] then Notify(h.pending[|h.pending| - 1])
    else if h.outbound.Some? then RequestSubstream(h.outbound.value)
    else Pending
  }

  function AfterPoll(h: HandlerState): HandlerState {
    if h.pending != [] then h.(pending := h.pending[..|h.pending| - 1])
    else h.(outbound := None)
  }

  class SetupHandler {
    const endpoint: Endpoint
    const scheme: Scheme
    var outboundSubstream: Option<OutboundUpgrade>
    var pendingEvents: seq<HandlerEvent>
    var keepAlive: bool

    ghost function View(): HandlerState
      reads this
    {
      HandlerState(outboundSubstream, pendingEvents, keepAlive)
    }

    constructor (appPublicKey: PublicKey, endpoint: Endpoint, scheme: Scheme)
      ensures this.endpoint == endpoint && this.scheme == scheme
      ensures View() == NewHandler(appPublicKey, endpoint)
    {
      this.endpoint := endpoint;
      this.scheme := scheme;
      outboundSubstream := Some(OutboundUpgrade(appPublicKey, endpoint.local, endpoint.remote));
      pendingEvents := [];
      keepAlive := true;
    }

    method Push(event: HandlerEvent)
      modifies this`pendingEvents
      ensures pendingEvents == old(pendingEvents) + [event]
    {
      pendingEvents := pendingEvents + [event];
    }

    method Poll() returns (r: PollResult)
      modifies this
      ensures r == PollOutcome(old(View()))
      ensures View() == AfterPoll(old(View()))
    {
      if |pendingEvents| > 0 {
        r := Notify(pendingEvents[|pendingEvents| - 1]);
        pendingEvents := pendingEvents[..|pendingEvents| - 1];
        return;
      }
      if outboundSubstream.Some? {
        r := RequestSubstream(outboundSubstream.value);
        outboundSubstream := None;
        return;
      }
      r := Pending;
    }

    method OnFullyNegotiatedInbound(signed: Signed<SetupMessage>, now: Clock)
      modifies this
      ensures View() == AfterEvent(endpoint, scheme, old(View()), FullyNegotiatedInbound(signed), now)
    {
      keepAlive := false;
      if !Authentic(SetupKind(scheme.serialize), scheme.verifier, signed) {
        Push(ErrorDuringSetupHandshake(SignatureVerificationFailed));
        return;
      }
      var m := signed.message;
      if m.remoteTransportId != endpoint.local || m.localTransportId != endpoint.remote {
        Push(ErrorDuringSetupHandshake(TransportIdMismatch));
        return;
      }
      var nowSecs := SecsOrDefault(now);
      var age := FromSecs(SaturatingSub(nowSecs, m.date));
      if LongerThan(age, endpoint.maxAge) {
        Push(ErrorDuringSetupHandshake(StaleMessage));
        return;
      }
      if m.date > nowSecs {
        var futureDelta := FromSecs(m.date - nowSecs);
        if LongerThan(futureDelta, endpoint.maxSkew) {
          Push(ErrorDuringSetupHandshake(FutureMessage));
          return;
        }
      }
      Push(AppKeyReceived(m.appPublicKey));
    }

    method OnConnectionEvent(e: ConnectionEvent, now: Clock)
      modifies this
      ensures View() == AfterEvent(endpoint, scheme, old(View()), e, now)
    {
      match e {
        case FullyNegotiatedInbound(signed) =>
          OnFullyNegotiatedInbound(signed, now);
        case DialUpgradeError(error) =>
          keepAlive := false;
          match error {
            case NegotiationRefused =>
              Push(NegotiationFailed);
            case UpgradeFailed(d) =>
              Push(ErrorDuringSetupHandshake(OutboundError(d)));
          }
        case ListenUpgradeError(d) =>
          Push(ErrorDuringSetupHandshake(InboundError(d)));
        case OtherConnectionEvent =>
      }
    }
  }

  /** The message claims `key`, and its signature is one of `key` over exactly this message. */
  ghost predicate SignedBy(scheme: Scheme, signed: Signed<SetupMessage>, key: PublicKey) {
    && signed.message.appPublicKey == key
    && Covers(scheme.verifier, key, scheme.serialize(signed.message), signed.signature)
  }

  /**
    A key is accepted exactly from a message that its own signature covers, that
    names this connection's two ends the right way round, and that is in the window.
  */
  lemma AcceptedIff(ep: Endpoint, scheme: Scheme, signed: Signed<SetupMessage>, now: Clock, key: PublicKey)
    ensures Judge(ep, scheme, signed, now) == AppKeyReceived(key)
            <==> && SignedBy(scheme, signed, key)
                 && signed.message.localTransportId == ep.remote
                 && signed.message.remoteTransportId == ep.local
                 && InWindow(signed.message.date, SecsOrDefault(now), ep.maxAge, ep.maxSkew)
  {
    SetupIsWindow(signed.message.date, now, ep.maxAge, ep.maxSkew);
  }

  /**
    Every outcome is reported: right after a connection event the next poll hands out
    exactly what became of it, and leaves what was pending before. A refusal names the
    first check that fails, in the order signature, endpoints, date.
  */
  lemma OutcomeIsReported(ep: Endpoint, scheme: Scheme, h: HandlerState, e: ConnectionEvent, now: Clock)
    ensures var out := PollOutcome(AfterEvent(ep, scheme, h, e, now));
            match e
            case FullyNegotiatedInbound(signed) =>
              var m, nowSecs := signed.message, SecsOrDefault(now);
              var authentic := SignedBy(scheme, signed, m.appPublicKey);
              var named := m.localTransportId == ep.remote && m.remoteTransportId == ep.local;
              && (out == Notify(ErrorDuringSetupHandshake(SignatureVerificationFailed)) <==> !authentic)
              && (out == Notify(ErrorDuringSetupHandshake(TransportIdMismatch)) <==> authentic && !named)
              && (out == Notify(ErrorDuringSetupHandshake(StaleMessage)) <==>
                    authentic && named && m.date < nowSecs - ep.maxAge.secs)
              && (out == Notify(ErrorDuringSetupHandshake(FutureMessage)) <==>
                    authentic && named && m.date > nowSecs + ep.maxSkew.secs)
              && (out == Notify(AppKeyReceived(m.appPublicKey)) <==>
                    authentic && named && InWindow(m.date, nowSecs, ep.maxAge, ep.maxSkew))
            case DialUpgradeError(NegotiationRefused) => out == Notify(NegotiationFailed)
            case DialUpgradeError(UpgradeFailed(d)) => out == Notify(ErrorDuringSetupHandshake(OutboundError(d)))
            case ListenUpgradeError(d) => out == Notify(ErrorDuringSetupHandshake(InboundError(d)))
            case OtherConnectionEvent => out == PollOutcome(h)
    ensures !e.OtherConnectionEvent? ==> AfterPoll(AfterEvent(ep, scheme, h, e, now)).pending == h.pending
  {
    if e.FullyNegotiatedInbound? {
      var signed := e.signed;
      AuthenticIff(SetupKind(scheme.serialize), scheme.verifier, signed);
      SetupIsWindow(signed.message.date, now, ep.maxAge, ep.maxSkew);
    }
  }

  // --- runs of one handler ---

  datatype HandlerOp = Arrival(event: ConnectionEvent, now: Clock) | DoPoll

  function HandlerStep(ep: Endpoint, scheme: Scheme, h: HandlerState, op: HandlerOp): HandlerState {
    match op
    case Arrival(e, now) => AfterEvent(ep, scheme, h, e, now)
    case DoPoll => AfterPoll(h)
  }

  function HandlerRun(ep: Endpoint, scheme: Scheme, h: HandlerState, ops: seq<HandlerOp>): HandlerState {
    if ops == [] then h
    else HandlerStep(ep, scheme, HandlerRun(ep, scheme, h, ops[..|ops| - 1]), ops[|ops| - 1])
  }

  /** The handler's pushes and pops, read off the operations alone. */
  function StackOps(ep: Endpoint, scheme: Scheme, ops: seq<HandlerOp>): seq<EventStack.Op<HandlerEvent>> {
    if ops == [] then []
    else StackOps(ep, scheme, ops[..|ops| - 1]) + StackOp(ep, scheme, ops[|ops| - 1])
  }

  function StackOp(ep: Endpoint, scheme: Scheme, op: HandlerOp): seq<EventStack.Op<HandlerEvent>> {
    match op
    case DoPoll => [EventStack.Pop]
    case Arrival(e, now) =>
      var emitted := Emitted(ep, scheme, e, now);
      if emitted == [] then [] else [EventStack.Push(emitted[0])]
  }

  /** Events notified by the polls of a run, in order. */
  function Notified(ep: Endpoint, scheme: Scheme, h: HandlerState, ops: seq<HandlerOp>): seq<HandlerEvent> {
    if ops == [] then []
    else
      var front := ops[..|ops| - 1];
      var r := PollOutcome(HandlerRun(ep, scheme, h, front));
      Notified(ep, scheme, h, front) +
      if ops[|ops| - 1].DoPoll? && r.Notify? then [r.event] else []
  }

  /** Outbound substreams requested by the polls of a run, in order. */
  function Requested(ep: Endpoint, scheme: Scheme, h: HandlerState, ops: seq<HandlerOp>): seq<OutboundUpgrade> {
    if ops == [] then []
    else
      var front := ops[..|ops| - 1];
      var r := PollOutcome(HandlerRun(ep, scheme, h, front));
      Requested(ep, scheme, h, front) +
      if ops[|ops| - 1].DoPoll? && r.RequestSubstream? then [r.upgrade] else []
  }

  lemma StepIsStack(ep: Endpoint, scheme: Scheme, start: seq<HandlerEvent>, before: HandlerState,
                    sofar: seq<EventStack.Op<HandlerEvent>>, op: HandlerOp)
    requires before.pending == EventStack.Run(start, sofar)
    ensures var all := sofar + StackOp(ep, scheme, op);
            && HandlerStep(ep, scheme, before, op).pending == EventStack.Run(start, all)
            && EventStack.Delivered(start, all)
               == EventStack.Delivered(start, sofar)
                  + if op.DoPoll? && PollOutcome(before).Notify? then [PollOutcome(before).event] else []
  {
    var more := StackOp(ep, scheme, op);
    if more == [] {
      assert sofar + more == sofar;
      assert before.pending + [] == before.pending;
    } else {
      EventStack.RunSnoc(start, sofar, more[0]);
      assert more == [more[0]];
    }
  }

  /** Over any interleaving the pending list is the stack that `StackOps` describes. */
  lemma {:induction false} HandlerIsStack(ep: Endpoint, scheme: Scheme, h: HandlerState, ops: seq<HandlerOp>)
    ensures HandlerRun(ep, scheme, h, ops).pending == EventStack.Run(h.pending, StackOps(ep, scheme, ops))
    ensures Notified(ep, scheme, h, ops) == EventStack.Delivered(h.pending, StackOps(ep, scheme, ops))
  {
    if ops != [] {
      var front := ops[..|ops| - 1];
      HandlerIsStack(ep, scheme, h, front);
      StepIsStack(ep, scheme, h.pending, HandlerRun(ep, scheme, h, front), StackOps(ep, scheme, front), ops[|ops| - 1]);
    }
  }

  /** Events emitted by a run are those notified plus those still pending. */
  lemma HandlerConservation(ep: Endpoint, scheme: Scheme, key: PublicKey, ops: seq<HandlerOp>)
    ensures var h := NewHandler(key, ep);
            multiset(EventStack.Produced(StackOps(ep, scheme, ops)))
            == multiset(Notified(ep, scheme, h, ops)) + multiset(HandlerRun(ep, scheme, h, ops).pending)
  {
    var h := NewHandler(key, ep);
    HandlerIsStack(ep, scheme, h, ops);
    EventStack.Conservation(h.pending, StackOps(ep, scheme, ops));
  }

  /**
    The outbound substream is requested at most once, for the upgrade the handler
    was built with; it has been requested exactly when the slot is empty.
  */
  lemma {:induction false} OneSubstream(ep: Endpoint, scheme: Scheme, key: PublicKey, ops: seq<HandlerOp>)
    ensures var h := NewHandler(key, ep);
            var end := HandlerRun(ep, scheme, h, ops);
            Requested(ep, scheme, h, ops)
            == if end.outbound.None? then [OutboundUpgrade(key, ep.local, ep.remote)] else []
    ensures var end := HandlerRun(ep, scheme, NewHandler(key, ep), ops);
            end.outbound.Some? ==> end.outbound.value == OutboundUpgrade(key, ep.local, ep.remote)
    ensures var end := HandlerRun(ep, scheme, NewHandler(key, ep), ops);
            PollOutcome(end).RequestSubstream? ==> end.pending == []
  {
    if ops != [] {
      OneSubstream(ep, scheme, key, ops[..|ops| - 1]);
    }
  }

  predicate EndsSetup(op: HandlerOp) {
    op.Arrival? && (op.event.FullyNegotiatedInbound? || op.event.DialUpgradeError?)
  }

  /** The connection is kept alive exactly until a setup message or an outbound upgrade error arrives. */
  lemma {:induction false} KeepAliveUntilSetup(ep: Endpoint, scheme: Scheme, key: PublicKey, ops: seq<HandlerOp>)
    ensures HandlerRun(ep, scheme, NewHandler(key, ep), ops).keepAlive
            <==> forall i :: 0 <= i < |ops| ==> !EndsSetup(ops[i])
  {
    if ops != [] {
      var front, last := ops[..|ops| - 1], ops[|ops| - 1];
      KeepAliveUntilSetup(ep, scheme, key, front);
      assert ops == front + [last];
    }
  }

  // --- the whole handshake between two honest ends ---

  type SetupFormat = Codec.Format<Signed<SetupMessage>>

  /** `upgrade_outbound`: the signed setup message, if it can be made. */
  function OutboundMessage(scheme: Scheme, signer: Signer, up: OutboundUpgrade, date: U64): Option<Signed<SetupMessage>> {
    Sign(SetupKind(scheme.serialize), signer, SetupMessage(V1, up.appPublicKey, up.local, up.remote, date))
  }

  /** `upgrade_inbound`: the first frame read, however the bytes arrive. */
  function InboundUpgrade(f: SetupFormat, chunks: seq<seq<Byte>>): ConnectionEvent {
    var s := Codec.FeedAll(f, chunks);
    if s.items != [] then FullyNegotiatedInbound(s.items[0])
    else if s.error.Some? then ListenUpgradeError("Codec")
    else ListenUpgradeError("UnexpectedStreamClose")
  }

  /** The outbound side has a message to send exactly when its own can be serialized and signed. */
  lemma OutboundMessageIff(scheme: Scheme, signer: Signer, up: OutboundUpgrade, date: U64)
    ensures var bytes := scheme.serialize(SetupMessage(V1, up.appPublicKey, up.local, up.remote, date));
            OutboundMessage(scheme, signer, up, date).Some? <==> bytes.Some? && signer(bytes.value).Some?
  {
  }

  /** `bytes` is what the outbound side of an honest node writes for `up`. */
  ghost predicate HonestBytes(f: SetupFormat, scheme: Scheme, signer: Signer, up: OutboundUpgrade, date: U64, bytes: seq<Byte>) {
    && Codec.Inverse(f) && SignsFor(signer, scheme.verifier, up.appPublicKey)
    && var signed := OutboundMessage(scheme, signer, up, date);
       && signed.Some?
       && Codec.Encodable(f, [signed.value])
       && bytes == Codec.EncodeAll(f, [signed.value])
  }

  /** However the bytes arrive, the inbound side obtains the message that was sent. */
  lemma HonestArrival(f: SetupFormat, scheme: Scheme, signer: Signer, up: OutboundUpgrade, date: U64,
                      chunks: seq<seq<Byte>>)
    requires HonestBytes(f, scheme, signer, up, date, Codec.Concat(chunks))
    ensures InboundUpgrade(f, chunks)
            == FullyNegotiatedInbound(OutboundMessage(scheme, signer, up, date).value)
    ensures var signed := OutboundMessage(scheme, signer, up, date).value;
            && signed.message == SetupMessage(V1, up.appPublicKey, up.local, up.remote, date)
            && Authentic(SetupKind(scheme.serialize), scheme.verifier, signed)
  {
    var signed := OutboundMessage(scheme, signer, up, date).value;
    SignedVerifies(SetupKind(scheme.serialize), signer, scheme.verifier,
                   SetupMessage(V1, up.appPublicKey, up.local, up.remote, date));
    Codec.ChunkIndependence(f, chunks);
    Codec.RoundTripLeavesTrailing(f, [signed], []);
    assert Codec.EncodeAll(f, [signed]) + [] == Codec.EncodeAll(f, [signed]);
  }

  /**
    A stream that does not start with a good frame makes the upgrade fail, in whatever
    chunks it comes, and the handler reports that and lets no key through.
  */
  lemma BadStreamIsReported(f: SetupFormat, chunks: seq<seq<Byte>>, ep: Endpoint, scheme: Scheme, h: HandlerState, now: Clock)
    requires !Codec.StartsWithItem(f, Codec.Concat(chunks))
    ensures var e := InboundUpgrade(f, chunks);
            && e.ListenUpgradeError?
            && (Codec.StartsOversized(Codec.Concat(chunks)) ==> e == ListenUpgradeError("Codec"))
            && PollOutcome(AfterEvent(ep, scheme, h, e, now)) == Notify(ErrorDuringSetupHandshake(InboundError(e.detail)))
  {
    Codec.ChunkIndependence(f, chunks);
    Codec.DecodeOutcome(f, Codec.Concat(chunks));
  }

  /**
    Completeness: what an honest node sends, delivered in any chunking within the
    receiver's window, makes the receiver's handler emit the sender's key and
    nothing else.
  */
  lemma HonestHandshake(f: SetupFormat, scheme: Scheme, signer: Signer, key: PublicKey,
                        sender: PeerId, receiver: PeerId, date: U64,
                        chunks: seq<seq<Byte>>, receiverKey: PublicKey, now: Clock,
                        maxAge: Duration, maxSkew: Duration)
    requires HonestBytes(f, scheme, signer, OutboundUpgrade(key, sender, receiver), date, Codec.Concat(chunks))
    requires InWindow(date, SecsOrDefault(now), maxAge, maxSkew)
    ensures var ep := Endpoint(receiver, sender, maxAge, maxSkew);
            AfterEvent(ep, scheme, NewHandler(receiverKey, ep), InboundUpgrade(f, chunks), now).pending
            == [AppKeyReceived(key)]
  {
    var up := OutboundUpgrade(key, sender, receiver);
    HonestArrival(f, scheme, signer, up, date, chunks);
    AcceptedIff(Endpoint(receiver, sender, maxAge, maxSkew), scheme,
                OutboundMessage(scheme, signer, up, date).value, now, key);
  }
}
