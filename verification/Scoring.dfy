/**
  Score accounting without BYOS, with the default validator: a leaky bucket per
  protocol, both fed by one decay clock per peer. Scores are `real`.
*/
module Scoring {
  import opened Basics
  import opened Penalties

  // --- the default validator ---

  const DECAY_RATE_PER_SEC: real := 0.9
  const MESSAGE_COST: real := 1.0
  const MUTE_THRESHOLD: real := -100.0
  const MUTE_DURATION: real := 60.0
  const BAN_PERIOD: real := 2_592_000.0

  datatype MessageKind = GossipKind | RequestKind | ResponseKind

  datatype PenaltyType =
    | MuteGossip(duration: real)
    | MuteReqResp(duration: real)
    | MuteBoth(duration: real)
    | BanFor(period: Option<real>)

  datatype Unpenalty = Unban | UnmuteGossip | UnmuteReqResp | UnmuteBoth

  datatype Action = ApplyPenalty(penalty: PenaltyType) | RemovePenalty(unpenalty: Unpenalty)

  datatype AppScore = AppScore(gossip: real, reqResp: real)

  function ReqRespKind(isRequest: bool): MessageKind {
    if isRequest then RequestKind else ResponseKind
  }

  function ValidateMsg(oldScore: real): real {
    oldScore - MESSAGE_COST
  }

  function GetPenalty(kind: MessageKind, score: AppScore): Option<PenaltyType> {
    if kind.GossipKind? && score.gossip < MUTE_THRESHOLD then Some(MuteGossip(MUTE_DURATION))
    else if !kind.GossipKind? && score.reqResp < MUTE_THRESHOLD then Some(MuteReqResp(MUTE_DURATION))
    else None
  }

  function ApplyDecay(score: real, elapsed: real): real {
    var decayed := score + DECAY_RATE_PER_SEC * elapsed;
    if decayed < 0.0 then decayed else 0.0
  }

  // --- one peer ---

  datatype PeerState = PeerState(
    gossip: Option<real>,
    reqResp: Option<real>,
    lastDecay: Option<Time>,
    penalty: Option<PenaltyInfo>)
  {
    /** `get_all_scores`, application part. */
    function Scores(): AppScore {
      AppScore(gossip.GetOr(0.0), reqResp.GetOr(0.0))
    }
  }

  const FRESH: PeerState := PeerState(None, None, None, None)

  /** Events about one peer with the clock readings they take, in order. */
  datatype Event =
    | GossipMsg(muteAt: Time, decayAt: Time, valid: bool, untilAt: Time, storeAt: Time)
    | ReqRespMsg(isRequest: bool, muteAt: Time, valid: bool, decayAt: Time,
                 untilAt: Time, storeAt: Time, inTime: bool)
    | GetPeerScore(decayAt: Time)
    | SetScore(action: Option<Action>, callback: Option<AppScore -> AppScore>,
               untilAt: Time, storeAt: Time, secondStoreAt: Time)
    | LastConnectionClosed(ban: Time, gossip: Time, reqResp: Time)

  /** A clock that stepped back, and a first reading, both count as no time elapsed. */
  function Elapsed(last: Option<Time>, now: Time): real {
    if last.Some? && now >= last.value then now - last.value else 0.0
  }

  function DecayGossip(s: PeerState, now: Time): PeerState {
    var elapsed := Elapsed(s.lastDecay, now);
    var s' := s.(lastDecay := Some(now));
    if elapsed != 0.0 then s'.(gossip := Some(ApplyDecay(s.Scores().gossip, elapsed))) else s'
  }

  function DecayReqResp(s: PeerState, now: Time): PeerState {
    var elapsed := Elapsed(s.lastDecay, now);
    var s' := s.(lastDecay := Some(now));
    if elapsed != 0.0 then s'.(reqResp := Some(ApplyDecay(s.Scores().reqResp, elapsed))) else s'
  }

  function DecayBoth(s: PeerState, now: Time): PeerState {
    var elapsed := Elapsed(s.lastDecay, now);
    var s' := s.(lastDecay := Some(now));
    if elapsed != 0.0
    then s'.(gossip := Some(ApplyDecay(s.Scores().gossip, elapsed)),
             reqResp := Some(ApplyDecay(s.Scores().reqResp, elapsed)))
    else s'
  }

  /** The score after decay and charge. */
  function ChargedGossip(s: PeerState, now: Time): PeerState {
    var s' := DecayGossip(s, now);
    s'.(gossip := Some(ValidateMsg(s'.Scores().gossip)))
  }

  function ChargedReqResp(s: PeerState, now: Time): PeerState {
    var s' := DecayReqResp(s, now);
    s'.(reqResp := Some(ValidateMsg(s'.Scores().reqResp)))
  }

  /** Storage operations a penalty amounts to. */
  function PenaltyOps(p: PenaltyType, untilAt: Time, storeAt: Time, secondStoreAt: Time): seq<Op> {
    match p
    case MuteGossip(d) => [Penalize(Gossip, untilAt + d, storeAt)]
    case MuteReqResp(d) => [Penalize(ReqResp, untilAt + d, storeAt)]
    case MuteBoth(d) => [Penalize(Gossip, untilAt + d, storeAt), Penalize(ReqResp, untilAt + d, secondStoreAt)]
    case BanFor(d) => [Penalize(Ban, untilAt + d.GetOr(BAN_PERIOD), storeAt)]
  }

  function UnpenaltyOps(u: Unpenalty): seq<Op> {
    match u
    case Unban => [Lift(Ban)]
    case UnmuteGossip => [Lift(Gossip)]
    case UnmuteReqResp => [Lift(ReqResp)]
    case UnmuteBoth => [Lift(Gossip), Lift(ReqResp)]
  }

  /** A valid message from an unmuted peer that drives the score below the threshold. */
  predicate AutoMutes(s: PeerState, e: Event) {
    match e
    case GossipMsg(muteAt, decayAt, valid, _, _) =>
      !Active(s.penalty, Gossip, muteAt) && valid && GetPenalty(GossipKind, ChargedGossip(s, decayAt).Scores()).Some?
    case ReqRespMsg(isRequest, muteAt, valid, decayAt, _, _, _) =>
      !Active(s.penalty, ReqResp, muteAt) && valid
      && GetPenalty(ReqRespKind(isRequest), ChargedReqResp(s, decayAt).Scores()).Some?
    case _ => false
  }

  /** Everything an event asks of the penalty store. */
  function StoreOps(s: PeerState, e: Event): seq<Op> {
    match e
    case GossipMsg(_, _, _, untilAt, storeAt) =>
      if AutoMutes(s, e) then PenaltyOps(MuteGossip(MUTE_DURATION), untilAt, storeAt, storeAt) else []
    case ReqRespMsg(_, _, _, _, untilAt, storeAt, _) =>
      if AutoMutes(s, e) then PenaltyOps(MuteReqResp(MUTE_DURATION), untilAt, storeAt, storeAt) else []
    case GetPeerScore(_) => []
    case SetScore(Some(ApplyPenalty(p)), _, untilAt, storeAt, secondStoreAt) =>
      PenaltyOps(p, untilAt, storeAt, secondStoreAt)
    case SetScore(Some(RemovePenalty(u)), _, _, _, _) => UnpenaltyOps(u)
    case SetScore(None, _, _, _, _) => []
    case LastConnectionClosed(ban, gossip, reqResp) => [CollectIfIdle(ban, gossip, reqResp)]
  }

  function StepScores(s: PeerState, e: Event): PeerState {
    match e
    case GossipMsg(muteAt, decayAt, valid, _, _) =>
      if Active(s.penalty, Gossip, muteAt) then s
      else if valid then ChargedGossip(s, decayAt)
      else DecayGossip(s, decayAt)
    case ReqRespMsg(_, muteAt, valid, decayAt, _, _, _) =>
      if Active(s.penalty, ReqResp, muteAt) || !valid then s
      else ChargedReqResp(s, decayAt)
    case GetPeerScore(now) => DecayBoth(s, now)
    case SetScore(_, Some(cb), _, _, _) =>
      var scores := cb(s.Scores());
      s.(gossip := Some(scores.gossip), reqResp := Some(scores.reqResp))
    case SetScore(_, None, _, _, _) => s
    case LastConnectionClosed(_, _, _) => PeerState(None, None, None, s.penalty)
  }

  function Step(s: PeerState, e: Event): PeerState {
    StepScores(s, e).(penalty := ApplyAll(s.penalty, StoreOps(s, e)))
  }

  /** The message reaches the application. */
  predicate Delivers(s: PeerState, e: Event) {
    match e
    case GossipMsg(muteAt, _, valid, _, _) =>
      !Active(s.penalty, Gossip, muteAt) && valid && !AutoMutes(s, e)
    case ReqRespMsg(_, muteAt, valid, _, _, _, inTime) =>
      !Active(s.penalty, ReqResp, muteAt) && valid && !AutoMutes(s, e) && inTime
    case _ => false
  }

  /** A charged message, as the handlers go through it. */
  lemma ChargedGossipStep(s: PeerState, e: Event)
    requires e.GossipMsg? && e.valid && !Active(s.penalty, Gossip, e.muteAt)
    ensures var charged := ChargedGossip(s, e.decayAt);
            var penalty := GetPenalty(GossipKind, charged.Scores());
            && (Delivers(s, e) <==> penalty.None?)
            && Step(s, e) == if penalty.None? then charged else charged.(penalty :=
                               ApplyAll(charged.penalty, PenaltyOps(penalty.value, e.untilAt, e.storeAt, e.storeAt)))
  {
  }

  lemma ChargedReqRespStep(s: PeerState, e: Event)
    requires e.ReqRespMsg? && e.valid && !Active(s.penalty, ReqResp, e.muteAt)
    ensures var charged := ChargedReqResp(s, e.decayAt);
            var penalty := GetPenalty(ReqRespKind(e.isRequest), charged.Scores());
            && (Delivers(s, e) <==> penalty.None? && e.inTime)
            && Step(s, e) == if penalty.None? then charged else charged.(penalty :=
                               ApplyAll(charged.penalty, PenaltyOps(penalty.value, e.untilAt, e.storeAt, e.storeAt)))
  {
  }

  // --- what each event means for the peer ---

  /** The score with the time since the last decay credited at 0.9 per second, never above zero. */
  function Due(score: real, last: Option<Time>, now: Time): real {
    if last.None? || now <= last.value then score
    else if score + 0.9 * (now - last.value) < 0.0 then score + 0.9 * (now - last.value)
    else 0.0
  }

  predicate GossipMuted(s: PeerState, now: Time) {
    s.penalty.Some? && s.penalty.value.muteGossipUntil.Some? && now < s.penalty.value.muteGossipUntil.value
  }

  predicate ReqRespMuted(s: PeerState, now: Time) {
    s.penalty.Some? && s.penalty.value.muteReqRespUntil.Some? && now < s.penalty.value.muteReqRespUntil.value
  }

  /**
    A gossip message of a muted peer changes nothing. Any other brings the score up to
    date; a valid one costs one point and is delivered exactly when at least -100 is
    left, and otherwise mutes the peer for gossip, and for nothing else, for a minute.
  */
  lemma GossipOutcome(s: PeerState, e: Event, ch: Channel, now: Time)
    requires e.GossipMsg? && e.storeAt <= now
    ensures var due := Due(s.Scores().gossip, s.lastDecay, e.decayAt);
            var muted, s' := GossipMuted(s, e.muteAt), Step(s, e);
            && (muted ==> s' == s)
            && (!muted ==> s'.Scores().gossip == (if e.valid then due - 1.0 else due) && s'.lastDecay == Some(e.decayAt))
            && s'.reqResp == s.reqResp
            && (Delivers(s, e) <==> !muted && e.valid && due >= -99.0)
            && (Active(s'.penalty, ch, now) <==>
                  || Active(s.penalty, ch, now)
                  || (ch == Gossip && !muted && e.valid && due < -99.0 && now < e.untilAt + 60.0))
  {
    if AutoMutes(s, e) {
      ApplyOne(s.penalty, Penalize(Gossip, e.untilAt + 60.0, e.storeAt));
    }
  }

  /**
    A request or response of a muted peer, or an invalid one, changes nothing. Any other
    brings the score up to date and costs one point; it is delivered exactly when at least
    -100 is left and it is in time, and below that mutes the peer for requests and
    responses, and for nothing else, for a minute.
  */
  lemma ReqRespOutcome(s: PeerState, e: Event, ch: Channel, now: Time)
    requires e.ReqRespMsg? && e.storeAt <= now
    ensures var due := Due(s.Scores().reqResp, s.lastDecay, e.decayAt);
            var charged, s' := e.valid && !ReqRespMuted(s, e.muteAt), Step(s, e);
            && (!charged ==> s' == s)
            && (charged ==> s'.Scores().reqResp == due - 1.0 && s'.lastDecay == Some(e.decayAt))
            && s'.gossip == s.gossip
            && (Delivers(s, e) <==> charged && due >= -99.0 && e.inTime)
            && (Active(s'.penalty, ch, now) <==>
                  || Active(s.penalty, ch, now)
                  || (ch == ReqResp && charged && due < -99.0 && now < e.untilAt + 60.0))
  {
    if AutoMutes(s, e) {
      ApplyOne(s.penalty, Penalize(ReqResp, e.untilAt + 60.0, e.storeAt));
    }
  }

  /** A query brings both scores up to the same reading and touches no penalty. */
  lemma QueryOutcome(s: PeerState, now: Time)
    ensures var s' := Step(s, GetPeerScore(now));
            && s'.Scores() == AppScore(Due(s.Scores().gossip, s.lastDecay, now), Due(s.Scores().reqResp, s.lastDecay, now))
            && s'.lastDecay == Some(now) && s'.penalty == s.penalty
  {
  }

  /**
    A penalty command: at any later time a channel is penalized exactly when it was
    before, or the command names it and its duration, thirty days for a ban without one,
    is not over. The scores are what the callback makes of them, if there is one.
  */
  lemma PenaltyOutcome(s: PeerState, p: PenaltyType, callback: Option<AppScore -> AppScore>,
                       untilAt: Time, storeAt: Time, secondStoreAt: Time, ch: Channel, now: Time)
    requires storeAt <= secondStoreAt <= now
    ensures var s' := Step(s, SetScore(Some(ApplyPenalty(p)), callback, untilAt, storeAt, secondStoreAt));
            && (Active(s'.penalty, ch, now) <==>
                  || Active(s.penalty, ch, now)
                  || match p
                     case MuteGossip(d) => ch == Gossip && now < untilAt + d
                     case MuteReqResp(d) => ch == ReqResp && now < untilAt + d
                     case MuteBoth(d) => ch != Ban && now < untilAt + d
                     case BanFor(Some(d)) => ch == Ban && now < untilAt + d
                     case BanFor(None) => ch == Ban && now < untilAt + 2_592_000.0)
            && s'.Scores() == (if callback.Some? then callback.value(s.Scores()) else s.Scores())
            && s'.lastDecay == s.lastDecay
  {
    match p {
      case MuteGossip(d) => ApplyOne(s.penalty, Penalize(Gossip, untilAt + d, storeAt));
      case MuteReqResp(d) => ApplyOne(s.penalty, Penalize(ReqResp, untilAt + d, storeAt));
      case MuteBoth(d) =>
        ApplyTwo(s.penalty, Penalize(Gossip, untilAt + d, storeAt), Penalize(ReqResp, untilAt + d, secondStoreAt));
      case BanFor(d) => ApplyOne(s.penalty, Penalize(Ban, untilAt + d.GetOr(BAN_PERIOD), storeAt));
    }
  }

  /** A lift ends exactly the penalties it names, at every time. */
  lemma LiftOutcome(s: PeerState, u: Unpenalty, callback: Option<AppScore -> AppScore>,
                    untilAt: Time, storeAt: Time, secondStoreAt: Time, ch: Channel, now: Time)
    ensures var s' := Step(s, SetScore(Some(RemovePenalty(u)), callback, untilAt, storeAt, secondStoreAt));
            && (Active(s'.penalty, ch, now) <==>
                  && Active(s.penalty, ch, now)
                  && match u
                     case Unban => ch != Ban
                     case UnmuteGossip => ch != Gossip
                     case UnmuteReqResp => ch != ReqResp
                     case UnmuteBoth => ch == Ban)
            && s'.Scores() == (if callback.Some? then callback.value(s.Scores()) else s.Scores())
            && s'.lastDecay == s.lastDecay
  {
    match u {
      case Unban => ApplyOne(s.penalty, Lift(Ban));
      case UnmuteGossip => ApplyOne(s.penalty, Lift(Gossip));
      case UnmuteReqResp => ApplyOne(s.penalty, Lift(ReqResp));
      case UnmuteBoth => ApplyTwo(s.penalty, Lift(Gossip), Lift(ReqResp));
    }
  }

  /** A score command without penalty or lift only lets the callback set the scores. */
  lemma CallbackOutcome(s: PeerState, callback: Option<AppScore -> AppScore>, untilAt: Time, storeAt: Time, secondStoreAt: Time)
    ensures var s' := Step(s, SetScore(None, callback, untilAt, storeAt, secondStoreAt));
            && s'.Scores() == (if callback.Some? then callback.value(s.Scores()) else s.Scores())
            && s'.lastDecay == s.lastDecay && s'.penalty == s.penalty
  {
  }

  /** The last close makes a new peer of it, except for a penalty that is still running. */
  lemma CloseOutcome(s: PeerState, ban: Time, gossip: Time, reqResp: Time)
    ensures var running := GossipMuted(s, gossip) || ReqRespMuted(s, reqResp)
                           || (s.penalty.Some? && s.penalty.value.banUntil.Some? && ban < s.penalty.value.banUntil.value);
            Step(s, LastConnectionClosed(ban, gossip, reqResp)) == if running then FRESH.(penalty := s.penalty) else FRESH
  {
    ApplyOne(s.penalty, CollectIfIdle(ban, gossip, reqResp));
  }

  // --- the node ---

  class ScoreManager {
    var gossipsubAppScore: map<PeerId, real>
    var reqRespAppScore: map<PeerId, real>
    var lastScoringDecayTime: map<PeerId, Time>

    constructor ()
      ensures gossipsubAppScore == map[] && reqRespAppScore == map[] && lastScoringDecayTime == map[]
    {
      gossipsubAppScore, reqRespAppScore, lastScoringDecayTime := map[], map[], map[];
    }

    method GetGossipsubAppScore(peer: PeerId) returns (r: Option<real>)
      ensures r == Lookup(gossipsubAppScore, peer)
    {
      r := Lookup(gossipsubAppScore, peer);
    }

    method GetReqRespScore(peer: PeerId) returns (r: Option<real>)
      ensures r == Lookup(reqRespAppScore, peer)
    {
      r := Lookup(reqRespAppScore, peer);
    }

    method UpdateGossipsubAppScore(peer: PeerId, score: real)
      modifies this`gossipsubAppScore
      ensures gossipsubAppScore == old(gossipsubAppScore)[peer := score]
    {
      gossipsubAppScore := gossipsubAppScore[peer := score];
    }

    method UpdateReqRespAppScore(peer: PeerId, score: real)
      modifies this`reqRespAppScore
      ensures reqRespAppScore == old(reqRespAppScore)[peer := score]
    {
      reqRespAppScore := reqRespAppScore[peer := score];
    }

    method UpdateLastScoringDecayTime(peer: PeerId, time: Time) returns (previous: Option<Time>)
      modifies this`lastScoringDecayTime
      ensures previous == Lookup(old(lastScoringDecayTime), peer)
      ensures lastScoringDecayTime == old(lastScoringDecayTime)[peer := time]
    {
      previous := Lookup(lastScoringDecayTime, peer);
      lastScoringDecayTime := lastScoringDecayTime[peer := time];
    }

    method RemovePeer(peer: PeerId)
      modifies this
      ensures gossipsubAppScore == old(gossipsubAppScore) - {peer}
      ensures reqRespAppScore == old(reqRespAppScore) - {peer}
      ensures lastScoringDecayTime == old(lastScoringDecayTime) - {peer}
    {
      gossipsubAppScore := gossipsubAppScore - {peer};
      reqRespAppScore := reqRespAppScore - {peer};
      lastScoringDecayTime := lastScoringDecayTime - {peer};
    }
  }

  /** The part of the node that keeps scores and penalties. */
  class ScoringNode {
    const scores: ScoreManager
    const storage: PenaltyPeerStorage

    constructor ()
      ensures fresh(scores) && fresh(storage)
      ensures forall q :: Peer(q) == FRESH
    {
      scores := new ScoreManager();
      storage := new PenaltyPeerStorage();
    }

    ghost function Peer(q: PeerId): PeerState
      reads scores, storage
    {
      PeerState(Lookup(scores.gossipsubAppScore, q), Lookup(scores.reqRespAppScore, q),
                Lookup(scores.lastScoringDecayTime, q), Lookup(storage.penalties, q))
    }

    /** Peer p is now in state s and every other peer is as it was. */
    twostate predicate Moved(p: PeerId, s: PeerState)
      reads scores, storage
    {
      forall q :: Peer(q) == if q == p then s else old(Peer(q))
    }

    method GetAllScores(peer: PeerId) returns (r: AppScore)
      ensures r == Peer(peer).Scores()
    {
      var gossip := scores.GetGossipsubAppScore(peer);
      var reqResp := scores.GetReqRespScore(peer);
      r := AppScore(gossip.GetOr(0.0), reqResp.GetOr(0.0));
    }

    method GetElapsedDecayTime(peer: PeerId, now: Time) returns (elapsed: real)
      modifies scores
      ensures elapsed == Elapsed(old(Peer(peer)).lastDecay, now)
      ensures Moved(peer, old(Peer(peer)).(lastDecay := Some(now)))
    {
      var last := scores.UpdateLastScoringDecayTime(peer, now);
      elapsed := if last.Some? && now >= last.value then now - last.value else 0.0;
    }

    method ApplyPenalty(peer: PeerId, penalty: PenaltyType, untilAt: Time, storeAt: Time, secondStoreAt: Time)
      modifies storage
      ensures Moved(peer, old(Peer(peer)).(penalty :=
                ApplyAll(old(Peer(peer)).penalty, PenaltyOps(penalty, untilAt, storeAt, secondStoreAt))))
    {
      ghost var was := Peer(peer).penalty;
      match penalty {
        case MuteGossip(d) =>
          ApplyOne(was, Penalize(Gossip, untilAt + d, storeAt));
          storage.MutePeerGossip(peer, untilAt + d, storeAt);
        case MuteReqResp(d) =>
          ApplyOne(was, Penalize(ReqResp, untilAt + d, storeAt));
          storage.MutePeerReqResp(peer, untilAt + d, storeAt);
        case MuteBoth(d) =>
          ApplyTwo(was, Penalize(Gossip, untilAt + d, storeAt), Penalize(ReqResp, untilAt + d, secondStoreAt));
          storage.MutePeerGossip(peer, untilAt + d, storeAt);
          storage.MutePeerReqResp(peer, untilAt + d, secondStoreAt);
        case BanFor(d) =>
          var until := untilAt + d.GetOr(BAN_PERIOD);
          ApplyOne(was, Penalize(Ban, until, storeAt));
          storage.BanPeer(peer, until, storeAt);
      }
    }

    method RemovePenalty(peer: PeerId, unpenalty: Unpenalty)
      modifies storage
      ensures Moved(peer, old(Peer(peer)).(penalty := ApplyAll(old(Peer(peer)).penalty, UnpenaltyOps(unpenalty))))
    {
      ghost var was := Peer(peer).penalty;
      match unpenalty {
        case Unban =>
          ApplyOne(was, Lift(Ban));
          storage.UnbanPeer(peer);
        case UnmuteBoth =>
          ApplyTwo(was, Lift(Gossip), Lift(ReqResp));
          storage.UnmutePeerGossip(peer);
          storage.UnmutePeerReqResp(peer);
        case UnmuteGossip =>
          ApplyOne(was, Lift(Gossip));
          storage.UnmutePeerGossip(peer);
        case UnmuteReqResp =>
          ApplyOne(was, Lift(ReqResp));
          storage.UnmutePeerReqResp(peer);
      }
    }

    /** `handle_gossip_msg`; `valid` is the outcome of the checks on the message itself. */
    method HandleGossipMsg(peer: PeerId, muteAt: Time, decayAt: Time, valid: bool, untilAt: Time, storeAt: Time)
      returns (delivered: bool)
      modifies scores, storage
      ensures var e := GossipMsg(muteAt, decayAt, valid, untilAt, storeAt);
              delivered == Delivers(old(Peer(peer)), e) && Moved(peer, Step(old(Peer(peer)), e))
    {
      var muted := storage.IsGossipMuted(peer, muteAt);
      if muted {
        return false;
      }
      var elapsed := GetElapsedDecayTime(peer, decayAt);
      if elapsed != 0.0 {
        var current := GetAllScores(peer);
        scores.UpdateGossipsubAppScore(peer, ApplyDecay(current.gossip, elapsed));
      }
      ghost var decayed := DecayGossip(old(Peer(peer)), decayAt);
      assert Moved(peer, decayed);
      if !valid {
        return false;
      }
      ChargedGossipStep(old(Peer(peer)), GossipMsg(muteAt, decayAt, valid, untilAt, storeAt));
      var oldScore := scores.GetGossipsubAppScore(peer);
      assert oldScore == decayed.gossip;
      scores.UpdateGossipsubAppScore(peer, ValidateMsg(oldScore.GetOr(0.0)));
      assert Moved(peer, decayed.(gossip := Some(ValidateMsg(decayed.Scores().gossip))));
      assert Peer(peer) == ChargedGossip(old(Peer(peer)), decayAt);
      var peerScore := GetAllScores(peer);
      var penalty := GetPenalty(GossipKind, peerScore);
      if penalty.Some? {
        ApplyPenalty(peer, penalty.value, untilAt, storeAt, storeAt);
        return false;
      }
      return true;
    }

    method DecayRequestResponseScore(peer: PeerId, now: Time)
      modifies scores
      ensures Moved(peer, DecayReqResp(old(Peer(peer)), now))
    {
      var elapsed := GetElapsedDecayTime(peer, now);
      if elapsed != 0.0 {
        var current := GetAllScores(peer);
        scores.UpdateReqRespAppScore(peer, ApplyDecay(current.reqResp, elapsed));
      }
    }

    /** The score part of `handle_message_event`; `inTime` is the age check made afterwards. */
    method HandleReqRespMsg(peer: PeerId, isRequest: bool, muteAt: Time, valid: bool, decayAt: Time,
                            untilAt: Time, storeAt: Time, inTime: bool)
      returns (delivered: bool)
      modifies scores, storage
      ensures var e := ReqRespMsg(isRequest, muteAt, valid, decayAt, untilAt, storeAt, inTime);
              delivered == Delivers(old(Peer(peer)), e) && Moved(peer, Step(old(Peer(peer)), e))
    {
      var muted := storage.IsReqRespMuted(peer, muteAt);
      if muted {
        return false;
      }
      if !valid {
        return false;
      }
      ChargedReqRespStep(Peer(peer), ReqRespMsg(isRequest, muteAt, valid, decayAt, untilAt, storeAt, inTime));
      DecayRequestResponseScore(peer, decayAt);
      ghost var decayed := DecayReqResp(old(Peer(peer)), decayAt);
      assert Moved(peer, decayed);
      var oldScore := scores.GetReqRespScore(peer);
      assert oldScore == decayed.reqResp;
      scores.UpdateReqRespAppScore(peer, ValidateMsg(oldScore.GetOr(0.0)));
      assert Moved(peer, decayed.(reqResp := Some(ValidateMsg(decayed.Scores().reqResp))));
      assert Peer(peer) == ChargedReqResp(old(Peer(peer)), decayAt);
      var peerScore := GetAllScores(peer);
      var penalty := GetPenalty(ReqRespKind(isRequest), peerScore);
      if penalty.Some? {
        ApplyPenalty(peer, penalty.value, untilAt, storeAt, storeAt);
        return false;
      }
      return inTime;
    }

    method HandleGetPeerScore(peer: PeerId, now: Time) returns (score: AppScore)
      modifies scores
      ensures Moved(peer, Step(old(Peer(peer)), GetPeerScore(now)))
      ensures score == Peer(peer).Scores()
    {
      score := GetAllScores(peer);
      var elapsed := GetElapsedDecayTime(peer, now);
      if elapsed != 0.0 {
        var gossip := ApplyDecay(score.gossip, elapsed);
        scores.UpdateGossipsubAppScore(peer, gossip);
        var reqResp := ApplyDecay(score.reqResp, elapsed);
        scores.UpdateReqRespAppScore(peer, reqResp);
        score := AppScore(gossip, reqResp);
      }
    }

    method HandleSetScore(peer: PeerId, action: Option<Action>, callback: Option<AppScore -> AppScore>,
                          untilAt: Time, storeAt: Time, secondStoreAt: Time)
      modifies scores, storage
      ensures Moved(peer, Step(old(Peer(peer)), SetScore(action, callback, untilAt, storeAt, secondStoreAt)))
    {
      if action.Some? {
        match action.value {
          case ApplyPenalty(p) =>
            ApplyPenalty(peer, p, untilAt, storeAt, secondStoreAt);
          case RemovePenalty(u) =>
            RemovePenalty(peer, u);
        }
      }
      if callback.Some? {
        var current := GetAllScores(peer);
        var updated := callback.value(current);
        scores.UpdateGossipsubAppScore(peer, updated.gossip);
        scores.UpdateReqRespAppScore(peer, updated.reqResp);
      }
    }

    method OnLastConnectionClosed(peer: PeerId, ban: Time, gossip: Time, reqResp: Time)
      modifies scores, storage
      ensures Moved(peer, Step(old(Peer(peer)), LastConnectionClosed(ban, gossip, reqResp)))
    {
      ApplyOne(Peer(peer).penalty, CollectIfIdle(ban, gossip, reqResp));
      scores.RemovePeer(peer);
      storage.CollectOnClose(peer, ban, gossip, reqResp);
    }
  }

  lemma ApplyOne(info: Option<PenaltyInfo>, op: Op)
    ensures ApplyAll(info, [op]) == Apply(info, op)
  {
  }

  lemma ApplyTwo(info: Option<PenaltyInfo>, a: Op, b: Op)
    ensures ApplyAll(info, [a, b]) == Apply(Apply(info, a), b)
  {
    assert [a, b][..1] == [a];
    ApplyOne(info, a);
  }
}
