/**
  The expiring penalty store. Times are `real` seconds; every clock reading the
  source takes is a parameter.
*/
module Penalties {
  import opened Basics

  type Time = real

  datatype Channel = Gossip | ReqResp | Ban

  datatype PenaltyInfo = PenaltyInfo(
    muteGossipUntil: Option<Time>,
    muteReqRespUntil: Option<Time>,
    banUntil: Option<Time>)
  {
    function Until(ch: Channel): Option<Time> {
      match ch
      case Gossip => muteGossipUntil
      case ReqResp => muteReqRespUntil
      case Ban => banUntil
    }

    function Set(ch: Channel, until: Option<Time>): PenaltyInfo {
      match ch
      case Gossip => this.(muteGossipUntil := until)
      case ReqResp => this.(muteReqRespUntil := until)
      case Ban => this.(banUntil := until)
    }
  }

  const NO_PENALTY: PenaltyInfo := PenaltyInfo(None, None, None)

  function Max(a: Time, b: Time): Time {
    if a < b then b else a
  }

  predicate Later(until: Option<Time>, now: Time) {
    until.Some? && until.value > now
  }

  /** The store's answer for one channel: `is_gossip_muted`, `is_req_resp_muted`, `is_banned`. */
  predicate Active(info: Option<PenaltyInfo>, ch: Channel, now: Time) {
    info.Some? && Later(info.value.Until(ch), now)
  }

  /** Operations on one peer's entry, each with the clock readings it takes. */
  datatype Op =
    | Penalize(ch: Channel, until: Time, now: Time)
    | Lift(ch: Channel)
    | CollectIfIdle(ban: Time, gossip: Time, reqResp: Time)

  predicate HasActivePenalties(info: Option<PenaltyInfo>, ban: Time, gossip: Time, reqResp: Time) {
    Active(info, Ban, ban) || Active(info, Gossip, gossip) || Active(info, ReqResp, reqResp)
  }

  /** An active penalty is extended to the later end; an expired one is replaced. */
  function Apply(info: Option<PenaltyInfo>, op: Op): Option<PenaltyInfo> {
    match op
    case Penalize(ch, until, now) =>
      var entry := info.GetOr(NO_PENALTY);
      var former := entry.Until(ch);
      Some(entry.Set(ch, Some(if Later(former, now) then Max(former.value, until) else until)))
    case Lift(ch) =>
      if info.Some? then Some(info.value.Set(ch, None)) else None
    case CollectIfIdle(ban, gossip, reqResp) =>
      if HasActivePenalties(info, ban, gossip, reqResp) then info else None
  }

  function ApplyAll(info: Option<PenaltyInfo>, ops: seq<Op>): Option<PenaltyInfo> {
    if ops == [] then info else Apply(ApplyAll(info, ops[..|ops| - 1]), ops[|ops| - 1])
  }

  class PenaltyPeerStorage {
    var penalties: map<PeerId, PenaltyInfo>

    constructor ()
      ensures penalties == map[]
    {
      penalties := map[];
    }

    /** Entry `peer` becomes what `op` makes of it and no other entry changes. */
    twostate predicate Applied(peer: PeerId, op: Op)
      reads this
    {
      forall q :: Lookup(penalties, q) ==
        if q == peer then Apply(Lookup(old(penalties), q), op) else Lookup(old(penalties), q)
    }

    method IsGossipMuted(peer: PeerId, now: Time) returns (r: bool)
      ensures r <==> Active(Lookup(penalties, peer), Gossip, now)
    {
      r := peer in penalties && Later(penalties[peer].muteGossipUntil, now);
    }

    method IsReqRespMuted(peer: PeerId, now: Time) returns (r: bool)
      ensures r <==> Active(Lookup(penalties, peer), ReqResp, now)
    {
      r := peer in penalties && Later(penalties[peer].muteReqRespUntil, now);
    }

    method IsBanned(peer: PeerId, now: Time) returns (r: bool)
      ensures r <==> Active(Lookup(penalties, peer), Ban, now)
    {
      r := peer in penalties && Later(penalties[peer].banUntil, now);
    }

    method MutePeerGossip(peer: PeerId, until: Time, now: Time)
      modifies this
      ensures Applied(peer, Penalize(Gossip, until, now))
    {
      var penalty := if peer in penalties then penalties[peer] else PenaltyInfo(None, None, None);
      if penalty.muteGossipUntil.Some? && penalty.muteGossipUntil.value > now {
        penalty := penalty.(muteGossipUntil := Some(Max(penalty.muteGossipUntil.value, until)));
      } else {
        penalty := penalty.(muteGossipUntil := Some(until));
      }
      penalties := penalties[peer := penalty];
    }

    method MutePeerReqResp(peer: PeerId, until: Time, now: Time)
      modifies this
      ensures Applied(peer, Penalize(ReqResp, until, now))
    {
      var penalty := if peer in penalties then penalties[peer] else PenaltyInfo(None, None, None);
      if penalty.muteReqRespUntil.Some? && penalty.muteReqRespUntil.value > now {
        penalty := penalty.(muteReqRespUntil := Some(Max(penalty.muteReqRespUntil.value, until)));
      } else {
        penalty := penalty.(muteReqRespUntil := Some(until));
      }
      penalties := penalties[peer := penalty];
    }

    method BanPeer(peer: PeerId, until: Time, now: Time)
      modifies this
      ensures Applied(peer, Penalize(Ban, until, now))
    {
      var penalty := if peer in penalties then penalties[peer] else PenaltyInfo(None, None, None);
      if penalty.banUntil.Some? && penalty.banUntil.value > now {
        penalty := penalty.(banUntil := Some(Max(penalty.banUntil.value, until)));
      } else {
        penalty := penalty.(banUntil := Some(until));
      }
      penalties := penalties[peer := penalty];
    }

    method UnmutePeerGossip(peer: PeerId)
      modifies this
      ensures Applied(peer, Lift(Gossip))
    {
      if peer in penalties {
        penalties := penalties[peer := penalties[peer].(muteGossipUntil := None)];
      }
    }

    method UnmutePeerReqResp(peer: PeerId)
      modifies this
      ensures Applied(peer, Lift(ReqResp))
    {
      if peer in penalties {
        penalties := penalties[peer := penalties[peer].(muteReqRespUntil := None)];
      }
    }

    method UnbanPeer(peer: PeerId)
      modifies this
      ensures Applied(peer, Lift(Ban))
    {
      if peer in penalties {
        penalties := penalties[peer := penalties[peer].(banUntil := None)];
      }
    }

    method HasActive(peer: PeerId, ban: Time, gossip: Time, reqResp: Time) returns (r: bool)
      ensures r <==> HasActivePenalties(Lookup(penalties, peer), ban, gossip, reqResp)
    {
      if peer in penalties {
        var penalty := penalties[peer];
        if Later(penalty.banUntil, ban) {
          return true;
        }
        if Later(penalty.muteGossipUntil, gossip) {
          return true;
        }
        if Later(penalty.muteReqRespUntil, reqResp) {
          return true;
        }
      }
      return false;
    }

    method RemovePeer(peer: PeerId)
      modifies this
      ensures penalties == old(penalties) - {peer}
    {
      penalties := penalties - {peer};
    }

    /** What the node does when the last connection to a peer closes. */
    method CollectOnClose(peer: PeerId, ban: Time, gossip: Time, reqResp: Time)
      modifies this
      ensures Applied(peer, CollectIfIdle(ban, gossip, reqResp))
    {
      var active := HasActive(peer, ban, gossip, reqResp);
      if !active {
        RemovePeer(peer);
      }
    }
  }

  // --- the reference that never forgets ---

  /** Every end time imposed on a channel since it was last lifted. */
  function Kept(ops: seq<Op>, ch: Channel): seq<Time> {
    if ops == [] then []
    else
      var before := Kept(ops[..|ops| - 1], ch);
      match ops[|ops| - 1]
      case Penalize(c, until, _) => if c == ch then before + [until] else before
      case Lift(c) => if c == ch then [] else before
      case CollectIfIdle(_, _, _) => before
  }

  ghost predicate KeptActive(ops: seq<Op>, ch: Channel, now: Time) {
    exists i :: 0 <= i < |Kept(ops, ch)| && Kept(ops, ch)[i] > now
  }

  /** Readings taken by an operation, in order, with the time they end at. */
  function End(op: Op, start: Time): Time {
    match op
    case Penalize(_, _, now) => now
    case Lift(_) => start
    case CollectIfIdle(_, _, reqResp) => reqResp
  }

  predicate Ordered(op: Op, start: Time) {
    match op
    case Penalize(_, _, now) => start <= now
    case Lift(_) => true
    case CollectIfIdle(ban, gossip, reqResp) => start <= ban <= gossip <= reqResp
  }

  /** The clock reading after a run that starts at `start`. */
  function EndAll(ops: seq<Op>, start: Time): Time {
    if ops == [] then start else End(ops[|ops| - 1], EndAll(ops[..|ops| - 1], start))
  }

  /** The clock never steps back over the run. */
  predicate OrderedAll(ops: seq<Op>, start: Time) {
    ops == [] ||
    (OrderedAll(ops[..|ops| - 1], start) && Ordered(ops[|ops| - 1], EndAll(ops[..|ops| - 1], start)))
  }

  lemma KeptSnoc(ops: seq<Op>, ch: Channel, now: Time)
    requires ops != []
    ensures var front, last := ops[..|ops| - 1], ops[|ops| - 1];
            KeptActive(ops, ch, now) <==>
              match last
              case Penalize(c, until, _) => KeptActive(front, ch, now) || (c == ch && until > now)
              case Lift(c) => c != ch && KeptActive(front, ch, now)
              case CollectIfIdle(_, _, _) => KeptActive(front, ch, now)
  {
    var front, last := ops[..|ops| - 1], ops[|ops| - 1];
    var before, after := Kept(front, ch), Kept(ops, ch);
    if last.Penalize? && last.ch == ch {
      assert after[|before|] == last.until;
      if i :| 0 <= i < |before| && before[i] > now {
        assert after[i] > now;
      }
    }
  }

  /**
    Refinement: on every run with a clock that does not step back, at every later
    time and on every channel, the store answers as the reference that keeps every
    penalty since the last removal and never collects.
  */
  lemma {:induction false} PenaltyRefinement(ops: seq<Op>, start: Time, ch: Channel, now: Time)
    requires OrderedAll(ops, start) && EndAll(ops, start) <= now
    ensures Active(ApplyAll(None, ops), ch, now) <==> KeptActive(ops, ch, now)
  {
    if ops != [] {
      var front, last := ops[..|ops| - 1], ops[|ops| - 1];
      PenaltyRefinement(front, start, ch, now);
      KeptSnoc(ops, ch, now);
    }
  }

  /**
    Collection: when the last connection closes, the entry is forgotten exactly when no
    penalty ever imposed and not lifted since is still running at its channel's reading,
    and otherwise kept whole.
  */
  lemma CollectedIffIdle(ops: seq<Op>, start: Time, ban: Time, gossip: Time, reqResp: Time)
    requires OrderedAll(ops, start) && EndAll(ops, start) <= ban <= gossip <= reqResp
    ensures var before, after := ApplyAll(None, ops), ApplyAll(None, ops + [CollectIfIdle(ban, gossip, reqResp)]);
            var running := KeptActive(ops, Ban, ban) || KeptActive(ops, Gossip, gossip) || KeptActive(ops, ReqResp, reqResp);
            after == if running then before else None
  {
    assert (ops + [CollectIfIdle(ban, gossip, reqResp)])[..|ops|] == ops;
    PenaltyRefinement(ops, start, Ban, ban);
    PenaltyRefinement(ops, start, Gossip, gossip);
    PenaltyRefinement(ops, start, ReqResp, reqResp);
  }
}
