/** What the score accounting guarantees over whole runs of one peer's events. */
module RateLimit {
  import opened Basics
  import opened Penalties
  import opened Scoring

  function Run(s: PeerState, events: seq<Event>): PeerState {
    if events == [] then s else Step(Run(s, events[..|events| - 1]), events[|events| - 1])
  }

  lemma RunSnoc(s: PeerState, events: seq<Event>, e: Event)
    ensures Run(s, events + [e]) == Step(Run(s, events), e)
  {
    assert (events + [e])[..|events|] == events;
  }

  // --- a node with many peers ---

  function Only(events: seq<(PeerId, Event)>, p: PeerId): seq<Event> {
    if events == [] then []
    else
      var (q, e) := events[|events| - 1];
      Only(events[..|events| - 1], p) + if q == p then [e] else []
  }

  function NodeRun(n: PeerId -> PeerState, events: seq<(PeerId, Event)>): PeerId -> PeerState {
    if events == [] then n
    else
      var before := NodeRun(n, events[..|events| - 1]);
      var (q, e) := events[|events| - 1];
      p => if p == q then Step(before(p), e) else before(p)
  }

  /** Peers do not influence each other: a node run restricted to p is a run of p. */
  lemma {:induction false} PeersIndependent(n: PeerId -> PeerState, events: seq<(PeerId, Event)>, p: PeerId)
    ensures NodeRun(n, events)(p) == Run(n(p), Only(events, p))
  {
    if events != [] {
      var front := events[..|events| - 1];
      var (q, e) := events[|events| - 1];
      PeersIndependent(n, front, p);
      var own := Only(front, p);
      if q == p {
        assert (own + [e])[..|own|] == own;
      } else {
        assert own + [] == own;
      }
    }
  }

  // --- time ---

  function EndOf(e: Event): Time {
    match e
    case GossipMsg(_, _, _, _, storeAt) => storeAt
    case ReqRespMsg(_, _, _, _, _, storeAt, _) => storeAt
    case GetPeerScore(now) => now
    case SetScore(_, _, _, _, secondStoreAt) => secondStoreAt
    case LastConnectionClosed(_, _, reqResp) => reqResp
  }

  predicate OrderedEvent(e: Event, start: Time) {
    match e
    case GossipMsg(muteAt, decayAt, _, untilAt, storeAt) => start <= muteAt <= decayAt <= untilAt <= storeAt
    case ReqRespMsg(_, muteAt, _, decayAt, untilAt, storeAt, _) => start <= muteAt <= decayAt <= untilAt <= storeAt
    case GetPeerScore(now) => start <= now
    case SetScore(_, _, untilAt, storeAt, secondStoreAt) => start <= untilAt <= storeAt <= secondStoreAt
    case LastConnectionClosed(ban, gossip, reqResp) => start <= ban <= gossip <= reqResp
  }

  function EndOfRun(events: seq<Event>, start: Time): Time {
    if events == [] then start else EndOf(events[|events| - 1])
  }

  /** The clock never steps back over the run. */
  predicate OrderedRun(events: seq<Event>, start: Time) {
    events == [] ||
    var front := events[..|events| - 1];
    OrderedRun(front, start) && OrderedEvent(events[|events| - 1], EndOfRun(front, start))
  }

  lemma OrderedSnoc(events: seq<Event>, e: Event, start: Time)
    ensures OrderedRun(events + [e], start) <==>
              OrderedRun(events, start) && OrderedEvent(e, EndOfRun(events, start))
    ensures EndOfRun(events + [e], start) == EndOf(e)
  {
    assert (events + [e])[..|events|] == events;
  }

  lemma {:induction false} RunAdvancesClock(events: seq<Event>, start: Time)
    requires OrderedRun(events, start)
    ensures start <= EndOfRun(events, start)
  {
    if events != [] {
      RunAdvancesClock(events[..|events| - 1], start);
    }
  }

  // --- rate bound ---

  /** No score command and no last close; score queries may occur. */
  predicate Undisturbed(events: seq<Event>) {
    forall i :: 0 <= i < |events| ==> !events[i].SetScore? && !events[i].LastConnectionClosed?
  }

  predicate NoQuery(events: seq<Event>) {
    forall i :: 0 <= i < |events| ==> !events[i].GetPeerScore?
  }

  function GossipDelivered(s: PeerState, events: seq<Event>): nat {
    if events == [] then 0
    else
      var front, last := events[..|events| - 1], events[|events| - 1];
      GossipDelivered(s, front) + if last.GossipMsg? && Delivers(Run(s, front), last) then 1 else 0
  }

  function ReqRespDelivered(s: PeerState, events: seq<Event>): nat {
    if events == [] then 0
    else
      var front, last := events[..|events| - 1], events[|events| - 1];
      ReqRespDelivered(s, front) + if last.ReqRespMsg? && Delivers(Run(s, front), last) then 1 else 0
  }

  /** A score, with everything below the mute threshold counted as the threshold. */
  function Level(score: real): real {
    if score < MUTE_THRESHOLD then MUTE_THRESHOLD else score
  }

  function Positive(score: real): real {
    if score > 0.0 then score else 0.0
  }

  /** The decay clock, or the start of the stretch while nothing has been decayed in it. */
  function DecayedTo(s: PeerState, start: Time): Time {
    if s.lastDecay.Some? && s.lastDecay.value >= start then s.lastDecay.value else start
  }

  ghost predicate Touched(s: PeerState, start: Time) {
    s.lastDecay.Some? && s.lastDecay.value >= start
  }

  ghost predicate ClockBefore(s: PeerState, t: Time) {
    s.lastDecay.Some? ==> s.lastDecay.value <= t
  }

  /**
    Delivered messages plus remaining levels, for each protocol, and for both together
    as long as no query has credited the same time to both.
  */
  ghost predicate Budget(s0: PeerState, s: PeerState, start: Time, gossip: nat, reqResp: nat, queried: bool) {
    var g0, r0 := s0.Scores().gossip, s0.Scores().reqResp;
    var g, r := s.Scores().gossip, s.Scores().reqResp;
    var credit := DECAY_RATE_PER_SEC * (DecayedTo(s, start) - start);
    && (!Touched(s, start) ==> g == g0 && r == r0 && gossip == 0 && reqResp == 0)
    && gossip as real + Level(g) <= Positive(g0) + credit
    && reqResp as real + Level(r) <= Positive(r0) + credit
    && (!queried ==>
          (gossip + reqResp) as real + Level(g) + Level(r) <= Positive(g0) + Positive(r0) + credit)
  }

  /** Decaying one score moves the shared clock, so the time is credited only there. */
  lemma BudgetDecay(s0: PeerState, s: PeerState, start: Time, now: Time, gossip: nat, reqResp: nat, queried: bool)
    requires Budget(s0, s, start, gossip, reqResp, queried) && start <= now && ClockBefore(s, now)
    ensures Budget(s0, DecayGossip(s, now), start, gossip, reqResp, queried)
    ensures Budget(s0, DecayReqResp(s, now), start, gossip, reqResp, queried)
    ensures Budget(s0, DecayBoth(s, now), start, gossip, reqResp, true)
  {
  }

  lemma BudgetCharge(s0: PeerState, s: PeerState, start: Time, gossip: nat, reqResp: nat, queried: bool, delivered: bool)
    requires Budget(s0, s, start, gossip, reqResp, queried) && Touched(s, start)
    ensures var score := ValidateMsg(s.Scores().gossip);
            (delivered ==> score >= MUTE_THRESHOLD) ==>
              Budget(s0, s.(gossip := Some(score)), start, gossip + if delivered then 1 else 0, reqResp, queried)
    ensures var score := ValidateMsg(s.Scores().reqResp);
            (delivered ==> score >= MUTE_THRESHOLD) ==>
              Budget(s0, s.(reqResp := Some(score)), start, gossip, reqResp + if delivered then 1 else 0, queried)
  {
  }

  lemma BudgetGossip(s0: PeerState, s: PeerState, start: Time, gossip: nat, reqResp: nat, queried: bool, e: Event)
    requires Budget(s0, s, start, gossip, reqResp, queried) && e.GossipMsg?
    requires start <= e.decayAt && ClockBefore(s, e.decayAt)
    ensures Budget(s0, StepScores(s, e), start, gossip + if Delivers(s, e) then 1 else 0, reqResp, queried)
  {
    if !Active(s.penalty, Gossip, e.muteAt) {
      BudgetDecay(s0, s, start, e.decayAt, gossip, reqResp, queried);
      if e.valid {
        BudgetCharge(s0, DecayGossip(s, e.decayAt), start, gossip, reqResp, queried, Delivers(s, e));
      }
    }
  }

  lemma BudgetReqResp(s0: PeerState, s: PeerState, start: Time, gossip: nat, reqResp: nat, queried: bool, e: Event)
    requires Budget(s0, s, start, gossip, reqResp, queried) && e.ReqRespMsg?
    requires start <= e.decayAt && ClockBefore(s, e.decayAt)
    ensures Budget(s0, StepScores(s, e), start, gossip, reqResp + if Delivers(s, e) then 1 else 0, queried)
  {
    if !Active(s.penalty, ReqResp, e.muteAt) && e.valid {
      BudgetDecay(s0, s, start, e.decayAt, gossip, reqResp, queried);
      BudgetCharge(s0, DecayReqResp(s, e.decayAt), start, gossip, reqResp, queried, Delivers(s, e));
    }
  }

  lemma BudgetEvent(s0: PeerState, s: PeerState, start: Time, gossip: nat, reqResp: nat, queried: bool, e: Event)
    requires Budget(s0, s, start, gossip, reqResp, queried)
    requires e.GossipMsg? || e.ReqRespMsg? || e.GetPeerScore?
    requires start <= e.decayAt && ClockBefore(s, e.decayAt)
    ensures Budget(s0, Step(s, e), start,
                   gossip + if e.GossipMsg? && Delivers(s, e) then 1 else 0,
                   reqResp + if e.ReqRespMsg? && Delivers(s, e) then 1 else 0,
                   queried || e.GetPeerScore?)
  {
    match e {
      case GossipMsg(_, _, _, _, _) =>
        BudgetGossip(s0, s, start, gossip, reqResp, queried, e);
      case ReqRespMsg(_, _, _, _, _, _, _) =>
        BudgetReqResp(s0, s, start, gossip, reqResp, queried, e);
      case GetPeerScore(now) =>
        BudgetDecay(s0, s, start, now, gossip, reqResp, queried);
    }
  }

  /** A message or query leaves the decay clock at a reading of its own. */
  lemma ClockAfter(s: PeerState, e: Event, now: Time)
    requires ClockBefore(s, now) && OrderedEvent(e, now)
    requires e.GossipMsg? || e.ReqRespMsg? || e.GetPeerScore?
    ensures ClockBefore(Step(s, e), EndOf(e))
  {
  }

  lemma {:induction false} BudgetRun(s: PeerState, events: seq<Event>, start: Time)
    requires ClockBefore(s, start) && OrderedRun(events, start) && Undisturbed(events)
    ensures Budget(s, Run(s, events), start, GossipDelivered(s, events), ReqRespDelivered(s, events), !NoQuery(events))
    ensures ClockBefore(Run(s, events), EndOfRun(events, start))
  {
    if events != [] {
      var front, last := events[..|events| - 1], events[|events| - 1];
      BudgetRun(s, front, start);
      RunAdvancesClock(front, start);
      assert NoQuery(events) <==> NoQuery(front) && !last.GetPeerScore?;
      ClockAfter(Run(s, front), last, EndOfRun(front, start));
      BudgetEvent(s, Run(s, front), start, GossipDelivered(s, front), ReqRespDelivered(s, front), !NoQuery(front), last);
    }
  }

  /**
    Rate bound: in any stretch without score command or last close, the deliveries of
    each protocol are at most 100 plus 0.9 per second. Without a query in the stretch,
    both protocols together are at most 200 plus 0.9 per second. Any positive score
    that a command left before the stretch comes on top.
  */
  lemma RateBound(s: PeerState, events: seq<Event>, start: Time)
    requires ClockBefore(s, start) && OrderedRun(events, start) && Undisturbed(events)
    ensures var elapsed := EndOfRun(events, start) - start;
            var g0, r0 := Positive(s.Scores().gossip), Positive(s.Scores().reqResp);
            && GossipDelivered(s, events) as real <= 100.0 + 0.9 * elapsed + g0
            && ReqRespDelivered(s, events) as real <= 100.0 + 0.9 * elapsed + r0
            && (NoQuery(events) ==>
                  (GossipDelivered(s, events) + ReqRespDelivered(s, events)) as real
                  <= 200.0 + 0.9 * elapsed + g0 + r0)
  {
    BudgetRun(s, events, start);
    RunAdvancesClock(events, start);
  }

  /** n valid gossip messages at one instant. */
  function Burst(n: nat): (events: seq<Event>)
    ensures |events| == n
  {
    seq(n, _ => GossipMsg(0.0, 0.0, true, 0.0, 0.0))
  }

  /** The bound is reached: of a burst from a new peer exactly the first 100 are delivered. */
  lemma {:induction false} BurstTight(n: nat)
    ensures GossipDelivered(FRESH, Burst(n)) == if n <= 100 then n else 100
    ensures var s := Run(FRESH, Burst(n));
            && (n <= 101 ==> s.Scores().gossip == -(n as real))
            && (n <= 100 ==> s.penalty == None)
            && (n > 100 ==> s.penalty == Some(PenaltyInfo(Some(60.0), None, None)))
            && s.lastDecay == (if n == 0 then None else Some(0.0))
            && s.reqResp == None
  {
    if n > 0 {
      BurstTight(n - 1);
      var e := GossipMsg(0.0, 0.0, true, 0.0, 0.0);
      assert Burst(n)[..n - 1] == Burst(n - 1) && Burst(n)[n - 1] == e;
      var s := Run(FRESH, Burst(n - 1));
      if AutoMutes(s, e) {
        ApplyOne(s.penalty, Penalize(Gossip, 60.0, 0.0));
      }
    }
  }

  /** Valid requests (true) and responses (false), in time, at one instant. */
  function ReqRespBurst(kinds: seq<bool>): (events: seq<Event>)
    ensures |events| == |kinds|
  {
    seq(|kinds|, i requires 0 <= i < |kinds| => ReqRespMsg(kinds[i], 0.0, true, 0.0, 0.0, 0.0, true))
  }

  /** The same of requests and responses, in whatever mixture. */
  lemma {:induction false} ReqRespBurstTight(kinds: seq<bool>)
    ensures var n := |kinds|;
            var s := Run(FRESH, ReqRespBurst(kinds));
            && ReqRespDelivered(FRESH, ReqRespBurst(kinds)) == (if n <= 100 then n else 100)
            && (n <= 101 ==> s.Scores().reqResp == -(n as real))
            && (n <= 100 ==> s.penalty == None)
            && (n > 100 ==> s.penalty == Some(PenaltyInfo(None, Some(60.0), None)))
            && s.lastDecay == (if n == 0 then None else Some(0.0))
            && s.gossip == None
  {
    if kinds != [] {
      var m := |kinds| - 1;
      ReqRespBurstTight(kinds[..m]);
      var e := ReqRespMsg(kinds[m], 0.0, true, 0.0, 0.0, 0.0, true);
      assert ReqRespBurst(kinds)[..m] == ReqRespBurst(kinds[..m]) && ReqRespBurst(kinds)[m] == e;
      var s := Run(FRESH, ReqRespBurst(kinds[..m]));
      if AutoMutes(s, e) {
        ApplyOne(s.penalty, Penalize(ReqResp, 60.0, 0.0));
      }
    }
  }
}
