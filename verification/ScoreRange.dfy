/** Scores and automatic mutes of a peer, one protocol at a time. */
module ScoreRange {
  import opened Basics
  import opened Penalties
  import opened Scoring
  import opened RateLimit

  /** The two protocols that carry a score. */
  type Lane = ch: Channel | ch != Ban witness Gossip

  function ScoreOn(s: PeerState, lane: Lane): real {
    if lane == Gossip then s.Scores().gossip else s.Scores().reqResp
  }

  predicate On(e: Event, lane: Lane) {
    if lane == Gossip then e.GossipMsg? else e.ReqRespMsg?
  }

  function DecayOn(s: PeerState, lane: Lane, now: Time): PeerState {
    if lane == Gossip then DecayGossip(s, now) else DecayReqResp(s, now)
  }

  function ChargedOn(s: PeerState, lane: Lane, now: Time): PeerState {
    if lane == Gossip then ChargedGossip(s, now) else ChargedReqResp(s, now)
  }

  /** No traffic on the other protocol and no score command; queries and closes may occur. */
  predicate OnlyOn(events: seq<Event>, lane: Lane) {
    forall i :: 0 <= i < |events| ==> On(events[i], lane) || events[i].GetPeerScore? || events[i].LastConnectionClosed?
  }

  function MutedUntil(s: PeerState, lane: Lane): Option<Time> {
    if s.penalty.Some? then s.penalty.value.Until(lane) else None
  }

  /** A mute is on record that ends after the last decay. */
  ghost predicate MuteAhead(s: PeerState, lane: Lane) {
    MutedUntil(s, lane).Some? && s.lastDecay.Some? && MutedUntil(s, lane).value > s.lastDecay.value
  }

  /**
    The score is in range; below the threshold only under a mute still to be served;
    and serving the rest of the mute brings it back to at least -47.
  */
  ghost predicate InRange(s: PeerState, lane: Lane, now: Time) {
    var score := ScoreOn(s, lane);
    && -101.0 <= score <= 0.0
    && ClockBefore(s, now)
    && (s.lastDecay.None? ==> score == 0.0)
    && (score < MUTE_THRESHOLD ==> MuteAhead(s, lane))
    && (MuteAhead(s, lane) ==> score + DECAY_RATE_PER_SEC * (MutedUntil(s, lane).value - s.lastDecay.value) >= -47.0)
  }

  /** Once the mute is over, the next decay restores the score; it never lowers it. */
  lemma DecayInRange(s: PeerState, lane: Lane, now: Time, decayAt: Time)
    requires InRange(s, lane, now) && now <= decayAt
    ensures var score := ScoreOn(DecayOn(s, lane, decayAt), lane);
            && ScoreOn(s, lane) <= score <= 0.0
            && (MuteAhead(s, lane) && MutedUntil(s, lane).value <= decayAt ==> score >= -47.0)
            && ((MutedUntil(s, lane).Some? ==> MutedUntil(s, lane).value <= decayAt) ==> score >= MUTE_THRESHOLD)
  {
  }

  /** The mute a message triggers. */
  lemma AutoMuteStep(s: PeerState, lane: Lane, e: Event)
    requires On(e, lane) && e.muteAt <= e.storeAt && AutoMutes(s, e)
    ensures Step(s, e) == ChargedOn(s, lane, e.decayAt).(penalty := Step(s, e).penalty)
    ensures MutedUntil(Step(s, e), lane) == Some(e.untilAt + MUTE_DURATION)
  {
    ApplyOne(s.penalty, Penalize(lane, e.untilAt + MUTE_DURATION, e.storeAt));
  }

  lemma MessageInRange(s: PeerState, lane: Lane, now: Time, e: Event)
    requires InRange(s, lane, now) && OrderedEvent(e, now) && On(e, lane)
    ensures InRange(Step(s, e), lane, EndOf(e))
    ensures AutoMutes(s, e) ==> MuteAhead(Step(s, e), lane)
  {
    if Active(s.penalty, lane, e.muteAt) || (lane == ReqResp && !e.valid) {
      assert Step(s, e) == s;
    } else {
      DecayInRange(s, lane, now, e.decayAt);
      if AutoMutes(s, e) {
        AutoMuteStep(s, lane, e);
      }
    }
  }

  lemma OtherInRange(s: PeerState, lane: Lane, now: Time, e: Event)
    requires InRange(s, lane, now) && OrderedEvent(e, now) && (e.GetPeerScore? || e.LastConnectionClosed?)
    ensures InRange(Step(s, e), lane, EndOf(e))
  {
  }

  /**
    Score range over whole runs: under the default validator the score of a peer that
    uses one protocol only, without score commands, stays in [-101, 0].
  */
  lemma {:induction false} ScoreStaysInRange(s: PeerState, lane: Lane, events: seq<Event>, start: Time)
    requires InRange(s, lane, start) && OrderedRun(events, start) && OnlyOn(events, lane)
    ensures InRange(Run(s, events), lane, EndOfRun(events, start))
  {
    if events != [] {
      var front, last := events[..|events| - 1], events[|events| - 1];
      ScoreStaysInRange(s, lane, front, start);
      if On(last, lane) {
        MessageInRange(Run(s, front), lane, EndOfRun(front, start), last);
      } else {
        OtherInRange(Run(s, front), lane, EndOfRun(front, start), last);
      }
    }
  }

  // --- with traffic on both protocols ---

  predicate NoSetScore(events: seq<Event>) {
    forall i :: 0 <= i < |events| ==> !events[i].SetScore?
  }

  /**
    The guard that fails: a valid message from an unmuted peer whose score, with the
    decay still on the shared clock, is below the threshold before it is charged.
  */
  predicate Overdrawn(s: PeerState, lane: Lane, e: Event) {
    && On(e, lane) && e.valid && !Active(s.penalty, lane, e.muteAt)
    && ScoreOn(s, lane) + DECAY_RATE_PER_SEC * Elapsed(s.lastDecay, e.decayAt) < MUTE_THRESHOLD
  }

  predicate ScoreOk(s: PeerState, lane: Lane) {
    -101.0 <= ScoreOn(s, lane) <= 0.0
  }

  /** One event takes the score out of the range exactly when the guard says so. */
  lemma LeavesRangeIff(s: PeerState, lane: Lane, e: Event)
    requires ScoreOk(s, lane) && !e.SetScore?
    ensures ScoreOn(Step(s, e), lane) <= 0.0
    ensures ScoreOn(Step(s, e), lane) < -101.0 <==> Overdrawn(s, lane, e)
  {
  }

  /** The score is in range now and was at every earlier moment of the run. */
  predicate AlwaysOk(lane: Lane, events: seq<Event>) {
    ScoreOk(Run(FRESH, events), lane) && (events == [] || AlwaysOk(lane, events[..|events| - 1]))
  }

  /** No message of the run met the guard when it came. */
  predicate NeverOverdrawn(lane: Lane, events: seq<Event>) {
    events == [] ||
    var front := events[..|events| - 1];
    NeverOverdrawn(lane, front) && !Overdrawn(Run(FRESH, front), lane, events[|events| - 1])
  }

  /**
    Whatever traffic a peer sends, without score commands its score on a protocol is in
    [-101, 0] at every moment of a run if and only if no message of the run was charged
    there while overdrawn.
  */
  lemma {:induction false} InRangeIffNeverOverdrawn(lane: Lane, events: seq<Event>)
    requires NoSetScore(events)
    ensures AlwaysOk(lane, events) <==> NeverOverdrawn(lane, events)
  {
    if events != [] {
      var front, last := events[..|events| - 1], events[|events| - 1];
      assert forall i :: 0 <= i < |front| ==> front[i] == events[i];
      InRangeIffNeverOverdrawn(lane, front);
      if AlwaysOk(lane, front) {
        LeavesRangeIff(Run(FRESH, front), lane, last);
      }
    }
  }

  /** A valid message in time, all of whose readings are t. */
  function MessageAt(lane: Lane, t: Time): Event {
    if lane == Gossip then GossipMsg(t, t, true, t, t) else ReqRespMsg(true, t, true, t, t, t, true)
  }

  function Other(lane: Lane): Lane {
    if lane == Gossip then ReqResp else Gossip
  }

  function BurstOn(lane: Lane, n: nat): seq<Event> {
    if lane == Gossip then Burst(n) else ReqRespBurst(seq(n, _ => true))
  }

  /** A burst, then at the end of each mute a message that takes the decay for the other protocol, and one that needed it. */
  function Descent(lane: Lane, n: nat): seq<Event> {
    if n == 0 then BurstOn(lane, 101)
    else Descent(lane, n - 1) + [MessageAt(Other(lane), RoundEnd(n - 1))] + [MessageAt(lane, RoundEnd(n - 1))]
  }

  /** When the mute of round n ends. */
  function RoundEnd(n: nat): Time {
    60.0 * (n as real + 1.0)
  }

  /** Muted until the end of the round, with room for the next message of the other protocol. */
  ghost predicate Descended(s: PeerState, lane: Lane, n: nat) {
    && ScoreOn(s, lane) == -101.0 - n as real
    && s.penalty == Some(NO_PENALTY.Set(lane, Some(RoundEnd(n))))
    && s.lastDecay == Some(60.0 * n as real)
    && -1.0 <= ScoreOn(s, Other(lane)) <= 0.0
  }

  lemma DescendOnce(s: PeerState, lane: Lane, n: nat)
    requires Descended(s, lane, n)
    ensures var t := RoundEnd(n);
            Descended(Step(Step(s, MessageAt(Other(lane), t)), MessageAt(lane, t)), lane, n + 1)
  {
    var t := RoundEnd(n);
    var s1 := Step(s, MessageAt(Other(lane), t));
    assert ScoreOn(s1, lane) == ScoreOn(s, lane) && s1.penalty == s.penalty && s1.lastDecay == Some(t);
    ApplyOne(s1.penalty, Penalize(lane, t + MUTE_DURATION, t));
  }

  lemma {:induction false} DescentRuns(s: PeerState, lane: Lane, n: nat)
    requires s == FRESH
    ensures Descended(Run(s, Descent(lane, n)), lane, n)
  {
    if n == 0 {
      if lane == Gossip {
        BurstTight(101);
      } else {
        ReqRespBurstTight(seq(101, _ => true));
      }
    } else {
      DescentRuns(s, lane, n - 1);
      var t, before := RoundEnd(n - 1), Descent(lane, n - 1);
      RunSnoc(s, before, MessageAt(Other(lane), t));
      RunSnoc(s, before + [MessageAt(Other(lane), t)], MessageAt(lane, t));
      DescendOnce(Run(s, before), lane, n - 1);
    }
  }

  lemma {:induction false} DescentOrdered(lane: Lane, n: nat)
    ensures OrderedRun(Descent(lane, n), 0.0) && EndOfRun(Descent(lane, n), 0.0) == 60.0 * n as real
  {
    if n == 0 {
      AtOnceOrdered(BurstOn(lane, 101));
    } else {
      DescentOrdered(lane, n - 1);
      var t, before := RoundEnd(n - 1), Descent(lane, n - 1);
      OrderedSnoc(before, MessageAt(Other(lane), t), 0.0);
      OrderedSnoc(before + [MessageAt(Other(lane), t)], MessageAt(lane, t), 0.0);
    }
  }

  /** There is no lower bound: the shared clock lets either score fall as far as one likes. */
  lemma SharedClockLeavesRange(lane: Lane, n: nat)
    ensures exists events :: OrderedRun(events, 0.0) && NoSetScore(events)
              && ScoreOn(Run(FRESH, events), lane) == -101.0 - n as real
  {
    DescentRuns(FRESH, lane, n);
    DescentOrdered(lane, n);
    DescentNoSetScore(lane, n);
  }

  lemma {:induction false} DescentNoSetScore(lane: Lane, n: nat)
    ensures NoSetScore(Descent(lane, n))
  {
    if n > 0 {
      DescentNoSetScore(lane, n - 1);
    }
  }

  /** Events all of whose readings are zero. */
  lemma {:induction false} AtOnceOrdered(events: seq<Event>)
    requires forall i :: 0 <= i < |events| ==> OrderedEvent(events[i], 0.0) && EndOf(events[i]) == 0.0
    ensures OrderedRun(events, 0.0) && EndOfRun(events, 0.0) == 0.0
  {
    if events != [] {
      AtOnceOrdered(events[..|events| - 1]);
    }
  }

  // --- how long a peer lasts between two automatic mutes ---

  /** Charged without a mute: the message is delivered, unless it then turns out to be too old. */
  predicate Passes(s: PeerState, e: Event) {
    Delivers(s, if e.ReqRespMsg? then e.(inTime := true) else e)
  }

  function Passed(s: PeerState, lane: Lane, events: seq<Event>): nat {
    if events == [] then 0
    else
      var front, last := events[..|events| - 1], events[|events| - 1];
      Passed(s, lane, front) + if On(last, lane) && Passes(Run(s, front), last) then 1 else 0
  }

  /** Gossip that passes is delivered, and so are requests and responses in time. */
  lemma {:induction false} PassedIsDelivered(s: PeerState, lane: Lane, events: seq<Event>)
    requires forall i :: 0 <= i < |events| && events[i].ReqRespMsg? ==> events[i].inTime
    ensures Passed(s, lane, events) == if lane == Gossip then GossipDelivered(s, events) else ReqRespDelivered(s, events)
  {
    if events != [] {
      var m := |events| - 1;
      PassedIsDelivered(s, lane, events[..m]);
      assert events[m].ReqRespMsg? ==> events[m].(inTime := true) == events[m];
    }
  }

  /** The mute is still to be served, or the score allows 53 messages less those that passed. */
  ghost predicate Allowance(s: PeerState, lane: Lane, passed: nat) {
    MuteAhead(s, lane) || ScoreOn(s, lane) >= -47.0 - passed as real
  }

  lemma AllowanceMessage(s: PeerState, lane: Lane, now: Time, e: Event, passed: nat)
    requires InRange(s, lane, now) && OrderedEvent(e, now) && On(e, lane)
    requires Allowance(s, lane, passed)
    ensures AutoMutes(s, e) ==> passed >= 53
    ensures !AutoMutes(s, e) ==> Allowance(Step(s, e), lane, passed + if Passes(s, e) then 1 else 0)
  {
  }

  lemma AllowanceOther(s: PeerState, lane: Lane, now: Time, e: Event, passed: nat)
    requires InRange(s, lane, now) && OrderedEvent(e, now) && (e.GetPeerScore? || e.LastConnectionClosed?)
    requires Allowance(s, lane, passed)
    ensures Allowance(Step(s, e), lane, passed)
  {
  }

  lemma {:induction false} AllowanceRun(s: PeerState, lane: Lane, events: seq<Event>, start: Time)
    requires InRange(s, lane, start) && MuteAhead(s, lane) && OrderedRun(events, start) && OnlyOn(events, lane)
    ensures Passed(s, lane, events) >= 53 || Allowance(Run(s, events), lane, Passed(s, lane, events))
  {
    if events != [] {
      var front, last := events[..|events| - 1], events[|events| - 1];
      AllowanceRun(s, lane, front, start);
      ScoreStaysInRange(s, lane, front, start);
      var before, passed := Run(s, front), Passed(s, lane, front);
      if passed < 53 {
        if On(last, lane) {
          AllowanceMessage(before, lane, EndOfRun(front, start), last, passed);
        } else {
          AllowanceOther(before, lane, EndOfRun(front, start), last, passed);
        }
      }
    }
  }

  /**
    Between two automatic mutes of a peer that uses one protocol only, at least 53 of its
    messages pass, whatever queries and disconnects come between.
  */
  lemma MutesFarApart(lane: Lane, before: seq<Event>, first: Event, between: seq<Event>, second: Event, start: Time)
    requires OnlyOn(before, lane) && On(first, lane) && OnlyOn(between, lane) && On(second, lane)
    requires OrderedRun(before, start) && OrderedEvent(first, EndOfRun(before, start))
    requires OrderedRun(between, EndOf(first)) && OrderedEvent(second, EndOfRun(between, EndOf(first)))
    requires AutoMutes(Run(FRESH, before), first)
    requires AutoMutes(Run(Step(Run(FRESH, before), first), between), second)
    ensures Passed(Step(Run(FRESH, before), first), lane, between) >= 53
  {
    ScoreStaysInRange(FRESH, lane, before, start);
    MessageInRange(Run(FRESH, before), lane, EndOfRun(before, start), first);
    var muted := Step(Run(FRESH, before), first);
    AllowanceRun(muted, lane, between, EndOf(first));
    ScoreStaysInRange(muted, lane, between, EndOf(first));
    if Passed(muted, lane, between) < 53 {
      AllowanceMessage(Run(muted, between), lane, EndOfRun(between, EndOf(first)), second, Passed(muted, lane, between));
    }
  }

  // --- penalties of a whole node run against the never-forgetting reference ---

  function AllStoreOps(s: PeerState, events: seq<Event>): seq<Op> {
    if events == [] then []
    else
      var front := events[..|events| - 1];
      AllStoreOps(s, front) + StoreOps(Run(s, front), events[|events| - 1])
  }

  lemma {:induction false} ApplyAllConcat(info: Option<PenaltyInfo>, a: seq<Op>, b: seq<Op>)
    ensures ApplyAll(info, a + b) == ApplyAll(ApplyAll(info, a), b)
  {
    if b == [] {
      assert a + b == a;
    } else {
      ApplyAllConcat(info, a, b[..|b| - 1]);
      assert (a + b)[..|a + b| - 1] == a + b[..|b| - 1];
    }
  }

  lemma {:induction false} PenaltyIsReplay(s: PeerState, events: seq<Event>)
    ensures Run(s, events).penalty == ApplyAll(s.penalty, AllStoreOps(s, events))
  {
    if events != [] {
      var front := events[..|events| - 1];
      PenaltyIsReplay(s, front);
      ApplyAllConcat(s.penalty, AllStoreOps(s, front), StoreOps(Run(s, front), events[|events| - 1]));
    }
  }

  lemma SnocOrdered(ops: seq<Op>, start: Time, op: Op)
    ensures OrderedAll(ops + [op], start) <==> OrderedAll(ops, start) && Ordered(op, EndAll(ops, start))
    ensures EndAll(ops + [op], start) == End(op, EndAll(ops, start))
  {
  }

  lemma AppendOrdered(ops: seq<Op>, start: Time, more: seq<Op>, now: Time, end: Time)
    requires OrderedAll(ops, start) && EndAll(ops, start) <= now <= end && |more| <= 2
    requires |more| >= 1 ==> Ordered(more[0], now) && End(more[0], now) <= end
    requires |more| == 2 ==> Ordered(more[1], End(more[0], now)) && End(more[1], End(more[0], now)) <= end
    ensures OrderedAll(ops + more, start) && EndAll(ops + more, start) <= end
  {
    if more == [] {
      assert ops + more == ops;
    } else {
      SnocOrdered(ops, start, more[0]);
      if |more| == 2 {
        SnocOrdered(ops + [more[0]], start, more[1]);
        assert ops + more == ops + [more[0]] + [more[1]];
      } else {
        assert more == [more[0]];
      }
    }
  }

  /** The operations of one event keep the clock of the run. */
  lemma OpsOrdered(ops: seq<Op>, start: Time, s: PeerState, e: Event, now: Time)
    requires OrderedAll(ops, start) && EndAll(ops, start) <= now && OrderedEvent(e, now)
    ensures var all := ops + StoreOps(s, e);
            OrderedAll(all, start) && EndAll(all, start) <= EndOf(e)
  {
    AppendOrdered(ops, start, StoreOps(s, e), now, EndOf(e));
  }

  lemma {:induction false} StoreOpsOrdered(s: PeerState, events: seq<Event>, start: Time)
    requires OrderedRun(events, start)
    ensures OrderedAll(AllStoreOps(s, events), start)
    ensures EndAll(AllStoreOps(s, events), start) <= EndOfRun(events, start)
  {
    if events != [] {
      var front := events[..|events| - 1];
      StoreOpsOrdered(s, front, start);
      OpsOrdered(AllStoreOps(s, front), start, Run(s, front), events[|events| - 1], EndOfRun(front, start));
    }
  }

  /**
    In every run of messages, commands, queries and closes, what the node answers
    about mutes and bans afterwards is what the full history of penalties says.
  */
  lemma NodePenaltiesRefineHistory(events: seq<Event>, start: Time, ch: Channel, now: Time)
    requires OrderedRun(events, start) && EndOfRun(events, start) <= now
    ensures Active(Run(FRESH, events).penalty, ch, now) <==> KeptActive(AllStoreOps(FRESH, events), ch, now)
  {
    PenaltyIsReplay(FRESH, events);
    StoreOpsOrdered(FRESH, events, start);
    PenaltyRefinement(AllStoreOps(FRESH, events), start, ch, now);
  }
}
