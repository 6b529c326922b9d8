/** The loop that keeps the node's own DHT record alive, as a circulating token. */
module Republish {
  const CHANNEL_CAPACITY: nat := 10

  /** Messages in the channel, sleeping timer tasks, and own put queries in flight. */
  datatype State = State(firstRouting: bool, channel: nat, timers: nat, inFlight: nat)

  const START: State := State(true, 0, 0, 0)

  /** `signed` and `stored` say whether signing and the local put succeed. */
  datatype Event =
    | RoutingUpdated
    | ChannelReceived(signed: bool, stored: bool)
    | PutFinished
    | TimerFired

  /** A receive needs a message, a result needs a query, a timer needs a task. */
  predicate Possible(s: State, e: Event) {
    match e
    case RoutingUpdated => true
    case ChannelReceived(_, _) => s.channel > 0
    case PutFinished => s.inFlight > 0
    case TimerFired => s.timers > 0
  }

  function Step(s: State, e: Event): State {
    if !Possible(s, e) then s
    else
      match e
      case RoutingUpdated =>
        if s.firstRouting then s.(firstRouting := false, channel := s.channel + 1) else s
      case ChannelReceived(signed, stored) =>
        s.(channel := s.channel - 1, inFlight := if signed && stored then s.inFlight + 1 else s.inFlight)
      case PutFinished => s.(inFlight := s.inFlight - 1, timers := s.timers + 1)
      case TimerFired => s.(timers := s.timers - 1, channel := s.channel + 1)
  }

  function Tokens(s: State): nat {
    s.channel + s.timers + s.inFlight
  }

  class Republisher {
    var isRoutingUpdatedFirstTime: bool
    var channel: nat
    var timers: nat
    var inFlight: nat

    ghost function View(): State
      reads this
    {
      State(isRoutingUpdatedFirstTime, channel, timers, inFlight)
    }

    constructor ()
      ensures View() == START
    {
      isRoutingUpdatedFirstTime, channel, timers, inFlight := true, 0, 0, 0;
    }

    method OnRoutingUpdated()
      modifies this
      ensures View() == Step(old(View()), RoutingUpdated)
    {
      if isRoutingUpdatedFirstTime {
        isRoutingUpdatedFirstTime := false;
        channel := channel + 1;
      }
    }

    /** `ask_kademlia_put_record`: on failure nothing is scheduled again. */
    method AskPutRecord(signed: bool, stored: bool)
      requires channel > 0
      modifies this
      ensures View() == Step(old(View()), ChannelReceived(signed, stored))
    {
      channel := channel - 1;
      if !signed {
        return;
      }
      if stored {
        inFlight := inFlight + 1;
      }
    }

    method OnPutResult()
      requires inFlight > 0
      modifies this
      ensures View() == Step(old(View()), PutFinished)
    {
      inFlight := inFlight - 1;
      timers := timers + 1;
    }

    method OnTimer()
      requires timers > 0
      modifies this
      ensures View() == Step(old(View()), TimerFired)
    {
      timers := timers - 1;
      channel := channel + 1;
    }
  }

  function Run(s: State, events: seq<Event>): State {
    if events == [] then s else Step(Run(s, events[..|events| - 1]), events[|events| - 1])
  }

  predicate ValidRun(s: State, events: seq<Event>) {
    events == [] ||
    var front := events[..|events| - 1];
    ValidRun(s, front) && Possible(Run(s, front), events[|events| - 1])
  }

  predicate Failure(e: Event) {
    e.ChannelReceived? && !(e.signed && e.stored)
  }

  predicate AnyFailure(events: seq<Event>) {
    exists i :: 0 <= i < |events| && Failure(events[i])
  }

  lemma AnyFailureSnoc(events: seq<Event>)
    requires events != []
    ensures var front, last := events[..|events| - 1], events[|events| - 1];
            && (AnyFailure(events) <==> AnyFailure(front) || Failure(last))
            && (RoutingUpdated in events <==> RoutingUpdated in front || last == RoutingUpdated)
  {
    var front := events[..|events| - 1];
    assert events == front + [events[|events| - 1]];
    if i :| 0 <= i < |front| && Failure(front[i]) {
      assert Failure(events[i]);
    }
  }

  /** Where the token is, given whether routing was updated and whether a put failed. */
  ghost predicate TokenAccount(s: State, routed: bool, failed: bool) {
    && (s.firstRouting <==> !routed)
    && (failed ==> routed)
    && Tokens(s) == if routed && !failed then 1 else 0
  }

  lemma TokenStep(s: State, e: Event, routed: bool, failed: bool)
    requires TokenAccount(s, routed, failed) && Possible(s, e)
    ensures TokenAccount(Step(s, e), routed || e == RoutingUpdated, failed || Failure(e))
  {
  }

  /**
    In every possible run from the start there is at most one token, so the channel
    never fills; exactly one when the first routing update has come and every put
    since has been signed and stored; and a put can only fail after that update.
  */
  lemma {:induction false} RepublishToken(s: State, events: seq<Event>)
    requires s == START && ValidRun(s, events)
    ensures TokenAccount(Run(s, events), RoutingUpdated in events, AnyFailure(events))
    ensures Run(s, events).channel < CHANNEL_CAPACITY
  {
    if events != [] {
      var front, last := events[..|events| - 1], events[|events| - 1];
      RepublishToken(s, front);
      AnyFailureSnoc(events);
      TokenStep(Run(s, front), last, RoutingUpdated in front, AnyFailure(front));
    }
  }

  /** Messages received, those of them signed and stored, results, and timers fired. */
  datatype Counts = Counts(received: nat, puts: nat, results: nat, fired: nat)

  function Counted(c: Counts, e: Event): Counts {
    match e
    case RoutingUpdated => c
    case ChannelReceived(signed, stored) =>
      c.(received := c.received + 1, puts := if signed && stored then c.puts + 1 else c.puts)
    case PutFinished => c.(results := c.results + 1)
    case TimerFired => c.(fired := c.fired + 1)
  }

  function CountOf(events: seq<Event>): Counts {
    if events == [] then Counts(0, 0, 0, 0)
    else Counted(CountOf(events[..|events| - 1]), events[|events| - 1])
  }

  /** Queries are puts without a result, timers are results without a firing, and the rest is in the channel. */
  ghost predicate Accounted(s: State, c: Counts, routed: bool) {
    && (s.firstRouting <==> !routed)
    && s.inFlight == c.puts - c.results
    && s.timers == c.results - c.fired
    && s.channel == (if routed then 1 else 0) + c.fired - c.received
  }

  lemma AccountedStep(s: State, c: Counts, routed: bool, e: Event)
    requires Accounted(s, c, routed) && Possible(s, e)
    ensures Accounted(Step(s, e), Counted(c, e), routed || e == RoutingUpdated)
  {
  }

  /**
    Flow: over every possible run a put query starts for each message signed and stored,
    a timer starts for each result, and messages enter the channel only from timers and
    from one routing update.
  */
  lemma {:induction false} Flow(s: State, events: seq<Event>)
    requires s == START && ValidRun(s, events)
    ensures Accounted(Run(s, events), CountOf(events), RoutingUpdated in events)
  {
    if events != [] {
      var front, last := events[..|events| - 1], events[|events| - 1];
      Flow(s, front);
      AnyFailureSnoc(events);
      AccountedStep(Run(s, front), CountOf(front), RoutingUpdated in front, last);
    }
  }

  /** Without the token, and after the first routing update, nothing is ever put again. */
  lemma {:induction false} NoTokenNoPut(s: State, events: seq<Event>)
    requires ValidRun(s, events) && Tokens(s) == 0 && !s.firstRouting
    ensures Run(s, events) == s
    ensures forall i :: 0 <= i < |events| ==> events[i] == RoutingUpdated
  {
    if events != [] {
      var front := events[..|events| - 1];
      NoTokenNoPut(s, front);
      assert forall i :: 0 <= i < |front| ==> events[i] == front[i];
    }
  }

  /** Once a put fails to be signed or stored, the record is never published again. */
  lemma FailureIsFinal(s: State, events: seq<Event>, later: seq<Event>)
    requires s == START && ValidRun(s, events) && AnyFailure(events)
    requires ValidRun(Run(s, events), later)
    ensures Tokens(Run(Run(s, events), later)) == 0
    ensures forall i :: 0 <= i < |later| ==> !later[i].ChannelReceived?
  {
    RepublishToken(s, events);
    NoTokenNoPut(Run(s, events), later);
  }
}
