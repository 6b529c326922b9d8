/** A `Vec` of events that one side pushes to and the other side pops from. */
module EventStack {
  datatype Op<+E> = Push(event: E) | Pop

  function Step<E>(s: seq<E>, op: Op<E>): seq<E> {
    match op
    case Push(e) => s + [e]
    case Pop => if s == [] then s else s[..|s| - 1]
  }

  function Run<E>(s: seq<E>, ops: seq<Op<E>>): seq<E> {
    if ops == [] then s else Step(Run(s, ops[..|ops| - 1]), ops[|ops| - 1])
  }

  /** The event a pop hands out, as a sequence of length at most one. */
  function Popped<E>(s: seq<E>, op: Op<E>): seq<E> {
    if op.Pop? && s != [] then [s[|s| - 1]] else []
  }

  function Delivered<E>(s: seq<E>, ops: seq<Op<E>>): seq<E> {
    if ops == [] then []
    else
      var front := ops[..|ops| - 1];
      Delivered(s, front) + Popped(Run(s, front), ops[|ops| - 1])
  }

  function Produced<E>(ops: seq<Op<E>>): seq<E> {
    if ops == [] then []
    else
      var last := ops[|ops| - 1];
      Produced(ops[..|ops| - 1]) + if last.Push? then [last.event] else []
  }

  lemma RunSnoc<E>(s: seq<E>, ops: seq<Op<E>>, op: Op<E>)
    ensures Run(s, ops + [op]) == Step(Run(s, ops), op)
    ensures Delivered(s, ops + [op]) == Delivered(s, ops) + Popped(Run(s, ops), op)
  {
  }

  /** One operation moves at most one event, from the producer or to the consumer. */
  lemma StepConserves<E>(s: seq<E>, op: Op<E>)
    ensures multiset(s) + (if op.Push? then multiset{op.event} else multiset{})
            == multiset(Popped(s, op)) + multiset(Step(s, op))
  {
    if op.Pop? && s != [] {
      assert s == s[..|s| - 1] + [s[|s| - 1]];
    }
  }

  lemma MovesAddUp<E>(start: multiset<E>, produced: multiset<E>, delivered: multiset<E>, held: multiset<E>,
                      pushed: multiset<E>, popped: multiset<E>, held': multiset<E>)
    requires start + produced == delivered + held
    requires held + pushed == popped + held'
    ensures start + (produced + pushed) == (delivered + popped) + held'
  {
    assert start + (produced + pushed) == (delivered + held) + pushed == delivered + (held + pushed);
  }

  /** No event is lost, duplicated or invented by any interleaving. */
  lemma {:induction false} Conservation<E>(s: seq<E>, ops: seq<Op<E>>)
    ensures multiset(s) + multiset(Produced(ops)) == multiset(Delivered(s, ops)) + multiset(Run(s, ops))
  {
    if ops != [] {
      var front, last := ops[..|ops| - 1], ops[|ops| - 1];
      Conservation(s, front);
      StepConserves(Run(s, front), last);
      MovesAddUp(multiset(s), multiset(Produced(front)), multiset(Delivered(s, front)), multiset(Run(s, front)),
                 if last.Push? then multiset{last.event} else multiset{},
                 multiset(Popped(Run(s, front), last)), multiset(Run(s, ops)));
    }
  }

  ghost predicate StaysAbove<E>(s: seq<E>, ops: seq<Op<E>>, floor: nat) {
    forall k :: 0 <= k <= |ops| ==> |Run(s, ops[..k])| >= floor
  }

  /** What lies below the lowest level ever reached is untouched. */
  lemma {:induction false} FloorUntouched<E>(s: seq<E>, ops: seq<Op<E>>, floor: nat)
    requires floor <= |s| && StaysAbove(s, ops, floor)
    ensures |Run(s, ops)| >= floor && Run(s, ops)[..floor] == s[..floor]
  {
    assert ops[..|ops|] == ops;
    if ops != [] {
      var front := ops[..|ops| - 1];
      forall k | 0 <= k <= |front| ensures |Run(s, front[..k])| >= floor {
        assert front[..k] == ops[..k];
      }
      FloorUntouched(s, front, floor);
    }
  }

  /**
    Last in, first out: while the stack has not gone below an event, the event is still
    on it with everything older, and once it is on top again it is what the next pop
    hands out.
  */
  lemma LastInFirstOut<E>(s: seq<E>, event: E, ops: seq<Op<E>>)
    requires StaysAbove(s + [event], ops, |s| + 1)
    ensures forall k :: 0 <= k <= |ops| ==> s + [event] <= Run(s + [event], ops[..k])
    ensures |Run(s + [event], ops)| == |s| + 1 ==>
              Popped(Run(s + [event], ops), Pop) == [event] && Run(s + [event], ops + [Pop]) == s
  {
    var start := s + [event];
    forall k | 0 <= k <= |ops| ensures start <= Run(start, ops[..k]) {
      forall j | 0 <= j <= k ensures |Run(start, ops[..k][..j])| >= |s| + 1 {
        assert ops[..k][..j] == ops[..j];
      }
      FloorUntouched(start, ops[..k], |s| + 1);
      assert start[..|s| + 1] == start;
    }
    assert ops[..|ops|] == ops;
    RunSnoc(start, ops, Pop);
  }
}
