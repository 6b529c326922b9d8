/** The BYOS dial sequencer: `DialManager` and the three handlers that drive it. */
module Dialing {
  import opened Basics

  predicate ContainsQuic(tag: string) {
    |tag| >= 4 && (tag[..4] == "quic" || ContainsQuic(tag[1..]))
  }

  predicate IsQuic(addr: Multiaddr) {
    exists i :: 0 <= i < |addr.protocolStack| && ContainsQuic(addr.protocolStack[i].tag)
  }

  function Select(addrs: seq<Multiaddr>, quic: bool): seq<Multiaddr> {
    if addrs == [] then []
    else (if IsQuic(addrs[0]) == quic then [addrs[0]] else []) + Select(addrs[1..], quic)
  }

  /** `sort_by_key(|a| !quic(a))`: the stable sort that puts QUIC addresses first. */
  function QuicFirst(addrs: seq<Multiaddr>): seq<Multiaddr> {
    Select(addrs, true) + Select(addrs, false)
  }

  // --- DialManager ---

  datatype Dials = Dials(queues: map<PublicKey, seq<Multiaddr>>, conns: map<ConnectionId, PublicKey>)

  class DialManager {
    var dialQueues: map<PublicKey, seq<Multiaddr>>
    var connToDial: map<ConnectionId, PublicKey>

    ghost function View(): Dials
      reads this
    {
      Dials(dialQueues, connToDial)
    }

    constructor ()
      ensures View() == Dials(map[], map[])
    {
      dialQueues := map[];
      connToDial := map[];
    }

    method InsertQueue(key: PublicKey, queue: seq<Multiaddr>)
      modifies this
      ensures View() == old(View()).(queues := old(dialQueues)[key := queue])
    {
      dialQueues := dialQueues[key := queue];
    }

    method PopNextAddr(key: PublicKey) returns (r: Option<Multiaddr>)
      modifies this
      ensures connToDial == old(connToDial)
      ensures r.Some? <==> key in old(dialQueues) && old(dialQueues)[key] != []
      ensures r.Some? ==> var queue := old(dialQueues)[key];
                          r.value == queue[0] && dialQueues == old(dialQueues)[key := queue[1..]]
      ensures r.None? ==> dialQueues == old(dialQueues)
    {
      if key in dialQueues && |dialQueues[key]| > 0 {
        r := Some(dialQueues[key][0]);
        dialQueues := dialQueues[key := dialQueues[key][1..]];
      } else {
        r := None;
      }
    }

    method MapConnid(conn: ConnectionId, key: PublicKey)
      modifies this
      ensures View() == old(View()).(conns := old(connToDial)[conn := key])
    {
      connToDial := connToDial[conn := key];
    }

    method RemoveConnid(conn: ConnectionId) returns (r: Option<PublicKey>)
      modifies this
      ensures r == Lookup(old(connToDial), conn)
      ensures View() == old(View()).(conns := old(connToDial) - {conn})
    {
      r := Lookup(connToDial, conn);
      connToDial := connToDial - {conn};
    }

    method RemoveQueue(key: PublicKey)
      modifies this
      ensures View() == old(View()).(queues := old(dialQueues) - {key})
    {
      dialQueues := dialQueues - {key};
    }

    method GetAppPublicKeyByConnectionId(conn: ConnectionId) returns (r: Option<PublicKey>)
      ensures r == Lookup(connToDial, conn)
    {
      r := Lookup(connToDial, conn);
    }

    method HasAppPublicKey(key: PublicKey) returns (r: bool)
      ensures r <==> key in dialQueues
    {
      r := key in dialQueues;
    }
  }

  // --- the handlers ---

  /** `next` is the connection id a new dial would get; `accepted` is what `swarm.dial` says. */
  datatype Event =
    | ConnectToPeer(key: PublicKey, addrs: seq<Multiaddr>, next: ConnectionId, accepted: bool)
    | Established(conn: ConnectionId)
    | Failed(conn: ConnectionId, next: ConnectionId, accepted: bool)

  datatype Dialled = Dialled(key: PublicKey, addr: Multiaddr)

  /** The dial an event causes, if any. */
  function NextDial(d: Dials, e: Event): Option<Dialled> {
    match e
    case ConnectToPeer(key, addrs, _, _) =>
      if addrs == [] || key in d.queues then None
      else
        QuicFirstSize(addrs);
        Some(Dialled(key, QuicFirst(addrs)[0]))
    case Established(_) => None
    case Failed(c, _, _) =>
      if c in d.conns && d.conns[c] in d.queues && d.queues[d.conns[c]] != []
      then Some(Dialled(d.conns[c], d.queues[d.conns[c]][0]))
      else None
  }

  function Step(d: Dials, e: Event): Dials {
    match e
    case ConnectToPeer(key, addrs, next, _) =>
      if addrs == [] || key in d.queues then d
      else
        QuicFirstSize(addrs);
        Dials(d.queues[key := QuicFirst(addrs)[1..]], d.conns[next := key])
    case Established(c) =>
      if c !in d.conns then d else Dials(d.queues - {d.conns[c]}, d.conns - {c})
    case Failed(c, next, _) =>
      if c !in d.conns then d
      else
        var key := d.conns[c];
        if key in d.queues && d.queues[key] != []
        then Dials(d.queues[key := d.queues[key][1..]], (d.conns - {c})[next := key])
        else Dials(d.queues - {key}, d.conns - {c})
  }

  /** The part of the node that dials: the manager and the growing `connect_to` list. */
  class Dialer {
    const manager: DialManager
    var connectTo: seq<Multiaddr>

    constructor (connectTo: seq<Multiaddr>)
      ensures fresh(manager) && manager.View() == Dials(map[], map[]) && this.connectTo == connectTo
    {
      manager := new DialManager();
      this.connectTo := connectTo;
    }

    /** Registers the attempt before dialling; a refused dial is only logged. */
    method DialAndMap(addr: Multiaddr, key: PublicKey, conn: ConnectionId, accepted: bool)
      returns (r: Option<Dialled>)
      modifies manager
      ensures manager.View() == old(manager.View()).(conns := old(manager.connToDial)[conn := key])
      ensures r == Some(Dialled(key, addr))
    {
      manager.MapConnid(conn, key);
      r := Some(Dialled(key, addr));
    }

    method ConnectCommand(key: PublicKey, addrs: seq<Multiaddr>, next: ConnectionId, accepted: bool)
      returns (r: Option<Dialled>)
      modifies this, manager
      ensures var e := ConnectToPeer(key, addrs, next, accepted);
              && r == NextDial(old(manager.View()), e)
              && manager.View() == Step(old(manager.View()), e)
      ensures connectTo == old(connectTo) + if r.Some? then [r.value.addr] else []
      ensures r.Some? <==> addrs != [] && key !in old(manager.dialQueues)
      ensures r.Some? ==> (NamesQuic(r.value.addr) <==> exists addr :: addr in addrs && NamesQuic(addr))
    {
      QuicDialledFirst(manager.View(), key, addrs, next, accepted);
      r := None;
      if |addrs| == 0 {
        return;
      }
      var busy := manager.HasAppPublicKey(key);
      if busy {
        return;
      }
      var queue := QuicFirst(addrs);
      QuicFirstSize(addrs);
      var firstAddr := queue[0];
      connectTo := connectTo + [firstAddr];
      manager.InsertQueue(key, queue[1..]);
      r := DialAndMap(firstAddr, key, next, accepted);
    }

    method OnConnectionEstablished(conn: ConnectionId)
      modifies manager
      ensures manager.View() == Step(old(manager.View()), Established(conn))
    {
      var key := manager.GetAppPublicKeyByConnectionId(conn);
      if key.Some? {
        manager.RemoveQueue(key.value);
        var _ := manager.RemoveConnid(conn);
      }
    }

    method OnOutgoingConnectionError(conn: ConnectionId, next: ConnectionId, accepted: bool)
      returns (r: Option<Dialled>)
      modifies manager
      ensures var e := Failed(conn, next, accepted);
              && r == NextDial(old(manager.View()), e)
              && manager.View() == Step(old(manager.View()), e)
    {
      r := None;
      var key := manager.GetAppPublicKeyByConnectionId(conn);
      if key.Some? {
        var _ := manager.RemoveConnid(conn);
        var nextAddr := manager.PopNextAddr(key.value);
        if nextAddr.Some? {
          r := DialAndMap(nextAddr.value, key.value, next, accepted);
        } else {
          manager.RemoveQueue(key.value);
        }
      }
    }
  }

  // --- the address order ---

  lemma {:induction false} SelectSizes(addrs: seq<Multiaddr>)
    ensures multiset(Select(addrs, true)) + multiset(Select(addrs, false)) == multiset(addrs)
    ensures |Select(addrs, true)| + |Select(addrs, false)| == |addrs|
  {
    if addrs != [] {
      SelectSizes(addrs[1..]);
      assert addrs == [addrs[0]] + addrs[1..];
    }
  }

  lemma QuicFirstSize(addrs: seq<Multiaddr>)
    ensures |QuicFirst(addrs)| == |addrs|
  {
    SelectSizes(addrs);
  }

  lemma {:induction false} SelectPure(addrs: seq<Multiaddr>, quic: bool)
    ensures forall i :: 0 <= i < |Select(addrs, quic)| ==> IsQuic(Select(addrs, quic)[i]) == quic
  {
    if addrs != [] {
      SelectPure(addrs[1..], quic);
    }
  }

  lemma SeqAssoc<T>(a: seq<T>, b: seq<T>, c: seq<T>)
    ensures a + (b + c) == (a + b) + c
  {
  }

  lemma {:induction false} SelectConcat(a: seq<Multiaddr>, b: seq<Multiaddr>, quic: bool)
    ensures Select(a + b, quic) == Select(a, quic) + Select(b, quic)
  {
    if a == [] {
      assert a + b == b;
    } else {
      SelectConcat(a[1..], b, quic);
      assert (a + b)[1..] == a[1..] + b;
      SeqAssoc(if IsQuic(a[0]) == quic then [a[0]] else [], Select(a[1..], quic), Select(b, quic));
    }
  }

  lemma {:induction false} SelectUniform(addrs: seq<Multiaddr>, kind: bool, quic: bool)
    requires forall i :: 0 <= i < |addrs| ==> IsQuic(addrs[i]) == kind
    ensures Select(addrs, quic) == if kind == quic then addrs else []
  {
    if addrs != [] {
      SelectUniform(addrs[1..], kind, quic);
    }
  }

  /** The letters q, u, i, c stand in the tag from position i on. */
  predicate QuicAt(tag: string, i: nat) {
    i + 3 < |tag| && tag[i] == 'q' && tag[i + 1] == 'u' && tag[i + 2] == 'i' && tag[i + 3] == 'c'
  }

  /** Some protocol of the address has those letters in its tag. */
  ghost predicate NamesQuic(addr: Multiaddr) {
    exists k: nat, i: nat :: k < |addr.protocolStack| && QuicAt(addr.protocolStack[k].tag, i)
  }

  lemma {:induction false} ContainsQuicIff(tag: string)
    ensures ContainsQuic(tag) <==> exists i: nat :: QuicAt(tag, i)
  {
    if |tag| >= 4 {
      ContainsQuicIff(tag[1..]);
      assert tag[..4] == "quic" <==> QuicAt(tag, 0);
      if i: nat :| QuicAt(tag[1..], i) {
        assert QuicAt(tag, i + 1);
      }
      if i: nat :| QuicAt(tag, i) {
        assert i > 0 ==> QuicAt(tag[1..], i - 1);
      }
    }
  }

  lemma IsQuicIff(addr: Multiaddr)
    ensures IsQuic(addr) <==> NamesQuic(addr)
  {
    if k :| 0 <= k < |addr.protocolStack| && ContainsQuic(addr.protocolStack[k].tag) {
      ContainsQuicIff(addr.protocolStack[k].tag);
      var i: nat :| QuicAt(addr.protocolStack[k].tag, i);
      assert NamesQuic(addr);
    }
    if k: nat, i: nat :| k < |addr.protocolStack| && QuicAt(addr.protocolStack[k].tag, i) {
      ContainsQuicIff(addr.protocolStack[k].tag);
    }
  }

  /** The addresses that name QUIC, or those that do not, in the caller's order. */
  ghost function Class(addrs: seq<Multiaddr>, quic: bool): seq<Multiaddr> {
    if addrs == [] then []
    else (if NamesQuic(addrs[0]) == quic then [addrs[0]] else []) + Class(addrs[1..], quic)
  }

  lemma {:induction false} SelectIsClass(addrs: seq<Multiaddr>, quic: bool)
    ensures Select(addrs, quic) == Class(addrs, quic)
  {
    if addrs != [] {
      IsQuicIff(addrs[0]);
      SelectIsClass(addrs[1..], quic);
    }
  }

  /**
    `QuicFirst` is the stable sort the source calls: a permutation, the addresses that
    name QUIC before the rest, and within each of the two classes the caller's order.
  */
  lemma QuicFirstIsStableSort(addrs: seq<Multiaddr>)
    ensures multiset(QuicFirst(addrs)) == multiset(addrs)
    ensures var s := QuicFirst(addrs);
            forall i, j :: 0 <= i < j < |s| && NamesQuic(s[j]) ==> NamesQuic(s[i])
    ensures forall quic :: Class(QuicFirst(addrs), quic) == Class(addrs, quic)
  {
    SelectsAreStable(addrs);
    var s := QuicFirst(addrs);
    forall i, j | 0 <= i < j < |s| && NamesQuic(s[j]) ensures NamesQuic(s[i]) {
      IsQuicIff(s[i]);
      IsQuicIff(s[j]);
    }
    forall quic ensures Class(s, quic) == Class(addrs, quic) {
      SelectIsClass(s, quic);
      SelectIsClass(addrs, quic);
    }
  }

  /**
    What is dialled first: a command for a free key dials one of its addresses, and one
    that names QUIC whenever the list has such an address.
  */
  lemma QuicDialledFirst(d: Dials, key: PublicKey, addrs: seq<Multiaddr>, next: ConnectionId, accepted: bool)
    ensures var dial := NextDial(d, ConnectToPeer(key, addrs, next, accepted));
            && (dial.Some? <==> addrs != [] && key !in d.queues)
            && (dial.Some? ==>
                  && dial.value.key == key && dial.value.addr in addrs
                  && (NamesQuic(dial.value.addr) <==> exists addr :: addr in addrs && NamesQuic(addr)))
  {
    var dial := NextDial(d, ConnectToPeer(key, addrs, next, accepted));
    if dial.Some? {
      var s := QuicFirst(addrs);
      QuicFirstIsStableSort(addrs);
      assert s[0] in multiset(s) && s[0] in addrs;
      if addr :| addr in addrs && NamesQuic(addr) {
        assert addr in multiset(s);
        var j :| 0 <= j < |s| && s[j] == addr;
      }
    }
  }

  lemma SelectsAreStable(addrs: seq<Multiaddr>)
    ensures multiset(QuicFirst(addrs)) == multiset(addrs)
    ensures var s := QuicFirst(addrs);
            forall i, j :: 0 <= i < j < |s| && IsQuic(s[j]) ==> IsQuic(s[i])
    ensures forall quic :: Select(QuicFirst(addrs), quic) == Select(addrs, quic)
  {
    SelectSizes(addrs);
    var t, f := Select(addrs, true), Select(addrs, false);
    SelectPure(addrs, true);
    SelectPure(addrs, false);
    forall quic ensures Select(t + f, quic) == Select(addrs, quic) {
      SelectConcat(t, f, quic);
      SelectUniform(t, true, quic);
      SelectUniform(f, false, quic);
    }
  }

  // --- runs: attempts ---

  /** The dial state; `live` are the accepted dials whose outcome is still to come. */
  datatype World = World(dials: Dials, live: set<ConnectionId>, used: set<ConnectionId>, refusedDial: bool)

  const START: World := World(Dials(map[], map[]), {}, {}, false)

  /** New dials get fresh ids; an outcome comes once per accepted dial, or is not about a dial of ours. */
  predicate Possible(w: World, e: Event) {
    match e
    case ConnectToPeer(_, _, next, _) => next !in w.used
    case Established(c) => c in w.live || c !in w.used
    case Failed(c, next, _) => (c in w.live || c !in w.used) && next !in w.used
  }

  function Ended(d: Dials, e: Event): set<ConnectionId> {
    if !e.ConnectToPeer? && e.conn in d.conns then {e.conn} else {}
  }

  function Launched(d: Dials, e: Event): set<ConnectionId> {
    if !e.Established? && NextDial(d, e).Some? then {e.next} else {}
  }

  function Advance(w: World, e: Event): World {
    var launched := Launched(w.dials, e);
    var accepted := !e.Established? && e.accepted;
    World(Step(w.dials, e),
          w.live - Ended(w.dials, e) + if accepted then launched else {},
          w.used + launched,
          w.refusedDial || (launched != {} && !accepted))
  }

  /** `conn_to_dial` maps the outstanding attempts one to one onto the keys being dialled. */
  ghost predicate Coupled(d: Dials) {
    && (forall c :: c in d.conns ==> d.conns[c] in d.queues)
    && (forall c, c' :: c in d.conns && c' in d.conns && d.conns[c] == d.conns[c'] ==> c == c')
    && (forall k :: k in d.queues ==> exists c :: c in d.conns && d.conns[c] == k)
  }

  /** Every attempt on record will still get an outcome exactly if no dial was ever refused. */
  ghost predicate Accounted(w: World) {
    && w.live <= w.dials.conns.Keys <= w.used
    && (w.live == w.dials.conns.Keys <==> !w.refusedDial)
  }

  lemma CoupledAdd(d: Dials, key: PublicKey, queue: seq<Multiaddr>, next: ConnectionId)
    requires Coupled(d) && key !in d.queues && next !in d.conns
    ensures Coupled(Dials(d.queues[key := queue], d.conns[next := key]))
  {
    var d' := Dials(d.queues[key := queue], d.conns[next := key]);
    forall k | k in d'.queues ensures exists c :: c in d'.conns && d'.conns[c] == k {
      if k == key {
        assert d'.conns[next] == k;
      } else {
        var c :| c in d.conns && d.conns[c] == k;
        assert d'.conns[c] == k;
      }
    }
  }

  lemma CoupledDrop(d: Dials, c0: ConnectionId)
    requires Coupled(d) && c0 in d.conns
    ensures Coupled(Dials(d.queues - {d.conns[c0]}, d.conns - {c0}))
  {
    var d' := Dials(d.queues - {d.conns[c0]}, d.conns - {c0});
    forall k | k in d'.queues ensures exists c :: c in d'.conns && d'.conns[c] == k {
      var c :| c in d.conns && d.conns[c] == k;
      assert d'.conns[c] == k;
    }
  }

  lemma CoupledMove(d: Dials, c0: ConnectionId, queue: seq<Multiaddr>, next: ConnectionId)
    requires Coupled(d) && c0 in d.conns && next !in d.conns
    ensures Coupled(Dials(d.queues[d.conns[c0] := queue], (d.conns - {c0})[next := d.conns[c0]]))
  {
    var key := d.conns[c0];
    var dropped := Dials(d.queues - {key}, d.conns - {c0});
    CoupledDrop(d, c0);
    CoupledAdd(dropped, key, queue, next);
    assert d.queues[key := queue] == dropped.queues[key := queue];
  }

  lemma CoupledStep(d: Dials, e: Event)
    requires Coupled(d)
    requires !e.Established? ==> e.next !in d.conns
    ensures Coupled(Step(d, e))
  {
    match e
    case ConnectToPeer(key, addrs, next, _) =>
      if addrs != [] && key !in d.queues {
        CoupledAdd(d, key, QuicFirst(addrs)[1..], next);
      }
    case Established(c) =>
      if c in d.conns {
        CoupledDrop(d, c);
      }
    case Failed(c, next, _) =>
      if c in d.conns {
        var queue := d.queues[d.conns[c]];
        if queue != [] {
          CoupledMove(d, c, queue[1..], next);
        } else {
          CoupledDrop(d, c);
        }
      }
  }

  /** An orphan never leaves, and a run without refused dials never makes one. */
  lemma AccountedStep(w: World, e: Event)
    requires Accounted(w) && Possible(w, e)
    ensures Accounted(Advance(w, e))
  {
  }

  // --- runs: sessions ---

  datatype Status = Active | Connected | Exhausted

  /** One accepted connect command: its plan, what was dialled so far, failures, outcome. */
  datatype Session = Session(
    key: PublicKey, plan: seq<Multiaddr>, tried: seq<Multiaddr>, failures: nat, status: Status)

  /** The history of commands; `current` finds the running command of a key. */
  datatype Book = Book(sessions: seq<Session>, current: map<PublicKey, nat>)

  /** History entry made by an event that meets dial state d. */
  function Record(b: Book, d: Dials, e: Event): Book {
    var dialled := NextDial(d, e);
    match e
    case ConnectToPeer(key, addrs, _, _) =>
      if dialled.None? then b
      else
        Book(b.sessions + [Session(key, QuicFirst(addrs), [dialled.value.addr], 0, Active)],
             b.current[key := |b.sessions|])
    case Established(c) =>
      if c !in d.conns then b else Settle(b, d.conns[c], Connected, 0)
    case Failed(c, _, _) =>
      if c !in d.conns then b
      else if dialled.None? then Settle(b, d.conns[c], Exhausted, 1)
      else Retry(b, d.conns[c], dialled.value.addr)
  }

  /** The running command of `key` ends. */
  function Settle(b: Book, key: PublicKey, status: Status, failures: nat): Book {
    if key in b.current && b.current[key] < |b.sessions| then
      var i := b.current[key];
      var s := b.sessions[i];
      Book(b.sessions[i := s.(status := status, failures := s.failures + failures)], b.current - {key})
    else b
  }

  /** The running command of `key` goes on with another address. */
  function Retry(b: Book, key: PublicKey, addr: Multiaddr): Book {
    if key in b.current && b.current[key] < |b.sessions| then
      var i := b.current[key];
      var s := b.sessions[i];
      b.(sessions := b.sessions[i := s.(tried := s.tried + [addr], failures := s.failures + 1)])
    else b
  }

  /**
    What was dialled is a prefix of the plan, one failure before each retry, and the
    command is exhausted exactly when every address of the plan has failed.
  */
  ghost predicate SessionOk(s: Session) {
    && 0 < |s.tried| <= |s.plan|
    && s.tried == s.plan[..|s.tried|]
    && s.failures <= |s.tried| <= s.failures + 1
    && (s.status == Exhausted <==> s.failures == |s.tried|)
    && (s.status == Exhausted ==> s.tried == s.plan)
  }

  ghost predicate Running(b: Book, k: PublicKey, queue: seq<Multiaddr>)
    requires k in b.current
  {
    var i := b.current[k];
    && i < |b.sessions|
    && b.sessions[i].status == Active
    && b.sessions[i].key == k
    && b.sessions[i].plan == b.sessions[i].tried + queue
  }

  /** The queues hold exactly what the running commands have not dialled yet. */
  ghost predicate Recorded(b: Book, d: Dials) {
    && b.current.Keys == d.queues.Keys
    && (forall i :: 0 <= i < |b.sessions| ==> SessionOk(b.sessions[i]))
    && (forall i :: 0 <= i < |b.sessions| && b.sessions[i].status == Active ==>
          b.sessions[i].key in b.current && b.current[b.sessions[i].key] == i)
    && (forall k :: k in b.current ==> Running(b, k, d.queues[k]))
  }

  lemma PlanGrows<T>(plan: seq<T>, tried: seq<T>, queue: seq<T>)
    requires plan == tried + queue && queue != []
    ensures tried + [queue[0]] == plan[..|tried| + 1]
    ensures plan == (tried + [queue[0]]) + queue[1..]
  {
  }

  lemma RecordedConnect(b: Book, d: Dials, e: Event)
    requires Recorded(b, d) && e.ConnectToPeer? && NextDial(d, e).Some?
    ensures Recorded(Record(b, d, e), Step(d, e))
  {
    QuicFirstSize(e.addrs);
    RecordedNew(b, d, e.key, QuicFirst(e.addrs), Step(d, e));
  }

  lemma RecordedNew(b: Book, d: Dials, key: PublicKey, plan: seq<Multiaddr>, d': Dials)
    requires Recorded(b, d) && key !in d.queues && plan != []
    requires d'.queues == d.queues[key := plan[1..]]
    ensures Recorded(Book(b.sessions + [Session(key, plan, [plan[0]], 0, Active)], b.current[key := |b.sessions|]), d')
  {
    assert plan == [plan[0]] + plan[1..] && [plan[0]] == plan[..1];
    var b' := Book(b.sessions + [Session(key, plan, [plan[0]], 0, Active)], b.current[key := |b.sessions|]);
    forall k | k in b'.current ensures Running(b', k, d'.queues[k]) {
      if k != key {
        assert Running(b, k, d.queues[k]);
      }
    }
  }

  lemma RecordedSettle(b: Book, d: Dials, key: PublicKey, status: Status, failures: nat, d': Dials)
    requires Recorded(b, d) && key in d.queues && d'.queues == d.queues - {key}
    requires || (status == Connected && failures == 0)
             || (status == Exhausted && failures == 1 && d.queues[key] == [])
    ensures Recorded(Settle(b, key, status, failures), d')
  {
  }

  lemma RecordedRetry(b: Book, d: Dials, key: PublicKey, d': Dials)
    requires Recorded(b, d) && key in d.queues && d.queues[key] != []
    requires d'.queues == d.queues[key := d.queues[key][1..]]
    ensures Recorded(Retry(b, key, d.queues[key][0]), d')
  {
    assert Running(b, key, d.queues[key]);
    var i := b.current[key];
    PlanGrows(b.sessions[i].plan, b.sessions[i].tried, d.queues[key]);
    var b' := Retry(b, key, d.queues[key][0]);
    forall k | k in b'.current ensures Running(b', k, d'.queues[k]) {
      assert Running(b, k, d.queues[k]);
    }
  }

  lemma RecordedStep(b: Book, d: Dials, e: Event)
    requires Recorded(b, d) && Coupled(d)
    ensures Recorded(Record(b, d, e), Step(d, e))
  {
    match e
    case ConnectToPeer(_, _, _, _) =>
      if NextDial(d, e).Some? {
        RecordedConnect(b, d, e);
      }
    case Established(c) =>
      if c in d.conns {
        RecordedSettle(b, d, d.conns[c], Connected, 0, Step(d, e));
      }
    case Failed(c, _, _) =>
      if c in d.conns {
        if d.queues[d.conns[c]] == [] {
          RecordedSettle(b, d, d.conns[c], Exhausted, 1, Step(d, e));
        } else {
          RecordedRetry(b, d, d.conns[c], Step(d, e));
        }
      }
  }

  // --- the theorems ---

  predicate ValidRun(w: World, events: seq<Event>)
    decreases |events|
  {
    events == [] || (Possible(w, events[0]) && ValidRun(Advance(w, events[0]), events[1..]))
  }

  function Run(w: World, events: seq<Event>): World
    decreases |events|
  {
    if events == [] then w else Run(Advance(w, events[0]), events[1..])
  }

  function Chronicle(b: Book, d: Dials, events: seq<Event>): Book
    decreases |events|
  {
    if events == [] then b else Chronicle(Record(b, d, events[0]), Step(d, events[0]), events[1..])
  }

  /**
    Coupling over whole runs: the two maps stay coupled whatever the swarm answers,
    and no attempt is orphaned exactly when the swarm never refused a dial.
  */
  lemma {:induction false} CouplingInvariant(w: World, events: seq<Event>)
    requires Coupled(w.dials) && Accounted(w) && ValidRun(w, events)
    ensures Coupled(Run(w, events).dials) && Accounted(Run(w, events))
    decreases |events|
  {
    if events != [] {
      CoupledStep(w.dials, events[0]);
      AccountedStep(w, events[0]);
      CouplingInvariant(Advance(w, events[0]), events[1..]);
    }
  }

  /**
    Order and termination over whole runs: every command dials a prefix of its
    QUIC-first plan, each entry at most once, and ends exhausted exactly when all
    entries failed; running commands account for exactly the remaining queues.
  */
  lemma {:induction false} OrderInvariant(w: World, b: Book, events: seq<Event>)
    requires Coupled(w.dials) && Accounted(w) && Recorded(b, w.dials) && ValidRun(w, events)
    ensures Recorded(Chronicle(b, w.dials, events), Run(w, events).dials)
    decreases |events|
  {
    if events != [] {
      CoupledStep(w.dials, events[0]);
      AccountedStep(w, events[0]);
      RecordedStep(b, w.dials, events[0]);
      OrderInvariant(Advance(w, events[0]), Record(b, w.dials, events[0]), events[1..]);
    }
  }

  /** The reachable states of a node that starts with nothing to dial. */
  lemma ReachableDialing(events: seq<Event>)
    requires ValidRun(START, events)
    ensures var w := Run(START, events);
            var b := Chronicle(Book([], map[]), START.dials, events);
            Coupled(w.dials) && Accounted(w) && Recorded(b, w.dials)
  {
    CouplingInvariant(START, events);
    OrderInvariant(START, Book([], map[]), events);
  }

  /** After as many failures as addresses a command no longer blocks its key. */
  lemma AllFailedFreesKey(b: Book, d: Dials, i: nat)
    requires Recorded(b, d) && i < |b.sessions|
    ensures b.sessions[i].failures == |b.sessions[i].plan| <==> b.sessions[i].status == Exhausted
    ensures b.sessions[i].failures == |b.sessions[i].plan| && b.sessions[i].key in d.queues ==>
              b.current[b.sessions[i].key] != i
  {
  }

  // --- the measure ---

  /** Attempts still allowed: for each key its outstanding attempt and its queue. */
  ghost function Work(queues: map<PublicKey, seq<Multiaddr>>): nat
    decreases |queues|
  {
    if queues == map[] then 0
    else
      var k :| k in queues;
      |queues[k]| + 1 + Work(queues - {k})
  }

  lemma {:induction false} WorkOf(queues: map<PublicKey, seq<Multiaddr>>, k: PublicKey)
    requires k in queues
    ensures Work(queues) == |queues[k]| + 1 + Work(queues - {k})
    decreases |queues|
  {
    var picked :| picked in queues && Work(queues) == |queues[picked]| + 1 + Work(queues - {picked});
    if picked != k {
      WorkOf(queues - {picked}, k);
      WorkOf(queues - {k}, picked);
      assert queues - {picked} - {k} == queues - {k} - {picked};
    }
  }

  lemma WorkPut(queues: map<PublicKey, seq<Multiaddr>>, key: PublicKey, queue: seq<Multiaddr>)
    ensures Work(queues[key := queue]) == |queue| + 1 + Work(queues - {key})
    ensures key !in queues ==> queues - {key} == queues
  {
    WorkOf(queues[key := queue], key);
    assert queues[key := queue] - {key} == queues - {key};
  }

  /**
    Termination measure: each failure of an attempt takes away exactly one unit, a
    success everything its key had left, and only an accepted command adds any.
  */
  lemma WorkStep(d: Dials, e: Event)
    requires Coupled(d)
    ensures var work, work' := Work(d.queues), Work(Step(d, e).queues);
            match e
            case Failed(c, _, _) => work' == work - if c in d.conns then 1 else 0
            case Established(c) => work' == work - if c in d.conns then |d.queues[d.conns[c]]| + 1 else 0
            case ConnectToPeer(key, addrs, _, _) => work' == work + if key in d.queues then 0 else |addrs|
  {
    match e
    case ConnectToPeer(key, addrs, _, _) =>
      if addrs != [] && key !in d.queues {
        QuicFirstSize(addrs);
        WorkPut(d.queues, key, QuicFirst(addrs)[1..]);
      }
    case Established(c) =>
      if c in d.conns {
        WorkOf(d.queues, d.conns[c]);
      }
    case Failed(c, _, _) =>
      if c in d.conns {
        var key := d.conns[c];
        WorkOf(d.queues, key);
        if d.queues[key] != [] {
          WorkPut(d.queues, key, d.queues[key][1..]);
        }
      }
  }

  /** Failures of the node's own attempts in a run. */
  function OwnFailures(d: Dials, events: seq<Event>): nat
    decreases |events|
  {
    if events == [] then 0
    else
      var e := events[0];
      (if e.Failed? && e.conn in d.conns then 1 else 0) + OwnFailures(Step(d, e), events[1..])
  }

  /** Addresses handed over by the connect commands that were not ignored. */
  function AddedAddresses(d: Dials, events: seq<Event>): nat
    decreases |events|
  {
    if events == [] then 0
    else
      var e := events[0];
      (if e.ConnectToPeer? && e.key !in d.queues then |e.addrs| else 0) + AddedAddresses(Step(d, e), events[1..])
  }

  /** Over every possible run there are no more failures than there were addresses to try. */
  lemma {:induction false} FailuresBounded(w: World, events: seq<Event>)
    requires Coupled(w.dials) && Accounted(w) && ValidRun(w, events)
    ensures OwnFailures(w.dials, events) + Work(Run(w, events).dials.queues)
            <= Work(w.dials.queues) + AddedAddresses(w.dials, events)
    decreases |events|
  {
    if events != [] {
      CoupledStep(w.dials, events[0]);
      AccountedStep(w, events[0]);
      WorkStep(w.dials, events[0]);
      FailuresBounded(Advance(w, events[0]), events[1..]);
    }
  }

  /** A first command whose dial the swarm refuses leaves such an attempt behind. */
  lemma OrphanReachable(key: PublicKey, addr: Multiaddr, conn: ConnectionId)
    ensures var e := ConnectToPeer(key, [addr], conn, false);
            var w := Advance(START, e);
            && Possible(START, e)
            && Coupled(w.dials) && Accounted(w)
            && conn in w.dials.conns && w.dials.conns[conn] == key && conn !in w.live
  {
    var e := ConnectToPeer(key, [addr], conn, false);
    CoupledStep(START.dials, e);
    AccountedStep(START, e);
    QuicFirstSize([addr]);
  }

  /**
    What a refused dial costs: its key stays blocked for ever. No later event of a
    possible run removes it, so every further connect command for it is ignored.
  */
  lemma {:induction false} OrphanBlocksKey(w: World, c: ConnectionId, events: seq<Event>)
    requires Coupled(w.dials) && Accounted(w) && ValidRun(w, events)
    requires c in w.dials.conns && c !in w.live
    ensures var end := Run(w, events);
            var key := w.dials.conns[c];
            && key in end.dials.queues
            && forall addrs, next, accepted ::
                 Step(end.dials, ConnectToPeer(key, addrs, next, accepted)) == end.dials
    decreases |events|
  {
    if events != [] {
      var e := events[0];
      CoupledStep(w.dials, e);
      AccountedStep(w, e);
      var w' := Advance(w, e);
      assert c in w'.dials.conns && w'.dials.conns[c] == w.dials.conns[c];
      OrphanBlocksKey(w', c, events[1..]);
    }
  }
}
