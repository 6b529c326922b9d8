/** The key registry of `SetupBehaviour`: two maps meant to be inverse to each other. */
module Registry {
  import opened Basics
  import EventStack
  import Setup

  datatype Reg = Reg(transportIds: map<PeerId, PublicKey>, appPublicKeys: map<PublicKey, PeerId>)

  const EMPTY: Reg := Reg(map[], map[])

  datatype RegOp = KeyReceived(peer: PeerId, key: PublicKey) | ConnectionClosed(peer: PeerId, remaining: nat)

  /** Inserting leaves the former partners of p and of k where they are. */
  function Apply(r: Reg, op: RegOp): Reg {
    match op
    case KeyReceived(p, k) => Reg(r.transportIds[p := k], r.appPublicKeys[k := p])
    case ConnectionClosed(p, remaining) =>
      if remaining == 0 && p in r.transportIds
      then Reg(r.transportIds - {p}, r.appPublicKeys - {r.transportIds[p]})
      else r
  }

  function Replay(log: seq<RegOp>): Reg {
    if log == [] then EMPTY else Apply(Replay(log[..|log| - 1]), log[|log| - 1])
  }

  datatype BehaviourEvent = BehaviourEvent(transportId: PeerId, connId: ConnectionId, event: Setup.HandlerEvent)

  /** Only an accepted key touches the registry. */
  function AfterHandlerEvent(r: Reg, peer: PeerId, event: Setup.HandlerEvent): Reg {
    if event.AppKeyReceived? then Apply(r, KeyReceived(peer, event.appPublicKey)) else r
  }

  class SetupBehaviour {
    var transportIds: map<PeerId, PublicKey>
    var appPublicKeys: map<PublicKey, PeerId>
    var events: seq<BehaviourEvent>

    ghost function View(): Reg
      reads this
    {
      Reg(transportIds, appPublicKeys)
    }

    constructor ()
      ensures View() == EMPTY && events == []
    {
      transportIds := map[];
      appPublicKeys := map[];
      events := [];
    }

    method GetAppPublicKeyByTransportId(peer: PeerId) returns (r: Option<PublicKey>)
      ensures r == Lookup(transportIds, peer)
    {
      r := Lookup(transportIds, peer);
    }

    method GetTransportIdByApplicationKey(key: PublicKey) returns (r: Option<PeerId>)
      ensures r == Lookup(appPublicKeys, key)
    {
      r := Lookup(appPublicKeys, key);
    }

    method OnConnectionClosed(peer: PeerId, remaining: nat)
      modifies this
      ensures View() == Apply(old(View()), ConnectionClosed(peer, remaining))
      ensures events == old(events)
    {
      if remaining == 0 {
        if peer in transportIds {
          var key := transportIds[peer];
          transportIds := transportIds - {peer};
          appPublicKeys := appPublicKeys - {key};
        }
      }
    }

    method OnConnectionHandlerEvent(peer: PeerId, connId: ConnectionId, event: Setup.HandlerEvent)
      modifies this
      ensures View() == AfterHandlerEvent(old(View()), peer, event)
      ensures events == EventStack.Step(old(events), EventStack.Push(BehaviourEvent(peer, connId, event)))
    {
      if event.AppKeyReceived? {
        transportIds := transportIds[peer := event.appPublicKey];
        appPublicKeys := appPublicKeys[event.appPublicKey := peer];
      }
      events := events + [BehaviourEvent(peer, connId, event)];
    }

    method Poll() returns (r: Option<BehaviourEvent>)
      modifies this`events
      ensures events == EventStack.Step(old(events), EventStack.Pop)
      ensures (if r.Some? then [r.value] else []) == EventStack.Popped(old(events), EventStack.Pop)
    {
      if |events| > 0 {
        r := Some(events[|events| - 1]);
        events := events[..|events| - 1];
      } else {
        r := None;
      }
    }
  }

  // --- what each map says about the history ---

  /** Operation j gives peer p another key or fully disconnects it. */
  ghost predicate Supersedes(op: RegOp, p: PeerId) {
    op.peer == p && (op.KeyReceived? || op.remaining == 0)
  }

  /** Operation i is p's latest accepted key, with no full close of p since. */
  ghost predicate CurrentKey(log: seq<RegOp>, p: PeerId, k: PublicKey, i: nat) {
    && i < |log| && log[i] == KeyReceived(p, k)
    && forall j :: i < j < |log| ==> !Supersedes(log[j], p)
  }

  ghost predicate HoldsKey(log: seq<RegOp>, p: PeerId, k: PublicKey) {
    exists i: nat :: CurrentKey(log, p, k, i)
  }

  /** Operation j makes someone present k, or fully closes a peer that held k. */
  ghost predicate Releases(log: seq<RegOp>, j: nat, k: PublicKey)
    requires j < |log|
  {
    match log[j]
    case KeyReceived(_, k') => k' == k
    case ConnectionClosed(q, remaining) => remaining == 0 && HoldsKey(log[..j], q, k)
  }

  /** Operation i is the last presentation of k, and no holder of k closed since. */
  ghost predicate CurrentHolder(log: seq<RegOp>, k: PublicKey, p: PeerId, i: nat) {
    && i < |log| && log[i] == KeyReceived(p, k)
    && forall j :: i < j < |log| ==> !Releases(log, j, k)
  }

  lemma CurrentKeySnoc(log: seq<RegOp>, p: PeerId, k: PublicKey)
    requires log != []
    ensures var front, last := log[..|log| - 1], log[|log| - 1];
            HoldsKey(log, p, k)
            <==> last == KeyReceived(p, k) || (!Supersedes(last, p) && HoldsKey(front, p, k))
  {
    var front, last := log[..|log| - 1], log[|log| - 1];
    if i: nat :| CurrentKey(log, p, k, i) {
      if i < |front| {
        assert CurrentKey(front, p, k, i);
      }
    }
    if last == KeyReceived(p, k) {
      assert CurrentKey(log, p, k, |front|);
    }
    if i: nat :| CurrentKey(front, p, k, i) {
      if !Supersedes(last, p) {
        assert CurrentKey(log, p, k, i);
      }
    }
  }

  /** `transport_ids[p]` is k exactly when k is p's latest key since its last full close. */
  lemma {:induction false} TransportIdsHistory(log: seq<RegOp>, p: PeerId, k: PublicKey)
    ensures Lookup(Replay(log).transportIds, p) == Some(k) <==> HoldsKey(log, p, k)
  {
    if log != [] {
      var front := log[..|log| - 1];
      TransportIdsHistory(front, p, k);
      CurrentKeySnoc(log, p, k);
    }
  }

  lemma CurrentHolderSnoc(log: seq<RegOp>, k: PublicKey, p: PeerId)
    requires log != []
    ensures var front, last := log[..|log| - 1], log[|log| - 1];
            (exists i: nat :: CurrentHolder(log, k, p, i))
            <==> last == KeyReceived(p, k)
                 || (!Releases(log, |front|, k) && exists i: nat :: CurrentHolder(front, k, p, i))
  {
    var front, last := log[..|log| - 1], log[|log| - 1];
    forall j: nat | j < |front| ensures Releases(front, j, k) == Releases(log, j, k) {
      assert front[..j] == log[..j];
    }
    if i: nat :| CurrentHolder(log, k, p, i) {
      if i < |front| {
        assert CurrentHolder(front, k, p, i);
      }
    }
    if last == KeyReceived(p, k) {
      assert CurrentHolder(log, k, p, |front|);
    }
    if i: nat :| CurrentHolder(front, k, p, i) {
      if !Releases(log, |front|, k) {
        assert CurrentHolder(log, k, p, i);
      }
    }
  }

  /**
    `app_public_keys[k]` is p exactly when p was the last to present k and no peer
    holding k has fully closed since. No assumption on keys is made.
  */
  lemma {:induction false} AppPublicKeysHistory(log: seq<RegOp>, k: PublicKey, p: PeerId)
    ensures Lookup(Replay(log).appPublicKeys, k) == Some(p) <==> exists i: nat :: CurrentHolder(log, k, p, i)
  {
    if log != [] {
      var front, last := log[..|log| - 1], log[|log| - 1];
      AppPublicKeysHistory(front, k, p);
      CurrentHolderSnoc(log, k, p);
      if last.ConnectionClosed? {
        TransportIdsHistory(front, last.peer, k);
      }
    }
  }

  // --- when the two maps are a bijection ---

  ghost predicate Inverse(r: Reg) {
    forall p, k :: Lookup(r.transportIds, p) == Some(k) <==> Lookup(r.appPublicKeys, k) == Some(p)
  }

  ghost predicate Conflicts(r: Reg, p: PeerId, k: PublicKey) {
    || (p in r.transportIds && r.transportIds[p] != k)
    || (k in r.appPublicKeys && r.appPublicKeys[k] != p)
  }

  lemma KeyKeepsInverseIff(r: Reg, p: PeerId, k: PublicKey)
    requires Inverse(r)
    ensures Inverse(Apply(r, KeyReceived(p, k))) <==> !Conflicts(r, p, k)
  {
    var r' := Apply(r, KeyReceived(p, k));
    if p in r.transportIds && r.transportIds[p] != k {
      var former := r.transportIds[p];
      assert Lookup(r.transportIds, p) == Some(former);
      assert Lookup(r'.appPublicKeys, former) == Some(p) && Lookup(r'.transportIds, p) == Some(k);
    } else if k in r.appPublicKeys && r.appPublicKeys[k] != p {
      var former := r.appPublicKeys[k];
      assert Lookup(r.appPublicKeys, k) == Some(former);
      assert Lookup(r'.transportIds, former) == Some(k) && Lookup(r'.appPublicKeys, k) == Some(p);
    } else {
      forall q, l
        ensures Lookup(r'.transportIds, q) == Some(l) <==> Lookup(r'.appPublicKeys, l) == Some(q)
      {
        assert Lookup(r.transportIds, q) == Some(l) <==> Lookup(r.appPublicKeys, l) == Some(q);
      }
    }
  }

  lemma CloseKeepsInverse(r: Reg, p: PeerId, remaining: nat)
    requires Inverse(r)
    ensures Inverse(Apply(r, ConnectionClosed(p, remaining)))
  {
    var r' := Apply(r, ConnectionClosed(p, remaining));
    forall q, l
      ensures Lookup(r'.transportIds, q) == Some(l) <==> Lookup(r'.appPublicKeys, l) == Some(q)
    {
      assert Lookup(r.transportIds, q) == Some(l) <==> Lookup(r.appPublicKeys, l) == Some(q);
      if p in r.transportIds {
        assert Lookup(r.transportIds, p) == Some(r.transportIds[p]);
      }
    }
  }

  /** Every key in the log was presented without conflict at the time. */
  ghost predicate ConflictFree(log: seq<RegOp>) {
    forall n: nat :: n < |log| && log[n].KeyReceived? ==>
      !Conflicts(Replay(log[..n]), log[n].peer, log[n].key)
  }

  ghost predicate AlwaysInverse(log: seq<RegOp>) {
    forall n: nat :: n <= |log| ==> Inverse(Replay(log[..n]))
  }

  /** The maps are inverse at every moment of a run exactly when no presentation conflicts. */
  lemma {:induction false} AlwaysInverseIffConflictFree(log: seq<RegOp>)
    ensures AlwaysInverse(log) <==> ConflictFree(log)
  {
    assert log[..|log|] == log;
    if log != [] {
      var m := |log| - 1;
      var front, last := log[..m], log[m];
      forall n: nat | n <= m ensures front[..n] == log[..n] {
      }
      AlwaysInverseIffConflictFree(front);
      assert AlwaysInverse(log) <==> AlwaysInverse(front) && Inverse(Replay(log)) by {
        assert forall n: nat :: n <= |log| ==> n <= m || log[..n] == log;
      }
      assert ConflictFree(log) <==>
        ConflictFree(front) && (last.KeyReceived? ==> !Conflicts(Replay(front), last.peer, last.key));
      if AlwaysInverse(front) {
        assert front[..m] == front;
        assert Inverse(Replay(front));
        match last
        case KeyReceived(p, k) => KeyKeepsInverseIff(Replay(front), p, k);
        case ConnectionClosed(p, remaining) => CloseKeepsInverse(Replay(front), p, remaining);
      }
    } else {
      assert Inverse(EMPTY);
    }
  }

  // --- the two connectivity queries ---

  /** `IsConnected`: through the key map, then the swarm. */
  predicate IsConnected(r: Reg, connected: seq<PeerId>, key: PublicKey) {
    match Lookup(r.appPublicKeys, key)
    case Some(peer) => peer in connected
    case None => false
  }

  /** `GetConnectedPeers`: the swarm's peers, mapped through the peer map. */
  function ConnectedKeys(r: Reg, connected: seq<PeerId>): (keys: seq<PublicKey>)
    ensures forall k :: k in keys <==> exists p :: p in connected && Lookup(r.transportIds, p) == Some(k)
  {
    if connected == [] then []
    else
      var rest := ConnectedKeys(r, connected[1..]);
      match Lookup(r.transportIds, connected[0])
      case Some(k) => [k] + rest
      case None => rest
  }

  /** The two queries answer alike, whoever is connected, exactly when the maps are inverse. */
  lemma QueriesAgreeIffInverse(r: Reg)
    ensures (forall connected, key :: IsConnected(r, connected, key) <==> key in ConnectedKeys(r, connected))
            <==> Inverse(r)
  {
    if forall connected, key :: IsConnected(r, connected, key) <==> key in ConnectedKeys(r, connected) {
      forall p, k
        ensures Lookup(r.transportIds, p) == Some(k) <==> Lookup(r.appPublicKeys, k) == Some(p)
      {
        assert IsConnected(r, [p], k) <==> k in ConnectedKeys(r, [p]);
      }
    }
  }

  /**
    A conflicting run: two peers present the same key and the first one leaves. The
    second is connected and registered, yet the key is reported as not connected.
  */
  lemma SharedKeyLost(p: PeerId, q: PeerId, k: PublicKey)
    requires p != q
    ensures var r := Replay([KeyReceived(p, k), KeyReceived(q, k), ConnectionClosed(p, 0)]);
            && Lookup(r.transportIds, q) == Some(k)
            && k in ConnectedKeys(r, [q])
            && !IsConnected(r, [q], k)
  {
    var one := [KeyReceived(p, k)];
    var two := [KeyReceived(p, k), KeyReceived(q, k)];
    var log := [KeyReceived(p, k), KeyReceived(q, k), ConnectionClosed(p, 0)];
    assert one[..0] == [] && Replay(one) == Apply(EMPTY, KeyReceived(p, k));
    assert two[..1] == one && log[..2] == two;
    assert Replay(two) == Reg(map[p := k, q := k], map[k := q]);
    assert Replay(log).appPublicKeys == map[];
    assert q in [q] && Lookup(Replay(log).transportIds, q) == Some(k);
  }
}
