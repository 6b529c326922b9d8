/** DHT records: the record store and the table of running queries. */
module Dht {
  import opened Basics
  import opened Freshness
  import opened SignedMessages

  type QueryId = nat

  /** What a record key must decode to: an application key or a peer id. */
  type Identity = seq<Byte>

  datatype RecordData = RecordData(publicKey: PublicKey, multiaddresses: seq<Multiaddr>, date: U64)

  type SignedRecord = Signed<RecordData>

  datatype Record = Record(key: seq<Byte>, value: seq<Byte>)

  /** Configuration and foreign code. */
  datatype Rules = Rules(
    maxAge: Duration,
    maxSkew: Duration,
    verifier: Verifier,
    serialize: RecordData -> Option<seq<Byte>>,
    parse: seq<Byte> -> Option<SignedRecord>,
    decodeKey: seq<Byte> -> Option<Identity>,
    identityOf: PublicKey -> Identity)

  function RecordKind(rules: Rules): Kind<RecordData> {
    Kind(rules.serialize, (m: RecordData) => m.publicKey)
  }

  predicate KeyMatches(rules: Rules, key: seq<Byte>, signed: SignedRecord) {
    rules.decodeKey(key) == Some(rules.identityOf(signed.message.publicKey))
  }

  /** The record says what its key promises, is signed by its own key, and is fresh. */
  predicate Sound(rules: Rules, key: seq<Byte>, signed: SignedRecord, now: Clock) {
    && Authentic(RecordKind(rules), rules.verifier, signed)
    && DhtCheck(signed.message.date, now, rules.maxAge, rules.maxSkew) == DateOk
    && KeyMatches(rules, key, signed)
  }

  /**
    A record that may be kept under `key`, spelled out: its value parses; the key it
    carries is the one it is filed under, and signed exactly this content; and it is
    dated in the window at a reading past the epoch, where the sum of reading and skew
    is taken in 64 bits.
  */
  ghost predicate Genuine(rules: Rules, key: seq<Byte>, value: seq<Byte>, now: Clock) {
    && rules.parse(value).Some? && now.SinceEpoch?
    && var signed := rules.parse(value).value;
       var data := signed.message;
       && rules.decodeKey(key) == Some(rules.identityOf(data.publicKey))
       && Covers(rules.verifier, data.publicKey, rules.serialize(data), signed.signature)
       && InWindow(data.date, now.secs, rules.maxAge, rules.maxSkew)
       && data.date <= (now.secs + rules.maxSkew.secs) % 0x1_0000_0000_0000_0000
       && data.date != 0xFFFF_FFFF_FFFF_FFFF
  }

  lemma SoundIffGenuine(rules: Rules, key: seq<Byte>, value: seq<Byte>, now: Clock)
    ensures rules.parse(value).Some? && Sound(rules, key, rules.parse(value).value, now)
            <==> Genuine(rules, key, value, now)
  {
    if rules.parse(value).Some? {
      var signed := rules.parse(value).value;
      AuthenticIff(RecordKind(rules), rules.verifier, signed);
      if now.SinceEpoch? {
        DhtCheckIff(signed.message.date, now, rules.maxAge, rules.maxSkew);
      }
    }
  }

  // --- the store ---

  type Store = map<seq<Byte>, seq<Byte>>

  /** `roomy` is what the store answers when asked to keep the record. */
  datatype StoreEvent =
    | PutRequest(record: Option<Record>, now: Clock, roomy: bool)
    | Removed(key: seq<Byte>)

  function DateOf(rules: Rules, value: seq<Byte>): int {
    match rules.parse(value)
    case Some(signed) => signed.message.date
    case None => -1
  }

  /** A record that passes every check on itself, whatever is stored. */
  predicate Admissible(rules: Rules, e: StoreEvent, key: seq<Byte>) {
    && e.PutRequest? && e.record.Some? && e.record.value.key == key && e.roomy
    && rules.parse(e.record.value.value).Some?
    && Sound(rules, key, rules.parse(e.record.value.value).value, e.now)
  }

  /** It is also newer than what is stored; a stored value that does not parse never blocks it. */
  predicate Replaces(rules: Rules, store: Store, record: Record) {
    record.key in store ==> DateOf(rules, store[record.key]) < DateOf(rules, record.value)
  }

  function StoreStep(rules: Rules, store: Store, e: StoreEvent): Store {
    match e
    case Removed(key) => store - {key}
    case PutRequest(None, _, _) => store
    case PutRequest(Some(record), _, _) =>
      if Admissible(rules, e, record.key) && Replaces(rules, store, record)
      then store[record.key := record.value]
      else store
  }

  function StoreRun(rules: Rules, events: seq<StoreEvent>): Store {
    if events == [] then map[] else StoreStep(rules, StoreRun(rules, events[..|events| - 1]), events[|events| - 1])
  }

  // --- the query table ---

  type Queries = map<QueryId, seq<SignedRecord>>

  datatype QueryEvent =
    | Asked(id: QueryId)
    | Found(id: QueryId, record: Record, now: Clock)
    | Finished(id: QueryId)

  /** The record a Found event contributes to its query, if it passes the checks. */
  function Contribution(rules: Rules, record: Record, now: Clock): seq<SignedRecord> {
    match rules.parse(record.value)
    case Some(signed) => if Sound(rules, record.key, signed, now) then [signed] else []
    case None => []
  }

  function QueryStep(rules: Rules, q: Queries, e: QueryEvent): Queries {
    match e
    case Asked(id) => q[id := []]
    case Found(id, record, now) => if id in q then q[id := q[id] + Contribution(rules, record, now)] else q
    case Finished(id) => q - {id}
  }

  /** Newest of its list, and the last of those to arrive. */
  ghost predicate LastOfMaxDate(records: seq<SignedRecord>, i: nat) {
    && i < |records|
    && (forall j :: 0 <= j < |records| ==> records[j].message.date <= records[i].message.date)
    && (forall j :: i < j < |records| ==> records[j].message.date < records[i].message.date)
  }

  /** `Iterator::max_by`, which keeps the later of two equal elements. */
  function MaxByDate(records: seq<SignedRecord>): (i: nat)
    requires records != []
    ensures LastOfMaxDate(records, i)
  {
    var n := |records| - 1;
    if n == 0 then 0
    else
      var best := MaxByDate(records[..n]);
      if records[best].message.date <= records[n].message.date then n else best
  }

  datatype Answer = ResultFindMultiaddress(addresses: Option<seq<Multiaddr>>)

  /** What is sent to the command handle, as a sequence of length at most one. */
  function AnswerTo(q: Queries, e: QueryEvent): (r: seq<Answer>)
    ensures |r| <= 1
  {
    if e.Finished? && e.id in q then
      var records := q[e.id];
      if records == [] then [ResultFindMultiaddress(None)]
      else [ResultFindMultiaddress(Some(records[MaxByDate(records)].message.multiaddresses))]
    else []
  }

  function QueryRun(rules: Rules, events: seq<QueryEvent>): Queries {
    if events == [] then map[] else QueryStep(rules, QueryRun(rules, events[..|events| - 1]), events[|events| - 1])
  }

  // --- the handlers ---

  class DhtNode {
    const rules: Rules
    var store: Store
    var receivedRecords: Queries

    constructor (rules: Rules)
      ensures this.rules == rules && store == map[] && receivedRecords == map[]
    {
      this.rules := rules;
      store := map[];
      receivedRecords := map[];
    }

    method ValidateRecordDate(date: U64, now: Clock) returns (ok: bool)
      ensures ok <==> DhtCheck(date, now, rules.maxAge, rules.maxSkew) == DateOk
    {
      if date == U64_MAX {
        return false;
      }
      if now.BeforeEpoch? {
        return false;
      }
      if date > WrappingAdd(now.secs, rules.maxSkew.secs) {
        return false;
      }
      if SaturatingSub(now.secs, date) > rules.maxAge.secs {
        return false;
      }
      return true;
    }

    method OnPutRequest(optRecord: Option<Record>, now: Clock, roomy: bool)
      modifies this`store
      ensures store == StoreStep(rules, old(store), PutRequest(optRecord, now, roomy))
      ensures optRecord.None? || !roomy ==> store == old(store)
      ensures optRecord.Some? && roomy ==>
                var record := optRecord.value;
                && (!Genuine(rules, record.key, record.value, now) ==> store == old(store))
                && (Genuine(rules, record.key, record.value, now) && record.key !in old(store) ==>
                      store == old(store)[record.key := record.value])
    {
      if optRecord.Some? {
        SoundIffGenuine(rules, optRecord.value.key, optRecord.value.value, now);
      }
      if optRecord.None? {
        return;
      }
      var record := optRecord.value;
      var parsed := rules.parse(record.value);
      if parsed.None? {
        return;
      }
      var signed := parsed.value;
      var authentic := Verify(RecordKind(rules), rules.verifier, signed);
      if authentic.None? || !authentic.value {
        return;
      }
      var dated := ValidateRecordDate(signed.message.date, now);
      if !dated {
        return;
      }
      var identity := rules.decodeKey(record.key);
      if identity.None? || rules.identityOf(signed.message.publicKey) != identity.value {
        return;
      }
      if record.key in store {
        var existing := rules.parse(store[record.key]);
        if existing.Some? && signed.message.date <= existing.value.message.date {
          return;
        }
      }
      if roomy {
        store := store[record.key := record.value];
      }
    }

    method AskGetRecord(id: QueryId)
      modifies this`receivedRecords
      ensures receivedRecords == QueryStep(rules, old(receivedRecords), Asked(id))
    {
      receivedRecords := receivedRecords[id := []];
    }

    method OnFoundRecord(id: QueryId, record: Record, now: Clock)
      modifies this`receivedRecords
      ensures receivedRecords == QueryStep(rules, old(receivedRecords), Found(id, record, now))
      ensures receivedRecords ==
                if id in old(receivedRecords) && Genuine(rules, record.key, record.value, now)
                then old(receivedRecords)[id := old(receivedRecords)[id] + [rules.parse(record.value).value]]
                else old(receivedRecords)
    {
      SoundIffGenuine(rules, record.key, record.value, now);
      if id !in receivedRecords {
        return;
      }
      assert receivedRecords == receivedRecords[id := receivedRecords[id] + []] by {
        assert receivedRecords[id] + [] == receivedRecords[id];
      }
      var parsed := rules.parse(record.value);
      if parsed.None? {
        return;
      }
      var signed := parsed.value;
      var identity := rules.decodeKey(record.key);
      if identity.None? || rules.identityOf(signed.message.publicKey) != identity.value {
        return;
      }
      var authentic := Verify(RecordKind(rules), rules.verifier, signed);
      if authentic.None? || !authentic.value {
        return;
      }
      var dated := ValidateRecordDate(signed.message.date, now);
      if !dated {
        return;
      }
      receivedRecords := receivedRecords[id := receivedRecords[id] + [signed]];
    }

    method FinishLookingForDhtRecord(id: QueryId) returns (answers: seq<Answer>)
      modifies this`receivedRecords
      ensures receivedRecords == QueryStep(rules, old(receivedRecords), Finished(id))
      ensures answers == AnswerTo(old(receivedRecords), Finished(id))
    {
      answers := [];
      if id in receivedRecords {
        var records := receivedRecords[id];
        if |records| == 0 {
          answers := [ResultFindMultiaddress(None)];
        } else {
          answers := [ResultFindMultiaddress(Some(records[MaxByDate(records)].message.multiaddresses))];
        }
        receivedRecords := receivedRecords - {id};
      }
    }
  }

  // --- last writer wins ---

  /** Values that passed all checks for `key` since it was last removed, in order of arrival. */
  function Arrived(rules: Rules, events: seq<StoreEvent>, key: seq<Byte>): seq<seq<Byte>> {
    if events == [] then []
    else
      var before, last := Arrived(rules, events[..|events| - 1], key), events[|events| - 1];
      if last == Removed(key) then []
      else if Admissible(rules, last, key) then before + [last.record.value.value]
      else before
  }

  /** Newest of its list, and the first of those to arrive. */
  ghost predicate FirstOfMaxDate(rules: Rules, values: seq<seq<Byte>>, i: nat) {
    && i < |values|
    && (forall j :: 0 <= j < |values| ==> DateOf(rules, values[j]) <= DateOf(rules, values[i]))
    && (forall j :: 0 <= j < i ==> DateOf(rules, values[j]) < DateOf(rules, values[i]))
  }

  lemma FirstOfMaxSnoc(rules: Rules, values: seq<seq<Byte>>, i: nat, v: seq<Byte>)
    requires FirstOfMaxDate(rules, values, i)
    ensures FirstOfMaxDate(rules, values + [v], if DateOf(rules, values[i]) < DateOf(rules, v) then |values| else i)
  {
  }

  /**
    Over every run, a key is stored exactly when an admissible record for it has
    arrived since its last removal, and the stored value is then the first-arrived
    of those with the greatest date.
  */
  lemma {:induction false} LastWriterWins(rules: Rules, events: seq<StoreEvent>, key: seq<Byte>) returns (i: nat)
    ensures var stored, arrived := StoreRun(rules, events), Arrived(rules, events, key);
            && (key in stored <==> arrived != [])
            && (arrived != [] ==> FirstOfMaxDate(rules, arrived, i) && stored[key] == arrived[i])
  {
    i := 0;
    if events != [] {
      var front, last := events[..|events| - 1], events[|events| - 1];
      i := LastWriterWins(rules, front, key);
      var arrived := Arrived(rules, front, key);
      if Admissible(rules, last, key) {
        var v := last.record.value.value;
        if arrived == [] {
          i := 0;
        } else {
          FirstOfMaxSnoc(rules, arrived, i, v);
          i := if DateOf(rules, arrived[i]) < DateOf(rules, v) then |arrived| else i;
        }
      }
    }
  }

  predicate NotRemoved(events: seq<StoreEvent>, from: nat, key: seq<Byte>) {
    forall i :: from <= i < |events| ==> events[i] != Removed(key)
  }

  /**
    Between removals a key stays stored, its date never falls, and it rises strictly
    whenever the stored value is another one.
  */
  lemma {:induction false} DatesIncrease(rules: Rules, events: seq<StoreEvent>, from: nat, key: seq<Byte>)
    requires from <= |events| && NotRemoved(events, from, key)
    requires key in StoreRun(rules, events[..from])
    ensures var before, after := StoreRun(rules, events[..from]), StoreRun(rules, events);
            && key in after
            && DateOf(rules, before[key]) <= DateOf(rules, after[key])
            && (after[key] != before[key] ==> DateOf(rules, before[key]) < DateOf(rules, after[key]))
  {
    if from == |events| {
      assert events[..from] == events;
    } else {
      var front := events[..|events| - 1];
      assert front[..from] == events[..from];
      assert forall i :: from <= i < |front| ==> front[i] == events[i];
      DatesIncrease(rules, front, from, key);
    }
  }

  /** Step i puts a genuine record under key, the store keeps it, and the key is not removed afterwards. */
  ghost predicate PutSince(rules: Rules, events: seq<StoreEvent>, key: seq<Byte>, i: nat) {
    && i < |events|
    && events[i].PutRequest? && events[i].record.Some? && events[i].roomy
    && events[i].record.value.key == key
    && Genuine(rules, key, events[i].record.value.value, events[i].now)
    && NotRemoved(events, i, key)
  }

  ghost function PutDate(rules: Rules, events: seq<StoreEvent>, key: seq<Byte>, i: nat): int
    requires PutSince(rules, events, key, i)
  {
    rules.parse(events[i].record.value.value).value.message.date
  }

  /** No such put has a later date, and none before it has the same date. */
  ghost predicate NewestPut(rules: Rules, events: seq<StoreEvent>, key: seq<Byte>, j: nat) {
    && PutSince(rules, events, key, j)
    && forall i: nat :: PutSince(rules, events, key, i) ==>
         && PutDate(rules, events, key, i) <= PutDate(rules, events, key, j)
         && (i < j ==> PutDate(rules, events, key, i) < PutDate(rules, events, key, j))
  }

  lemma PutSinceSnoc(rules: Rules, events: seq<StoreEvent>, key: seq<Byte>, i: nat)
    requires events != []
    ensures var m := |events| - 1;
            PutSince(rules, events, key, i) <==>
              if i == m then Admissible(rules, events[m], key)
              else events[m] != Removed(key) && PutSince(rules, events[..m], key, i)
  {
    var m := |events| - 1;
    var front := events[..m];
    if i < m {
      assert front[i] == events[i];
      assert NotRemoved(events, i, key) <==> NotRemoved(front, i, key) && events[m] != Removed(key);
    } else if i == m && events[m].PutRequest? && events[m].record.Some? {
      SoundIffGenuine(rules, key, events[m].record.value.value, events[m].now);
    }
  }

  /** A put keeps the place of the former winner or takes it. */
  lemma NewestPutSnoc(rules: Rules, events: seq<StoreEvent>, key: seq<Byte>, j: nat)
    requires events != [] && NewestPut(rules, events[..|events| - 1], key, j)
    requires events[|events| - 1] != Removed(key)
    ensures var m := |events| - 1;
            NewestPut(rules, events, key,
                      if PutSince(rules, events, key, m) && PutDate(rules, events[..m], key, j) < PutDate(rules, events, key, m)
                      then m else j)
  {
    var m := |events| - 1;
    forall i: nat | i < m
      ensures PutSince(rules, events, key, i) <==> PutSince(rules, events[..m], key, i)
      ensures PutSince(rules, events, key, i) ==> PutDate(rules, events, key, i) == PutDate(rules, events[..m], key, i)
    {
      PutSinceSnoc(rules, events, key, i);
    }
  }

  lemma StoredStep(rules: Rules, events: seq<StoreEvent>, key: seq<Byte>)
    requires events != []
    ensures var m := |events| - 1;
            var before, after, last := StoreRun(rules, events[..m]), StoreRun(rules, events), events[m];
            && (key in after <==> last != Removed(key) && (key in before || Admissible(rules, last, key)))
            && (key in after ==>
                  after[key] ==
                    if key in before && !(Admissible(rules, last, key)
                                          && DateOf(rules, before[key]) < DateOf(rules, last.record.value.value))
                    then before[key] else last.record.value.value)
  {
  }

  /** The winner after one more event. */
  lemma NewestStep(rules: Rules, events: seq<StoreEvent>, key: seq<Byte>, j: nat) returns (w: nat)
    requires events != [] && key in StoreRun(rules, events)
    requires var m := |events| - 1;
             var before := StoreRun(rules, events[..m]);
             if key in before then NewestPut(rules, events[..m], key, j) && before[key] == events[j].record.value.value
             else forall i: nat :: !PutSince(rules, events[..m], key, i)
    ensures NewestPut(rules, events, key, w) && StoreRun(rules, events)[key] == events[w].record.value.value
  {
    var m := |events| - 1;
    var front := events[..m];
    StoredStep(rules, events, key);
    PutSinceSnoc(rules, events, key, m);
    if key in StoreRun(rules, front) {
      NewestPutSnoc(rules, events, key, j);
      assert events[j] == front[j];
      w := if PutSince(rules, events, key, m) && PutDate(rules, front, key, j) < PutDate(rules, events, key, m) then m else j;
    } else {
      forall i: nat | PutSince(rules, events, key, i) ensures i == m {
        PutSinceSnoc(rules, events, key, i);
      }
      w := m;
    }
  }

  /**
    What the store holds after any run, told by the run alone: a key is stored exactly
    when a genuine record for it was put since its last removal, and the stored value is
    that of the newest such put, the first of those with its date.
  */
  lemma {:induction false} StoredIsNewestPut(rules: Rules, events: seq<StoreEvent>, key: seq<Byte>) returns (j: nat)
    ensures var stored := StoreRun(rules, events);
            && (key in stored <==> exists i: nat :: PutSince(rules, events, key, i))
            && (key in stored ==>
                  NewestPut(rules, events, key, j) && stored[key] == events[j].record.value.value)
  {
    j := 0;
    if events != [] {
      var front := events[..|events| - 1];
      j := StoredIsNewestPut(rules, front, key);
      StoredStep(rules, events, key);
      if key in StoreRun(rules, events) {
        assert key in StoreRun(rules, front) ==> events[j] == front[j];
        j := NewestStep(rules, events, key, j);
      } else if i: nat :| PutSince(rules, events, key, i) {
        PutSinceSnoc(rules, events, key, i);
        assert false;
      }
    }
  }

  /** Replicas that admitted the same records, in whatever order and however often, hold the same date. */
  lemma ReplicasAgree(rules: Rules, here: seq<StoreEvent>, there: seq<StoreEvent>, key: seq<Byte>)
    requires forall v :: v in Arrived(rules, here, key) <==> v in Arrived(rules, there, key)
    ensures key in StoreRun(rules, here) <==> key in StoreRun(rules, there)
    ensures key in StoreRun(rules, here) ==>
              DateOf(rules, StoreRun(rules, here)[key]) == DateOf(rules, StoreRun(rules, there)[key])
  {
    var i := LastWriterWins(rules, here, key);
    var j := LastWriterWins(rules, there, key);
    var a, b := Arrived(rules, here, key), Arrived(rules, there, key);
    if a != [] {
      assert a[i] in b;
    }
    if b != [] {
      assert b[j] in a;
    }
  }

  // --- one answer per query ---

  /** The query has been asked and not yet finished. */
  predicate Open(events: seq<QueryEvent>, id: QueryId) {
    events != [] &&
    var last := events[|events| - 1];
    last == Asked(id) || (last != Finished(id) && Open(events[..|events| - 1], id))
  }

  /** Records that passed the checks for `id` since it was last asked. */
  function Received(rules: Rules, events: seq<QueryEvent>, id: QueryId): seq<SignedRecord> {
    if events == [] then []
    else
      var front, last := events[..|events| - 1], events[|events| - 1];
      if last == Asked(id) then []
      else if last.Found? && last.id == id && Open(front, id)
      then Received(rules, front, id) + Contribution(rules, last.record, last.now)
      else Received(rules, front, id)
  }

  lemma {:induction false} TableIsHistory(rules: Rules, events: seq<QueryEvent>, id: QueryId)
    ensures id in QueryRun(rules, events) <==> Open(events, id)
    ensures Open(events, id) ==> QueryRun(rules, events)[id] == Received(rules, events, id)
  {
    if events != [] {
      TableIsHistory(rules, events[..|events| - 1], id);
    }
  }

  function Answers(rules: Rules, events: seq<QueryEvent>, id: QueryId): nat {
    if events == [] then 0
    else
      var front, last := events[..|events| - 1], events[|events| - 1];
      Answers(rules, front, id) + if last == Finished(id) then |AnswerTo(QueryRun(rules, front), last)| else 0
  }

  function Asks(events: seq<QueryEvent>, id: QueryId): nat {
    if events == [] then 0
    else Asks(events[..|events| - 1], id) + if events[|events| - 1] == Asked(id) then 1 else 0
  }

  /** No query is answered more often than it was asked; fresh ids make that at most once. */
  lemma {:induction false} OneAnswerPerAsk(rules: Rules, events: seq<QueryEvent>, id: QueryId)
    ensures Answers(rules, events, id) + (if Open(events, id) then 1 else 0) <= Asks(events, id)
  {
    if events != [] {
      OneAnswerPerAsk(rules, events[..|events| - 1], id);
      TableIsHistory(rules, events[..|events| - 1], id);
    }
  }

  /**
    The finish of an open query is answered: with None exactly when no valid record
    arrived for it, otherwise with the addresses of the last-arrived record of
    maximum date. A finish of a query that is not open is not answered.
  */
  lemma AnswerContent(rules: Rules, events: seq<QueryEvent>, id: QueryId)
    ensures var answers := AnswerTo(QueryRun(rules, events), Finished(id));
            var received := Received(rules, events, id);
            && (!Open(events, id) ==> answers == [])
            && (Open(events, id) && received == [] ==> answers == [ResultFindMultiaddress(None)])
            && (Open(events, id) && received != [] ==>
                  exists i: nat :: LastOfMaxDate(received, i)
                    && answers == [ResultFindMultiaddress(Some(received[i].message.multiaddresses))])
  {
    TableIsHistory(rules, events, id);
    if Open(events, id) && Received(rules, events, id) != [] {
      var i := MaxByDate(Received(rules, events, id));
      assert LastOfMaxDate(Received(rules, events, id), i);
    }
  }

  /** Step i brings a genuine record to the query, which is open then and stays so without being asked anew. */
  ghost predicate FoundSince(rules: Rules, events: seq<QueryEvent>, id: QueryId, i: nat) {
    && i < |events|
    && events[i].Found? && events[i].id == id && Open(events[..i], id)
    && Genuine(rules, events[i].record.key, events[i].record.value, events[i].now)
    && forall k :: i < k < |events| ==> events[k] != Asked(id) && events[k] != Finished(id)
  }

  /** What the genuine records found for the query say, by the step that brought them. */
  ghost function FoundRecords(rules: Rules, events: seq<QueryEvent>, id: QueryId): map<nat, RecordData> {
    map i: nat | i < |events| && FoundSince(rules, events, id, i) :: rules.parse(events[i].record.value).value.message
  }

  /** No record has a later date, and none after it has the same date. */
  ghost predicate NewestOf(records: map<nat, RecordData>, j: nat) {
    && j in records
    && forall i :: i in records ==> records[i].date <= records[j].date && (j < i ==> records[i].date < records[j].date)
  }

  lemma NewestOfSnoc(records: map<nat, RecordData>, j: nat, m: nat, data: RecordData)
    requires forall i :: i in records ==> i < m
    requires records != map[] ==> NewestOf(records, j)
    ensures NewestOf(records[m := data], if records == map[] || records[j].date <= data.date then m else j)
  {
  }

  lemma FoundSinceSnoc(rules: Rules, events: seq<QueryEvent>, id: QueryId, i: nat)
    requires events != [] && Open(events, id)
    ensures var m := |events| - 1;
            var last, front := events[m], events[..m];
            FoundSince(rules, events, id, i) <==>
              if i == m
              then last.Found? && last.id == id && Open(front, id) && Contribution(rules, last.record, last.now) != []
              else last != Asked(id) && FoundSince(rules, front, id, i)
  {
    var m := |events| - 1;
    if i < m {
      assert events[..m][..i] == events[..i];
    } else if i == m && events[m].Found? {
      SoundIffGenuine(rules, events[m].record.key, events[m].record.value, events[m].now);
    }
  }

  lemma FoundRecordsSnoc(rules: Rules, events: seq<QueryEvent>, id: QueryId)
    requires events != [] && Open(events, id)
    ensures var m := |events| - 1;
            var last, before := events[m], FoundRecords(rules, events[..m], id);
            FoundRecords(rules, events, id) ==
              if last == Asked(id) then map[]
              else if last.Found? && last.id == id && Contribution(rules, last.record, last.now) != []
              then before[m := rules.parse(last.record.value).value.message]
              else before
  {
    var m := |events| - 1;
    forall i: nat
      ensures FoundSince(rules, events, id, i) <==>
                if i == m
                then events[m].Found? && events[m].id == id && Open(events[..m], id)
                     && Contribution(rules, events[m].record, events[m].now) != []
                else events[m] != Asked(id) && FoundSince(rules, events[..m], id, i)
    {
      FoundSinceSnoc(rules, events, id, i);
    }
  }

  /** What the table holds for an open query is led by the newest record found for it. */
  lemma {:induction false} BestIsNewestFound(rules: Rules, events: seq<QueryEvent>, id: QueryId) returns (j: nat)
    requires Open(events, id)
    ensures var received, found := Received(rules, events, id), FoundRecords(rules, events, id);
            && (received == [] <==> found == map[])
            && (received != [] ==> NewestOf(found, j) && received[MaxByDate(received)].message == found[j])
  {
    var m := |events| - 1;
    var front, last := events[..m], events[m];
    FoundRecordsSnoc(rules, events, id);
    j := m;
    if last != Asked(id) {
      j := BestIsNewestFound(rules, front, id);
      var before, found := Received(rules, front, id), FoundRecords(rules, front, id);
      if last.Found? && last.id == id && Contribution(rules, last.record, last.now) != [] {
        var signed := rules.parse(last.record.value).value;
        NewestOfSnoc(found, j, m, signed.message);
        MaxSnoc(before, signed);
        assert Received(rules, events, id) == before + [signed];
        j := if found == map[] || found[j].date <= signed.message.date then m else j;
      } else {
        assert before + [] == before;
        assert Received(rules, events, id) == before;
      }
    }
  }

  lemma MaxSnoc(records: seq<SignedRecord>, r: SignedRecord)
    ensures var best := (records + [r])[MaxByDate(records + [r])];
            best == if records == [] || records[MaxByDate(records)].message.date <= r.message.date then r
                    else records[MaxByDate(records)]
  {
    assert (records + [r])[..|records|] == records;
  }

  /**
    The answer to a query, told by the run alone: None exactly when no genuine record was
    found for it, otherwise the addresses of the newest one, the last of those with its
    date; it was signed by its own key, filed under it, and in the window when it came.
  */
  lemma AnswerIsNewestFound(rules: Rules, events: seq<QueryEvent>, id: QueryId)
    requires Open(events, id)
    ensures var answers, found := AnswerTo(QueryRun(rules, events), Finished(id)), FoundRecords(rules, events, id);
            if found == map[] then answers == [ResultFindMultiaddress(None)]
            else exists j :: NewestOf(found, j) && answers == [ResultFindMultiaddress(Some(found[j].multiaddresses))]
  {
    TableIsHistory(rules, events, id);
    var j := BestIsNewestFound(rules, events, id);
  }

  /** After the finish, records and finishes for the same query change nothing. */
  lemma LateEventsIgnored(rules: Rules, events: seq<QueryEvent>, late: QueryEvent)
    requires !Open(events, late.id) && !late.Asked?
    ensures QueryStep(rules, QueryRun(rules, events), late) == QueryRun(rules, events)
    ensures AnswerTo(QueryRun(rules, events), late) == []
  {
    TableIsHistory(rules, events, late.id);
  }
}
